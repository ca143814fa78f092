/** Lists of transfer codings: which of those that the encoder lets through the decoder will read. */
module H1Codings {
  import opened Octets
  import opened H1Syntax
  import opened H1Decoder
  import opened H1Encoder

  /** The codings of a list, trimmed. */
  function CodingsOf(list: Bytes): (cs: seq<Bytes>)
    ensures cs != []
    decreases |list|
  {
    var (head, tail) := Cut(list, COMMA);
    [Trim(head)] + if tail.None? then [] else CodingsOf(tail.value)
  }

  /** The codings of all headers that list them. */
  function ListedCodings(names: Names, headers: Fields): seq<Bytes> {
    if headers == [] then [] else HeaderCodings(names, headers[0]) + ListedCodings(names, headers[1..])
  }

  function HeaderCodings(names: Names, header: (Bytes, Bytes)): seq<Bytes> {
    if names.kind(header.0) == TransferEncoding then CodingsOf(Trim(header.1)) else []
  }

  function Known(names: Names, cs: seq<Bytes>): set<Coding>
    decreases |cs|
  {
    if cs == [] then {}
    else
      var k := names.coding(cs[|cs| - 1]);
      Known(names, cs[..|cs| - 1]) + if k.Some? then {k.value} else {}
  }

  /** It is a known coding, and not a new one after chunked. */
  predicate NextReadable(names: Names, cs: seq<Bytes>, coding: Bytes) {
    names.coding(coding).Some? && (Chunked in Known(names, cs) ==> names.coding(coding).value in Known(names, cs))
  }

  predicate Readable(names: Names, cs: seq<Bytes>) {
    forall j | 0 <= j < |cs| :: NextReadable(names, cs[..j], cs[j])
  }

  lemma KnownPush(names: Names, cs: seq<Bytes>, coding: Bytes)
    ensures Known(names, cs + [coding]) ==
            Known(names, cs) + if names.coding(coding).Some? then {names.coding(coding).value} else {}
  {
    assert (cs + [coding])[..|cs|] == cs;
  }

  lemma ReadablePush(names: Names, cs: seq<Bytes>, coding: Bytes)
    ensures Readable(names, cs + [coding]) <==> Readable(names, cs) && NextReadable(names, cs, coding)
  {
    hide NextReadable;
    var all := cs + [coding];
    assert forall j | 0 <= j < |cs| :: all[..j] == cs[..j] && all[j] == cs[j];
    assert all[..|cs|] == cs && all[|cs|] == coding;
  }

  lemma ReadablePrefix(names: Names, a: seq<Bytes>, b: seq<Bytes>)
    ensures Readable(names, a + b) ==> Readable(names, a)
  {
    hide NextReadable;
    assert forall j | 0 <= j < |a| :: (a + b)[..j] == a[..j] && (a + b)[j] == a[j];
  }

  /** The encoder lets a list through if nothing in it is blank or follows chunked; it is chunked if it ends so. */
  lemma {:induction false} ScanEnds(list: Bytes, chunked: bool)
    ensures var r, cs := ScanCodings(list, chunked), CodingsOf(list);
            r.Some? ==> !chunked && r.value == (cs[|cs| - 1] == CHUNKED)
    decreases |list|
  {
    hide Trim;
    var (head, tail) := Cut(list, COMMA);
    if tail.Some? {
      ScanEnds(tail.value, Trim(head) == CHUNKED);
    }
  }

  /** The decoder takes a list that the encoder lets through if and only if it is readable after those before it. */
  lemma {:induction false} AddedExactly(names: Names, cs: seq<Bytes>, list: Bytes, chunked: bool)
    requires ScanCodings(list, chunked).Some? && Readable(names, cs)
    ensures var all := cs + CodingsOf(list);
            AddCodings(names, Known(names, cs), list) == if Readable(names, all) then Some(Known(names, all)) else None
    decreases |list|
  {
    hide Trim, Known, Readable;
    var (head, tail) := Cut(list, COMMA);
    var coding := Trim(head);
    var more := cs + [coding];
    KnownPush(names, cs, coding);
    ReadablePush(names, cs, coding);
    var rest := if tail.None? then [] else CodingsOf(tail.value);
    assert cs + ([coding] + rest) == more + rest;
    ReadablePrefix(names, more, rest);
    if tail.None? {
      assert more + rest == more;
    } else if Readable(names, more) {
      AddedExactly(names, more, tail.value, coding == CHUNKED);
    }
  }
}
