/**
 * Which messages the HTTP/1.1 encoder accepts, from the headers themselves, and how it frames the body of one that it
 * does.
 */
module H1Acceptance {
  import opened Octets
  import opened H1Syntax
  import opened H1Decoder
  import opened H1Encoder
  import opened H1Codings
  import opened H1Grammar

  predicate Has(names: Names, headers: Fields, kind: Kind) {
    exists i | 0 <= i < |headers| :: names.kind(headers[i].0) == kind
  }

  /** The number in the last header about the length, or zero. */
  function LastLength(names: Names, headers: Fields): nat
    decreases |headers|
  {
    if headers == [] then 0
    else
      var (name, value) := headers[|headers| - 1];
      if names.kind(name) == ContentLength && IsNumber(Trim(value)) then Value(Trim(value), 10)
      else LastLength(names, headers[..|headers| - 1])
  }

  /** Each header alone is in order. */
  predicate HeaderOk(names: Names, header: (Bytes, Bytes)) {
    && IsToken(header.0) && IsValue(Trim(header.1))
    && (names.kind(header.0) == ContentLength ==> IsNumber(Trim(header.1)))
  }

  /** No coding is blank, and only the last may be chunked. */
  predicate CodingsOk(cs: seq<Bytes>) {
    (forall j | 0 <= j < |cs| :: cs[j] != []) && forall j | 0 <= j < |cs| - 1 :: cs[j] != CHUNKED
  }

  predicate EndsChunked(cs: seq<Bytes>) {
    cs != [] && cs[|cs| - 1] == CHUNKED
  }

  // ----- lists of codings

  lemma {:induction false} ScanExactly(list: Bytes, chunked: bool)
    ensures var r, cs := ScanCodings(list, chunked), CodingsOf(list);
            && (r.Some? <==> !chunked && CodingsOk(cs))
            && (r.Some? ==> r.value == EndsChunked(cs))
    decreases |list|
  {
    hide Trim;
    var (head, tail) := Cut(list, COMMA);
    var cs := CodingsOf(list);
    if tail.Some? {
      ScanExactly(tail.value, Trim(head) == CHUNKED);
      var rest := CodingsOf(tail.value);
      assert cs == [Trim(head)] + rest && |rest| > 0;
      assert forall j | 0 <= j < |rest| :: cs[j + 1] == rest[j];
      if CodingsOk(rest) && Trim(head) != [] && Trim(head) != CHUNKED {
        forall j | 0 <= j < |cs| ensures cs[j] != [] && (j < |cs| - 1 ==> cs[j] != CHUNKED) {
          assert j > 0 ==> cs[j] == rest[j - 1];
        }
      }
      if CodingsOk(cs) {
        assert cs[0] == Trim(head);
        forall j | 0 <= j < |rest| ensures rest[j] != [] && (j < |rest| - 1 ==> rest[j] != CHUNKED) {
          assert rest[j] == cs[j + 1];
        }
      }
    } else {
      assert cs == [Trim(head)];
    }
  }

  lemma OkConcat(a: seq<Bytes>, b: seq<Bytes>)
    requires b != []
    ensures CodingsOk(a + b) <==> CodingsOk(a) && !EndsChunked(a) && CodingsOk(b)
    ensures EndsChunked(a + b) == EndsChunked(b)
  {
    var all := a + b;
    assert forall j | 0 <= j < |a| :: all[j] == a[j];
    assert forall j | 0 <= j < |b| :: all[|a| + j] == b[j];
    if CodingsOk(all) {
      forall j | 0 <= j < |b| ensures b[j] != [] && (j < |b| - 1 ==> b[j] != CHUNKED) {
        assert b[j] == all[|a| + j];
      }
    }
    if CodingsOk(a) && !EndsChunked(a) && CodingsOk(b) {
      forall j | 0 <= j < |all| ensures all[j] != [] && (j < |all| - 1 ==> all[j] != CHUNKED) {
        if j >= |a| {
          assert all[j] == b[j - |a|];
        }
      }
    }
  }

  // ----- the headers one after the other

  lemma {:induction false} CodingsPush(names: Names, headers: Fields, header: (Bytes, Bytes))
    ensures ListedCodings(names, headers + [header]) == ListedCodings(names, headers) + HeaderCodings(names, header)
    decreases |headers|
  {
    var all := headers + [header];
    if headers == [] {
      assert all[1..] == [] && ListedCodings(names, []) == [];
    } else {
      assert all[1..] == headers[1..] + [header];
      CodingsPush(names, headers[1..], header);
    }
  }

  lemma HasPush(names: Names, headers: Fields, header: (Bytes, Bytes), kind: Kind)
    ensures Has(names, headers + [header], kind) <==> Has(names, headers, kind) || names.kind(header.0) == kind
  {
    var all := headers + [header];
    assert all[|headers|] == header && forall i | 0 <= i < |headers| :: all[i] == headers[i];
  }

  lemma LengthPush(names: Names, headers: Fields, header: (Bytes, Bytes))
    ensures LastLength(names, headers + [header]) ==
            if names.kind(header.0) == ContentLength && IsNumber(Trim(header.1)) then Value(Trim(header.1), 10)
            else LastLength(names, headers)
  {
    assert (headers + [header])[..|headers|] == headers;
  }

  lemma {:induction false} ScanPush(names: Names, f: Framing, headers: Fields, header: (Bytes, Bytes))
    ensures var r := ScanHeaders(names, f, headers);
            ScanHeaders(names, f, headers + [header]) ==
            if r.None? then None else ScanHeader(names, r.value, header.0, header.1)
    decreases |headers|
  {
    var all := headers + [header];
    if headers == [] {
      assert all[1..] == [] && all[0] == header;
    } else {
      assert all[1..] == headers[1..] + [header] && all[0] == headers[0];
      var f1 := ScanHeader(names, f, headers[0].0, headers[0].1);
      if f1.Some? {
        ScanPush(names, f1.value, headers[1..], header);
      }
    }
  }

  /** What the headers so far say, if all are in order. */
  function Said(names: Names, headers: Fields): Framing {
    Framing(LastLength(names, headers), Has(names, headers, ContentLength), Has(names, headers, TransferEncoding),
            EndsChunked(ListedCodings(names, headers)))
  }

  predicate HeadersOk(names: Names, headers: Fields) {
    && (forall i | 0 <= i < |headers| :: HeaderOk(names, headers[i]))
    && CodingsOk(ListedCodings(names, headers))
  }

  lemma HeadersOkPush(names: Names, headers: Fields, header: (Bytes, Bytes))
    ensures HeadersOk(names, headers + [header]) <==>
            && (forall i | 0 <= i < |headers| :: HeaderOk(names, headers[i])) && HeaderOk(names, header)
            && CodingsOk(ListedCodings(names, headers) + HeaderCodings(names, header))
  {
    hide HeaderOk, ListedCodings, CodingsOk;
    CodingsPush(names, headers, header);
    var all := headers + [header];
    assert all[|headers|] == header && forall i | 0 <= i < |headers| :: all[i] == headers[i];
    if forall i | 0 <= i < |all| :: HeaderOk(names, all[i]) {
      forall i | 0 <= i < |headers| ensures HeaderOk(names, headers[i]) {
        assert HeaderOk(names, all[i]);
      }
    }
  }

  lemma {:induction false} ScanIs(names: Names, headers: Fields)
    ensures ScanHeaders(names, NO_FRAMING, headers) ==
            if HeadersOk(names, headers) then Some(Said(names, headers)) else None
    decreases |headers|
  {
    hide HeaderOk, ListedCodings, CodingsOk, ScanHeader, Has, EndsChunked, HeaderCodings, HeadersOk;
    if headers == [] {
      NothingSaid(names);
    } else {
      var front, last := headers[..|headers| - 1], headers[|headers| - 1];
      assert headers == front + [last];
      ScanIs(names, front);
      ScanPush(names, NO_FRAMING, front, last);
      HeadersOkPush(names, front, last);
      OneMore(names, front, last);
    }
  }

  lemma NothingSaid(names: Names)
    ensures HeadersOk(names, []) && Said(names, []) == NO_FRAMING
  {
  }

  /** One header after others that are in order. */
  lemma OneMore(names: Names, headers: Fields, header: (Bytes, Bytes))
    ensures HeadersOk(names, headers) ==>
              ScanHeader(names, Said(names, headers), header.0, header.1) ==
              if HeadersOk(names, headers + [header]) then Some(Said(names, headers + [header])) else None
    ensures HeadersOk(names, headers + [header]) ==> HeadersOk(names, headers)
  {
    hide Trim, ListedCodings, CodingsOk, ScanCodings, CodingsOf, EndsChunked, Has;
    hide IsToken, IsValue, Parse, Value, AllDigits;
    var cs, more := ListedCodings(names, headers), HeaderCodings(names, header);
    var v := Trim(header.1);
    HeadersOkPush(names, headers, header);
    CodingsPush(names, headers, header);
    HasPush(names, headers, header, ContentLength);
    HasPush(names, headers, header, TransferEncoding);
    LengthPush(names, headers, header);
    NumberIs(v);
    if names.kind(header.0) == TransferEncoding {
      ScanExactly(v, EndsChunked(cs));
      OkConcat(cs, more);
    } else {
      assert cs + more == cs;
    }
  }

  // ----- the whole

  /**
   * The encoder accepts a message if and only if its headers are in order; codings, if there are any, end with chunked,
   * with no length and no body stream beside them; there are none, and no length but zero, in a response that has no
   * body; and a length that is not ignored comes with a body. The body is then framed as the headers say.
   */
  lemma AcceptedExactly(names: Names, m: Message, ignored: bool)
    ensures var r, coded := Accepted(names, m, ignored), Has(names, m.headers, TransferEncoding);
            var length := LastLength(names, m.headers);
            && (r.Some? <==>
                  && HeadersOk(names, m.headers)
                  && (coded ==>
                        && EndsChunked(ListedCodings(names, m.headers)) && !Has(names, m.headers, ContentLength)
                        && m.body.None? && !Forbidden(m))
                  && (Forbidden(m) ==> length == 0)
                  && (length > 0 && !Ignored(m, ignored) ==> m.body.Some?))
            && (r.Some? ==>
                  && r.value.length == (if Ignored(m, ignored) then 0 else length)
                  && r.value.chunked == (coded && !Ignored(m, ignored))
                  && r.value.coded == coded && r.value.hasLength == Has(names, m.headers, ContentLength))
  {
    hide HeadersOk, ListedCodings, Has, ScanHeaders, LastLength;
    ScanIs(names, m.headers);
    ChunkedIsCoded(names, m.headers);
  }

  lemma {:induction false} ChunkedIsCoded(names: Names, headers: Fields)
    ensures ListedCodings(names, headers) != [] <==> Has(names, headers, TransferEncoding)
    decreases |headers|
  {
    hide CodingsOf;
    if headers != [] {
      var front, last := headers[..|headers| - 1], headers[|headers| - 1];
      assert headers == front + [last];
      ChunkedIsCoded(names, front);
      CodingsPush(names, front, last);
      HasPush(names, front, last, TransferEncoding);
    }
  }

  /** Which responses have no body: 204 and 1xx; and whose headers about one do not count: 304. */
  lemma StatusMeans(m: Message, ignored: bool)
    ensures Forbidden(m) <==> m.start.ResponseStart? && (m.start.code == 204 || 100 <= m.start.code <= 199)
    ensures Ignored(m, ignored) <==> ignored || (m.start.ResponseStart? && m.start.code == 304)
  {
  }
}
