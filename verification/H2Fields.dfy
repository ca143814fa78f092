/**
 * What the HTTP/2 decoder makes of the fields of a header block: pseudo-headers
 * are kept back and delivered in a fixed order before the first other field,
 * cookies are joined and delivered last, and a block that breaks a rule is marked
 * malformed and delivers nothing more.
 */
module H2Fields {
  import opened Octets
  import opened HpackTable
  import opened H1Syntax

  // ----- names

  datatype Pseudo = Method | Scheme | Authority | Path | Status

  const METHOD: Bytes := [58, 109, 101, 116, 104, 111, 100]
  const SCHEME: Bytes := [58, 115, 99, 104, 101, 109, 101]
  const AUTHORITY: Bytes := [58, 97, 117, 116, 104, 111, 114, 105, 116, 121]
  const PATH: Bytes := [58, 112, 97, 116, 104]
  const STATUS: Bytes := [58, 115, 116, 97, 116, 117, 115]
  const COOKIE: Bytes := [99, 111, 111, 107, 105, 101]
  const CONTENT_LENGTH: Bytes := [99, 111, 110, 116, 101, 110, 116, 45, 108, 101, 110, 103, 116, 104]
  const TRANSFER_ENCODING: Bytes := [116, 114, 97, 110, 115, 102, 101, 114, 45, 101, 110, 99, 111, 100, 105, 110, 103]
  const UPGRADE: Bytes := [117, 112, 103, 114, 97, 100, 101]
  const KEEP_ALIVE: Bytes := [107, 101, 101, 112, 45, 97, 108, 105, 118, 101]
  const PROXY_CONNECTION: Bytes := [112, 114, 111, 120, 121, 45, 99, 111, 110, 110, 101, 99, 116, 105, 111, 110]

  function NameOf(p: Pseudo): Bytes {
    match p
    case Method => METHOD
    case Scheme => SCHEME
    case Authority => AUTHORITY
    case Path => PATH
    case Status => STATUS
  }

  function PseudoOf(name: Bytes): Option<Pseudo> {
    if name == METHOD then Some(Method)
    else if name == SCHEME then Some(Scheme)
    else if name == AUTHORITY then Some(Authority)
    else if name == PATH then Some(Path)
    else if name == STATUS then Some(Status)
    else None
  }

  lemma PseudoNames(p: Pseudo, name: Bytes)
    ensures PseudoOf(name) == Some(p) <==> name == NameOf(p)
  {
    assert METHOD[1] == 109 && SCHEME[1] == 115 && STATUS[1] == 115 && SCHEME[2] == 99 && STATUS[2] == 116;
  }

  /** No names in upper case. Every name that is known by itself passes. */
  predicate IsLowerToken(s: Bytes) {
    s != [] && forall i | 0 <= i < |s| :: IsTokenChar(s[i]) && !(65 <= s[i] <= 90)
  }

  predicate ConnectionSpecific(name: Bytes) {
    name == TRANSFER_ENCODING || name == UPGRADE || name == KEEP_ALIVE || name == PROXY_CONNECTION
  }

  predicate IsPseudo(h: Header) {
    h.name != [] && h.name[0] == COLON
  }

  // ----- the state of a block

  datatype BlockType = MainBlock | Informational | Trailing

  /** `pseudo` are kept back until `done`; `forbidden` says that there must be no content length. */
  datatype Fields = Fields(
    pseudo: map<Pseudo, (Bytes, Compression)>,
    done: bool,
    malformed: bool,
    forbidden: bool,
    kind: BlockType,
    cookies: Bytes,
    cookieMode: Compression)

  const NO_FIELDS := Fields(map[], false, false, false, MainBlock, [], UseCache)

  /** What is known of a block before its fields: whether they are to be a request's, a push's, and end the stream. */
  datatype Context = Context(request: bool, push: bool, ends: bool)

  function Malformed(f: Fields): Fields {
    f.(malformed := true)
  }

  function OneField(pseudo: map<Pseudo, (Bytes, Compression)>, p: Pseudo): seq<Header> {
    if p in pseudo then [Header(NameOf(p), pseudo[p].0, pseudo[p].1)] else []
  }

  function PseudoFields(pseudo: map<Pseudo, (Bytes, Compression)>): seq<Header> {
    OneField(pseudo, Method) + OneField(pseudo, Scheme) + OneField(pseudo, Authority) + OneField(pseudo, Path) +
        OneField(pseudo, Status)
  }

  predicate HasRequest(pseudo: map<Pseudo, (Bytes, Compression)>) {
    Method in pseudo || Scheme in pseudo || Authority in pseudo || Path in pseudo
  }

  /** A status is three digits. */
  function StatusCode(value: Bytes): Option<nat> {
    if |value| != 3 then None else Parse(value, 10)
  }

  /** What a block is, judged by its pseudo-headers once there are no more of them. */
  function Judge(c: Context, f: Fields): Fields {
    var f1 := f.(done := true);
    if c.push && !HasRequest(f.pseudo) then Malformed(f1)
    else if HasRequest(f.pseudo) then f1.(kind := MainBlock)
    else if Status in f.pseudo then
      var code := StatusCode(f.pseudo[Status].0);
      if code.None? then Malformed(f1)
      else if code.value / 100 == 1 then
        if c.ends then Malformed(f1.(kind := Informational)) else f1.(kind := Informational, forbidden := true)
      else f1.(kind := MainBlock, forbidden := f.forbidden || code.value == 204)
    else if !c.ends then Malformed(f1)
    else f1.(kind := Trailing)
  }

  /** Delivers the pseudo-headers, if that has not been done. */
  function Flush(c: Context, f: Fields): (Fields, seq<Header>) {
    if f.malformed || f.done then (f, [])
    else
      var f1 := Judge(c, f);
      (f1, if f1.malformed then [] else PseudoFields(f.pseudo))
  }

  function Strictness(m: Compression): nat {
    match m
    case UseCache => 0
    case NoCache => 1
    case NoForwardCache => 2
  }

  function Stricter(a: Compression, b: Compression): Compression {
    if Strictness(b) > Strictness(a) then b else a
  }

  const DELIMITER: Bytes := [59, 32]

  function Join(cookies: Bytes, value: Bytes): Bytes {
    if cookies != [] then cookies + DELIMITER + value else value
  }

  function TakePseudo(c: Context, f: Fields, h: Header): Fields {
    var p := PseudoOf(h.name);
    if f.done || p.None? || c.request != (p.value != Status) || p.value in f.pseudo then Malformed(f)
    else f.(pseudo := f.pseudo[p.value := (h.value, h.compression)])
  }

  /** A field that is not a pseudo-header, once those have been delivered. */
  function TakeRegular(f: Fields, h: Header): (Fields, seq<Header>) {
    if !IsLowerToken(h.name) then (Malformed(f), [])
    else if h.name == COOKIE then
      (f.(cookies := Join(f.cookies, h.value), cookieMode := Stricter(f.cookieMode, h.compression)), [])
    else if ConnectionSpecific(h.name) then (Malformed(f), [])
    else if h.name == CONTENT_LENGTH && f.forbidden then (Malformed(f), [])
    else (f, [h])
  }

  /** One field: what it changes and what it delivers. */
  function Process(c: Context, f: Fields, h: Header): (Fields, seq<Header>) {
    if f.malformed then (f, [])
    else if h.name == [] then (Malformed(f), [])
    else if IsPseudo(h) then (TakePseudo(c, f, h), [])
    else
      var (f1, out) := Flush(c, f);
      if f1.malformed then (f1, out)
      else var (f2, more) := TakeRegular(f1, h); (f2, out + more)
  }

  /** The end of a block: pseudo-headers, if there was nothing after them, and the joined cookies. */
  function Close(c: Context, f: Fields): (Fields, seq<Header>) {
    var (f1, out) := Flush(c, f);
    (f1, if f1.malformed || f1.cookies == [] then out else out + [Header(COOKIE, f1.cookies, f1.cookieMode)])
  }

  function ProcessAll(c: Context, f: Fields, hs: seq<Header>): (Fields, seq<Header>)
    decreases |hs|
  {
    if hs == [] then (f, [])
    else
      var (f1, out) := ProcessAll(c, f, hs[..|hs| - 1]);
      var (f2, more) := Process(c, f1, hs[|hs| - 1]);
      (f2, out + more)
  }

  /** A whole block. */
  function Whole(c: Context, hs: seq<Header>): (Fields, seq<Header>) {
    var (f, out) := ProcessAll(c, NO_FIELDS, hs);
    var (f', more) := Close(c, f);
    (f', out + more)
  }

  lemma {:induction false} ProcessConcat(c: Context, f: Fields, a: seq<Header>, b: seq<Header>)
    ensures var (f1, out) := ProcessAll(c, f, a);
            var (f2, more) := ProcessAll(c, f1, b);
            ProcessAll(c, f, a + b) == (f2, out + more)
    decreases |b|
  {
    hide Process;
    if b == [] {
      assert a + b == a;
      assert ProcessAll(c, f, a).1 + [] == ProcessAll(c, f, a).1;
    } else {
      var front := b[..|b| - 1];
      assert (a + b)[..|a + b| - 1] == a + front;
      ProcessConcat(c, f, a, front);
      var (f1, x) := ProcessAll(c, f, a);
      var (f2, y) := ProcessAll(c, f1, front);
      var (f3, z) := Process(c, f2, b[|b| - 1]);
      assert (x + y) + z == x + (y + z);
    }
  }

  /** What is delivered is delivered as of one type of block. */
  lemma ProcessKeepsKind(c: Context, f: Fields, h: Header)
    ensures var (f', out) := Process(c, f, h);
            && (f.done ==> f'.done && f'.kind == f.kind)
            && (out != [] ==> f'.done)
            && (f.malformed ==> f' == f && out == [])
  {
    hide IsLowerToken, ConnectionSpecific, PseudoFields, StatusCode;
  }

  // ----- which blocks are well formed

  /** How many pseudo-headers come first. */
  function Leading(hs: seq<Header>): (n: nat)
    ensures n <= |hs|
  {
    if hs == [] || !IsPseudo(hs[0]) then 0 else 1 + Leading(hs[1..])
  }

  /** Known, on the right side, and none twice. */
  predicate PseudosOk(c: Context, ps: seq<Header>) {
    && (forall i | 0 <= i < |ps| :: PseudoOf(ps[i].name).Some? && c.request == (PseudoOf(ps[i].name).value != Status))
    && (forall i, j | 0 <= i < j < |ps| :: ps[i].name != ps[j].name)
  }

  /**
   * A push names a request; a response has a status, which ends nothing if it is informational; a trailer ends
   * the stream.
   */
  predicate StartOk(c: Context, ps: seq<Header>) {
    if ps == [] then !c.push && c.ends
    else !c.request ==>
           var code := StatusCode(ps[0].value);
           code.Some? && (code.value / 100 == 1 ==> !c.ends)
  }

  /** An informational response, or one without content, has no content length. */
  predicate LengthForbidden(c: Context, ps: seq<Header>) {
    ps != [] && !c.request && StatusCode(ps[0].value).Some? &&
    (StatusCode(ps[0].value).value / 100 == 1 || StatusCode(ps[0].value).value == 204)
  }

  predicate RegularOk(h: Header, forbidden: bool) {
    IsLowerToken(h.name) && !ConnectionSpecific(h.name) && !(h.name == CONTENT_LENGTH && forbidden)
  }

  predicate WellFormed(c: Context, hs: seq<Header>) {
    var ps, rs := hs[..Leading(hs)], hs[Leading(hs)..];
    && PseudosOk(c, ps) && StartOk(c, ps)
    && forall i | 0 <= i < |rs| :: RegularOk(rs[i], LengthForbidden(c, ps))
  }

  // ----- what a well-formed block delivers

  function Named(ps: seq<Header>, p: Pseudo): seq<Header>
    decreases |ps|
  {
    if ps == [] then []
    else Named(ps[..|ps| - 1], p) + if ps[|ps| - 1].name == NameOf(p) then [ps[|ps| - 1]] else []
  }

  /** The pseudo-headers in their fixed order. */
  function InOrder(ps: seq<Header>): seq<Header> {
    Named(ps, Method) + Named(ps, Scheme) + Named(ps, Authority) + Named(ps, Path) + Named(ps, Status)
  }

  /** The other fields but cookies, in their own order. */
  function Plain(rs: seq<Header>): seq<Header>
    decreases |rs|
  {
    if rs == [] then []
    else Plain(rs[..|rs| - 1]) + if rs[|rs| - 1].name == COOKIE then [] else [rs[|rs| - 1]]
  }

  /** The values of all cookies, joined, and the strictest of their modes. */
  function Crumbs(rs: seq<Header>): (Bytes, Compression)
    decreases |rs|
  {
    if rs == [] then ([], UseCache)
    else
      var (cookies, mode) := Crumbs(rs[..|rs| - 1]);
      var h := rs[|rs| - 1];
      if h.name == COOKIE then (Join(cookies, h.value), Stricter(mode, h.compression)) else (cookies, mode)
  }

  function JoinedCookie(rs: seq<Header>): seq<Header> {
    var (cookies, mode) := Crumbs(rs);
    if cookies == [] then [] else [Header(COOKIE, cookies, mode)]
  }

  function Delivered(hs: seq<Header>): seq<Header> {
    var n := Leading(hs);
    InOrder(hs[..n]) + Plain(hs[n..]) + JoinedCookie(hs[n..])
  }

  /** The type of a block with these pseudo-headers. */
  function TypeOf(c: Context, ps: seq<Header>): BlockType {
    if ps == [] then Trailing
    else if !c.request && StatusCode(ps[0].value).Some? && StatusCode(ps[0].value).value / 100 == 1 then Informational
    else MainBlock
  }

  // ----- the pseudo-headers

  /** What has been kept back. */
  function MapOf(ps: seq<Header>): map<Pseudo, (Bytes, Compression)>
    decreases |ps|
  {
    if ps == [] then map[]
    else
      var h := ps[|ps| - 1];
      var p := PseudoOf(h.name);
      if p.None? then MapOf(ps[..|ps| - 1]) else MapOf(ps[..|ps| - 1])[p.value := (h.value, h.compression)]
  }

  lemma {:induction false} MapOfKeys(ps: seq<Header>, p: Pseudo)
    ensures p in MapOf(ps) <==> exists i | 0 <= i < |ps| :: ps[i].name == NameOf(p)
    decreases |ps|
  {
    hide PseudoOf, NameOf;
    if ps != [] {
      var front, h := ps[..|ps| - 1], ps[|ps| - 1];
      MapOfKeys(front, p);
      PseudoNames(p, h.name);
      if exists i | 0 <= i < |ps| :: ps[i].name == NameOf(p) {
        var i :| 0 <= i < |ps| && ps[i].name == NameOf(p);
        assert i < |front| ==> front[i].name == NameOf(p);
      }
      if exists i | 0 <= i < |front| :: front[i].name == NameOf(p) {
        var i :| 0 <= i < |front| && front[i].name == NameOf(p);
        assert ps[i].name == NameOf(p);
      }
    }
  }

  /** One more pseudo-header is fine if it is known, on the right side and new. */
  lemma PseudosOkPush(c: Context, ps: seq<Header>)
    requires ps != []
    ensures var front, h := ps[..|ps| - 1], ps[|ps| - 1];
            PseudosOk(c, ps) <==>
            && PseudosOk(c, front) && PseudoOf(h.name).Some? && c.request == (PseudoOf(h.name).value != Status)
            && (forall i | 0 <= i < |front| :: front[i].name != h.name)
  {
    hide PseudoOf;
    var front, h := ps[..|ps| - 1], ps[|ps| - 1];
    assert forall i | 0 <= i < |front| :: front[i] == ps[i];
    if PseudosOk(c, front) && (forall i | 0 <= i < |front| :: front[i].name != h.name) {
      forall i, j | 0 <= i < j < |ps| ensures ps[i].name != ps[j].name {
        if j < |front| {
          assert front[i].name != front[j].name;
        }
      }
    }
  }

  lemma {:induction false} PseudoPhase(c: Context, ps: seq<Header>)
    requires forall i | 0 <= i < |ps| :: IsPseudo(ps[i])
    ensures var (f, out) := ProcessAll(c, NO_FIELDS, ps);
            && out == [] && !f.done
            && (if PseudosOk(c, ps) then f == NO_FIELDS.(pseudo := MapOf(ps)) else f.malformed)
    decreases |ps|
  {
    hide PseudoOf, NameOf, PseudosOk, Flush, TakeRegular;
    if ps == [] {
      assert PseudosOk(c, ps) by { NoPseudos(c); }
    } else {
      var front, h := ps[..|ps| - 1], ps[|ps| - 1];
      PseudoPhase(c, front);
      PseudosOkPush(c, ps);
      if PseudoOf(h.name).Some? {
        var p := PseudoOf(h.name).value;
        MapOfKeys(front, p);
        PseudoNames(p, h.name);
      }
    }
  }

  lemma NoPseudos(c: Context)
    ensures PseudosOk(c, [])
  {
  }

  lemma {:induction false} NamedNone(ps: seq<Header>, p: Pseudo)
    requires forall i | 0 <= i < |ps| :: ps[i].name != NameOf(p)
    ensures Named(ps, p) == []
    decreases |ps|
  {
    if ps != [] {
      NamedNone(ps[..|ps| - 1], p);
    }
  }

  lemma {:induction false} NamedMap(c: Context, ps: seq<Header>, p: Pseudo)
    requires PseudosOk(c, ps)
    ensures OneField(MapOf(ps), p) == Named(ps, p)
    decreases |ps|
  {
    hide PseudoOf, NameOf, PseudosOk;
    if ps != [] {
      var front, h := ps[..|ps| - 1], ps[|ps| - 1];
      PseudosOkPush(c, ps);
      NamedMap(c, front, p);
      PseudoNames(p, h.name);
      PseudoNames(PseudoOf(h.name).value, h.name);
      if h.name == NameOf(p) {
        NamedNone(front, p);
      }
    }
  }

  lemma PseudosInOrder(c: Context, ps: seq<Header>)
    requires PseudosOk(c, ps)
    ensures PseudoFields(MapOf(ps)) == InOrder(ps)
  {
    hide OneField, Named, MapOf, PseudosOk;
    NamedMap(c, ps, Method);
    NamedMap(c, ps, Scheme);
    NamedMap(c, ps, Authority);
    NamedMap(c, ps, Path);
    NamedMap(c, ps, Status);
  }

  /** On the response side there is only the status, on the request side there is none. */
  lemma Sides(c: Context, ps: seq<Header>)
    requires PseudosOk(c, ps)
    ensures HasRequest(MapOf(ps)) <==> ps != [] && c.request
    ensures Status in MapOf(ps) <==> ps != [] && !c.request
    ensures ps != [] && !c.request ==> |ps| == 1 && MapOf(ps)[Status].0 == ps[0].value
  {
    hide PseudoOf, NameOf, MapOf;
    MapOfKeys(ps, Method);
    MapOfKeys(ps, Scheme);
    MapOfKeys(ps, Authority);
    MapOfKeys(ps, Path);
    MapOfKeys(ps, Status);
    forall i | 0 <= i < |ps| ensures ps[i].name == NameOf(PseudoOf(ps[i].name).value) {
      PseudoNames(PseudoOf(ps[i].name).value, ps[i].name);
    }
    forall p ensures PseudoOf(NameOf(p)) == Some(p) {
      PseudoNames(p, NameOf(p));
    }
    if ps != [] {
      var p := PseudoOf(ps[0].name).value;
      assert ps[0].name == NameOf(p);
      if !c.request {
        if |ps| > 1 {
          TwoStatus(c, ps);
        } else {
          OneStatus(ps);
        }
      }
    }
  }

  lemma TwoStatus(c: Context, ps: seq<Header>)
    requires |ps| > 1 && forall i | 0 <= i < |ps| :: ps[i].name == NameOf(Status)
    ensures !PseudosOk(c, ps)
  {
    assert ps[0].name == ps[1].name;
  }

  lemma OneStatus(ps: seq<Header>)
    requires |ps| == 1 && PseudoOf(ps[0].name) == Some(Status)
    ensures Status in MapOf(ps) && MapOf(ps)[Status].0 == ps[0].value
  {
    assert ps[..0] == [];
  }

  /** The verdict on a block's pseudo-headers. */
  lemma Judged(c: Context, ps: seq<Header>)
    requires PseudosOk(c, ps) && (c.push ==> c.request)
    ensures var f := Judge(c, NO_FIELDS.(pseudo := MapOf(ps)));
            && (f.malformed <==> !StartOk(c, ps))
            && (StartOk(c, ps) ==>
                  f == NO_FIELDS.(pseudo := MapOf(ps), done := true, forbidden := LengthForbidden(c, ps),
                                  kind := TypeOf(c, ps)))
  {
    hide MapOf, PseudosOk, HasRequest, StatusCode;
    Sides(c, ps);
  }

  // ----- the other fields

  lemma {:induction false} StaysMalformed(c: Context, f: Fields, hs: seq<Header>)
    requires f.malformed
    ensures ProcessAll(c, f, hs) == (f, [])
    decreases |hs|
  {
    hide Flush;
    if hs != [] {
      StaysMalformed(c, f, hs[..|hs| - 1]);
      var none: seq<Header> := [];
      assert none + none == none;
    }
  }

  predicate AllRegular(rs: seq<Header>, forbidden: bool) {
    forall i | 0 <= i < |rs| :: RegularOk(rs[i], forbidden)
  }

  lemma RegularStep(c: Context, f: Fields, h: Header)
    requires f.done && !f.malformed
    ensures if RegularOk(h, f.forbidden) then
              Process(c, f, h) == (if h.name ==
                                   COOKIE then f.(cookies := Join(f.cookies, h.value),
                                                  cookieMode := Stricter(f.cookieMode, h.compression)) else f,
                                   if h.name == COOKIE then [] else [h])
            else Process(c, f, h).0.malformed
  {
    hide PseudoOf, PseudoFields, IsLowerToken;
    var none: seq<Header> := [];
    assert none + [h] == [h] && none + none == none;
    LowerIsNoPseudo(h.name);
    CookieIsRegular();
  }

  lemma LowerIsNoPseudo(name: Bytes)
    ensures IsLowerToken(name) ==> name != [] && name[0] != COLON
  {
    assert name != [] && name[0] == COLON ==> !IsTokenChar(name[0]);
  }

  lemma CookieIsRegular()
    ensures IsLowerToken(COOKIE) && !ConnectionSpecific(COOKIE) && COOKIE != CONTENT_LENGTH
  {
    assert |COOKIE| == 6 && |UPGRADE| == 7;
  }

  lemma {:induction false} RegularPhase(c: Context, f: Fields, rs: seq<Header>)
    requires f.done && !f.malformed && f.cookies == [] && f.cookieMode == UseCache
    ensures var (f', out) := ProcessAll(c, f, rs);
            if AllRegular(rs, f.forbidden) then
              f' == f.(cookies := Crumbs(rs).0, cookieMode := Crumbs(rs).1) && out == Plain(rs)
            else f'.malformed
    decreases |rs|
  {
    hide Process, RegularOk, Join, Stricter;
    if rs != [] {
      var front, h := rs[..|rs| - 1], rs[|rs| - 1];
      RegularPhase(c, f, front);
      var f1 := ProcessAll(c, f, front).0;
      assert forall i | 0 <= i < |front| :: front[i] == rs[i];
      assert AllRegular(rs, f.forbidden) <==> AllRegular(front, f.forbidden) && RegularOk(h, f.forbidden);
      if f1.malformed {
        ProcessKeepsKind(c, f1, h);
      } else {
        RegularStep(c, f1, h);
      }
    }
  }

  /** The first field that is not a pseudo-header has those delivered first. */
  lemma FlushedFirst(c: Context, f: Fields, rs: seq<Header>)
    requires !f.malformed && !f.done && rs != [] && rs[0].name != [] && !IsPseudo(rs[0])
    ensures var (f1, out) := Flush(c, f);
            if f1.malformed then ProcessAll(c, f, rs).0.malformed
            else ProcessAll(c, f, rs) == (ProcessAll(c, f1, rs).0, out + ProcessAll(c, f1, rs).1)
  {
    hide PseudoFields, Judge, TakeRegular;
    var (f1, out) := Flush(c, f);
    var h := rs[0];
    assert rs == [h] + rs[1..];
    ProcessConcat(c, f, [h], rs[1..]);
    ProcessConcat(c, f1, [h], rs[1..]);
    ProcessOne(c, f, h);
    ProcessOne(c, f1, h);
    var (f2, x) := Process(c, f, h);
    if f1.malformed {
      StaysMalformed(c, f2, rs[1..]);
    } else {
      var (f3, y) := Process(c, f1, h);
      assert f1.done by { FlushIsDone(c, f); }
      assert f2 == f3 && y == [] + TakeRegular(f1, h).1 && x == out + y;
      var more := ProcessAll(c, f2, rs[1..]).1;
      assert (out + y) + more == out + (y + more);
    }
  }

  lemma FlushIsDone(c: Context, f: Fields)
    requires !f.malformed
    ensures Flush(c, f).0.done
  {
    hide StatusCode, HasRequest;
  }

  lemma ProcessOne(c: Context, f: Fields, h: Header)
    ensures ProcessAll(c, f, [h]) == Process(c, f, h)
  {
    hide Process;
    assert [h][..0] == [];
    assert ProcessAll(c, f, [h][..0]) == (f, []);
    var (f1, out) := Process(c, f, h);
    assert [] + out == out;
  }

  lemma {:induction false} LeadingSplits(hs: seq<Header>)
    ensures var n := Leading(hs);
            (forall i | 0 <= i < n :: IsPseudo(hs[i])) && (n < |hs| ==> !IsPseudo(hs[n]))
    decreases |hs|
  {
    if hs != [] && IsPseudo(hs[0]) {
      LeadingSplits(hs[1..]);
      var n := Leading(hs);
      assert forall i | 1 <= i < |hs| :: hs[i] == hs[1..][i - 1];
    }
  }

  // ----- the whole block

  lemma FlushPseudos(c: Context, ps: seq<Header>)
    requires PseudosOk(c, ps) && (c.push ==> c.request)
    ensures var (f, out) := Flush(c, NO_FIELDS.(pseudo := MapOf(ps)));
            && (f.malformed <==> !StartOk(c, ps))
            && (StartOk(c, ps) ==>
                  && f.done && f.cookies == [] && f.cookieMode == UseCache && f.kind == TypeOf(c, ps)
                  && f.forbidden == LengthForbidden(c, ps) && out == InOrder(ps))
  {
    hide MapOf, PseudosOk, StartOk, LengthForbidden, PseudoFields, InOrder, Judge, TypeOf;
    Judged(c, ps);
    PseudosInOrder(c, ps);
  }

  /** The state before the end of a block, when its pseudo-headers are fine. */
  lemma RestOfBlock(c: Context, ps: seq<Header>, rs: seq<Header>)
    requires PseudosOk(c, ps) && (c.push ==> c.request) && (rs != [] ==> !IsPseudo(rs[0]))
    ensures var (f, out) := ProcessAll(c, NO_FIELDS.(pseudo := MapOf(ps)), rs);
            var (f', more) := Close(c, f);
            && (f'.malformed <==> !(StartOk(c, ps) && AllRegular(rs, LengthForbidden(c, ps))))
            && (!f'.malformed ==> out + more == InOrder(ps) + Plain(rs) + JoinedCookie(rs) && f'.kind == TypeOf(c, ps))
  {
    hide MapOf, PseudosOk, StartOk, LengthForbidden, InOrder, Process, RegularOk, Judge, PseudoFields, TypeOf;
    var f0 := NO_FIELDS.(pseudo := MapOf(ps));
    FlushPseudos(c, ps);
    var (f1, out1) := Flush(c, f0);
    if rs == [] {
      assert [] + out1 == out1 + [] + [];
    } else if rs[0].name == [] {
      assert !RegularOk(rs[0], LengthForbidden(c, ps)) by { BlankIsBad(rs[0], LengthForbidden(c, ps)); }
      BlankFirst(c, f0, rs);
    } else {
      FlushedFirst(c, f0, rs);
      if !f1.malformed {
        RegularPhase(c, f1, rs);
        assert (out1 + Plain(rs)) + [] == out1 + Plain(rs);
      }
    }
  }

  lemma BlankIsBad(h: Header, forbidden: bool)
    requires h.name == []
    ensures !RegularOk(h, forbidden)
  {
  }

  lemma BlankFirst(c: Context, f: Fields, rs: seq<Header>)
    requires rs != [] && rs[0].name == [] && !f.malformed
    ensures ProcessAll(c, f, rs).0.malformed
  {
    assert rs == [rs[0]] + rs[1..];
    ProcessConcat(c, f, [rs[0]], rs[1..]);
    ProcessOne(c, f, rs[0]);
    StaysMalformed(c, Malformed(f), rs[1..]);
  }

  /**
   * A block is found malformed if and only if its list of fields breaks a rule. Otherwise it delivers its
   * pseudo-headers in their order, its other fields in their own, and its cookies as one.
   */
  lemma WholeExactly(c: Context, hs: seq<Header>)
    requires c.push ==> c.request
    ensures var (f, out) := Whole(c, hs);
            && (f.malformed <==> !WellFormed(c, hs))
            && (WellFormed(c, hs) ==> out == Delivered(hs) && f.kind == TypeOf(c, hs[..Leading(hs)]))
  {
    hide PseudosOk, StartOk, LengthForbidden, InOrder, Plain, JoinedCookie, Process, RegularOk, Close, MapOf, TypeOf;
    var n := Leading(hs);
    var ps, rs := hs[..n], hs[n..];
    LeadingSplits(hs);
    assert hs == ps + rs;
    ProcessConcat(c, NO_FIELDS, ps, rs);
    PseudoPhase(c, ps);
    var f0 := ProcessAll(c, NO_FIELDS, ps).0;
    var (f1, out) := ProcessAll(c, f0, rs);
    assert [] + out == out;
    if PseudosOk(c, ps) {
      RestOfBlock(c, ps, rs);
      assert WellFormed(c, hs) <==> StartOk(c, ps) && AllRegular(rs, LengthForbidden(c, ps));
    } else {
      StaysMalformed(c, f0, rs);
      assert Close(c, f0).0 == f0 by { CloseMalformed(c, f0); }
    }
  }

  lemma CloseMalformed(c: Context, f: Fields)
    requires f.malformed
    ensures Close(c, f) == (f, [])
  {
  }

  // ----- when a block is delivered as it was given

  function Place(name: Bytes): nat {
    match PseudoOf(name)
    case Some(Method) => 0
    case Some(Scheme) => 1
    case Some(Authority) => 2
    case Some(Path) => 3
    case Some(Status) => 4
    case None => 5
  }

  predicate Ascending(ps: seq<Header>) {
    forall i, j | 0 <= i < j < |ps| :: Place(ps[i].name) < Place(ps[j].name)
  }

  /** There is no cookie but one at the end, and it is not empty. */
  predicate CookieLast(rs: seq<Header>) {
    forall i | 0 <= i < |rs| && rs[i].name == COOKIE :: i == |rs| - 1 && rs[i].value != []
  }

  predicate Canonical(hs: seq<Header>) {
    Ascending(hs[..Leading(hs)]) && CookieLast(hs[Leading(hs)..])
  }

  lemma PlaceOf(p: Pseudo)
    ensures Place(NameOf(p)) ==
            (match p case Method => 0 case Scheme => 1 case Authority => 2 case Path => 3 case Status => 4)
  {
    PseudoNames(p, NameOf(p));
  }

  lemma {:induction false} NamedAre(ps: seq<Header>, p: Pseudo)
    ensures forall i | 0 <= i < |Named(ps, p)| :: Named(ps, p)[i].name == NameOf(p)
    decreases |ps|
  {
    hide NameOf;
    if ps != [] {
      NamedAre(ps[..|ps| - 1], p);
    }
  }

  lemma NamedPush(ps: seq<Header>, p: Pseudo)
    requires ps != []
    ensures Named(ps, p) == Named(ps[..|ps| - 1], p) + if PseudoOf(ps[|ps| - 1].name) == Some(p) then [ps[|ps| - 1]]
            else []
  {
    PseudoNames(p, ps[|ps| - 1].name);
  }

  lemma {:induction false} InOrderLength(ps: seq<Header>)
    requires forall i | 0 <= i < |ps| :: PseudoOf(ps[i].name).Some?
    ensures |InOrder(ps)| == |ps|
    decreases |ps|
  {
    hide PseudoOf, Named;
    if ps == [] {
      NoneNamed();
    } else {
      InOrderLength(ps[..|ps| - 1]);
      NamedPush(ps, Method);
      NamedPush(ps, Scheme);
      NamedPush(ps, Authority);
      NamedPush(ps, Path);
      NamedPush(ps, Status);
      match PseudoOf(ps[|ps| - 1].name).value {
        case Method =>
        case Scheme =>
        case Authority =>
        case Path =>
        case Status =>
      }
    }
  }

  lemma NoneNamed()
    ensures forall p :: Named([], p) == []
  {
  }

  /** Nothing is named by what comes later in the order than everything there. */
  lemma NamedBelow(ps: seq<Header>, p: Pseudo, place: nat)
    requires forall i | 0 <= i < |ps| :: Place(ps[i].name) < place
    requires place <= Place(NameOf(p))
    ensures Named(ps, p) == []
  {
    hide Place, NameOf;
    NamedNone(ps, p);
  }

  lemma InOrderPush(ps: seq<Header>)
    requires ps != [] && PseudoOf(ps[|ps| - 1].name).Some?
    requires forall i | 0 <= i < |ps| - 1 :: Place(ps[i].name) < Place(ps[|ps| - 1].name)
    ensures InOrder(ps) == InOrder(ps[..|ps| - 1]) + [ps[|ps| - 1]]
  {
    hide PseudoOf, Named, NameOf, Place;
    var front, h := ps[..|ps| - 1], ps[|ps| - 1];
    NamedPush(ps, Method);
    NamedPush(ps, Scheme);
    NamedPush(ps, Authority);
    NamedPush(ps, Path);
    NamedPush(ps, Status);
    var p := PseudoOf(h.name).value;
    PseudoNames(p, h.name);
    PlaceOf(Method);
    PlaceOf(Scheme);
    PlaceOf(Authority);
    PlaceOf(Path);
    PlaceOf(Status);
    assert forall i | 0 <= i < |front| :: front[i] == ps[i];
    forall q | Place(NameOf(p)) <= Place(NameOf(q)) ensures Named(front, q) == [] {
      NamedBelow(front, q, Place(h.name));
    }
    match p {
      case Method =>
      case Scheme =>
      case Authority =>
      case Path =>
      case Status =>
    }
  }

  lemma {:induction false} AscendingStays(ps: seq<Header>)
    requires Ascending(ps) && forall i | 0 <= i < |ps| :: PseudoOf(ps[i].name).Some?
    ensures InOrder(ps) == ps
    decreases |ps|
  {
    hide PseudoOf, Named, Place, InOrder;
    if ps == [] {
      assert InOrder(ps) == [] by { EmptyInOrder(); }
    } else {
      var front := ps[..|ps| - 1];
      assert forall i | 0 <= i < |front| :: front[i] == ps[i];
      AscendingStays(front);
      InOrderPush(ps);
    }
  }

  lemma EmptyInOrder()
    ensures InOrder([]) == []
  {
  }

  ghost predicate Sorted(ps: seq<Header>, low: nat, high: nat) {
    && (forall i | 0 <= i < |ps| :: low <= Place(ps[i].name) <= high)
    && (forall i, j | 0 <= i < j < |ps| :: Place(ps[i].name) <= Place(ps[j].name))
  }

  lemma SortedConcat(a: seq<Header>, b: seq<Header>, low: nat, middle: nat, high: nat)
    requires low <= middle < high && Sorted(a, low, middle) && Sorted(b, high, high)
    ensures Sorted(a + b, low, high)
  {
    hide Place;
  }

  lemma NamedSorted(ps: seq<Header>, p: Pseudo)
    ensures Sorted(Named(ps, p), Place(NameOf(p)), Place(NameOf(p)))
  {
    hide Place, NameOf;
    NamedAre(ps, p);
  }

  lemma InOrderSorted(ps: seq<Header>)
    ensures Sorted(InOrder(ps), 0, 4)
  {
    hide Place, NameOf, Named, Sorted;
    PlaceOf(Method);
    PlaceOf(Scheme);
    PlaceOf(Authority);
    PlaceOf(Path);
    PlaceOf(Status);
    NamedSorted(ps, Method);
    NamedSorted(ps, Scheme);
    NamedSorted(ps, Authority);
    NamedSorted(ps, Path);
    NamedSorted(ps, Status);
    var a := Named(ps, Method) + Named(ps, Scheme);
    SortedConcat(Named(ps, Method), Named(ps, Scheme), 0, 0, 1);
    SortedConcat(a, Named(ps, Authority), 0, 1, 2);
    SortedConcat(a + Named(ps, Authority), Named(ps, Path), 0, 2, 3);
    SortedConcat(a + Named(ps, Authority) + Named(ps, Path), Named(ps, Status), 0, 3, 4);
  }

  lemma SamePlace(a: Bytes, b: Bytes)
    requires Place(a) == Place(b) < 5
    ensures a == b
  {
    PseudoNames(PseudoOf(a).value, a);
    PseudoNames(PseudoOf(b).value, b);
  }

  lemma PseudosGiven(c: Context, ps: seq<Header>)
    requires PseudosOk(c, ps)
    ensures |InOrder(ps)| == |ps| && (InOrder(ps) == ps <==> Ascending(ps))
  {
    hide PseudoOf, Place, InOrder;
    InOrderLength(ps);
    if Ascending(ps) {
      AscendingStays(ps);
    }
    if InOrder(ps) == ps {
      InOrderSorted(ps);
      forall i, j | 0 <= i < j < |ps| ensures Place(ps[i].name) < Place(ps[j].name) {
        assert Place(ps[i].name) <= 4 && Place(ps[i].name) <= Place(ps[j].name);
        if Place(ps[i].name) == Place(ps[j].name) {
          SamePlace(ps[i].name, ps[j].name);
        }
      }
    }
  }

  lemma {:induction false} PlainAre(rs: seq<Header>)
    ensures forall i | 0 <= i < |Plain(rs)| :: Plain(rs)[i].name != COOKIE
    ensures (forall i | 0 <= i < |rs| :: rs[i].name != COOKIE) ==> Plain(rs) == rs && Crumbs(rs) == ([], UseCache)
    decreases |rs|
  {
    hide Join, Stricter;
    if rs != [] {
      PlainAre(rs[..|rs| - 1]);
    }
  }

  lemma CookieLastStays(rs: seq<Header>)
    requires CookieLast(rs)
    ensures Plain(rs) + JoinedCookie(rs) == rs
  {
    PlainAre(rs);
    if rs == [] || rs[|rs| - 1].name != COOKIE {
      assert forall i | 0 <= i < |rs| :: rs[i].name != COOKIE;
      assert rs + [] == rs;
    } else {
      var front, h := rs[..|rs| - 1], rs[|rs| - 1];
      assert forall i | 0 <= i < |front| :: front[i] == rs[i] && front[i].name != COOKIE;
      PlainAre(front);
      assert Plain(rs) == front + [] == front && Crumbs(rs) == (h.value, h.compression);
    }
  }

  lemma StaysCookieLast(rs: seq<Header>, plain: seq<Header>, cookie: seq<Header>)
    requires rs == plain + cookie && |cookie| <= 1 && forall i | 0 <= i < |plain| :: plain[i].name != COOKIE
    requires forall i | 0 <= i < |cookie| :: cookie[i].value != []
    ensures CookieLast(rs)
  {
    assert forall i | 0 <= i < |plain| :: rs[i] == plain[i];
    assert forall i | |plain| <= i < |rs| :: rs[i] == cookie[i - |plain|];
  }

  lemma RegularsGiven(rs: seq<Header>)
    ensures Plain(rs) + JoinedCookie(rs) == rs <==> CookieLast(rs)
  {
    hide Plain, Crumbs, CookieLast;
    if CookieLast(rs) {
      CookieLastStays(rs);
    }
    if Plain(rs) + JoinedCookie(rs) == rs {
      PlainAre(rs);
      StaysCookieLast(rs, Plain(rs), JoinedCookie(rs));
    }
  }

  /**
   * A well-formed block is delivered exactly as it was given if and only if its pseudo-headers are in
   * their order already, and it has no cookie but one that is not empty, at its end.
   */
  lemma DeliveredAsGiven(c: Context, hs: seq<Header>)
    requires WellFormed(c, hs)
    ensures Delivered(hs) == hs <==> Canonical(hs)
  {
    hide InOrder, Plain, JoinedCookie, PseudosOk, StartOk, RegularOk, LengthForbidden, Ascending, CookieLast;
    var n := Leading(hs);
    var ps, rs := hs[..n], hs[n..];
    PseudosGiven(c, ps);
    RegularsGiven(rs);
    assert hs == ps + rs;
    var rest := Plain(rs) + JoinedCookie(rs);
    assert Delivered(hs) == InOrder(ps) + rest;
    if Delivered(hs) == hs {
      assert (InOrder(ps) + rest)[..n] == InOrder(ps) && (InOrder(ps) + rest)[n..] == rest;
    }
  }
}
