/**
 * The HTTP/2 frame decoder and the header-frame encoder as objects: the decoder's
 * loop with its scratch buffer, and the writing of frames into output buffers.
 */
module H2Codec {
  import opened Octets
  import opened HpackTable
  import opened H2Decoder
  import opened H2Frames
  import opened H2Headers
  import Hpack = HpackDecoder

  class FrameDecoder {
    const su: Setup
    var state: State
    var scratch: array<byte>
    var scratchLen: nat
    var frame: Frame
    var block: Block
    var settings: seq<(nat, nat)>
    var goaway: (nat, nat, Bytes)
    var hpack: Hpack.Decoder
    var limits: Limits
    var upcoming: seq<Limits>
    var greeting: Bytes
    var greeted: bool
    var failed: bool

    /** The scratch buffer is large enough for every state. */
    ghost predicate Ok()
      reads this
    {
      scratch.Length == 9 && scratchLen <= 9
    }

    function View(): Decoder
      requires Ok()
      reads this, scratch
    {
      Decoder(state, scratch[..scratchLen], frame, block, settings, goaway, hpack, limits, upcoming, greeting, greeted)
    }

    /** A server first waits for the client's greeting, unless the preface is skipped. */
    constructor (su: Setup, hpack: Hpack.Decoder, limits: Limits, greeting: Bytes, skipPreface: bool)
      requires hpack.entry == Hpack.EntryInit && greeting != []
      ensures this.su == su && Ok() && fresh(scratch) && !failed && Valid(View())
      ensures View() == Decoder(if su.isServer && !skipPreface then Preface
                                else Prefix, [], NO_FRAME, NO_BLOCK, [], (0, 0, []),
                                hpack, limits, [], if su.isServer && !skipPreface then greeting else [], skipPreface)
    {
      this.su, this.hpack, this.limits := su, hpack, limits;
      scratch := new byte[9];
      scratchLen, frame, block, settings, goaway, upcoming := 0, NO_FRAME, NO_BLOCK, [], (0, 0, []), [];
      greeted, failed := skipPreface, false;
      if su.isServer && !skipPreface {
        state, this.greeting := Preface, greeting;
      } else {
        state, this.greeting := Prefix, [];
      }
    }

    /** Takes over the fields of a decoder value with an empty scratch. */
    method Load(d: Decoder)
      requires Ok() && d.scratch == []
      modifies this
      ensures Ok() && scratch == old(scratch) && View() == d && failed == old(failed)
    {
      state, scratchLen, frame, block, settings, goaway := d.state, 0, d.frame, d.block, d.settings, d.goaway;
      hpack, limits, upcoming, greeting, greeted := d.hpack, d.limits, d.upcoming, d.greeting, d.greeted;
      assert scratch[..scratchLen] == [];
    }

    method Collect(s: Bytes)
      requires Ok() && scratchLen + |s| <= 9
      modifies this`scratchLen, scratch
      ensures Ok() && View() == old(View()).(scratch := old(View()).scratch + s)
    {
      ghost var before := scratch[..scratchLen];
      var start := scratchLen;
      for i := 0 to |s|
        invariant Ok() && scratchLen == start + i && scratch[..scratchLen] == before + s[..i]
      {
        scratch[scratchLen] := s[i];
        scratchLen := scratchLen + 1;
        assert scratch[..scratchLen] == scratch[..start + i] + [s[i]];
      }
      assert s[..|s|] == s;
    }

    /** One turn of the loop: the state runs on the input, or on the scratch once that holds all it needs. */
    method RunState(s: Bytes) returns (r: StepResult)
      requires Ok() && Valid(View())
      modifies this, scratch
      ensures Ok() && scratch == old(scratch) && failed == old(failed)
      ensures r == Step(su, old(View()), s)
      ensures !r.Stop? ==> View() == r.d && Valid(r.d)
    {
      hide StepStream, StepEntry, FireFixed, FireFree;
      ghost var d := View();
      StepOk(su, d, s);
      var required := Required(state);
      if scratchLen == 0 && |s| >= required {
        r := RunDirect(s);
      } else {
        var n := required - scratchLen;
        if n > |s| {
          assert s[..|s|] == s;
          ShortStep(su, d, s);
          Collect(s);
          r := Wait(View(), []);
        } else {
          ghost var whole := d.scratch + s[..n];
          Collect(s[..n]);
          FireFixedIgnoresScratch(su, d, View(), whole);
          var f := FireFixed(su, View(), scratch[..scratchLen]);
          r := Proceed(f, [], s[n..]);
          if f.Fired? {
            FiredClears(su, d, whole);
            Load(f.d);
          }
        }
      }
    }

    method RunDirect(s: Bytes) returns (r: StepResult)
      requires Ok() && Valid(View()) && scratchLen == 0 && |s| >= Required(state)
      modifies this
      ensures Ok() && scratch == old(scratch) && failed == old(failed)
      ensures r == Step(su, old(View()), s)
      ensures !r.Stop? ==> View() == r.d
    {
      hide StepStream, StepEntry, FireFixed, FireFree;
      ghost var d := View();
      assert d.scratch == [];
      var required := Required(state);
      if IsFixed(state) {
        assert d.scratch + s[..required] == s[..required];
        r := Proceed(FireFixed(su, View(), s[..required]), [], s[required..]);
      } else if IsStream(state) {
        r := StepStream(View(), s);
      } else if state == HeaderEntry {
        r := StepEntry(su, View(), s);
      } else {
        r := Proceed(FireFree(su, View()), [], s);
      }
      if !r.Stop? {
        StepClears(su, d, s);
        Load(r.d);
      }
    }

    /** Runs states until one waits for more input. */
    method Decode(data: Bytes) returns (error: Option<Error>, log: seq<Event>)
      requires Ok() && Valid(View()) && !failed
      modifies this, scratch
      ensures Ok() && scratch == old(scratch)
      ensures var r := H2Decoder.Decode(su, old(View()), data);
              && log == r.log
              && (r.end.Ready? ==> error == None && !failed && View() == r.end.d && Valid(View()))
              && (r.end.Failed? ==> error == Some(r.end.error) && failed)
    {
      hide Step, Valid;
      ghost var d := View();
      var rest, changed := data, true;
      error, log := None, [];
      assert Then([], H2Decoder.Decode(su, d, data)) == H2Decoder.Decode(su, d, data) by {
        ThenNone(H2Decoder.Decode(su, d, data));
      }
      while changed
        invariant Ok() && scratch == old(scratch) && Valid(View()) && !failed && error == None
        invariant H2Decoder.Decode(su, d, data) ==
                  if changed then Then(log, H2Decoder.Decode(su, View(), rest)) else Run(log, Ready(View()))
        decreases changed, |rest|, Rank(state)
      {
        ghost var d1, log1 := View(), log;
        StepOk(su, d1, rest);
        var r := RunState(rest);
        log := log + r.log;
        match r {
          case Stop(e, _) =>
            failed := true;
            return Some(e), log;
          case Wait(_, _) => changed := false;
          case Go(_, more, _) =>
            ThenThen(log1, r.log, H2Decoder.Decode(su, r.d, more));
            rest := more;
        }
      }
    }
  }

  /** A state that needs bytes waits when it does not get them all. */
  lemma ShortStep(su: Setup, d: Decoder, s: Bytes)
    requires Valid(d) && |d.scratch| + |s| < Required(d.state)
    ensures Step(su, d, s) == Wait(d.(scratch := d.scratch + s), [])
  {
    if !IsFixed(d.state) {
      assert s == [] && d.scratch + s == d.scratch;
      if d.state == HeaderEntry {
        assert Hpack.DecodeEntry(su.coder, su.statics, d.hpack, []) == Hpack.Ongoing(d.hpack);
        assert s[..0] == [];
      } else {
        assert s[..0] == [] && d.greeting[..0] == [] && d.greeting[0..] == d.greeting;
      }
    }
  }

  /** A state that has run leaves the scratch empty. */
  lemma FiredClears(su: Setup, d: Decoder, bytes: Bytes)
    requires Valid(d) && IsFixed(d.state) && |bytes| == Required(d.state) && FireFixed(su, d, bytes).Fired?
    ensures FireFixed(su, d, bytes).d.scratch == []
  {
  }

  lemma StepClears(su: Setup, d: Decoder, s: Bytes)
    requires Valid(d) && d.scratch == [] && |s| >= Required(d.state) && !Step(su, d, s).Stop?
    ensures Step(su, d, s).d.scratch == []
  {
    hide FireFixed, FireFree, TakeEvent, Hpack.DecodeEntry;
    if IsFixed(d.state) {
      assert d.scratch + s[..Required(d.state)] == s[..Required(d.state)];
      FiredClears(su, d, s[..Required(d.state)]);
    } else if IsFree(d.state) {
      FreeClears(su, d);
    }
  }

  lemma FreeClears(su: Setup, d: Decoder)
    requires IsFree(d.state) && FireFree(su, d).Fired?
    ensures FireFree(su, d).d.scratch == []
  {
  }

  // ----- writing a header block

  /** A HEADERS or PUSH_PROMISE frame on its way out, with its header block already encoded. */
  class HeadersWriter {
    const head: Head
    var first: bool
    var left: Bytes
    var done: bool

    function View(): Progress
      reads this
    {
      Progress(first, left, done)
    }

    constructor (head: Head, block: Bytes)
      ensures this.head == head && View() == Progress(true, block, false)
    {
      this.head, first, left, done := head, true, block, false;
    }

    /** Writes the next frame, or nothing if the space is too small to be worth it. */
    method WriteFrame(space: nat, maxFrame: nat, output: Bytes) returns (written: Option<Bytes>, output': Bytes)
      requires !done
      modifies this
      ensures var n := FragmentLen(head, old(first), |old(left)|, space, maxFrame);
              && (n.None? ==> written == None && View() == old(View()) && output' == output)
              && (n.Some? ==>
                    && n.value <= |old(left)| && written == Some(old(left)[..n.value])
                    && View() == Progress(false, old(left)[n.value..], n.value == |old(left)|)
                    && output' == output + FrameBytes(head, old(first), old(left)[..n.value], n.value == |old(left)|))
    {
      hide FrameBytes;
      written, output' := None, output;
      if space < 9 {
        return;
      }
      var room := if space - 9 < maxFrame then space - 9 else maxFrame;
      var overhead := Overhead(head, first);
      if room < overhead {
        return;
      }
      var n := if room - overhead < |left| then room - overhead else |left|;
      var last := n == |left|;
      if !last && n < 9 + overhead {
        return;
      }
      var fragment := left[..n];
      output' := output + FrameBytes(head, first, fragment, last);
      left := left[n..];
      first, done := false, last;
      written := Some(fragment);
    }

    /** Writes frames until the block is done or the buffer is too full to go on. */
    method Write(space: nat, maxFrame: nat) returns (output: Bytes, ghost fragments: seq<Bytes>)
      modifies this
      ensures (View(), fragments) == Fill(head, old(View()), space, maxFrame)
      ensures output == Wire(head, old(first), fragments, done) && |output| <= space
    {
      hide FrameBytes, FragmentLen, Overhead, Wire, Fill;
      NoWire(head, first, done);
      ghost var p := View();
      var free: nat := space;
      output, fragments := [], [];
      var waiting := false;
      assert [] + Fill(head, p, space, maxFrame).1 == Fill(head, p, space, maxFrame).1;
      while !done && !waiting
        invariant !waiting ==> Fill(head, p, space, maxFrame) ==
                               (Fill(head, View(), free, maxFrame).0, fragments + Fill(head, View(), free, maxFrame).1)
        invariant waiting ==> Fill(head, p, space, maxFrame) == (View(), fragments)
        invariant first == (p.first && fragments == [])
        invariant fragments == [] ==> View() == p
        invariant output == Wire(head, p.first, fragments, done) && |output| + free == space
        decreases !waiting, |left|, !done
      {
        FragmentLenFits(head, first, |left|, free, maxFrame);
        FillStep(head, View(), free, maxFrame);
        ghost var parts := fragments;
        var overhead := Overhead(head, first);
        var written;
        written, output := WriteFrame(free, maxFrame, output);
        if written.None? {
          waiting := true;
          assert fragments + [] == fragments;
        } else {
          FrameLength(head, p.first && parts == [], written.value, done);
          free := free - 9 - overhead - |written.value|;
          fragments := fragments + [written.value];
          WirePush(head, p.first, parts, written.value, done);
          ghost var more := Fill(head, View(), free, maxFrame).1;
          assert parts + ([written.value] + more) == fragments + more;
        }
      }
      FillStep(head, View(), free, maxFrame);
      assert fragments + [] == fragments;
    }

    /** Writes to one buffer after the other, each with this much space. */
    method WriteAll(spaces: seq<nat>, maxFrame: nat) returns (outputs: seq<Bytes>, ghost fragments: seq<Bytes>)
      modifies this
      ensures (View(), fragments) == FillAll(head, old(View()), spaces, maxFrame)
      ensures Flatten(outputs) == Wire(head, old(first), fragments, done)
      ensures |outputs| == |spaces| && forall i | 0 <= i < |outputs| :: |outputs[i]| <= spaces[i]
    {
      hide Wire, Fill, FillAll, Flatten;
      ghost var p := View();
      outputs, fragments := [], [];
      NoWire(head, first, done);
      assert spaces[..0] == [] && spaces[0..] == spaces;
      FillNone(head, p, maxFrame);
      for i := 0 to |spaces|
        invariant (View(), fragments) == FillAll(head, p, spaces[..i], maxFrame)
        invariant Flatten(outputs) == Wire(head, p.first, fragments, done)
        invariant first == (p.first && fragments == [])
        invariant |outputs| == i && forall j | 0 <= j < i :: |outputs[j]| <= spaces[j]
      {
        ghost var p1, parts := View(), fragments;
        var output;
        ghost var more;
        output, more := Write(spaces[i], maxFrame);
        FillAllPush(head, p, spaces[..i], spaces[i], maxFrame);
        assert spaces[..i] + [spaces[i]] == spaces[..i + 1];
        FillFirst(head, p1, spaces[i], maxFrame);
        WireConcat(head, p.first, parts, more, done);
        fragments := fragments + more;
        FlattenConcat(outputs, [output]);
        OnePart(output);
        outputs := outputs + [output];
      }
      assert spaces[..|spaces|] == spaces;
    }
  }

  lemma OnePart(part: Bytes)
    ensures Flatten([part]) == part
  {
    assert [part][1..] == [] && part + [] == part;
  }

  lemma FillNone(h: Head, p: Progress, maxFrame: nat)
    ensures FillAll(h, p, [], maxFrame) == (p, []) && Flatten<byte>([]) == []
  {
  }

  /** One more buffer. */
  lemma {:induction false} FillAllPush(h: Head, p: Progress, spaces: seq<nat>, space: nat, maxFrame: nat)
    ensures var (p1, a) := FillAll(h, p, spaces, maxFrame);
            var (p2, b) := Fill(h, p1, space, maxFrame);
            FillAll(h, p, spaces + [space], maxFrame) == (p2, a + b)
    decreases |spaces|
  {
    hide Fill;
    if spaces == [] {
      assert spaces + [space] == [space] && [space][1..] == [];
      var b := Fill(h, p, space, maxFrame).1;
      assert b + [] == b && [] + b == b;
    } else {
      assert (spaces + [space])[1..] == spaces[1..] + [space];
      var (p1, here) := Fill(h, p, spaces[0], maxFrame);
      FillAllPush(h, p1, spaces[1..], space, maxFrame);
      var (p2, a) := FillAll(h, p1, spaces[1..], maxFrame);
      var b := Fill(h, p2, space, maxFrame).1;
      assert here + (a + b) == (here + a) + b;
    }
  }

  /** What is written ends the first frame; what is done stays done; nothing written changes nothing. */
  lemma FillFirst(h: Head, p: Progress, space: nat, maxFrame: nat)
    ensures var (p', fragments) := Fill(h, p, space, maxFrame);
            && (fragments == [] ==> p' == p)
            && (fragments != [] ==> !p.done && !p'.first)
    decreases |p.left|, !p.done
  {
    hide FragmentLen, Overhead;
    FillStep(h, p, space, maxFrame);
    var n := FragmentLen(h, p.first, |p.left|, space, maxFrame);
    if !p.done && n.Some? {
      FillShort(h, p, space, maxFrame);
      FillFirst(h, Progress(false, p.left[n.value..], n.value == |p.left|),
                space - 9 - Overhead(h, p.first) - n.value, maxFrame);
    }
  }

  /** A frame that does not end the block takes something of it. */
  lemma FillShort(h: Head, p: Progress, space: nat, maxFrame: nat)
    ensures var n := FragmentLen(h, p.first, |p.left|, space, maxFrame);
            n.Some? ==> n.value <= |p.left| && (n.value < |p.left| ==> n.value > 0)
  {
    FragmentLenFits(h, p.first, |p.left|, space, maxFrame);
  }

  lemma FrameLength(h: Head, first: bool, fragment: Bytes, last: bool)
    ensures |FrameBytes(h, first, fragment, last)| == 9 + Overhead(h, first) + |fragment|
  {
    OverheadIs(h);
  }

  /** Frames written to one buffer and then to another. */
  lemma {:induction false} WireConcat(h: Head, first: bool, a: seq<Bytes>, b: seq<Bytes>, done: bool)
    ensures Wire(h, first, a + b, done) == Wire(h, first, a, done && b == []) + Wire(h, first && a == [], b, done)
    decreases |a|
  {
    hide FrameBytes;
    if a == [] {
      assert a + b == b;
      var bytes := Wire(h, first, b, done);
      assert [] + bytes == bytes;
    } else {
      assert (a + b)[1..] == a[1..] + b;
      WireConcat(h, false, a[1..], b, done);
      var one, more := FrameBytes(h, first, a[0], done && |a + b| == 1), Wire(h, false, a[1..], done && b == []);
      assert one + (more + Wire(h, false, b, done)) == (one + more) + Wire(h, false, b, done);
    }
  }

  lemma FillStep(h: Head, p: Progress, space: nat, maxFrame: nat)
    ensures var n := FragmentLen(h, p.first, |p.left|, space, maxFrame);
            && (p.done || n.None? ==> Fill(h, p, space, maxFrame) == (p, []))
            && (!p.done && n.Some? ==>
                  && n.value <= |p.left| && 9 + Overhead(h, p.first) + n.value <= space
                  && var (p2, more) := Fill(h, Progress(false, p.left[n.value..], n.value == |p.left|),
                                            space - 9 - Overhead(h, p.first) - n.value, maxFrame);
                     Fill(h, p, space, maxFrame) == (p2, [p.left[..n.value]] + more))
  {
  }

  lemma NoWire(h: Head, first: bool, done: bool)
    ensures Wire(h, first, [], done) == []
  {
  }

  /** One more frame after some that did not end the block. */
  lemma {:induction false} WirePush(h: Head, first: bool, fragments: seq<Bytes>, fragment: Bytes, done: bool)
    ensures Wire(h, first, fragments + [fragment], done) ==
            Wire(h, first, fragments, false) + FrameBytes(h, first && fragments == [], fragment, done)
    decreases |fragments|
  {
    hide FrameBytes;
    if fragments == [] {
      assert [fragment][1..] == [] && [] + [fragment] == [fragment];
      var bytes := FrameBytes(h, first, fragment, done);
      assert bytes + [] == bytes && [] + bytes == bytes;
    } else {
      assert (fragments + [fragment])[1..] == fragments[1..] + [fragment];
      WirePush(h, false, fragments[1..], fragment, done);
      var one, more, last := FrameBytes(h, first, fragments[0], false), Wire(h, false, fragments[1..], false),
          FrameBytes(h, false, fragment, done);
      assert one + (more + last) == (one + more) + last;
    }
  }

  // ----- frames encoded when they were created

  class PrebuiltFrame {
    var cursor: Bytes

    constructor (f: OutFrame)
      ensures cursor == H2Frames.Encode(f)
    {
      cursor := H2Frames.Encode(f);
    }

    /** Copies as much as fits; what has been copied and what is left are always the whole frame. */
    method Write(space: nat) returns (chunk: Bytes, complete: bool)
      modifies this
      ensures chunk + cursor == old(cursor) && |chunk| <= space
      ensures complete <==> cursor == []
      ensures !complete ==> |chunk| == space
    {
      var n := if |cursor| < space then |cursor| else space;
      chunk := cursor[..n];
      cursor := cursor[n..];
      complete := |cursor| == 0;
    }

    /** Copies to one buffer after the other; the frame is complete when they are large enough together. */
    method WriteAll(spaces: seq<nat>) returns (chunks: seq<Bytes>, complete: bool)
      modifies this
      ensures Flatten(chunks) + cursor == old(cursor)
      ensures |chunks| == |spaces| && forall i | 0 <= i < |chunks| :: |chunks[i]| <= spaces[i]
      ensures complete <==> cursor == []
      ensures complete <==> |old(cursor)| <= Total(spaces)
    {
      hide Flatten, Total;
      chunks, complete := [], |cursor| == 0;
      ghost var whole := cursor;
      NoParts(whole);
      for i := 0 to |spaces|
        invariant Flatten(chunks) + cursor == whole && (complete <==> cursor == [])
        invariant |chunks| == i && forall j | 0 <= j < i :: |chunks[j]| <= spaces[j]
        invariant cursor != [] ==> |Flatten(chunks)| == Total(spaces[..i])
        invariant |Flatten(chunks)| <= Total(spaces[..i])
      {
        var chunk;
        chunk, complete := Write(spaces[i]);
        FlattenConcat(chunks, [chunk]);
        OnePart(chunk);
        assert Flatten(chunks) + (chunk + cursor) == (Flatten(chunks) + chunk) + cursor;
        TotalPush(spaces[..i], spaces[i]);
        assert spaces[..i] + [spaces[i]] == spaces[..i + 1];
        chunks := chunks + [chunk];
      }
      assert spaces[..|spaces|] == spaces;
    }
  }

  function Total(spaces: seq<nat>): nat {
    if spaces == [] then 0 else spaces[0] + Total(spaces[1..])
  }

  lemma {:induction false} TotalPush(spaces: seq<nat>, n: nat)
    ensures Total(spaces + [n]) == Total(spaces) + n
    decreases |spaces|
  {
    if spaces == [] {
      assert spaces + [n] == [n] && [n][1..] == [];
    } else {
      assert (spaces + [n])[1..] == spaces[1..] + [n];
      TotalPush(spaces[1..], n);
    }
  }

  lemma NoParts(whole: Bytes)
    ensures Flatten([]) + whole == whole && Total([]) == 0
  {
  }
}
