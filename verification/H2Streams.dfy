/**
 * Streams of HTTP/2 bytes: any bytes are whole frames and the beginning of another, the decoder takes them frame by
 * frame, and which frames it lets follow which.
 */
module H2Streams {
  import opened Octets
  import opened H2Decoder
  import opened H2Frames
  import opened H2Meaning
  import H2Headers
  import Hpack = HpackDecoder

  /** The nine bytes of a header and the payload whose length they give. */
  datatype Raw = Raw(h: Bytes, p: Bytes)

  predicate Whole(r: Raw) {
    |r.h| == 9 && LengthIn(r.h) == |r.p|
  }

  predicate AllWhole(frames: seq<Raw>) {
    forall i | 0 <= i < |frames| :: Whole(frames[i])
  }

  function Joined(frames: seq<Raw>): Bytes {
    if frames == [] then [] else frames[0].h + frames[0].p + Joined(frames[1..])
  }

  /** The whole frames at the beginning of some bytes, and what is left. */
  function Split(s: Bytes): (r: (seq<Raw>, Bytes))
    ensures AllWhole(r.0) && Joined(r.0) + r.1 == s
    ensures |r.1| < 9 || |r.1| < 9 + LengthIn(r.1[..9])
    decreases |s|
  {
    if |s| < 9 || |s| < 9 + LengthIn(s[..9]) then ([], s)
    else
      var n := 9 + LengthIn(s[..9]);
      var (frames, rest) := Split(s[n..]);
      var first := Raw(s[..9], s[9..n]);
      assert s == first.h + first.p + s[n..];
      assert ([first] + frames)[1..] == frames;
      assert first.h + first.p + (Joined(frames) + rest) == (first.h + first.p + Joined(frames)) + rest;
      ([first] + frames, rest)
  }

  /** Frames one after the other. */
  function StreamMeaning(su: Setup, d: Decoder, frames: seq<Raw>): Outcome
    requires Between(d) && AllWhole(frames)
    decreases |frames|
  {
    if frames == [] then Taken([], d)
    else
      MeaningStays(su, d, frames[0]);
      match Meaning(su, d, frames[0].h, frames[0].p)
      case Refused(log, error) => Refused(log, error)
      case Taken(log, d1) => Plus(log, StreamMeaning(su, d1, frames[1..]))
  }

  lemma MeaningStays(su: Setup, d: Decoder, r: Raw)
    requires Between(d) && Whole(r)
    ensures Meaning(su, d, r.h, r.p).Taken? ==> Between(Meaning(su, d, r.h, r.p).d)
  {
    hide Meaning;
    FrameComes(su, d, r.h, r.p, []);
  }

  /** The decoder takes a stream of bytes frame by frame, and stops at the first that it refuses. */
  lemma {:induction false} StreamComes(su: Setup, d: Decoder, frames: seq<Raw>, s: Bytes)
    requires Between(d) && AllWhole(frames)
    ensures Comes(su, d, Joined(frames), s, StreamMeaning(su, d, frames))
    ensures StreamMeaning(su, d, frames).Taken? ==> Between(StreamMeaning(su, d, frames).d)
    decreases |frames|
  {
    hide Decode, Meaning, Between;
    if frames == [] {
      assert [] + s == s;
      assert Valid(d) by { IsValid(d); }
      ThenNone(Decode(su, d, s));
    } else {
      var h, p, rest := frames[0].h, frames[0].p, Joined(frames[1..]);
      FrameComes(su, d, h, p, rest + s);
      IsValid(d);
      var o := Meaning(su, d, h, p);
      if o.Refused? {
        Halt(su, d, h + p, rest, s, o.log, o.error);
      } else {
        StreamComes(su, o.d, frames[1..], s);
        Chain(su, d, h + p, o.log, o.d, rest, s, StreamMeaning(su, o.d, frames[1..]));
      }
    }
  }

  lemma IsValid(d: Decoder)
    requires Between(d)
    ensures Valid(d) && Hpack.EntryValid(d.hpack.entry)
  {
  }

  /** Any bytes at all: the frames in them, and then the beginning of the next. */
  lemma BytesCome(su: Setup, d: Decoder, s: Bytes)
    requires Between(d)
    ensures var (frames, rest) := Split(s);
            match StreamMeaning(su, d, frames)
            case Refused(log, error) => Decode(su, d, s) == Run(log, Failed(error))
            case Taken(log, d') => Valid(d') && Decode(su, d, s) == Then(log, Decode(su, d', rest))
  {
    hide Decode, StreamMeaning, Split;
    var (frames, rest) := Split(s);
    StreamComes(su, d, frames, rest);
  }

  // ----- which frames may follow which

  /** The stream whose header block is open after a frame, or zero. */
  function OpenAfter(open: nat, r: Raw): nat
    requires Whole(r)
  {
    if r.h[3] == 1 || r.h[3] == 5 || r.h[3] == 9 then if HasFlag(r.h, 4) then 0 else StreamIn(r.h) else open
  }

  function OpenAfterAll(open: nat, frames: seq<Raw>): nat
    requires AllWhole(frames)
    decreases |frames|
  {
    if frames == [] then open else OpenAfter(OpenAfterAll(open, frames[..|frames| - 1]), frames[|frames| - 1])
  }

  /** What an accepted frame does to the block in progress. */
  lemma OpenIs(su: Setup, d: Decoder, r: Raw)
    requires Between(d) && Whole(r) && Meaning(su, d, r.h, r.p).Taken?
    ensures var d' := Meaning(su, d, r.h, r.p).d; d'.greeted && d'.block.stream == OpenAfter(d.block.stream, r)
  {
    hide Be, Hpack.DecodeAll, BlockEnd, ReadSettings, Body, HasFlag, H2Headers.TakeEvents;
    forall b: Block, es: seq<Hpack.Event>
      ensures H2Headers.TakeEvents(su.isServer, StreamIn(r.h), b, es).0.stream == b.stream
    {
      H2Headers.TakeKeeps(su.isServer, StreamIn(r.h), b, es);
    }
  }

  lemma {:induction false} StreamPush(su: Setup, d: Decoder, frames: seq<Raw>, r: Raw)
    requires Between(d) && AllWhole(frames) && Whole(r) && AllWhole(frames + [r])
    ensures var o := StreamMeaning(su, d, frames);
            && (o.Taken? ==> Between(o.d))
            && (StreamMeaning(su, d, frames + [r]).Taken? ==> o.Taken? && Meaning(su, o.d, r.h, r.p).Taken?)
            && (o.Taken? ==> StreamMeaning(su, d, frames + [r]) == Plus(o.log, Meaning(su, o.d, r.h, r.p)))
            && (o.Refused? ==> StreamMeaning(su, d, frames + [r]) == o)
    decreases |frames|
  {
    hide Meaning, Between;
    IsValid(d);
    var all := frames + [r];
    if frames == [] {
      assert all[1..] == [] && all[0] == r;
      MeaningStays(su, d, r);
      PlusNone(Meaning(su, d, r.h, r.p));
      var o := Meaning(su, d, r.h, r.p);
      assert o.log + [] == o.log;
    } else {
      MeaningStays(su, d, frames[0]);
      var o := Meaning(su, d, frames[0].h, frames[0].p);
      assert all[0] == frames[0] && all[1..] == frames[1..] + [r];
      if o.Taken? {
        StreamPush(su, o.d, frames[1..], r);
        var o1 := StreamMeaning(su, o.d, frames[1..]);
        if o1.Taken? {
          IsValid(o1.d);
          H2Headers.Regroup(o.log, o1.log, Meaning(su, o1.d, r.h, r.p).log);
        }
      }
    }
  }

  lemma {:induction false} OpenInStream(su: Setup, d: Decoder, frames: seq<Raw>)
    requires Between(d) && AllWhole(frames) && StreamMeaning(su, d, frames).Taken?
    ensures var d' := StreamMeaning(su, d, frames).d;
            && Between(d') && d'.block.stream == OpenAfterAll(d.block.stream, frames)
            && (d'.greeted <==> d.greeted || frames != [])
    decreases |frames|
  {
    hide Meaning, OpenAfter, Between;
    if frames != [] {
      var front, r := frames[..|frames| - 1], frames[|frames| - 1];
      assert frames == front + [r];
      StreamPush(su, d, front, r);
      OpenInStream(su, d, front);
      OpenIs(su, StreamMeaning(su, d, front).d, r);
      MeaningStays(su, StreamMeaning(su, d, front).d, r);
    }
  }

  /**
   * After any frames that were accepted, whatever header comes next: it is refused on the spot, with these codes, or
   * its frame means what its payload does. Before the first frame only SETTINGS will do; while a block is open only a
   * CONTINUATION of its stream, and no CONTINUATION otherwise; the stream must fit the type; and the payload the limit.
   */
  lemma HeaderExactly(su: Setup, d: Decoder, frames: seq<Raw>, r: Raw, s: Bytes)
    requires Between(d) && AllWhole(frames) && StreamMeaning(su, d, frames).Taken? && Whole(r)
    ensures var o := StreamMeaning(su, d, frames);
            var e := PrefixError(d.greeted ||
                                 frames != [], OpenAfterAll(d.block.stream, frames), o.d.limits.maxFrame, r.h);
            match e
            case Some(error) => Decode(su, d, Joined(frames) + (r.h + s)) == Run(o.log, Failed(error))
            case None =>
              && Hpack.EntryValid(o.d.hpack.entry)
              && Comes(su, d, Joined(frames) + (r.h + r.p), s,
                       Plus(o.log, PayloadMeaning(su, o.d.(greeted := true), r.h, r.p)))
  {
    hide Decode, PayloadMeaning, StreamMeaning, PrefixError, Be;
    OpenInStream(su, d, frames);
    var o := StreamMeaning(su, d, frames);
    assert Valid(d) && Valid(o.d);
    StreamComes(su, d, frames, r.h + s);
    var e := PrefixError(o.d.greeted, o.d.block.stream, o.d.limits.maxFrame, r.h);
    if e.Some? {
      PrefixIs(o.d, r.h);
      RunBroken(su, o.d, r.h, s);
      assert o.log + [] == o.log;
    } else {
      StreamComes(su, d, frames, (r.h + r.p) + s);
      FrameComes(su, o.d, r.h, r.p, s);
      Chain(su, d, Joined(frames), o.log, o.d, r.h + r.p, s, Meaning(su, o.d, r.h, r.p));
    }
  }

  /** Frame `i` begins a header block that does not end before frame `j`. */
  predicate BlockOpen(frames: seq<Raw>, i: nat, j: nat)
    requires AllWhole(frames)
  {
    && i < j < |frames| && (frames[i].h[3] == 1 || frames[i].h[3] == 5)
    && forall k | i <= k < j ::
       !((frames[k].h[3] == 1 || frames[k].h[3] == 5 || frames[k].h[3] == 9) && HasFlag(frames[k].h, 4))
  }

  /** In every accepted stream, all frames of a header block after the first are CONTINUATIONs of its stream. */
  lemma {:induction false} BlocksAreWhole(su: Setup, d: Decoder, frames: seq<Raw>, i: nat, j: nat)
    requires Between(d) && AllWhole(frames) && StreamMeaning(su, d, frames).Taken? && BlockOpen(frames, i, j)
    ensures frames[j].h[3] == 9 && StreamIn(frames[j].h) == StreamIn(frames[i].h)
    decreases j
  {
    hide StreamMeaning, Be, PayloadMeaning;
    var before := frames[..j];
    AcceptedPrefix(su, d, frames, j);
    OpenInStream(su, d, before);
    var front, last := before[..j - 1], before[j - 1];
    if i < j - 1 {
      BlocksAreWhole(su, d, frames, i, j - 1);
    }
    AcceptedPrefix(su, d, frames, j - 1);
    assert frames[..j - 1] == front;
    BeginsOnStream(su, d, frames, i);
    assert OpenAfterAll(d.block.stream, before) == StreamIn(frames[i].h);
    assert frames[..j + 1] == before + [frames[j]];
    AcceptedPrefix(su, d, frames, j + 1);
    StreamPush(su, d, before, frames[j]);
  }

  lemma {:induction false} AcceptedPrefix(su: Setup, d: Decoder, frames: seq<Raw>, n: nat)
    requires Between(d) && AllWhole(frames) && StreamMeaning(su, d, frames).Taken? && n <= |frames|
    ensures StreamMeaning(su, d, frames[..n]).Taken?
    decreases |frames|
  {
    hide StreamMeaning, Between, Meaning;
    if n == |frames| {
      assert frames[..n] == frames;
    } else {
      var front := frames[..|frames| - 1];
      assert frames == front + [frames[|frames| - 1]];
      StreamPush(su, d, front, frames[|frames| - 1]);
      AcceptedPrefix(su, d, front, n);
      assert front[..n] == frames[..n];
    }
  }

  /** An accepted frame that begins a block is on a stream. */
  lemma BeginsOnStream(su: Setup, d: Decoder, frames: seq<Raw>, i: nat)
    requires Between(d) && AllWhole(frames) && StreamMeaning(su, d, frames).Taken? && i < |frames|
    requires frames[i].h[3] == 1 || frames[i].h[3] == 5
    ensures StreamIn(frames[i].h) != 0
  {
    hide StreamMeaning, Be, PayloadMeaning, Between;
    AcceptedPrefix(su, d, frames, i + 1);
    assert frames[..i + 1] == frames[..i] + [frames[i]];
    StreamPush(su, d, frames[..i], frames[i]);
  }

  // ----- the greeting

  /** A server compares the client's greeting as it arrives, and goes on to the first frame only if it is right. */
  lemma GreetingComes(su: Setup, d: Decoder, bytes: Bytes, s: Bytes)
    requires Valid(d) && d.state == Preface && |bytes| == |d.greeting| && d.frame == NO_FRAME
    ensures var d' := d.(state := Prefix, greeting := []);
            Comes(su, d, bytes, s, if bytes == d.greeting then Taken([], d') else Refused([], ProtocolError))
  {
    assert (bytes + s)[..|bytes|] == bytes && (bytes + s)[|bytes|..] == s && d.greeting[..|bytes|] == d.greeting;
    assert d.greeting[|bytes|..] == [];
    if bytes == d.greeting {
      var d' := d.(state := Prefix, greeting := []);
      assert Step(su, d, bytes + s) == Go(d', s, []);
    }
  }
}
