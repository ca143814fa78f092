/**
 * The order of a stream's frames on a channel: nothing but updates and resets after
 * the stream's end, nothing at all after its reset, and an end that has closed a
 * stream for one of these reasons will see no more of it.
 */
module FlowOrder {
  import opened FlowControl
  import opened FlowCredit

  // ----- frames of a stream

  predicate HasStream(g: Frame) {
    g.Headers? || g.Data? || g.StreamUpdate? || g.Reset?
  }

  predicate On(g: Frame, s: nat) {
    HasStream(g) && g.id == s
  }

  predicate Carries(g: Frame, s: nat) {
    (g.Headers? || g.Data?) && g.id == s
  }

  predicate Ends(g: Frame, s: nat) {
    Carries(g, s) && g.end
  }

  predicate Resets(g: Frame, s: nat) {
    g.Reset? && g.id == s
  }

  ghost predicate NoneOn(ch: seq<Frame>, s: nat) {
    forall k | 0 <= k < |ch| :: !On(ch[k], s)
  }

  ghost predicate NoneCarries(ch: seq<Frame>, s: nat) {
    forall k | 0 <= k < |ch| :: !Carries(ch[k], s)
  }

  ghost predicate NoneEnds(ch: seq<Frame>, s: nat) {
    forall k | 0 <= k < |ch| :: !Ends(ch[k], s)
  }

  ghost predicate NoneResets(ch: seq<Frame>, s: nat) {
    forall k | 0 <= k < |ch| :: !Resets(ch[k], s)
  }

  ghost predicate Tidy(ch: seq<Frame>, s: nat) {
    forall i, j | 0 <= i < j < |ch| ::
      (Ends(ch[i], s) ==> !Carries(ch[j], s)) && (Resets(ch[i], s) ==> !On(ch[j], s))
  }

  // ----- what the two ends have to do with it

  predicate MayCarry(e: Endpoint, s: nat) {
    s in e.streams && !e.streams[s].sentEnd
  }

  /** The peer has ended the stream, as far as this end knows. */
  predicate Finished(e: Endpoint, s: nat) {
    (s in e.streams && e.streams[s].gotEnd) || (s in e.closed && e.closed[s] == BothEnded)
  }

  /** The peer has reset the stream. */
  predicate CutOff(e: Endpoint, s: nat) {
    s in e.closed && e.closed[s] == ResetReceived
  }

  /** Frames of stream `s` on the channel `ch` from `e` to `f`. */
  ghost predicate StreamOrderly(e: Endpoint, f: Endpoint, ch: seq<Frame>, s: nat) {
    && Tidy(ch, s)
    && (MayCarry(e, s) ==> NoneEnds(ch, s) && !Finished(f, s))
    && (s in e.streams ==> NoneResets(ch, s) && !CutOff(f, s))
    && (s !in Known(e) ==> NoneOn(ch, s) && !Finished(f, s) && !CutOff(f, s))
    && (Finished(f, s) ==> NoneCarries(ch, s))
    && (CutOff(f, s) ==> NoneOn(ch, s))
  }

  ghost predicate Orderly(e: Endpoint, f: Endpoint, ch: seq<Frame>) {
    forall s: nat :: StreamOrderly(e, f, ch, s)
  }

  // ----- the sending end

  /** What may become of the sending end when it has sent `g`. */
  ghost predicate SendsOn(e: Endpoint, e': Endpoint, g: Frame, s: nat) {
    && (Carries(g, s) ==> MayCarry(e, s) || s !in Known(e))
    && (On(g, s) ==> s in e.streams || s !in Known(e))
    && (MayCarry(e', s) ==> (MayCarry(e, s) || s !in Known(e)) && !Ends(g, s))
    && (s in e'.streams ==> (s in e.streams || s !in Known(e)) && !Resets(g, s))
    && (s !in Known(e') ==> s !in Known(e) && !On(g, s))
  }

  lemma SendOrderly(e: Endpoint, e': Endpoint, f: Endpoint, ch: seq<Frame>, g: Frame, s: nat)
    requires StreamOrderly(e, f, ch, s) && SendsOn(e, e', g, s)
    ensures StreamOrderly(e', f, ch + [g], s)
  {
    hide MayCarry, Finished, CutOff, Known;
    var ch' := ch + [g];
    assert forall k | 0 <= k < |ch| :: ch'[k] == ch[k];
    forall i, j | 0 <= i < j < |ch'|
      ensures (Ends(ch'[i], s) ==> !Carries(ch'[j], s)) && (Resets(ch'[i], s) ==> !On(ch'[j], s))
    {
      assert ch'[i] == ch[i];
      assert j < |ch| ==> ch'[j] == ch[j];
    }
  }

  /** The sending end changes without sending. */
  ghost predicate RestsOn(e: Endpoint, e': Endpoint, s: nat) {
    && (MayCarry(e', s) ==> MayCarry(e, s) || s !in Known(e))
    && (s in e'.streams ==> s in e.streams || s !in Known(e))
    && (s !in Known(e') ==> s !in Known(e))
  }

  lemma RestOrderly(e: Endpoint, e': Endpoint, f: Endpoint, ch: seq<Frame>, s: nat)
    requires StreamOrderly(e, f, ch, s) && RestsOn(e, e', s)
    ensures StreamOrderly(e', f, ch, s)
  {
    hide MayCarry, Finished, CutOff, Known;
  }

  // ----- the receiving end

  lemma HearOrderly(e: Endpoint, f: Endpoint, f': Endpoint, ch: seq<Frame>, s: nat)
    requires StreamOrderly(e, f, ch, s) && (Finished(f', s) ==> Finished(f, s)) && (CutOff(f', s) ==> CutOff(f, s))
    ensures StreamOrderly(e, f', ch, s)
  {
  }

  lemma TakeOrderly(e: Endpoint, f: Endpoint, f': Endpoint, ch: seq<Frame>, s: nat)
    requires StreamOrderly(e, f, ch, s) && ch != []
    requires Finished(f', s) ==> Finished(f, s) || Ends(ch[0], s)
    requires CutOff(f', s) ==> CutOff(f, s) || Resets(ch[0], s)
    ensures StreamOrderly(e, f', ch[1..], s)
  {
    hide MayCarry, Finished, CutOff, Known;
    var rest := ch[1..];
    assert forall k | 0 <= k < |rest| :: rest[k] == ch[k + 1];
    assert Ends(ch[0], s) ==> NoneCarries(rest, s);
    assert Resets(ch[0], s) ==> NoneOn(rest, s);
  }

  /** A frame meets no stream that its sender has ended or reset before. */
  ghost predicate Clean(e: Endpoint, g: Frame, s: nat) {
    && (Carries(g, s) ==> !Finished(e, s))
    && (On(g, s) ==> !CutOff(e, s))
  }

  lemma FrontIsClean(e: Endpoint, f: Endpoint, ch: seq<Frame>, s: nat)
    requires Orderly(e, f, ch) && ch != []
    ensures Clean(f, ch[0], s)
  {
    assert StreamOrderly(e, f, ch, s);
  }
}
