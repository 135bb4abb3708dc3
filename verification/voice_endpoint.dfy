/** Speech segments from per-hop voice flags, with start debounce, silence hangover
    and onset padding (`endpoint` in vad-harness/vadlib.py). */
module VoiceEndpoint {

  // Unpadded, in hops: [start, end).
  type Segment = (nat, nat)

  // n hops of speech, or of silence, from hop p on.
  ghost predicate Speech(flags: seq<bool>, p: int, n: nat) {
    0 <= p && p + n <= |flags| && forall i :: p <= i < p + n ==> flags[i]
  }

  ghost predicate Silence(flags: seq<bool>, p: int, n: nat) {
    0 <= p && p + n <= |flags| && forall i :: p <= i < p + n ==> !flags[i]
  }

  // A run of at least needStart speech hops begins at s.
  ghost predicate StartsAt(flags: seq<bool>, needStart: nat, s: nat) {
    Speech(flags, s, needStart) && (s == 0 || !flags[s - 1])
  }

  ghost predicate Unbroken(flags: seq<bool>, needEnd: nat, s: nat, e: nat) {
    forall p :: s <= p && p + needEnd <= e ==> !Silence(flags, p, needEnd)
  }

  // A finished segment: it ends where the first needEnd silent hops begin.
  ghost predicate Closed(flags: seq<bool>, needStart: nat, needEnd: nat, g: Segment) {
    && g.0 < g.1 && StartsAt(flags, needStart, g.0) && Unbroken(flags, needEnd, g.0, g.1)
    && Silence(flags, g.1, needEnd) && flags[g.1 - 1]
  }

  // A segment the input ended in.
  ghost predicate Open(flags: seq<bool>, needStart: nat, needEnd: nat, g: Segment) {
    && g.0 < g.1 == |flags| && StartsAt(flags, needStart, g.0) && Unbroken(flags, needEnd, g.0, g.1)
  }

  ghost predicate Whole(flags: seq<bool>, needStart: nat, needEnd: nat, g: Segment) {
    Closed(flags, needStart, needEnd, g) || Open(flags, needStart, needEnd, g)
  }

  ghost predicate Spaced(needEnd: nat, segs: seq<Segment>) {
    forall i, j :: 0 <= i < j < |segs| ==> segs[i].1 + needEnd <= segs[j].0
  }

  ghost predicate Covered(segs: seq<Segment>, p: int, n: nat) {
    exists i :: 0 <= i < |segs| && segs[i].0 <= p && p + n <= segs[i].1
  }

  /** What the segments of a recording are. */
  ghost predicate IsSegmentation(flags: seq<bool>, needStart: nat, needEnd: nat, segs: seq<Segment>) {
    && (forall i :: 0 <= i < |segs| ==> Whole(flags, needStart, needEnd, segs[i]))
    && Spaced(needEnd, segs)
    && (forall p :: Speech(flags, p, needStart) ==> Covered(segs, p, needStart))
  }

  // --- there is only one -------------------------------------------------------------

  // With the same start, neither segment can end before the other.
  lemma EndNotBefore(flags: seq<bool>, needStart: nat, needEnd: nat, a: Segment, b: Segment)
    requires needEnd > 0 && a.0 == b.0
    requires Whole(flags, needStart, needEnd, a) && Whole(flags, needStart, needEnd, b)
    ensures a.1 <= b.1
  {
  }

  // A segment of one segmentation starts no earlier than its place in another.
  lemma StartNotBefore(flags: seq<bool>, needStart: nat, needEnd: nat, a: seq<Segment>, b: seq<Segment>, k: nat)
    requires needStart > 0 && needEnd > 0
    requires IsSegmentation(flags, needStart, needEnd, a) && IsSegmentation(flags, needStart, needEnd, b)
    requires k < |a| && k <= |b| && forall j :: 0 <= j < k ==> a[j] == b[j]
    ensures k < |b| && b[k].0 <= a[k].0
  {
    var s := a[k].0;
    assert Speech(flags, s, needStart);
    hide Closed, Open, StartsAt, Unbroken;
    var j :| 0 <= j < |b| && b[j].0 <= s && s + needStart <= b[j].1;
  }

  lemma SamePlace(flags: seq<bool>, needStart: nat, needEnd: nat, a: seq<Segment>, b: seq<Segment>, k: nat)
    requires needStart > 0 && needEnd > 0
    requires IsSegmentation(flags, needStart, needEnd, a) && IsSegmentation(flags, needStart, needEnd, b)
    requires k < |a| && k <= |b| && forall j :: 0 <= j < k ==> a[j] == b[j]
    ensures k < |b| && a[k] == b[k]
  {
    hide Closed, Open;
    StartNotBefore(flags, needStart, needEnd, a, b, k);
    StartNotBefore(flags, needStart, needEnd, b, a, k);
    EndNotBefore(flags, needStart, needEnd, a[k], b[k]);
    EndNotBefore(flags, needStart, needEnd, b[k], a[k]);
  }

  /** The description leaves no choice: a recording has one segmentation. */
  lemma SegmentationIsUnique(flags: seq<bool>, needStart: nat, needEnd: nat, a: seq<Segment>, b: seq<Segment>)
    requires needStart > 0 && needEnd > 0
    requires IsSegmentation(flags, needStart, needEnd, a) && IsSegmentation(flags, needStart, needEnd, b)
    ensures a == b
  {
    hide IsSegmentation;
    var k := 0;
    while k < |a|
      invariant k <= |a| && k <= |b| && forall j :: 0 <= j < k ==> a[j] == b[j]
    {
      SamePlace(flags, needStart, needEnd, a, b, k);
      k := k + 1;
    }
    if |b| > k {
      SamePlace(flags, needStart, needEnd, b, a, k);
    }
  }

  // --- the state machine ---------------------------------------------------------------

  // Python's int() on a real: towards zero.
  function Truncated(x: real): int { if x >= 0.0 then x.Floor else -((-x).Floor) }

  function Needed(ms: real, hop: real): (n: nat)
    requires hop != 0.0
    ensures n >= 1
  {
    if Truncated(ms / 1000.0 / hop) < 1 then 1 else Truncated(ms / 1000.0 / hop)
  }

  function Later(a: real, b: real): real { if a < b then b else a }

  function PaddedSegment(g: Segment, hop: real, pad: real): (real, real) {
    (Later(0.0, g.0 as real * hop - pad), g.1 as real * hop)
  }

  function Padded(segs: seq<Segment>, hop: real, pad: real): seq<(real, real)> {
    seq(|segs|, i requires 0 <= i < |segs| => PaddedSegment(segs[i], hop, pad))
  }

  // Between segments: the run of speech that ends at i is too short so far.
  ghost predicate Idle(flags: seq<bool>, needStart: nat, needEnd: nat, i: nat, run: nat, segs: seq<Segment>) {
    && run < needStart && run <= i <= |flags|
    && Speech(flags, i - run, run) && (i - run == 0 || !flags[i - run - 1])
    && (segs != [] ==> segs[|segs| - 1].1 + needEnd <= i - run)
    && (forall p :: p + needStart <= i && Speech(flags, p, needStart) ==> Covered(segs, p, needStart))
  }

  // In a segment: fewer than needEnd silent hops end at i.
  ghost predicate Speaking(flags: seq<bool>, needStart: nat, needEnd: nat, i: nat, run: nat, start: nat,
                           segs: seq<Segment>)
  {
    && run < needEnd && start < i - run <= i <= |flags|
    && StartsAt(flags, needStart, start) && Unbroken(flags, needEnd, start, i)
    && Silence(flags, i - run, run) && flags[i - run - 1]
    && (segs != [] ==> segs[|segs| - 1].1 + needEnd <= start)
    && (forall p :: p + needStart <= i && Speech(flags, p, needStart) ==>
         Covered(segs, p, needStart) || (start <= p && p + needStart <= i - run))
  }

  ghost predicate AllClosed(flags: seq<bool>, needStart: nat, needEnd: nat, segs: seq<Segment>) {
    && (forall k :: 0 <= k < |segs| ==> Closed(flags, needStart, needEnd, segs[k]))
    && Spaced(needEnd, segs)
  }

  lemma CoveredMore(segs: seq<Segment>, g: Segment, p: int, n: nat)
    requires Covered(segs, p, n) || (g.0 <= p && p + n <= g.1)
    ensures Covered(segs + [g], p, n)
  {
    if Covered(segs, p, n) {
      var i :| 0 <= i < |segs| && segs[i].0 <= p && p + n <= segs[i].1;
      assert (segs + [g])[i] == segs[i];
    } else {
      assert (segs + [g])[|segs|] == g;
    }
  }

  lemma StartsIdle(flags: seq<bool>, needStart: nat, needEnd: nat)
    requires needStart > 0
    ensures AllClosed(flags, needStart, needEnd, []) && Idle(flags, needStart, needEnd, 0, 0, [])
  {
  }

  // One more idle hop completes no run of needStart speech hops.
  lemma IdleHop(flags: seq<bool>, needStart: nat, needEnd: nat, i: nat, run: nat, segs: seq<Segment>)
    requires Idle(flags, needStart, needEnd, i, run, segs) && i < |flags|
    requires flags[i] ==> run + 1 < needStart
    ensures Idle(flags, needStart, needEnd, i + 1, if flags[i] then run + 1 else 0, segs)
  {
    forall p | Speech(flags, p, needStart) && p + needStart <= i + 1
      ensures p + needStart <= i
    {
      assert i - run - 1 >= p || i - run == 0 || p + needStart <= i;
    }
  }

  // The hop that completes the run opens the segment at the run's first hop.
  lemma Opens(flags: seq<bool>, needStart: nat, needEnd: nat, i: nat, run: nat, segs: seq<Segment>)
    requires Idle(flags, needStart, needEnd, i, run, segs) && i < |flags| && needEnd > 0
    requires flags[i] && run + 1 == needStart
    ensures Speaking(flags, needStart, needEnd, i + 1, 0, i - run, segs)
  {
    forall p | i - run <= p && p + needEnd <= i + 1
      ensures !Silence(flags, p, needEnd)
    {
      assert flags[p];
    }
  }

  lemma SpeakingHop(flags: seq<bool>, needStart: nat, needEnd: nat, i: nat, run: nat, start: nat, segs: seq<Segment>)
    requires Speaking(flags, needStart, needEnd, i, run, start, segs) && i < |flags| && needStart > 0
    requires flags[i] || run + 1 < needEnd
    ensures Speaking(flags, needStart, needEnd, i + 1, if flags[i] then 0 else run + 1, start, segs)
  {
    forall p | start <= p && p + needEnd == i + 1
      ensures !Silence(flags, p, needEnd)
    {
      if !flags[i] {
        assert p <= i - run - 1 < p + needEnd;
      } else {
        assert p <= i < p + needEnd;
      }
    }
    forall p | p + needStart == i + 1 && Speech(flags, p, needStart)
      ensures flags[i] && (Covered(segs, p, needStart) || start <= p)
    {
      assert p <= i < p + needStart;
    }
    if flags[i] {
      forall p | p + needStart <= i && Speech(flags, p, needStart) && !Covered(segs, p, needStart)
        ensures start <= p && p + needStart <= i + 1
      {
      }
    }
  }

  lemma SegmentCloses(flags: seq<bool>, needStart: nat, needEnd: nat, i: nat, run: nat, start: nat, segs: seq<Segment>)
    requires Speaking(flags, needStart, needEnd, i, run, start, segs) && i < |flags|
    requires AllClosed(flags, needStart, needEnd, segs) && !flags[i] && run + 1 == needEnd
    ensures AllClosed(flags, needStart, needEnd, segs + [(start, i - run)])
    ensures Silence(flags, i - run, needEnd)
  {
    hide StartsAt, Speech, Covered;
    var g: Segment := (start, i - run);
    assert Unbroken(flags, needEnd, start, i - run);
    assert Closed(flags, needStart, needEnd, g);
    hide Closed, Unbroken, Silence;
    var all := segs + [g];
    forall a, b | 0 <= a < b < |all|
      ensures all[a].1 + needEnd <= all[b].0
    {
      if b == |segs| {
        EndsRise(flags, needStart, needEnd, segs, a);
      }
    }
  }

  // The last of several closed segments is the one that ends last.
  lemma EndsRise(flags: seq<bool>, needStart: nat, needEnd: nat, segs: seq<Segment>, a: nat)
    requires AllClosed(flags, needStart, needEnd, segs) && a < |segs|
    ensures segs[a].1 <= segs[|segs| - 1].1
  {
    hide StartsAt, Unbroken, Silence;
    var last := |segs| - 1;
    assert Closed(flags, needStart, needEnd, segs[last]);
    assert a < last ==> segs[a].1 + needEnd <= segs[last].0;
  }

  lemma Closes(flags: seq<bool>, needStart: nat, needEnd: nat, i: nat, run: nat, start: nat, segs: seq<Segment>)
    requires Speaking(flags, needStart, needEnd, i, run, start, segs) && i < |flags| && needStart > 0
    requires AllClosed(flags, needStart, needEnd, segs) && !flags[i] && run + 1 == needEnd
    ensures AllClosed(flags, needStart, needEnd, segs + [(start, i - run)])
    ensures Idle(flags, needStart, needEnd, i + 1, 0, segs + [(start, i - run)])
  {
    SegmentCloses(flags, needStart, needEnd, i, run, start, segs);
    hide AllClosed, StartsAt, Unbroken, Silence, Covered;
    var g: Segment := (start, i - run);
    forall p | p + needStart <= i + 1 && Speech(flags, p, needStart)
      ensures Covered(segs + [g], p, needStart)
    {
      assert p + needStart <= i;
      CoveredMore(segs, g, p, needStart);
    }
  }

  lemma EndsIdle(flags: seq<bool>, needStart: nat, needEnd: nat, run: nat, segs: seq<Segment>)
    requires AllClosed(flags, needStart, needEnd, segs) && Idle(flags, needStart, needEnd, |flags|, run, segs)
    ensures IsSegmentation(flags, needStart, needEnd, segs)
  {
    hide Closed, Covered;
  }

  lemma EndsSpeaking(flags: seq<bool>, needStart: nat, needEnd: nat, run: nat, start: nat, segs: seq<Segment>)
    requires AllClosed(flags, needStart, needEnd, segs)
    requires Speaking(flags, needStart, needEnd, |flags|, run, start, segs)
    ensures IsSegmentation(flags, needStart, needEnd, segs + [(start, |flags|)])
  {
    hide StartsAt, Covered, Silence, Unbroken;
    var g: Segment := (start, |flags|);
    var all := segs + [g];
    assert Open(flags, needStart, needEnd, g);
    hide Closed, Open;
    forall a, b | 0 <= a < b < |all|
      ensures all[a].1 + needEnd <= all[b].0
    {
      if b == |segs| {
        EndsRise(flags, needStart, needEnd, segs, a);
      }
    }
    forall p | Speech(flags, p, needStart)
      ensures Covered(all, p, needStart)
    {
      CoveredMore(segs, g, p, needStart);
    }
  }

  /** The loop of the source, then its padding. */
  method Endpoint(flags: seq<bool>, hop: real, startMs: real, endMs: real, padMs: real)
    returns (segs: seq<(real, real)>)
    requires hop != 0.0
    ensures exists raw :: IsSegmentation(flags, Needed(startMs, hop), Needed(endMs, hop), raw)
                          && segs == Padded(raw, hop, padMs / 1000.0)
  {
    hide Idle, Speaking, AllClosed, IsSegmentation;
    var found: seq<Segment> := [];
    var inSpeech, run, start := false, 0, 0;
    var needStart, needEnd := Needed(startMs, hop), Needed(endMs, hop);
    StartsIdle(flags, needStart, needEnd);
    for i := 0 to |flags|
      invariant 0 <= run <= i && start >= 0 && run < (if inSpeech then needEnd else needStart)
      invariant AllClosed(flags, needStart, needEnd, found)
      invariant if inSpeech then Speaking(flags, needStart, needEnd, i, run, start, found)
                else Idle(flags, needStart, needEnd, i, run, found)
    {
      if !inSpeech {
        if flags[i] {
          run := run + 1;
          if run >= needStart {
            Opens(flags, needStart, needEnd, i, run - 1, found);
            inSpeech := true;
            start := i - run + 1;
            run := 0;
          } else {
            IdleHop(flags, needStart, needEnd, i, run - 1, found);
          }
        } else {
          IdleHop(flags, needStart, needEnd, i, run, found);
          run := 0;
        }
      } else {
        if !flags[i] {
          run := run + 1;
          if run >= needEnd {
            Closes(flags, needStart, needEnd, i, run - 1, start, found);
            found := found + [(start, i - run + 1)];
            inSpeech := false;
            run := 0;
          } else {
            SpeakingHop(flags, needStart, needEnd, i, run - 1, start, found);
          }
        } else {
          SpeakingHop(flags, needStart, needEnd, i, run, start, found);
          run := 0;
        }
      }
    }
    if inSpeech {
      EndsSpeaking(flags, needStart, needEnd, run, start, found);
      found := found + [(start, |flags|)];
    } else {
      EndsIdle(flags, needStart, needEnd, run, found);
    }
    segs := Padded(found, hop, padMs / 1000.0);
  }

  // --- padding --------------------------------------------------------------------------

  ghost predicate Disjoint(segs: seq<(real, real)>) {
    forall i, j :: 0 <= i < j < |segs| ==> segs[i].1 <= segs[j].0
  }

  lemma Scaled(a: nat, gap: nat, b: nat, hop: real)
    requires a + gap <= b && hop > 0.0
    ensures a as real * hop + gap as real * hop <= b as real * hop
  {
    assert (b - a - gap) as real * hop >= 0.0;
    assert (b - a - gap) as real == b as real - a as real - gap as real;
  }

  lemma PadsWithinTheHangoverNeverOverlap(needEnd: nat, segs: seq<Segment>, hop: real, pad: real)
    requires Spaced(needEnd, segs) && hop > 0.0 && pad <= needEnd as real * hop
    ensures Disjoint(Padded(segs, hop, pad))
  {
    forall i, j | 0 <= i < j < |segs|
      ensures Padded(segs, hop, pad)[i].1 <= Padded(segs, hop, pad)[j].0
    {
      hide PaddedSegment;
      Apart(segs[i], needEnd, segs[j], hop, pad);
    }
  }

  lemma Apart(a: Segment, needEnd: nat, b: Segment, hop: real, pad: real)
    requires a.1 + needEnd <= b.0 && hop > 0.0 && pad <= needEnd as real * hop
    ensures PaddedSegment(a, hop, pad).1 <= PaddedSegment(b, hop, pad).0
  {
    Scaled(a.1, needEnd, b.0, hop);
  }

  // Two shortest utterances with the shortest gap that keeps them apart.
  function TwoUtterances(needStart: nat, needEnd: nat): seq<bool> {
    seq(needStart + needEnd + needStart, i => i < needStart || needStart + needEnd <= i)
  }

  lemma TwoUtterancesSegments(needStart: nat, needEnd: nat)
    requires needStart > 0 && needEnd > 0
    ensures var n := needStart + needEnd + needStart;
            IsSegmentation(TwoUtterances(needStart, needEnd), needStart, needEnd,
                           [(0, needStart), (needStart + needEnd, n)])
  {
    var flags := TwoUtterances(needStart, needEnd);
    var segs: seq<Segment> := [(0, needStart), (needStart + needEnd, |flags|)];
    assert Closed(flags, needStart, needEnd, segs[0]) by {
      forall p | 0 <= p && p + needEnd <= needStart
        ensures !Silence(flags, p, needEnd)
      {
        assert flags[p];
      }
    }
    assert Open(flags, needStart, needEnd, segs[1]) by {
      forall p | needStart + needEnd <= p && p + needEnd <= |flags|
        ensures !Silence(flags, p, needEnd)
      {
        assert flags[p];
      }
    }
    forall p | Speech(flags, p, needStart)
      ensures Covered(segs, p, needStart)
    {
      assert flags[p] && flags[p + needStart - 1];
      if p == 0 {
        assert segs[0].0 <= p && p + needStart <= segs[0].1;
      } else {
        assert !flags[needStart];
        assert segs[1].0 <= p && p + needStart <= segs[1].1;
      }
    }
  }

  lemma LongerPadsOverlap(needStart: nat, needEnd: nat, hop: real, pad: real)
    requires needStart > 0 && needEnd > 0 && hop > 0.0 && pad > needEnd as real * hop
    ensures !Disjoint(Padded([(0, needStart), (needStart + needEnd, needStart + needEnd + needStart)], hop, pad))
  {
    var out := Padded([(0, needStart), (needStart + needEnd, needStart + needEnd + needStart)], hop, pad);
    var s, e := needStart as real, needEnd as real;
    assert (s + e) * hop == s * hop + e * hop;
    assert s * hop > 0.0;
    assert out[0].1 == s * hop && out[1].0 == Later(0.0, (s + e) * hop - pad);
    assert !(out[0].1 <= out[1].0);
  }

  lemma PaddingIsSafe(flags: seq<bool>, needStart: nat, needEnd: nat, segs: seq<Segment>, hop: real, pad: real)
    requires IsSegmentation(flags, needStart, needEnd, segs) && hop > 0.0 && pad <= needEnd as real * hop
    ensures Disjoint(Padded(segs, hop, pad))
  {
    PadsWithinTheHangoverNeverOverlap(needEnd, segs, hop, pad);
  }

  /** Padding keeps every recording's segments apart exactly when it is no longer
      than the silence that ends one. */
  lemma PaddingIsSafeExactly(needStart: nat, needEnd: nat, hop: real, pad: real)
    requires needStart > 0 && needEnd > 0 && hop > 0.0
    ensures pad <= needEnd as real * hop <==>
            forall flags, segs :: IsSegmentation(flags, needStart, needEnd, segs) ==> Disjoint(Padded(segs, hop, pad))
  {
    hide IsSegmentation, Disjoint, Padded;
    if pad <= needEnd as real * hop {
      forall flags, segs | IsSegmentation(flags, needStart, needEnd, segs)
        ensures Disjoint(Padded(segs, hop, pad))
      {
        PaddingIsSafe(flags, needStart, needEnd, segs, hop, pad);
      }
    } else {
      TwoUtterancesSegments(needStart, needEnd);
      LongerPadsOverlap(needStart, needEnd, hop, pad);
    }
  }

  lemma Above(a: real, b: real, hop: real)
    requires a > b && hop > 0.0
    ensures a * hop > b * hop
  {
    assert (a - b) * hop > 0.0;
  }

  lemma Undone(x: real, hop: real)
    requires hop != 0.0
    ensures x / hop * hop == x
  {
  }

  lemma Less(x: real, hop: real)
    ensures (x - 1.0) * hop == x * hop - hop
  {
  }

  // Rounding the hangover down to whole hops costs less than one hop.
  lemma NeededIsNear(ms: real, hop: real)
    requires hop > 0.0 && ms >= 0.0
    ensures Needed(ms, hop) as real * hop > ms / 1000.0 - hop
  {
    var t := ms / 1000.0;
    var x := t / hop;
    var n := Needed(ms, hop) as real;
    calc {
      n * hop;
    >  { assert n > x - 1.0; Above(n, x - 1.0, hop); }
      (x - 1.0) * hop;
    == { Less(x, hop); }
      x * hop - hop;
    == { Undone(t, hop); }
      t - hop;
    }
  }

  /** So the default 200 ms of pre-roll and 600 ms of hangover are safe at every hop
      of up to 400 ms. */
  lemma DefaultPaddingIsSafe(flags: seq<bool>, hop: real, segs: seq<Segment>)
    requires 0.0 < hop <= 0.4
    requires IsSegmentation(flags, Needed(250.0, hop), Needed(600.0, hop), segs)
    ensures Disjoint(Padded(segs, hop, 0.2))
  {
    NeededIsNear(600.0, hop);
    PaddingIsSafe(flags, Needed(250.0, hop), Needed(600.0, hop), segs, hop, 0.2);
  }
}
