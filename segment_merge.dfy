/** The segment aligner (app/backend/pipeline/steps/merge.py): every
    transcribed segment takes the speaker of the diarized turn it overlaps
    most, the earliest such turn on a tie. */
module SegmentMerge {
  import opened Models
  import opened Seqs

  /** The label given to every segment when diarization produced nothing. */
  const FallbackSpeaker: string := "SPEAKER_00"

  function Max(x: real, y: real): real { if x >= y then x else y }
  function Min(x: real, y: real): real { if x <= y then x else y }

  /** `_overlap`: the length of the common part of two intervals, 0 when
      they do not meet. It is never negative, and positive exactly when both
      intervals are non-empty and each starts before the other ends. */
  function Overlap(aStart: real, aEnd: real, bStart: real, bEnd: real): (o: real)
    ensures o >= 0.0
    ensures o > 0.0 <==> aStart < aEnd && bStart < bEnd && aStart < bEnd && bStart < aEnd
  {
    Max(0.0, Min(aEnd, bEnd) - Max(aStart, bStart))
  }

  /** The overlap does not depend on which interval comes first. */
  lemma OverlapSymmetric(aStart: real, aEnd: real, bStart: real, bEnd: real)
    ensures Overlap(aStart, aEnd, bStart, bEnd) == Overlap(bStart, bEnd, aStart, aEnd)
  {
  }

  function Ov(seg: Segment, turn: Segment): real {
    Overlap(seg.start, seg.end, turn.start, turn.end)
  }

  /** `j` is the lowest index among the diarized turns of greatest overlap
      with `seg`. */
  predicate IsBestIndex(seg: Segment, diarized: seq<Segment>, j: int) {
    0 <= j < |diarized|
    && (forall k :: 0 <= k < |diarized| ==> Ov(seg, diarized[k]) <= Ov(seg, diarized[j]))
    && (forall k :: 0 <= k < j ==> Ov(seg, diarized[k]) < Ov(seg, diarized[j]))
  }

  /** There is only one such index. */
  lemma BestIndexUnique(seg: Segment, diarized: seq<Segment>, i: int, j: int)
    requires IsBestIndex(seg, diarized, i) && IsBestIndex(seg, diarized, j)
    ensures i == j
  {
    assert Ov(seg, diarized[i]) == Ov(seg, diarized[j]);
    assert !(Ov(seg, diarized[i]) < Ov(seg, diarized[j])) && !(Ov(seg, diarized[j]) < Ov(seg, diarized[i]));
  }

  /** The index the source's scan ends on, computed over ever longer
      prefixes of the diarized turns. */
  function BestIndex(seg: Segment, diarized: seq<Segment>): (j: nat)
    requires |diarized| > 0
    ensures IsBestIndex(seg, diarized, j)
    decreases |diarized|
  {
    if |diarized| == 1 then 0
    else
      var n := |diarized| - 1;
      var j := BestIndex(seg, diarized[..n]);
      assert forall k :: 0 <= k < n ==> diarized[..n][k] == diarized[k];
      if Ov(seg, diarized[n]) > Ov(seg, diarized[j]) then n else j
  }

  /** The speaker `merge_segments` gives one transcribed segment. */
  function AlignedSpeaker(seg: Segment, diarized: seq<Segment>): string {
    if diarized == [] then FallbackSpeaker else diarized[BestIndex(seg, diarized)].speaker
  }

  /** `merge_segments` as a function of its inputs: the transcribed segments
      in their order, with only the speaker rewritten. */
  function MergedSegments(diarized: seq<Segment>, transcribed: seq<Segment>): (r: seq<Segment>)
    ensures |r| == |transcribed|
    ensures forall i :: 0 <= i < |r| ==>
              r[i].start == transcribed[i].start && r[i].end == transcribed[i].end
              && r[i].text == transcribed[i].text
  {
    seq(|transcribed|, i requires 0 <= i < |transcribed| =>
      Segment(transcribed[i].start, transcribed[i].end, AlignedSpeaker(transcribed[i], diarized), transcribed[i].text))
  }

  /** With no diarized turns every segment is labelled `SPEAKER_00`. */
  lemma EmptyDiarizationUsesFallback(transcribed: seq<Segment>)
    ensures var r := MergedSegments([], transcribed);
            forall i :: 0 <= i < |r| ==> r[i] == transcribed[i].(speaker := "SPEAKER_00")
  {
  }

  /** Otherwise the speaker is that of the lowest-index turn of greatest
      overlap. */
  lemma SpeakerHasGreatestOverlap(diarized: seq<Segment>, transcribed: seq<Segment>, i: int, j: int)
    requires 0 <= i < |transcribed| && IsBestIndex(transcribed[i], diarized, j)
    ensures MergedSegments(diarized, transcribed)[i].speaker == diarized[j].speaker
  {
    BestIndexUnique(transcribed[i], diarized, j, BestIndex(transcribed[i], diarized));
  }

  /** A segment that meets no turn still gets a speaker: the first turn's. */
  lemma NoOverlapUsesFirstTurn(diarized: seq<Segment>, transcribed: seq<Segment>, i: int)
    requires 0 <= i < |transcribed| && |diarized| > 0
    requires forall k :: 0 <= k < |diarized| ==> Ov(transcribed[i], diarized[k]) == 0.0
    ensures MergedSegments(diarized, transcribed)[i].speaker == diarized[0].speaker
  {
    assert IsBestIndex(transcribed[i], diarized, 0);
    SpeakerHasGreatestOverlap(diarized, transcribed, i, 0);
  }

  /** A segment that meets some turn is given a turn it meets. */
  lemma OverlapUsesOverlappingTurn(diarized: seq<Segment>, transcribed: seq<Segment>, i: int, k: int)
    requires 0 <= i < |transcribed| && 0 <= k < |diarized|
    requires Ov(transcribed[i], diarized[k]) > 0.0
    ensures exists j :: 0 <= j < |diarized| && Ov(transcribed[i], diarized[j]) > 0.0
              && MergedSegments(diarized, transcribed)[i].speaker == diarized[j].speaker
  {
    var j := BestIndex(transcribed[i], diarized);
    assert Ov(transcribed[i], diarized[k]) <= Ov(transcribed[i], diarized[j]);
  }

  /** Two turns A = [0, 5] and B = [5, 10]: [1, 4] is given A, [6, 9] B. */
  lemma TwoTurnsExample()
    ensures var d := [Segment(0.0, 5.0, "A", ""), Segment(5.0, 10.0, "B", "")];
            var t := [Segment(1.0, 4.0, "", "hola"), Segment(6.0, 9.0, "", "adios")];
            var r := MergedSegments(d, t);
            r[0].speaker == "A" && r[1].speaker == "B"
  {
    var d := [Segment(0.0, 5.0, "A", ""), Segment(5.0, 10.0, "B", "")];
    var t := [Segment(1.0, 4.0, "", "hola"), Segment(6.0, 9.0, "", "adios")];
    assert Ov(t[0], d[0]) == 3.0 && Ov(t[0], d[1]) == 0.0;
    assert Ov(t[1], d[0]) == 0.0 && Ov(t[1], d[1]) == 3.0;
    SpeakerHasGreatestOverlap(d, t, 0, 0);
    SpeakerHasGreatestOverlap(d, t, 1, 1);
  }

  /** The inner scan of `merge_segments` over the diarized turns for one
      transcribed segment: it starts from the first turn's speaker with
      overlap 0 and replaces the best so far only on a strictly greater
      overlap. */
  method BestSpeaker(seg: Segment, diarized: seq<Segment>) returns (bestSpeaker: string)
    requires diarized != []
    ensures bestSpeaker == AlignedSpeaker(seg, diarized)
  {
    bestSpeaker := diarized[0].speaker;
    var bestOverlap := 0.0;
    ghost var best := 0;
    var k := 0;
    while k < |diarized|
      invariant 0 <= k <= |diarized|
      invariant 0 <= best < |diarized| && bestSpeaker == diarized[best].speaker
      invariant bestOverlap >= 0.0
      invariant k == 0 ==> best == 0 && bestOverlap == 0.0
      invariant k > 0 ==> best < k && bestOverlap == Ov(seg, diarized[best])
      invariant forall m :: 0 <= m < k ==> Ov(seg, diarized[m]) <= bestOverlap
      invariant forall m :: 0 <= m < best ==> Ov(seg, diarized[m]) < bestOverlap
    {
      var overlap := Overlap(seg.start, seg.end, diarized[k].start, diarized[k].end);
      assert overlap == Ov(seg, diarized[k]) && overlap >= 0.0;
      if overlap > bestOverlap {
        bestOverlap := overlap;
        bestSpeaker := diarized[k].speaker;
        best := k;
      }
      k := k + 1;
    }
    BestIndexUnique(seg, diarized, best, BestIndex(seg, diarized));
  }

  /** `merge_segments`: the fallback comprehension, or for each transcribed
      segment the scan above. */
  method MergeSegments(diarized: seq<Segment>, transcribed: seq<Segment>) returns (merged: seq<Segment>)
    ensures merged == MergedSegments(diarized, transcribed)
  {
    if diarized == [] {
      merged := seq(|transcribed|, i requires 0 <= i < |transcribed| =>
        Segment(transcribed[i].start, transcribed[i].end, FallbackSpeaker, transcribed[i].text));
      return;
    }
    merged := [];
    var i := 0;
    while i < |transcribed|
      invariant 0 <= i <= |transcribed|
      invariant merged == MergedSegments(diarized, transcribed)[..i]
    {
      var seg := transcribed[i];
      var speaker := BestSpeaker(seg, diarized);
      TakeOneMore(MergedSegments(diarized, transcribed), i);
      merged := merged + [Segment(seg.start, seg.end, speaker, seg.text)];
      i := i + 1;
    }
    TakeAll(MergedSegments(diarized, transcribed));
  }
}
