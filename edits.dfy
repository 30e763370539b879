/** The transcript edit engine (app/backend/pipeline/steps/edits.py): an
    ordered list of user corrections, each applied to the output of the one
    before it. Each action has a specification function over the segment
    list and a method with the loop the source runs. */
module Edits {
  import opened Wrappers
  import opened Models
  import Strings
  import opened Seqs

  /** One entry of the edits list, by its `action` tag, with the fields
      that action reads taken to be present and of the right type. `Other`
      is a missing action or one that is none of `rename`, `assign`,
      `split` and `merge` (`WellTagged`). */
  datatype Edit =
    | Rename(oldSpeaker: string, renamedTo: string)
    | Assign(start: real, end: real, speaker: string)
    | SplitAt(time: real, newSpeaker: Option<string>)
    | MergeRange(start: real, end: real)
    | Other(action: Option<string>)

  /** The four tags `apply_edits` acts on. */
  const Actions: set<string> := {"rename", "assign", "split", "merge"}

  /** An `Other` entry stands for an action the dispatch ignores. */
  predicate WellTagged(e: Edit) {
    e.Other? ==> e.action.None? || e.action.value !in Actions
  }

  /** The segment lies inside the window `[lo, hi]` (both ends inclusive). */
  predicate Within(s: Segment, lo: real, hi: real) {
    s.start >= lo && s.end <= hi
  }

  /** The segment strictly contains the instant `t`. */
  predicate Contains(s: Segment, t: real) {
    s.start < t < s.end
  }

  // ---------------------------------------------------------------- rename

  /** `rename`: every segment spoken by `oldSpeaker` is relabelled
      `newSpeaker`; nothing else changes. */
  function RenameAll(segs: seq<Segment>, oldSpeaker: string, newSpeaker: string): (r: seq<Segment>)
    ensures |r| == |segs|
    ensures forall k :: 0 <= k < |segs| ==>
              r[k] == if segs[k].speaker == oldSpeaker then segs[k].(speaker := newSpeaker) else segs[k]
  {
    if segs == [] then []
    else
      [if segs[0].speaker == oldSpeaker then segs[0].(speaker := newSpeaker) else segs[0]]
        + RenameAll(segs[1..], oldSpeaker, newSpeaker)
  }

  /** The relabelling loop of `rename`, updating one segment at a time. */
  method Rename(segs: seq<Segment>, oldSpeaker: string, newSpeaker: string) returns (r: seq<Segment>)
    ensures r == RenameAll(segs, oldSpeaker, newSpeaker)
  {
    r := segs;
    var i := 0;
    while i < |r|
      invariant 0 <= i <= |r| == |segs|
      invariant forall k :: 0 <= k < i ==>
                  r[k] == if segs[k].speaker == oldSpeaker then segs[k].(speaker := newSpeaker) else segs[k]
      invariant forall k :: i <= k < |r| ==> r[k] == segs[k]
    {
      if r[i].speaker == oldSpeaker {
        r := r[i := r[i].(speaker := newSpeaker)];
      }
      i := i + 1;
    }
  }

  // ---------------------------------------------------------------- assign

  /** `assign`: every segment lying fully inside `[lo, hi]` is relabelled;
      a segment that only partly overlaps the window is left alone. */
  function AssignAll(segs: seq<Segment>, lo: real, hi: real, speaker: string): (r: seq<Segment>)
    ensures |r| == |segs|
    ensures forall k :: 0 <= k < |segs| ==>
              r[k] == if Within(segs[k], lo, hi) then segs[k].(speaker := speaker) else segs[k]
  {
    if segs == [] then []
    else
      [if Within(segs[0], lo, hi) then segs[0].(speaker := speaker) else segs[0]]
        + AssignAll(segs[1..], lo, hi, speaker)
  }

  /** The relabelling loop of `assign`. */
  method Assign(segs: seq<Segment>, lo: real, hi: real, speaker: string) returns (r: seq<Segment>)
    ensures r == AssignAll(segs, lo, hi, speaker)
  {
    r := segs;
    var i := 0;
    while i < |r|
      invariant 0 <= i <= |r| == |segs|
      invariant forall k :: 0 <= k < i ==>
                  r[k] == if Within(segs[k], lo, hi) then segs[k].(speaker := speaker) else segs[k]
      invariant forall k :: i <= k < |r| ==> r[k] == segs[k]
    {
      if r[i].start >= lo && r[i].end <= hi {
        r := r[i := r[i].(speaker := speaker)];
      }
      i := i + 1;
    }
  }

  // ----------------------------------------------------------------- split

  /** `speaker or segment.speaker`: a missing or empty speaker falls back. */
  function SecondHalfSpeaker(speaker: Option<string>, original: string): string {
    if speaker.Some? && speaker.value != "" then speaker.value else original
  }

  /** What `split` makes of one segment: two halves meeting at `t`, both with
      the full original text, or the segment itself. */
  function SplitOne(s: Segment, t: real, speaker: Option<string>): seq<Segment> {
    if Contains(s, t) then
      [Segment(s.start, t, s.speaker, s.text), Segment(t, s.end, SecondHalfSpeaker(speaker, s.speaker), s.text)]
    else [s]
  }

  /** How many segments strictly contain `t`. */
  function CountContaining(segs: seq<Segment>, t: real): (n: nat)
    ensures n <= |segs|
  {
    if segs == [] then 0 else (if Contains(segs[0], t) then 1 else 0) + CountContaining(segs[1..], t)
  }

  /** `split`: the pieces of every segment, in order. */
  function SplitAll(segs: seq<Segment>, t: real, speaker: Option<string>): seq<Segment> {
    if segs == [] then [] else SplitOne(segs[0], t, speaker) + SplitAll(segs[1..], t, speaker)
  }

  /** The result is longer than the input by the number of segments that
      contain `t`. */
  lemma {:induction false} SplitAllLength(segs: seq<Segment>, t: real, speaker: Option<string>)
    ensures |SplitAll(segs, t, speaker)| == |segs| + CountContaining(segs, t)
  {
    if segs != [] {
      SplitAllLength(segs[1..], t, speaker);
    }
  }

  /** Splitting a concatenation splits its parts. */
  lemma {:induction false} SplitAllAppend(a: seq<Segment>, b: seq<Segment>, t: real, speaker: Option<string>)
    ensures SplitAll(a + b, t, speaker) == SplitAll(a, t, speaker) + SplitAll(b, t, speaker)
  {
    if a == [] {
      assert a + b == b;
    } else {
      var ab := a + b;
      assert ab[0] == a[0] && ab[1..] == a[1..] + b;
      SplitAllAppend(a[1..], b, t, speaker);
      var p := SplitOne(a[0], t, speaker);
      calc {
        SplitAll(ab, t, speaker);
        p + SplitAll(a[1..] + b, t, speaker);
        p + (SplitAll(a[1..], t, speaker) + SplitAll(b, t, speaker));
        (p + SplitAll(a[1..], t, speaker)) + SplitAll(b, t, speaker);
      }
    }
  }

  /** Counting over a concatenation adds the counts of its parts. */
  lemma {:induction false} CountContainingAppend(a: seq<Segment>, b: seq<Segment>, t: real)
    ensures CountContaining(a + b, t) == CountContaining(a, t) + CountContaining(b, t)
  {
    if a == [] {
      assert a + b == b;
    } else {
      assert (a + b)[0] == a[0] && (a + b)[1..] == a[1..] + b;
      CountContainingAppend(a[1..], b, t);
    }
  }

  /** Segment `i` of the input reappears, as its pieces, at position
      `i + (number of earlier segments that were split)` of the output: a
      containing segment as its two halves, any other segment unchanged,
      and all of them in their original relative order. */
  lemma SplitPlacesPieces(segs: seq<Segment>, t: real, speaker: Option<string>, i: nat)
    requires i < |segs|
    ensures var o := i + CountContaining(segs[..i], t);
            var p := SplitOne(segs[i], t, speaker);
            o + |p| <= |SplitAll(segs, t, speaker)| && SplitAll(segs, t, speaker)[o..o + |p|] == p
  {
    assert segs == segs[..i] + [segs[i]] + segs[i + 1..];
    SplitAllAppend(segs[..i] + [segs[i]], segs[i + 1..], t, speaker);
    SplitAllAppend(segs[..i], [segs[i]], t, speaker);
    SplitAllLength(segs[..i], t, speaker);
    assert SplitAll([segs[i]], t, speaker) == SplitOne(segs[i], t, speaker);
  }

  /** A split at an instant no segment contains changes nothing. */
  lemma {:induction false} SplitOutsideIsIdentity(segs: seq<Segment>, t: real, speaker: Option<string>)
    requires forall k :: 0 <= k < |segs| ==> !Contains(segs[k], t)
    ensures SplitAll(segs, t, speaker) == segs
  {
    if segs != [] {
      SplitOutsideIsIdentity(segs[1..], t, speaker);
    }
  }

  /** One more input segment adds its pieces at the end. */
  lemma SplitStep(segs: seq<Segment>, i: nat, t: real, speaker: Option<string>)
    requires i < |segs|
    ensures SplitAll(segs[..i + 1], t, speaker) == SplitAll(segs[..i], t, speaker) + SplitOne(segs[i], t, speaker)
  {
    assert segs[..i + 1] == segs[..i] + [segs[i]];
    SplitAllAppend(segs[..i], [segs[i]], t, speaker);
  }

  /** The list-building loop of `split`. */
  method Split(segs: seq<Segment>, t: real, speaker: Option<string>) returns (updated: seq<Segment>)
    ensures updated == SplitAll(segs, t, speaker)
  {
    updated := [];
    var i := 0;
    while i < |segs|
      invariant 0 <= i <= |segs|
      invariant updated == SplitAll(segs[..i], t, speaker)
    {
      var s := segs[i];
      ghost var before := updated;
      if s.start < t < s.end {
        updated := updated + [Segment(s.start, t, s.speaker, s.text)];
        updated := updated + [Segment(t, s.end, SecondHalfSpeaker(speaker, s.speaker), s.text)];
      } else {
        updated := updated + [s];
      }
      assert updated == before + SplitOne(s, t, speaker);
      SplitStep(segs, i, t, speaker);
      i := i + 1;
    }
    assert segs[..i] == segs;
  }

  // ----------------------------------------------------------------- merge

  function Texts(buffer: seq<Segment>): (ts: seq<string>)
    ensures |ts| == |buffer| && forall k :: 0 <= k < |buffer| ==> ts[k] == buffer[k].text
  {
    seq(|buffer|, k requires 0 <= k < |buffer| => buffer[k].text)
  }

  /** `_merge_buffer`: one segment from the first start to the last end,
      spoken by the first speaker, its text the texts joined by one space. */
  function MergeBuffer(buffer: seq<Segment>): (m: Segment)
    requires buffer != []
    ensures m.start == buffer[0].start && m.end == buffer[|buffer| - 1].end
    ensures m.speaker == buffer[0].speaker
    ensures m.text == Strings.Join(Texts(buffer), " ")
  {
    Segment(buffer[0].start, buffer[|buffer| - 1].end, buffer[0].speaker, Strings.Join(Texts(buffer), " "))
  }

  /** Emptying the buffer: its merge, if it holds anything. */
  function Flush(buffer: seq<Segment>): seq<Segment> {
    if buffer == [] then [] else [MergeBuffer(buffer)]
  }

  /** `merge` from some point of its loop on, with `buffer` the run of
      in-window segments collected so far. An out-of-window segment ends the
      run and is kept; the output is never longer than the input. */
  function MergeFrom(segs: seq<Segment>, lo: real, hi: real, buffer: seq<Segment>): seq<Segment>
    decreases |segs|
  {
    if segs == [] then Flush(buffer)
    else if Within(segs[0], lo, hi) then MergeFrom(segs[1..], lo, hi, buffer + [segs[0]])
    else Flush(buffer) + [segs[0]] + MergeFrom(segs[1..], lo, hi, [])
  }

  /** `merge` over the window `[lo, hi]`. */
  function MergeAll(segs: seq<Segment>, lo: real, hi: real): seq<Segment> {
    MergeFrom(segs, lo, hi, [])
  }

  /** Merging never lengthens the list: a run becomes one segment, an
      out-of-window segment is kept. */
  lemma {:induction false} MergeFromLength(segs: seq<Segment>, lo: real, hi: real, buffer: seq<Segment>)
    ensures |MergeFrom(segs, lo, hi, buffer)| <= |segs| + |Flush(buffer)|
    decreases |segs|
  {
    if segs != [] {
      if Within(segs[0], lo, hi) {
        MergeFromLength(segs[1..], lo, hi, buffer + [segs[0]]);
      } else {
        MergeFromLength(segs[1..], lo, hi, []);
      }
    }
  }

  /** An out-of-window segment stays where it is and separates runs: what
      comes before it and what comes after it are merged independently. */
  lemma {:induction false} MergeBreaksAtOutside(a: seq<Segment>, x: Segment, b: seq<Segment>, lo: real, hi: real, buffer: seq<Segment>)
    requires !Within(x, lo, hi)
    ensures MergeFrom(a + [x] + b, lo, hi, buffer) == MergeFrom(a, lo, hi, buffer) + [x] + MergeFrom(b, lo, hi, [])
    decreases |a|
  {
    var whole := a + [x] + b;
    if a == [] {
      assert whole == [x] + b && whole[0] == x && whole[1..] == b;
      assert MergeFrom(whole, lo, hi, buffer) == Flush(buffer) + [x] + MergeFrom(b, lo, hi, []);
    } else {
      var rest := a[1..] + [x] + b;
      assert whole[0] == a[0] && whole[1..] == rest;
      if Within(a[0], lo, hi) {
        MergeBreaksAtOutside(a[1..], x, b, lo, hi, buffer + [a[0]]);
        assert MergeFrom(whole, lo, hi, buffer) == MergeFrom(rest, lo, hi, buffer + [a[0]]);
        assert MergeFrom(a, lo, hi, buffer) == MergeFrom(a[1..], lo, hi, buffer + [a[0]]);
      } else {
        MergeBreaksAtOutside(a[1..], x, b, lo, hi, []);
        assert MergeFrom(whole, lo, hi, buffer) == Flush(buffer) + [a[0]] + MergeFrom(rest, lo, hi, []);
        assert MergeFrom(a, lo, hi, buffer) == Flush(buffer) + [a[0]] + MergeFrom(a[1..], lo, hi, []);
      }
    }
  }

  /** A run of in-window segments becomes the one segment `_merge_buffer`
      makes of it. */
  lemma {:induction false} MergeCollapsesRun(a: seq<Segment>, lo: real, hi: real, buffer: seq<Segment>)
    requires forall k :: 0 <= k < |a| ==> Within(a[k], lo, hi)
    requires buffer + a != []
    ensures MergeFrom(a, lo, hi, buffer) == [MergeBuffer(buffer + a)]
    decreases |a|
  {
    if a == [] {
      assert buffer + a == buffer;
    } else {
      assert buffer + a == (buffer + [a[0]]) + a[1..];
      MergeCollapsesRun(a[1..], lo, hi, buffer + [a[0]]);
    }
  }

  /** A window that contains no segment changes nothing. */
  lemma {:induction false} MergeOutsideIsIdentity(segs: seq<Segment>, lo: real, hi: real)
    requires forall k :: 0 <= k < |segs| ==> !Within(segs[k], lo, hi)
    ensures MergeAll(segs, lo, hi) == segs
  {
    if segs != [] {
      MergeOutsideIsIdentity(segs[1..], lo, hi);
    }
  }

  /** One step of the merge loop at position `i`. */
  lemma MergeStep(segs: seq<Segment>, i: nat, lo: real, hi: real, buffer: seq<Segment>)
    requires i < |segs|
    ensures Within(segs[i], lo, hi) ==>
              MergeFrom(segs[i..], lo, hi, buffer) == MergeFrom(segs[i + 1..], lo, hi, buffer + [segs[i]])
    ensures !Within(segs[i], lo, hi) ==>
              MergeFrom(segs[i..], lo, hi, buffer) == Flush(buffer) + [segs[i]] + MergeFrom(segs[i + 1..], lo, hi, [])
  {
    assert segs[i..][0] == segs[i] && segs[i..][1..] == segs[i + 1..];
  }

  /** The run-collapsing loop of `merge`, with its `merged` and `buffer`
      lists. */
  method Merge(segs: seq<Segment>, lo: real, hi: real) returns (merged: seq<Segment>)
    ensures merged == MergeAll(segs, lo, hi)
  {
    merged := [];
    var buffer: seq<Segment> := [];
    var i := 0;
    while i < |segs|
      invariant 0 <= i <= |segs|
      invariant merged + MergeFrom(segs[i..], lo, hi, buffer) == MergeAll(segs, lo, hi)
    {
      var s := segs[i];
      MergeStep(segs, i, lo, hi, buffer);
      if s.start >= lo && s.end <= hi {
        buffer := buffer + [s];
      } else {
        ghost var m0, b0 := merged, buffer;
        ghost var tail := MergeFrom(segs[i + 1..], lo, hi, []);
        if buffer != [] {
          merged := merged + [MergeBuffer(buffer)];
          buffer := [];
        }
        merged := merged + [s];
        assert merged == m0 + Flush(b0) + [s];
        Regroup(m0, Flush(b0), [s], tail);
      }
      i := i + 1;
    }
    assert segs[i..] == [];
    if buffer != [] {
      merged := merged + [MergeBuffer(buffer)];
    }
  }

  // ----------------------------------------------------------- composition

  /** One edit. An unknown or missing action leaves the list as it was. */
  function ApplyEdit(segs: seq<Segment>, e: Edit): seq<Segment> {
    match e
    case Rename(o, n) => RenameAll(segs, o, n)
    case Assign(lo, hi, sp) => AssignAll(segs, lo, hi, sp)
    case SplitAt(t, sp) => SplitAll(segs, t, sp)
    case MergeRange(lo, hi) => MergeAll(segs, lo, hi)
    case Other(_) => segs
  }

  /** Relabelling keeps the length, a split never shortens the list, a
      merge never lengthens it, and an unknown action changes nothing. */
  lemma ApplyEditLength(segs: seq<Segment>, e: Edit)
    ensures var r := ApplyEdit(segs, e);
            ((e.Rename? || e.Assign?) ==> |r| == |segs|)
            && (e.SplitAt? ==> |r| >= |segs|)
            && (e.MergeRange? ==> |r| <= |segs|)
            && (e.Other? ==> r == segs)
  {
    match e
    case SplitAt(t, sp) => SplitAllLength(segs, t, sp);
    case MergeRange(lo, hi) => MergeFromLength(segs, lo, hi, []);
    case _ =>
  }

  /** `apply_edits` on the segment list: the edits in list order, each on the
      output of the previous one. */
  function ApplyAll(segs: seq<Segment>, edits: seq<Edit>): seq<Segment>
    decreases |edits|
  {
    if edits == [] then segs else ApplyAll(ApplyEdit(segs, edits[0]), edits[1..])
  }

  /** Applying two lists one after the other is applying their concatenation. */
  lemma {:induction false} ApplyAllAppend(segs: seq<Segment>, first: seq<Edit>, second: seq<Edit>)
    ensures ApplyAll(segs, first + second) == ApplyAll(ApplyAll(segs, first), second)
    decreases |first|
  {
    if first == [] {
      assert first + second == second;
    } else {
      assert (first + second)[1..] == first[1..] + second;
      ApplyAllAppend(ApplyEdit(segs, first[0]), first[1..], second);
    }
  }

  /** `apply_edits`: a fresh transcript holding the edited copy of the
      segments; the loop dispatches on each edit's action. */
  method ApplyEdits(transcript: Transcript, edits: seq<Edit>) returns (r: Transcript)
    ensures r.segments == ApplyAll(transcript.segments, edits)
  {
    var segments := transcript.segments;
    var i := 0;
    while i < |edits|
      invariant 0 <= i <= |edits|
      invariant segments == ApplyAll(transcript.segments, edits[..i])
    {
      match edits[i] {
        case Rename(o, n) => segments := Rename(segments, o, n);
        case Assign(lo, hi, sp) => segments := Assign(segments, lo, hi, sp);
        case SplitAt(t, sp) => segments := Split(segments, t, sp);
        case MergeRange(lo, hi) => segments := Merge(segments, lo, hi);
        case Other(_) =>
      }
      assert edits[..i + 1] == edits[..i] + [edits[i]];
      ApplyAllAppend(transcript.segments, edits[..i], [edits[i]]);
      i := i + 1;
    }
    assert edits[..i] == edits;
    r := Transcript(segments);
  }

  /** Splitting one segment `[0, 10]` at 5 and then merging `[0, 10]` gives
      back one segment `[0, 10]` with the first speaker, whose text is the
      original text twice, joined by a space (split copies the text into
      both halves). */
  lemma SplitThenMergeDoublesText(speaker: string, text: string, second: Option<string>)
    ensures ApplyAll([Segment(0.0, 10.0, speaker, text)], [SplitAt(5.0, second), MergeRange(0.0, 10.0)])
            == [Segment(0.0, 10.0, speaker, text + " " + text)]
  {
    var s := Segment(0.0, 10.0, speaker, text);
    var halves := SplitOne(s, 5.0, second);
    assert SplitAll([s], 5.0, second) == halves;
    MergeCollapsesRun(halves, 0.0, 10.0, []);
    assert [] + halves == halves;
    assert Texts(halves) == [text, text];
    assert Strings.Join([text, text], " ") == text + " " + text by {
      assert [text, text][1..] == [text];
    }
    var edits := [SplitAt(5.0, second), MergeRange(0.0, 10.0)];
    assert edits[1..] == [MergeRange(0.0, 10.0)];
    assert ApplyAll([s], edits) == ApplyAll(halves, [MergeRange(0.0, 10.0)]);
    assert ApplyAll(halves, [MergeRange(0.0, 10.0)]) == ApplyAll(MergeAll(halves, 0.0, 10.0), []);
  }
}
