/** The export and edit-overlay logic of the jobs API
    (app/backend/api/routes_jobs.py): the rows of the claims CSV, the lines
    of the SubRip and WebVTT transcripts, and the saved edits that a result
    read applies. */
module Routes {
  import opened Wrappers
  import opened Strings
  import opened Models
  import opened TimeFormat
  import opened Edits
  import opened Seqs

  // ------------------------------------------------------------------ CSV

  /** A CSV cell before `csv.writer` turns it into text. */
  datatype Cell = Text(text: string) | Number(x: real)

  const CsvHeader: seq<Cell> := [Text("claim_id"), Text("speaker"), Text("start"), Text("end"), Text("text")]

  function ClaimRow(c: Claim): seq<Cell> {
    [Text(c.id), Text(c.speaker), Number(c.start), Number(c.end), Text(c.text)]
  }

  /** The rows `_export_csv` writes after the header. */
  function ClaimRows(claims: seq<Claim>): seq<seq<Cell>> {
    if claims == [] then [] else [ClaimRow(claims[0])] + ClaimRows(claims[1..])
  }

  /** The header, then one row per claim, in claim order. */
  lemma {:induction false} ClaimRowsLayout(claims: seq<Claim>)
    ensures |ClaimRows(claims)| == |claims|
    ensures forall i :: 0 <= i < |claims| ==> ClaimRows(claims)[i] == ClaimRow(claims[i])
  {
    if claims != [] {
      ClaimRowsLayout(claims[1..]);
      forall i | 0 < i < |claims| ensures ClaimRows(claims)[i] == ClaimRow(claims[i]) {
        assert claims[1..][i - 1] == claims[i];
      }
    }
  }

  /** `_export_csv`: the header row, then a loop writing one row per claim. */
  method ExportCsv(result: JobResult) returns (rows: seq<seq<Cell>>)
    ensures rows == [CsvHeader] + ClaimRows(result.claims)
  {
    rows := [CsvHeader];
    var claims := result.claims;
    var i := 0;
    while i < |claims|
      invariant 0 <= i <= |claims|
      invariant rows + ClaimRows(claims[i..]) == [CsvHeader] + ClaimRows(claims)
    {
      assert claims[i..][1..] == claims[i + 1..];
      var claim := claims[i];
      rows := rows + [[Text(claim.id), Text(claim.speaker), Number(claim.start), Number(claim.end), Text(claim.text)]];
      i := i + 1;
    }
    assert claims[i..] == [];
    assert rows + [] == rows;
  }

  /** The repository's CSV example: one claim `Hay 3 millones` gives the
      header row and a row holding that text. */
  lemma CsvExample()
    ensures var c := Claim("c1", "S1", 0.0, 1.0, "Hay 3 millones", "statement", 0.5, None, None);
            var rows := [CsvHeader] + ClaimRows([c]);
            |rows| == 2 && Text("claim_id") in rows[0] && Text("Hay 3 millones") in rows[1]
  {
    var c := Claim("c1", "S1", 0.0, 1.0, "Hay 3 millones", "statement", 0.5, None, None);
    assert ClaimRows([c]) == [ClaimRow(c)] + ClaimRows([c][1..]);
    assert [c][1..] == [];
    assert ClaimRow(c)[4] == Text("Hay 3 millones");
  }

  // ------------------------------------------------------- subtitle lines

  /** The blocks of lines, one after another. */
  function Flatten<T>(blocks: seq<seq<T>>): seq<T> {
    if blocks == [] then [] else Flatten(blocks[..|blocks| - 1]) + blocks[|blocks| - 1]
  }

  /** Blocks of `w` lines each give `w` lines per block. */
  lemma {:induction false} FlattenLength<T>(blocks: seq<seq<T>>, w: nat)
    requires forall i :: 0 <= i < |blocks| ==> |blocks[i]| == w
    ensures |Flatten(blocks)| == w * |blocks|
  {
    if blocks != [] {
      var n := |blocks| - 1;
      FlattenLength(blocks[..n], w);
      MulSucc(w, n);
    }
  }

  lemma MulSucc(w: nat, n: nat)
    ensures w * (n + 1) == w * n + w
  {
  }

  lemma SliceOfPrefix<T>(a: seq<T>, b: seq<T>, i: nat, j: nat)
    requires i <= j <= |a|
    ensures (a + b)[i..j] == a[i..j]
  {
  }

  /** Blocks of `w` lines each: block `i` is lines `w i` to `w i + w - 1`. */
  lemma {:induction false} FlattenBlock<T>(blocks: seq<seq<T>>, w: nat, i: nat)
    requires forall k :: 0 <= k < |blocks| ==> |blocks[k]| == w
    requires i < |blocks|
    ensures w * i + w <= |Flatten(blocks)|
    ensures Flatten(blocks)[w * i..w * i + w] == blocks[i]
  {
    var n := |blocks| - 1;
    var init := blocks[..n];
    FlattenLength(init, w);
    assert Flatten(blocks) == Flatten(init) + blocks[n];
    if i < n {
      FlattenBlock(init, w, i);
      SliceOfPrefix(Flatten(init), blocks[n], w * i, w * i + w);
      assert init[i] == blocks[i];
    } else {
      assert w * i == w * |init|;
    }
  }

  /** Line `k` of block `i`, after `h` header lines, is line `j`. */
  lemma LineOfBlock<T>(h: seq<T>, blocks: seq<seq<T>>, w: nat, i: nat, k: nat, j: nat)
    requires forall b :: 0 <= b < |blocks| ==> |blocks[b]| == w
    requires i < |blocks| && k < w && j == |h| + w * i + k
    ensures |h + Flatten(blocks)| == |h| + w * |blocks|
    ensures j < |h + Flatten(blocks)| && (h + Flatten(blocks))[j] == blocks[i][k]
  {
    FlattenLength(blocks, w);
    FlattenBlock(blocks, w, i);
    assert Flatten(blocks)[w * i..w * i + w][k] == blocks[i][k];
  }

  /** Appending a block, after `h` header lines, appends its lines. */
  lemma FlattenAppend<T>(h: seq<T>, blocks: seq<seq<T>>, b: seq<T>)
    ensures h + Flatten(blocks + [b]) == h + Flatten(blocks) + b
  {
    assert (blocks + [b])[..|blocks|] == blocks;
  }

  /** The SubRip cue of segment `s`, numbered `idx`. */
  function SrtCue(idx: nat, s: Segment): seq<string> {
    [NatToString(idx), SecondsToTimestamp(s.start) + " --> " + SecondsToTimestamp(s.end), s.speaker + ": " + s.text, ""]
  }

  /** The cues of `_export_srt`, numbered from 1. */
  function SrtCues(segs: seq<Segment>): (cues: seq<seq<string>>)
    ensures |cues| == |segs|
    ensures forall i :: 0 <= i < |segs| ==> cues[i] == SrtCue(i + 1, segs[i])
  {
    seq(|segs|, i requires 0 <= i < |segs| => SrtCue(i + 1, segs[i]))
  }

  /** The lines of the SubRip file. */
  function SrtLines(segs: seq<Segment>): seq<string> {
    Flatten(SrtCues(segs))
  }

  /** Four lines per segment: its 1-based number, which reads back as that
      number; its SubRip timing, whose first stamp reads back as the
      segment's start clock; the speaker and the text; and an empty line. */
  lemma SrtLinesLayout(segs: seq<Segment>, i: nat)
    requires i < |segs|
    ensures var l, s := SrtLines(segs), segs[i];
            |l| == 4 * |segs|
            && l[4 * i] == NatToString(i + 1) && DigitsToNat(l[4 * i]) == i + 1
            && l[4 * i + 1] == SecondsToTimestamp(s.start) + " --> " + SecondsToTimestamp(s.end)
            && (s.start >= 0.0 ==> ParseTimestamp(SecondsToTimestamp(s.start), ',') == Some(ClockOf(s.start)))
            && l[4 * i + 2] == s.speaker + ": " + s.text
            && l[4 * i + 3] == ""
  {
    SrtCueLines(segs, i);
    NatToStringRoundTrip(i + 1);
    if segs[i].start >= 0.0 {
      TimestampRoundTrip(segs[i].start);
    }
  }

  lemma SrtCueLines(segs: seq<Segment>, i: nat)
    requires i < |segs|
    ensures var l, cue := SrtLines(segs), SrtCue(i + 1, segs[i]);
            |l| == 4 * |segs| && l[4 * i] == cue[0] && l[4 * i + 1] == cue[1]
            && l[4 * i + 2] == cue[2] && l[4 * i + 3] == cue[3]
  {
    var cues := SrtCues(segs);
    LineOfBlock([], cues, 4, i, 0, 4 * i);
    LineOfBlock([], cues, 4, i, 1, 4 * i + 1);
    LineOfBlock([], cues, 4, i, 2, 4 * i + 2);
    LineOfBlock([], cues, 4, i, 3, 4 * i + 3);
    assert [] + Flatten(cues) == SrtLines(segs);
  }

  /** `_export_srt`: a loop appending the four lines of each segment, then
      the lines joined by newlines. */
  method ExportSrt(result: JobResult) returns (text: string)
    ensures text == Join(SrtLines(result.transcript.segments), "\n")
  {
    var segs := result.transcript.segments;
    ghost var cues := SrtCues(segs);
    var lines: seq<string> := [];
    var i := 0;
    while i < |segs|
      invariant 0 <= i <= |segs|
      invariant lines == Flatten(cues[..i])
    {
      var segment := segs[i];
      TakeOneMore(cues, i);
      FlattenAppend([], cues[..i], cues[i]);
      lines := lines + [NatToString(i + 1), SecondsToTimestamp(segment.start) + " --> " + SecondsToTimestamp(segment.end),
                        segment.speaker + ": " + segment.text, ""];
      i := i + 1;
    }
    assert cues[..i] == cues;
    text := Join(lines, "\n");
  }

  /** The WebVTT cue of segment `s`. */
  function VttCue(s: Segment): seq<string> {
    [SecondsToVtt(s.start) + " --> " + SecondsToVtt(s.end), s.speaker + ": " + s.text, ""]
  }

  function VttCues(segs: seq<Segment>): (cues: seq<seq<string>>)
    ensures |cues| == |segs|
    ensures forall i :: 0 <= i < |segs| ==> cues[i] == VttCue(segs[i])
  {
    seq(|segs|, i requires 0 <= i < |segs| => VttCue(segs[i]))
  }

  /** The header lines. */
  const VttHeader: seq<string> := ["WEBVTT", ""]

  /** The lines of the WebVTT file. */
  function VttLines(segs: seq<Segment>): seq<string> {
    VttHeader + Flatten(VttCues(segs))
  }

  /** `WEBVTT` and an empty line, then three lines per segment: its WebVTT
      timing, the speaker and the text, and an empty line. */
  lemma VttLinesLayout(segs: seq<Segment>, i: nat)
    requires i < |segs|
    ensures var l, s := VttLines(segs), segs[i];
            |l| == 2 + 3 * |segs| && l[0] == "WEBVTT" && l[1] == ""
            && l[2 + 3 * i] == SecondsToVtt(s.start) + " --> " + SecondsToVtt(s.end)
            && l[2 + 3 * i + 1] == s.speaker + ": " + s.text
            && l[2 + 3 * i + 2] == ""
  {
    VttHeaderLines(segs);
    VttCueLines(segs, i);
  }

  lemma VttHeaderLines(segs: seq<Segment>)
    ensures var l := VttLines(segs);
            |l| == 2 + 3 * |segs| && l[0] == "WEBVTT" && l[1] == ""
  {
    FlattenLength(VttCues(segs), 3);
  }

  lemma VttCueLines(segs: seq<Segment>, i: nat)
    requires i < |segs|
    ensures var l, cue := VttLines(segs), VttCue(segs[i]);
            2 + 3 * i + 2 < |l| && l[2 + 3 * i] == cue[0] && l[2 + 3 * i + 1] == cue[1] && l[2 + 3 * i + 2] == cue[2]
  {
    var cues := VttCues(segs);
    LineOfBlock(VttHeader, cues, 3, i, 0, 2 + 3 * i);
    LineOfBlock(VttHeader, cues, 3, i, 1, 2 + 3 * i + 1);
    LineOfBlock(VttHeader, cues, 3, i, 2, 2 + 3 * i + 2);
  }

  /** A WebVTT cue has the SubRip cue's caption and blank line, and timing
      stamps that are the SubRip ones with a full stop for the comma. */
  lemma VttCueMatchesSrtCue(idx: nat, s: Segment)
    ensures VttCue(s)[1..] == SrtCue(idx, s)[2..]
    ensures var v, t := SecondsToVtt(s.start), SecondsToTimestamp(s.start);
            exists i :: 0 <= i < |t| && t[i] == ',' && v == t[..i] + "." + t[i + 1..]
  {
    VttReplacesComma(s.start);
  }

  /** `_export_vtt`: the header lines, a loop appending the three lines of
      each segment, then the lines joined by newlines. */
  method ExportVtt(result: JobResult) returns (text: string)
    ensures text == Join(VttLines(result.transcript.segments), "\n")
  {
    var segs := result.transcript.segments;
    ghost var cues := VttCues(segs);
    var lines: seq<string> := ["WEBVTT", ""];
    var i := 0;
    while i < |segs|
      invariant 0 <= i <= |segs|
      invariant lines == VttHeader + Flatten(cues[..i])
    {
      var segment := segs[i];
      TakeOneMore(cues, i);
      FlattenAppend(VttHeader, cues[..i], cues[i]);
      lines := lines + [SecondsToVtt(segment.start) + " --> " + SecondsToVtt(segment.end),
                        segment.speaker + ": " + segment.text, ""];
      i := i + 1;
    }
    assert cues[..i] == cues;
    text := Join(lines, "\n");
  }

  // ---------------------------------------------------------- edit overlay

  /** `_apply_edits`: a result whose transcript has the edits applied and
      whose metadata, claims and verifications are the same. */
  function ApplyEditsToResult(result: JobResult, edits: seq<Edit>): (r: JobResult)
    ensures r.metadata == result.metadata && r.claims == result.claims && r.verifications == result.verifications
    ensures r.transcript.segments == ApplyAll(result.transcript.segments, edits)
  {
    JobResult(result.metadata, Transcript(ApplyAll(result.transcript.segments, edits)), result.claims, result.verifications)
  }

  /** Applying two lists of edits in turn is applying the joined list. */
  lemma ApplyEditsToResultTwice(result: JobResult, first: seq<Edit>, second: seq<Edit>)
    ensures ApplyEditsToResult(ApplyEditsToResult(result, first), second) == ApplyEditsToResult(result, first + second)
  {
    ApplyAllAppend(result.transcript.segments, first, second);
  }

  /** Where a job's edits are saved (`SETTINGS.data_dir` is `app/data`). */
  function EditsPath(jobId: string): string {
    "app/data/jobs/" + jobId + "/edits.json"
  }

  /** The job id can be read back from the path. */
  lemma EditsPathHoldsId(jobId: string)
    ensures |EditsPath(jobId)| == |jobId| + 25 && EditsPath(jobId)[14..14 + |jobId|] == jobId
  {
    var p := EditsPath(jobId);
    assert p == "app/data/jobs/" + (jobId + "/edits.json");
  }

  /** Different jobs save their edits in different files. */
  lemma EditsPathInjective(a: string, b: string)
    requires a != b
    ensures EditsPath(a) != EditsPath(b)
  {
    EditsPathHoldsId(a);
    EditsPathHoldsId(b);
  }

  /** The saved edit files, by path. */
  type EditFiles = map<string, seq<Edit>>

  /** `update_edits`: the job's file is overwritten with the body's edit
      list, an empty list when the body has none. */
  function SaveEdits(files: EditFiles, jobId: string, body: Option<seq<Edit>>): (f: EditFiles)
    ensures f.Keys == files.Keys + {EditsPath(jobId)}
  {
    files[EditsPath(jobId) := if body.Some? then body.value else []]
  }

  /** What `get_result` answers: `None` (404) without a result; otherwise the
      result, with the job's saved edits applied when `applyEdits` is set and
      an edits file exists. */
  function ResultView(result: Option<JobResult>, applyEdits: bool, files: EditFiles, jobId: string): Option<JobResult> {
    if result.None? then None
    else if applyEdits && EditsPath(jobId) in files then Some(ApplyEditsToResult(result.value, files[EditsPath(jobId)]))
    else result
  }

  /** After saving, a read with `applyEdits` applies exactly the saved list;
      a read without it gives the stored result; a missing result stays
      missing. */
  lemma ReadAppliesSavedEdits(result: Option<JobResult>, files: EditFiles, jobId: string, body: Option<seq<Edit>>)
    ensures var f := SaveEdits(files, jobId, body);
            var saved := if body.Some? then body.value else [];
            (result.Some? ==> ResultView(result, true, f, jobId) == Some(ApplyEditsToResult(result.value, saved)))
            && ResultView(result, false, f, jobId) == result
            && (result.None? ==> ResultView(result, true, f, jobId) == None)
  {
  }

  /** A second save replaces the first one entirely. */
  lemma SaveOverwrites(files: EditFiles, jobId: string, first: Option<seq<Edit>>, second: Option<seq<Edit>>)
    ensures SaveEdits(SaveEdits(files, jobId, first), jobId, second) == SaveEdits(files, jobId, second)
  {
  }

  /** Saving one job's edits changes no other job's reads. */
  lemma SaveKeepsOtherJobs(result: Option<JobResult>, applyEdits: bool, files: EditFiles,
                           jobId: string, other: string, body: Option<seq<Edit>>)
    requires other != jobId
    ensures ResultView(result, applyEdits, SaveEdits(files, jobId, body), other) == ResultView(result, applyEdits, files, other)
  {
    EditsPathInjective(jobId, other);
  }

  /** Without a saved file the result is shown as stored. */
  lemma NoEditsFileShowsStored(result: Option<JobResult>, applyEdits: bool, files: EditFiles, jobId: string)
    requires EditsPath(jobId) !in files
    ensures ResultView(result, applyEdits, files, jobId) == result
  {
  }
}
