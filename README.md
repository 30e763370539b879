# fast-check backend core in Dafny

This project models the backend logic of fast-check and proves properties of
that model. fast-check is a local tool that turns a video into a
speaker-attributed transcript, extracts the claims made in it, and checks the
claims against an evidence pack. The model covers:

- the record types (`Models`);
- the pipeline: alignment of transcribed segments to diarized speaker turns
  (`SegmentMerge`), claim extraction (`Claims`), the term-frequency evidence
  index (`Vectors`, over the insertion-ordered dictionaries of `Dicts`), claim
  verification (`Verifier`) and their composition (`Engine`);
- the job queue and worker (`Jobs`);
- the user's transcript edits (`Edits`);
- the export and edit-overlay logic of the jobs API (`Routes`), with the
  subtitle timestamps (`TimeFormat`) and the text chunker that feeds the index
  (`Chunking`).

`Strings` holds the Python string built-ins the core uses, and `Seqs` a few
generic sequence facts. Both are written for the model.

Each module follows its source's form:
- Loops become methods with invariants, proved equal to a specification
  function: `Edits.Rename`, `Edits.Split`, `Edits.Merge`,
  `SegmentMerge.MergeSegments`, `Chunking.ChunkText`, `Claims.ExtractClaims`,
  `Verifier.VerifyClaims`, the `build` loops of `Vectors`, and the three
  exporters in `Routes`.
- Objects whose fields change become classes: `Vectors.VectorStore` and
  `Jobs.JobManager`.
- Pure code becomes functions.
- The properties are proved as lemmas about the specification functions.

Two behaviours of the code are worth knowing before reading the model.
- **Chunking does not stop.** The repository's test
  (tests/test_indexing_chunking.py:4-9) expects three chunks from 1200
  characters in windows of 500 overlapping by 50. As written, `chunk_text`
  never stops on a non-empty text with a positive overlap (see Findings). The
  model keeps the loop as written, under an iteration budget, and the index
  uses the intended variant.
- **Rebuilding keeps stale entries.** `build` only writes keys, so chunk keys
  left by a longer earlier build survive (`Vectors.StaleChunksSurvive`).

Python floats (times, scores, confidences, progress) are exact reals. Python
`int(x)` on floats is truncation toward zero, and `//`, `%` are floor division
and remainder on the positive divisors the code uses.

## Model

| member | source | states |
|---|---|---|
| Models.SegmentMayBeReversed | app/backend/core/models.py:8-12 | a segment may be built with its end before its start; ordering is a separate predicate |
| Models.NewClaim | app/backend/core/models.py:19-28 | a claim built from id, speaker, times and text has type `statement`, confidence 0.5 and no context |
| Models.NewVerification | app/backend/core/models.py:39-43 | a verification has no citations unless given |
| Models.NewJobMetadata | app/backend/core/models.py:46-52 | metadata defaults to no pack and no verification |
| Models.NewJobResult | app/backend/core/models.py:55-59 | a result defaults to no claims and no verifications |
| Strings.IsSpace | app/backend/indexing/chunking.py:15 | the whitespace characters `strip` and `split` act on; what stripping drops is stated by `Strings.StripLeftSpec` and `Strings.StripRightSpec` |
| Strings.StripLeft | app/backend/indexing/chunking.py:15 | `lstrip`; stated by `Strings.StripLeftSpec` |
| Strings.StripRight | app/backend/indexing/chunking.py:15 | `rstrip`; stated by `Strings.StripRightSpec` |
| Strings.StripLeftSpec | app/backend/indexing/chunking.py:15 | `lstrip` keeps a suffix, drops only whitespace, and what it keeps does not begin with whitespace |
| Strings.StripRightSpec | app/backend/indexing/chunking.py:15 | `rstrip` keeps a prefix, drops only whitespace, and what it keeps does not end with whitespace |
| Strings.StripSpec | app/backend/indexing/chunking.py:15 | `strip` gives a contiguous slice with only whitespace outside it and none at its ends |
| Strings.Strip | app/backend/indexing/chunking.py:15 | `str.strip()` as `lstrip` then `rstrip`; characterised by `Strings.StripSpec` and `Strings.StripKeepsTrimmed` |
| Strings.StripKeepsTrimmed | app/backend/indexing/chunking.py:15 | a string without whitespace at either end is its own strip |
| Strings.Split | app/backend/indexing/vectorstore.py:78 | every word of `split()` is non-empty and holds no whitespace |
| Strings.SplitFrom | app/backend/indexing/vectorstore.py:78 | the splitting loop yields only non-empty words without whitespace |
| Strings.SplitLosesOnlySpaces | app/backend/indexing/vectorstore.py:78 | the words of `split()` put back together are the input without its whitespace |
| Strings.SplitFromConcat | app/backend/indexing/vectorstore.py:78 | the splitting loop loses exactly the whitespace after the current word |
| Strings.ConcatAppend | app/backend/indexing/vectorstore.py:78 | concatenating word lists concatenates their texts |
| Strings.IsAlphaChar | app/backend/indexing/vectorstore.py:78 | `str.isalpha` on Latin-1; the tokens it admits are stated by `Vectors.AlphaTokens` and `Vectors.EmbedProperties` |
| Strings.LowerChar | app/backend/indexing/vectorstore.py:78 | `str.lower` on the upper-case letters of Latin-1; stated by `Strings.LowerSpec` |
| Strings.Lower | app/backend/indexing/vectorstore.py:78 | `lower()` character by character; stated by `Strings.LowerSpec`, and what the tokens it makes satisfy by `Vectors.AlphaTokens` and `Vectors.EmbedProperties` |
| Strings.LowerSpec | app/backend/indexing/vectorstore.py:78 | lowering keeps the length, leaves no upper-case Latin-1 letter, keeps every other character, and is idempotent |
| Strings.NatToString | app/backend/api/routes_jobs.py:104 | `str(n)` is a non-empty string of decimal digits |
| Strings.NatToStringRoundTrip | app/backend/api/routes_jobs.py:104 | the digits of `str(n)` read back as `n` |
| Strings.NatToStringInjective | app/backend/indexing/vectorstore.py:38 | distinct numbers print differently |
| Strings.NatToStringLength | app/backend/utils/time.py:13 | a number below 10^w prints in at most w digits |
| Strings.ZeroPad | app/backend/utils/time.py:13 | zero padding reaches the width and never shortens |
| Strings.ZerosValue | app/backend/utils/time.py:13 | a run of zeros reads as 0 |
| Strings.LeadingZerosValue | app/backend/utils/time.py:13 | leading zeros do not change the value |
| Strings.FormatIntFixedWidth | app/backend/utils/time.py:13 | `f"{n:0w}"` of 0 <= n < 10^w is exactly w digits reading back as n |
| Strings.FormatIntValue | app/backend/utils/time.py:13 | `f"{n:0w}"` of n >= 0 is at least w digits reading back as n |
| Strings.FormatInt | app/backend/utils/time.py:13 | `f"{n:0w}"`, zero padding after any sign; what it prints is stated by `Strings.FormatIntFixedWidth` and `Strings.FormatIntValue` |
| Strings.DigitChar | app/backend/utils/time.py:13 | a digit below 10 prints as the character of that value |
| Strings.Zeros | app/backend/utils/time.py:13 | k zeros are k digits |
| Strings.Join | app/backend/pipeline/steps/edits.py:71 | `sep.join(parts)`; its uses are stated by `Edits.MergeBuffer`, `Routes.ExportSrt` and `Routes.ExportVtt` |
| TimeFormat.Trunc | app/backend/utils/time.py:8 | `int(x)` is the floor for x >= 0 and minus the floor of -x otherwise |
| TimeFormat.ClockOf | app/backend/utils/time.py:7-12 | the hours, minutes, seconds and milliseconds both converters compute; stated by `TimeFormat.ClockOfSpec` |
| TimeFormat.SecondsToTimestamp | app/backend/utils/time.py:6-13 | `seconds_to_timestamp`; stated by `TimeFormat.TimestampRoundTrip` |
| TimeFormat.SecondsToVtt | app/backend/utils/time.py:16-23 | `seconds_to_vtt`; stated by `TimeFormat.VttRoundTrip` and `TimeFormat.VttReplacesComma` |
| TimeFormat.ClockOfSpec | app/backend/utils/time.py:7-12 | minutes and seconds lie in [0, 59]; hours, minutes and seconds add back to the whole seconds; for x >= 0 the hours are non-negative and the milliseconds lie in [0, 999] |
| TimeFormat.ClockPrintsBack | app/backend/utils/time.py:13 | the padded fields of a non-negative time read back as the clock |
| TimeFormat.ParseTimestamp | app/backend/utils/time.py:13 | reads the printed layout back into a clock, the inverse the round trips are stated with; stated by `TimeFormat.ClockPrintsBack`, `TimeFormat.TimestampRoundTrip` and `TimeFormat.VttRoundTrip` |
| TimeFormat.TimestampRoundTrip | app/backend/utils/time.py:6-13 | a SubRip timestamp of a time >= 0 parses back to its clock |
| TimeFormat.VttRoundTrip | app/backend/utils/time.py:16-23 | a WebVTT timestamp of a time >= 0 parses back to its clock |
| TimeFormat.VttReplacesComma | app/backend/utils/time.py:13-23 | for every input the WebVTT form is the SubRip form with its comma replaced by a full stop |
| Chunking.Validate | app/backend/indexing/chunking.py:7-10 | arguments are accepted exactly when `chunk_size > 0` and `overlap < chunk_size` (negative overlaps accepted) |
| Chunking.WindowEnd | app/backend/indexing/chunking.py:14 | a window is non-empty, inside the text and at most `chunk_size` long |
| Chunking.NextStart | app/backend/indexing/chunking.py:16-18 | before the end the next start is `start + chunk_size - overlap` clamped at 0; at the end it is `len - overlap` clamped at 0 |
| Chunking.Spans | app/backend/indexing/chunking.py:13-18 | every window the loop takes is inside the text and at most `chunk_size` long |
| Chunking.Pieces | app/backend/indexing/chunking.py:15 | the stripped text of every window; stated by `Chunking.PiecesLayout` |
| Chunking.PiecesLayout | app/backend/indexing/chunking.py:15 | one stripped chunk per window, in order |
| Chunking.PiecesSnoc | app/backend/indexing/chunking.py:15 | one more window appends its stripped chunk |
| Chunking.PiecesAreWindows | app/backend/indexing/chunking.py:14-15 | every chunk is the strip of a window of at most `chunk_size` characters |
| Chunking.NonEmpty | app/backend/indexing/chunking.py:19 | the final filter keeps exactly the non-empty chunks |
| Chunking.ChunksAreWindows | app/backend/indexing/chunking.py:6-19 | every returned chunk is non-empty and the strip of a window inside the text |
| Chunking.ChunkTextSpec | app/backend/indexing/chunking.py:6-19 | `chunk_text` run for at most `fuel` iterations: its `ValueError`, its chunks, or still running; stated by `Chunking.ChunksAreWindows`, `Chunking.ChunkTextStopsIff` and `Chunking.SourceLoopDivergesOnTest` |
| Chunking.LoopStep | app/backend/indexing/chunking.py:13-18 | one iteration appends the window and moves `start` to `end - overlap` clamped at 0 |
| Chunking.SpansInSnoc | app/backend/indexing/chunking.py:14 | adding a window inside the text keeps all windows inside |
| Chunking.ChunkText | app/backend/indexing/chunking.py:6-19 | the loop with its invariants computes the specification, within the budget |
| Chunking.EmptyTextGivesNoChunks | app/backend/indexing/chunking.py:11-19 | valid arguments on empty text give `[]` |
| Chunking.StopsWithoutOverlap | app/backend/indexing/chunking.py:13-18 | with `overlap <= 0` the loop stops within `len - start` iterations |
| Chunking.RunsForeverWithOverlap | app/backend/indexing/chunking.py:13-18 | with `0 < overlap < chunk_size` and a non-empty text no budget ever finishes |
| Chunking.RepeatedState | app/backend/indexing/chunking.py:14-18 | with a positive overlap, `start = max(0, len - overlap)` is inside the text and maps to itself |
| Chunking.ReachesRepeatedState | app/backend/indexing/chunking.py:13-18 | with a positive overlap the loop reaches the repeated state within `len - start` iterations |
| Chunking.ChunkTextStopsIff | app/backend/indexing/chunking.py:6-19 | with valid arguments the loop stops for some budget if and only if the text is empty or `overlap <= 0` |
| Chunking.StopsWithoutOverlapOrEmpty | app/backend/indexing/chunking.py:13-18 | `len` iterations suffice when the text is empty or `overlap <= 0` |
| Chunking.IntendedSpans | app/backend/indexing/chunking.py:13-18 | the intended loop's windows are inside the text and at most `chunk_size` long |
| Chunking.ChunkTextIntended | app/backend/indexing/chunking.py:6-19 | the intended variant fails exactly on the source's invalid arguments |
| Chunking.IntendedChunksAreWindows | app/backend/indexing/chunking.py:6-19 | every intended chunk is non-empty and the strip of a window |
| Chunking.IntendedAgreesWithoutOverlap | app/backend/indexing/chunking.py:13-18 | where the source loop stops, it takes the intended windows |
| Chunking.SourceAgreesWithoutOverlap | app/backend/indexing/chunking.py:6-19 | without a positive overlap the source returns exactly the intended chunks |
| Chunking.IntendedMatchesTest | tests/test_indexing_chunking.py:4-9 | the intended variant gives 3 chunks on 1200 `a`s, the first 500 `a`s, the second starting with 50 `a`s |
| Chunking.TestSpans | tests/test_indexing_chunking.py:4-9 | the test's windows are 0-500, 450-950 and 900-1200 |
| Chunking.TestPieces | tests/test_indexing_chunking.py:4-9 | the test's chunks are 500, 500 and 300 `a`s |
| Chunking.TestNonEmpty | app/backend/indexing/chunking.py:19 | the filter keeps non-empty chunks as they are |
| Chunking.TestWindow | tests/test_indexing_chunking.py:5 | a window of a run of `a`s strips to itself |
| Chunking.SourceLoopDivergesOnTest | tests/test_indexing_chunking.py:4-7 | the source loop never finishes on the test input, whatever the budget |
| Claims.IsWordChar | app/backend/pipeline/steps/claims.py:9 | the `\w` class on the characters modelled; the runs it delimits are stated by `Claims.RunsAreWords` and `Claims.RunsBreak` |
| Claims.Runs | app/backend/pipeline/steps/claims.py:9 | the words the `\b` boundaries delimit; stated by `Claims.RunsAreWords`, `Claims.RunsBreak` and `Claims.MatchesWholeWordsOnly` |
| Claims.RunsAreWords | app/backend/pipeline/steps/claims.py:9 | the word runs are non-empty runs of word characters |
| Claims.IsClaimWord | app/backend/pipeline/steps/claims.py:9 | one alternative of `CLAIM_PATTERN`: a run of digits or a fixed word in any letter case |
| Claims.Matches | app/backend/pipeline/steps/claims.py:9-15 | `CLAIM_PATTERN.search(text)`: some whole word is a claim word; stated by `Claims.MiddleWordMatches`, `Claims.MatchesIgnoringCase` and `Claims.MatchesWholeWordsOnly` |
| Claims.FoldAll | app/backend/pipeline/steps/claims.py:9 | IGNORECASE folding of a word keeps its length and folds each character; the matching it serves is stated by `Claims.MatchesIgnoringCase` |
| Claims.FoldAllIdempotent | app/backend/pipeline/steps/claims.py:9 | folding a folded word changes nothing |
| Claims.RunsWord | app/backend/pipeline/steps/claims.py:9 | reading word characters extends the current run |
| Claims.RunsBreak | app/backend/pipeline/steps/claims.py:9 | a non-word character ends the current run (a word boundary) |
| Claims.Words | app/backend/pipeline/steps/claims.py:9 | the word runs of a text; stated by `Claims.RunsAreWords` and `Claims.WordsOfOne` to `Claims.WordsOfThree` |
| Claims.WordsOfOne | app/backend/pipeline/steps/claims.py:9 | a text that is one word has that word |
| Claims.WordsOfTwo | app/backend/pipeline/steps/claims.py:9 | two words separated by a space are two runs |
| Claims.WordsOfThree | app/backend/pipeline/steps/claims.py:9 | three words separated by spaces are three runs |
| Claims.MatchesExample | tests/test_export_csv.py:22 | the repository's sentence `Hay 3 millones` matches |
| Claims.MiddleWordMatches | app/backend/pipeline/steps/claims.py:9 | three words match when the middle one is a claim word |
| Claims.MatchesIgnoringCase | app/backend/pipeline/steps/claims.py:9 | the match ignores letter case |
| Claims.MatchesWholeWordsOnly | app/backend/pipeline/steps/claims.py:9 | `esto` and `3D` do not match: only whole words count |
| Claims.ClaimOf | app/backend/pipeline/steps/claims.py:17-25 | a claim copies speaker, start, end and text, with type `statement`, confidence 0.55 and no context |
| Claims.Matching | app/backend/pipeline/steps/claims.py:14-15 | the matching segments are never more than the segments |
| Claims.MatchingKeepsMatches | app/backend/pipeline/steps/claims.py:14-15 | a segment is kept exactly when it matches |
| Claims.MatchingInOrder | app/backend/pipeline/steps/claims.py:14-15 | the matching segments are a subsequence of the transcript: the loop keeps their order |
| Claims.ClaimsArePerMatchingSegment | app/backend/pipeline/steps/claims.py:12-27 | claim i is made from matching segment i with the i-th generated id |
| Claims.ClaimsFrom | app/backend/pipeline/steps/claims.py:12-27 | `extract_claims` as a function of the segments and the ids; stated by `Claims.ClaimsArePerMatchingSegment` and `Claims.ClaimsProperties` |
| Claims.ClaimsProperties | app/backend/pipeline/steps/claims.py:12-27 | never more claims than segments; each matches, is a 0.55 `statement` and copies a segment |
| Claims.NoMatchNoClaims | app/backend/pipeline/steps/claims.py:15 | no matching segment gives no claim |
| Claims.ClaimIdsDistinct | app/backend/pipeline/steps/claims.py:18 | ids from a generator that never repeats are distinct |
| Claims.ExtractClaims | app/backend/pipeline/steps/claims.py:12-27 | the loop computes the claims of the specification |
| Dicts.Keys | app/backend/indexing/vectorstore.py:52 | the keys in iteration order, one per entry |
| Dicts.Get | app/backend/indexing/vectorstore.py:60 | a lookup succeeds exactly for a present key |
| Dicts.PutKeys | app/backend/indexing/vectorstore.py:39-44 | assignment keeps the key order for an existing key and appends a new key |
| Dicts.GetPut | app/backend/indexing/vectorstore.py:39-44 | after `d[k] = v`, `k` reads `v` and every other key reads as before |
| Dicts.PutPresent | app/backend/indexing/vectorstore.py:39-44 | assigning a key the value it already has changes nothing |
| Dicts.GetEntry | app/backend/indexing/vectorstore.py:52 | with distinct keys, each entry is what its key reads |
| Dicts.PutKeepsDistinct | app/backend/indexing/vectorstore.py:19-20 | assignment keeps the keys distinct |
| Dicts.PutExtendsOrder | app/backend/indexing/vectorstore.py:52 | the old keys stay first, in their order |
| Edits.RenameAll | app/backend/pipeline/steps/edits.py:12-17 | `rename` relabels exactly the segments of the old speaker; length, order, times and texts unchanged |
| Edits.Rename | app/backend/pipeline/steps/edits.py:15-17 | the relabelling loop computes `RenameAll` |
| Edits.AssignAll | app/backend/pipeline/steps/edits.py:18-24 | `assign` relabels exactly the segments lying fully inside the window; all else unchanged |
| Edits.Assign | app/backend/pipeline/steps/edits.py:22-24 | the relabelling loop computes `AssignAll` |
| Edits.CountContaining | app/backend/pipeline/steps/edits.py:30 | at most one container per segment |
| Edits.SplitAllLength | app/backend/pipeline/steps/edits.py:25-49 | `split` lengthens the list by the number of segments strictly containing the time |
| Edits.SplitAll | app/backend/pipeline/steps/edits.py:25-49 | `split` as a function; stated by `Edits.SplitAllLength`, `Edits.SplitPlacesPieces` and `Edits.SplitOutsideIsIdentity` |
| Edits.SplitAllAppend | app/backend/pipeline/steps/edits.py:28-49 | splitting a concatenation splits its parts |
| Edits.CountContainingAppend | app/backend/pipeline/steps/edits.py:30 | counting over a concatenation adds the counts |
| Edits.SplitOne | app/backend/pipeline/steps/edits.py:29-48 | the `split` loop; stated by `Edits.SplitPlacesPieces` |
| Edits.SplitPlacesPieces | app/backend/pipeline/steps/edits.py:29-48 | segment i reappears as its two halves (first speaker, then `speaker or original`, full text in both) or unchanged, at its shifted position, in order |
| Edits.SplitOutsideIsIdentity | app/backend/pipeline/steps/edits.py:29-49 | a time no segment contains changes nothing |
| Edits.SplitStep | app/backend/pipeline/steps/edits.py:29-48 | one more input segment appends its pieces |
| Edits.Split | app/backend/pipeline/steps/edits.py:25-49 | the list-building loop computes `SplitAll` |
| Edits.Texts | app/backend/pipeline/steps/edits.py:71 | the texts of the buffer, in order |
| Edits.MergeBuffer | app/backend/pipeline/steps/edits.py:69-77 | first start, last end, first speaker, texts joined by one space |
| Edits.MergeFromLength | app/backend/pipeline/steps/edits.py:50-65 | merging never lengthens the list |
| Edits.MergeAll | app/backend/pipeline/steps/edits.py:50-65 | `merge` as a function; stated by `Edits.MergeCollapsesRun`, `Edits.MergeBreaksAtOutside` and `Edits.MergeFromLength` |
| Edits.Flush | app/backend/pipeline/steps/edits.py:59-64 | emptying the buffer into one `_merge_buffer` segment, if it holds any; stated by `Edits.MergeCollapsesRun` and `Edits.MergeStep` |
| Edits.MergeFrom | app/backend/pipeline/steps/edits.py:50-65 | the `merge` loop; stated by `Edits.MergeCollapsesRun`, `Edits.MergeBreaksAtOutside` and `Edits.MergeStep` |
| Edits.MergeBreaksAtOutside | app/backend/pipeline/steps/edits.py:58-62 | an out-of-window segment stays in place and separates independently merged parts |
| Edits.MergeCollapsesRun | app/backend/pipeline/steps/edits.py:56-64 | a run of in-window segments becomes one `_merge_buffer` segment |
| Edits.MergeOutsideIsIdentity | app/backend/pipeline/steps/edits.py:50-65 | a window containing no segment changes nothing |
| Edits.MergeStep | app/backend/pipeline/steps/edits.py:55-62 | an in-window segment joins the buffer; any other one flushes it and is kept |
| Edits.Merge | app/backend/pipeline/steps/edits.py:50-65 | the loop with `merged` and `buffer` computes `MergeAll` |
| Edits.ApplyEdit | app/backend/pipeline/steps/edits.py:10-65 | one edit on the segment list; stated by `Edits.ApplyEditLength`, `Edits.ApplyEdits` and the per-action lemmas above |
| Edits.ApplyEditLength | app/backend/pipeline/steps/edits.py:10-65 | relabelling keeps the length, split never shortens, merge never lengthens, an unknown action is a no-op |
| Edits.ApplyAllAppend | app/backend/pipeline/steps/edits.py:10-65 | edits apply in list order, each to the output of the ones before |
| Edits.ApplyAll | app/backend/pipeline/steps/edits.py:8-66 | `apply_edits` as a function; stated by `Edits.ApplyAllAppend` and `Edits.ApplyEditLength` |
| Edits.WellTagged | app/backend/pipeline/steps/edits.py:11-50 | an `Other` entry carries no action or one that none of the four branches takes |
| Edits.ApplyEdits | app/backend/pipeline/steps/edits.py:8-66 | the dispatch loop computes `ApplyAll` |
| Edits.SplitThenMergeDoublesText | app/backend/pipeline/steps/edits.py:25-77 | split at 5 then merge over [0, 10] gives one segment [0, 10] with text `T + " " + T` |
| SegmentMerge.Overlap | app/backend/pipeline/steps/merge.py:8-9 | the overlap is never negative and positive exactly when the intervals properly meet |
| SegmentMerge.OverlapSymmetric | app/backend/pipeline/steps/merge.py:8-9 | the overlap is symmetric |
| SegmentMerge.BestIndexUnique | app/backend/pipeline/steps/merge.py:26-34 | there is one lowest index of greatest overlap |
| SegmentMerge.BestIndex | app/backend/pipeline/steps/merge.py:26-34 | the scan ends on the lowest index of greatest overlap |
| SegmentMerge.AlignedSpeaker | app/backend/pipeline/steps/merge.py:13-34 | the speaker one segment gets; stated by `SegmentMerge.SpeakerHasGreatestOverlap` and `SegmentMerge.EmptyDiarizationUsesFallback` |
| SegmentMerge.MergedSegments | app/backend/pipeline/steps/merge.py:12-43 | same length and order, start, end and text copied; only the speaker rewritten |
| SegmentMerge.EmptyDiarizationUsesFallback | app/backend/pipeline/steps/merge.py:13-22 | with no diarization every segment is labelled `SPEAKER_00` |
| SegmentMerge.SpeakerHasGreatestOverlap | app/backend/pipeline/steps/merge.py:24-43 | the speaker is that of the lowest-index turn of greatest overlap |
| SegmentMerge.NoOverlapUsesFirstTurn | app/backend/pipeline/steps/merge.py:26-27 | with every overlap 0 the first turn's speaker is used |
| SegmentMerge.OverlapUsesOverlappingTurn | app/backend/pipeline/steps/merge.py:26-34 | when some turn overlaps, the chosen turn overlaps |
| SegmentMerge.TwoTurnsExample | tests/test_merge_overlap.py:5-16 | [1, 4] gets A and [6, 9] gets B |
| SegmentMerge.BestSpeaker | app/backend/pipeline/steps/merge.py:26-34 | the inner scan with strict `>` yields the aligned speaker |
| SegmentMerge.MergeSegments | app/backend/pipeline/steps/merge.py:12-43 | the nested loops compute `MergedSegments` |
| Vectors.Tokens | app/backend/indexing/vectorstore.py:78 | the lower-cased alphabetic words of a text; stated by `Vectors.AlphaTokens` and `Vectors.AlphaTokensFromWords` |
| Vectors.AlphaTokens | app/backend/indexing/vectorstore.py:78 | every alphabetic word gives its lower-cased token |
| Vectors.AlphaTokensFromWords | app/backend/indexing/vectorstore.py:78 | every token comes from an alphabetic word |
| Vectors.PutKeepsPositive | app/backend/indexing/vectorstore.py:79 | positive counts stay positive |
| Vectors.GetPositive | app/backend/indexing/vectorstore.py:79 | a present count is at least 1 |
| Vectors.CountInto | app/backend/indexing/vectorstore.py:79 | `Counter` updated token by token; stated by `Vectors.CountIntoDistinct`, `Vectors.CountIntoOccurrences`, `Vectors.CountIntoPositive` and `Vectors.CountIntoTotal` |
| Vectors.CountIntoDistinct | app/backend/indexing/vectorstore.py:79 | counting keeps keys distinct |
| Vectors.CountIntoOccurrences | app/backend/indexing/vectorstore.py:79 | counting adds each token's occurrences |
| Vectors.CountIntoPositive | app/backend/indexing/vectorstore.py:79 | counting keeps counts at least 1 |
| Vectors.TotalPut | app/backend/indexing/vectorstore.py:79 | the total after an assignment |
| Vectors.CountIntoTotal | app/backend/indexing/vectorstore.py:79 | counting adds one per token to the total |
| Vectors.CountDistinct | app/backend/indexing/vectorstore.py:79 | `Counter` holds each token once |
| Vectors.Count | app/backend/indexing/vectorstore.py:79 | the `Counter` of the tokens; stated by `Vectors.CountIsOccurrences` and `Vectors.CountTotal` |
| Vectors.CountIsOccurrences | app/backend/indexing/vectorstore.py:79 | each count is the token's number of occurrences |
| Vectors.CountPositive | app/backend/indexing/vectorstore.py:79 | each count is at least 1 |
| Vectors.CountTotal | app/backend/indexing/vectorstore.py:79 | the counts sum to the number of tokens |
| Vectors.CountKeys | app/backend/indexing/vectorstore.py:79 | the keys are exactly the tokens |
| Vectors.EmbedProperties | app/backend/indexing/vectorstore.py:77-79 | keys distinct, lower-cased alphabetic words, counts at least 1, summing to the number of such words |
| Vectors.Embed | app/backend/indexing/vectorstore.py:77-79 | `_embed_text`, the counts of the lower-cased alphabetic words; stated by `Vectors.EmbedProperties` |
| Vectors.SumSquares | app/backend/indexing/vectorstore.py:87-88 | the squared norm is never negative |
| Vectors.DotEmptyRight | app/backend/indexing/vectorstore.py:85-86 | nothing is shared with an empty vector |
| Vectors.DotConsRight | app/backend/indexing/vectorstore.py:85-86 | a new key adds only its own product |
| Vectors.Dot | app/backend/indexing/vectorstore.py:85-86 | the dot product over the query's keys; stated by `Vectors.DotSymmetric` and `Vectors.DotPositiveIff` |
| Vectors.DotSymmetric | app/backend/indexing/vectorstore.py:85-86 | the dot product over shared keys is symmetric |
| Vectors.ScoreSymmetric | app/backend/indexing/vectorstore.py:82-91 | the similarity is symmetric |
| Vectors.ScoreEmpty | app/backend/indexing/vectorstore.py:83-84 | the similarity with an empty vector is 0 |
| Vectors.Score | app/backend/indexing/vectorstore.py:82-91 | `_cosine_similarity`, as the cosine times its absolute value; stated by `Vectors.ScoreSymmetric`, `Vectors.ScorePositiveIff` and `Vectors.ScoreSelf` |
| Vectors.DotPositiveIff | app/backend/indexing/vectorstore.py:85-86 | with positive counts the dot product is non-negative, positive exactly when a token is shared |
| Vectors.SumSquaresPositive | app/backend/indexing/vectorstore.py:87-89 | a non-empty positive vector has a positive norm |
| Vectors.ScorePositiveIff | app/backend/indexing/vectorstore.py:82-91 | the similarity of embeddings is non-negative and positive exactly when a token is shared |
| Vectors.DotAgreeing | app/backend/indexing/vectorstore.py:85-88 | agreeing on every key, the dot product is the squared norm |
| Vectors.ScoreSelf | app/backend/indexing/vectorstore.py:82-91 | a non-empty embedding scores exactly 1 against itself |
| Vectors.InsertDesc | app/backend/indexing/vectorstore.py:55 | insertion adds one entry and keeps the rest |
| Vectors.InsertDescBounded | app/backend/indexing/vectorstore.py:55 | insertion keeps scores under a bound |
| Vectors.InsertDescSorted | app/backend/indexing/vectorstore.py:55 | insertion keeps the order descending |
| Vectors.SortDesc | app/backend/indexing/vectorstore.py:55 | sorting is a permutation |
| Vectors.SortDescSorted | app/backend/indexing/vectorstore.py:55 | sorting gives descending scores |
| Vectors.WithScore | app/backend/indexing/vectorstore.py:55 | the entries of one score are a sub-list |
| Vectors.WithScoreAppend | app/backend/indexing/vectorstore.py:55 | selecting by score distributes over concatenation |
| Vectors.InsertDescWithScore | app/backend/indexing/vectorstore.py:55 | insertion puts a new entry before the old ones of equal score |
| Vectors.SortDescStable | app/backend/indexing/vectorstore.py:55 | the sort is stable: equal scores keep their order |
| Vectors.TakePy | app/backend/indexing/vectorstore.py:57 | `scored[:k]`, the prefix whose length `Vectors.PrefixLength` states |
| Vectors.PrefixLength | app/backend/indexing/vectorstore.py:57 | `s[:k]` keeps at most `len(s)` and, for k >= 0, at most k entries |
| Vectors.Positives | app/backend/indexing/vectorstore.py:57-59 | the kept entries come from the input and score above 0 |
| Vectors.HitsSpec | app/backend/indexing/vectorstore.py:57-63 | the result loop fails exactly on a positive key without metadata, else one hit per positive entry with its metadata and score |
| Vectors.HitsOkIff | app/backend/indexing/vectorstore.py:57-63 | the result loop succeeds exactly when every positive key has metadata |
| Vectors.HitsValues | app/backend/indexing/vectorstore.py:57-63 | a successful result loop gives one hit per positive entry, in order, with its metadata and score |
| Vectors.HitsFollowCons | app/backend/indexing/vectorstore.py:60-62 | a hit for one more positive entry extends the hits |
| Vectors.Hits | app/backend/indexing/vectorstore.py:57-62 | the result loop over `scored[:k]`; stated by `Vectors.HitsSpec` and `Vectors.HitsValues` |
| Vectors.KeyErrorMessage | app/backend/indexing/vectorstore.py:60 | the message of the `KeyError` for a key without metadata, `repr(key)` |
| Vectors.KeyErrorMessagePlain | app/backend/indexing/vectorstore.py:60 | a key without quotes, backslashes or control characters is reported between single quotes as it is |
| Vectors.KeyErrorMessageQuoted | app/backend/indexing/vectorstore.py:60 | a key holding a single quote and no double quote is reported between double quotes |
| Vectors.ScoredEntries | app/backend/indexing/vectorstore.py:51-54 | one `(key, score)` per stored vector, in insertion order; what ranking does with it is stated by `Vectors.SearchRanked`, `Vectors.RankedAreTopK` and `Vectors.SearchKeepsAllPositives` |
| Vectors.SearchEmpty | app/backend/indexing/vectorstore.py:48-49 | an empty index finds nothing |
| Vectors.PositivesSorted | app/backend/indexing/vectorstore.py:55-59 | filtering keeps the order descending |
| Vectors.RankedShape | app/backend/indexing/vectorstore.py:50-59 | ranked entries score above 0, descending, at most as many as `s[:k]` |
| Vectors.Ranked | app/backend/indexing/vectorstore.py:50-59 | the entries that become hits: scored, sorted, cut at k, positive; stated by `Vectors.RankedShape` and `Vectors.SearchKeepsAllPositives` |
| Vectors.SearchFollowsRanked | app/backend/indexing/vectorstore.py:47-63 | a search fails exactly on a ranked key without metadata, else gives one hit per ranked entry |
| Vectors.SearchRanked | app/backend/indexing/vectorstore.py:47-63 | hits follow the ranking, copy metadata with positive scores, never increase, at most k of them |
| Vectors.SearchResult | app/backend/indexing/vectorstore.py:47-63 | `search(query, k)` on the two dictionaries; stated by `Vectors.SearchRanked`, `Vectors.SearchFollowsRanked` and `Vectors.SelfQueryScoresOne` |
| Vectors.WithScorePositives | app/backend/indexing/vectorstore.py:57-59 | filtering keeps all entries of a positive score |
| Vectors.SearchTiesInInsertionOrder | app/backend/indexing/vectorstore.py:52-57 | ties keep insertion order |
| Vectors.PositivesCount | app/backend/indexing/vectorstore.py:57-59 | filtering keeps every positive entry as often as it occurs |
| Vectors.SearchKeepsAllPositives | app/backend/indexing/vectorstore.py:50-59 | with k at least the index size the ranked entries are all the positive entries, reordered |
| Vectors.SortedTopBest | app/backend/indexing/vectorstore.py:55-59 | in a sorted sequence, a positive entry outside the positive part of a prefix scores no higher than any entry inside it |
| Vectors.TopKOf | app/backend/indexing/vectorstore.py:55-59 | after sorting and cutting at k, a positive entry left out scores no higher than any entry kept |
| Vectors.RankedAreTopK | app/backend/indexing/vectorstore.py:50-59 | the ranked entries are the top k: a positive-scored entry of the index left out scores no higher than any ranked one |
| Vectors.SelfQueryScoresOne | app/backend/indexing/vectorstore.py:47-63 | a text against an index holding only its own chunk finds it with score 1 |
| Vectors.DocChunks | app/backend/indexing/vectorstore.py:35 | `chunk_text(content)` with the default sizes; that those sizes are accepted is stated by `Vectors.DocChunksAccepted` |
| Vectors.DocChunksAccepted | app/backend/indexing/vectorstore.py:35 | the default chunk sizes are valid |
| Vectors.ItemsOf | app/backend/indexing/vectorstore.py:34-36 | the chunks of one document with its path; stated by `Vectors.ItemsOfSpec` |
| Vectors.ItemsOfSpec | app/backend/indexing/vectorstore.py:34-36 | one item per chunk of the document, in order |
| Vectors.ChunkKeyInjective | app/backend/indexing/vectorstore.py:38 | distinct chunk numbers give distinct keys |
| Vectors.ChunkKey | app/backend/indexing/vectorstore.py:38 | `f"{pack}-{n}"`; stated by `Vectors.ChunkKeyInjective` |
| Vectors.BaseName | app/backend/indexing/vectorstore.py:40 | `Path.name`: after trailing `/`s are dropped, the longest `/`-free end of the path |
| Vectors.TrimSlashes | app/backend/indexing/vectorstore.py:40 | the trimmed path is a prefix, does not end with `/`, and only `/`s were dropped |
| Vectors.LastComponent | app/backend/indexing/vectorstore.py:40 | the longest `/`-free end of a path, preceded by `/` when shorter than the path |
| Vectors.MetaOf | app/backend/indexing/vectorstore.py:39-43 | the excerpt is the first 300 characters and the source the path |
| Vectors.BuildStoresVector | app/backend/indexing/vectorstore.py:36-44 | chunk n is embedded under `"{pack}-{n}"` |
| Vectors.BuildStoresMetadata | app/backend/indexing/vectorstore.py:36-44 | chunk n's metadata is under `"{pack}-{n}"` |
| Vectors.BuildStoresChunk | app/backend/indexing/vectorstore.py:36-44 | chunk n, across all documents, is stored under `"{pack}-{n}"` in both dictionaries |
| Vectors.PutVectors | app/backend/indexing/vectorstore.py:36-44 | the vector dictionary after `build`'s writes; stated by `Vectors.BuildStoresChunk`, `Vectors.BuildKeepsOtherKeys` and `Vectors.RebuildChangesNothing` |
| Vectors.PutMetadata | app/backend/indexing/vectorstore.py:39-43 | the metadata dictionary after `build`'s writes; stated by the same lemmas |
| Vectors.BuildKeepsOtherKeys | app/backend/indexing/vectorstore.py:30-45 | any other key keeps its old entry in both dictionaries |
| Vectors.StaleChunksSurvive | app/backend/indexing/vectorstore.py:30-45 | chunk keys beyond the new count, from an earlier build, survive |
| Vectors.BuildKeysGrow | app/backend/indexing/vectorstore.py:36-44 | the vector keys stay distinct, old keys first |
| Vectors.BuildKeysMatch | app/backend/indexing/vectorstore.py:36-44 | both dictionaries gain the same keys |
| Vectors.BuildKeepsKeysAligned | app/backend/indexing/vectorstore.py:30-45 | the two key sets stay equal; vector keys stay distinct, old ones first |
| Vectors.PutVectorsPrefix | app/backend/indexing/vectorstore.py:44 | storing one more chunk puts its vector |
| Vectors.PutMetadataPrefix | app/backend/indexing/vectorstore.py:39-43 | storing one more chunk puts its metadata |
| Vectors.RestoreKeepsVectors | app/backend/indexing/vectorstore.py:36-44 | storing chunks a dictionary already holds changes none of its vectors |
| Vectors.RestoreKeepsMetadata | app/backend/indexing/vectorstore.py:36-44 | storing chunks a dictionary already holds changes none of its metadata |
| Vectors.RebuildChangesNothing | app/backend/indexing/vectorstore.py:30-45 | building twice from the same documents gives what building once gives |
| Vectors.BuildStep | app/backend/indexing/vectorstore.py:37-44 | one chunk writes `"{pack}-{n}"` into both dictionaries |
| Vectors.BuildStepVectors | app/backend/indexing/vectorstore.py:44 | one chunk writes its vector |
| Vectors.BuildStepMetadata | app/backend/indexing/vectorstore.py:39-43 | one chunk writes its metadata |
| Vectors.ItemsOfStep | app/backend/indexing/vectorstore.py:36 | one more chunk appends its item |
| Vectors.StoreDocStep | app/backend/indexing/vectorstore.py:36-44 | one inner-loop turn stores chunk j as the next chunk |
| Vectors.StoreDocStart | app/backend/indexing/vectorstore.py:36 | the inner loop starts with nothing of the document stored |
| Vectors.Items | app/backend/indexing/vectorstore.py:34-36 | the chunks of every document, in order; stated by `Vectors.ItemsStep` |
| Vectors.ItemsStep | app/backend/indexing/vectorstore.py:34-36 | one more document appends its chunks |
| Vectors.StoreChunk | app/backend/indexing/vectorstore.py:37-44 | the next number, and metadata and embedding written under its key |
| Vectors.StoreDocChunks | app/backend/indexing/vectorstore.py:36-44 | the inner loop stores the document's chunks numbered on |
| Vectors.StoreChunks | app/backend/indexing/vectorstore.py:33-44 | the nested loop stores every chunk of every document |
| Vectors.VectorStore.constructor | app/backend/indexing/vectorstore.py:15-20 | a new store has empty dictionaries |
| Vectors.VectorStore.Load | app/backend/indexing/vectorstore.py:70-74 | each dictionary is replaced by its saved file when it exists |
| Vectors.VectorStore.Build | app/backend/indexing/vectorstore.py:30-45 | `build` stores chunk n under `"{pack}-{n}"`, removing nothing |
| Vectors.VectorStore.Search | app/backend/indexing/vectorstore.py:47-63 | `search` computes the specification and changes no field |
| Verifier.CitationOf | app/backend/pipeline/steps/verify.py:19-25 | a citation copies title, source, excerpt, date and page |
| Verifier.VerificationOf | app/backend/pipeline/steps/verify.py:13-35 | the verdict on one claim from its hits; stated by `Verifier.VerdictSpec` |
| Verifier.Citations | app/backend/pipeline/steps/verify.py:18-27 | per-hit definition of the comprehension; the verdict it builds is stated by `Verifier.VerdictSpec` |
| Verifier.Searches | app/backend/pipeline/steps/verify.py:11-12 | per-claim definition of the searches with k = 5; their effect is stated by `Verifier.CollectSpec` and `Verifier.VerdictSpec` |
| Verifier.Collect | app/backend/pipeline/steps/verify.py:9-36 | the loop given each search's outcome, a failed search ending the run; stated by `Verifier.CollectSpec` |
| Verifier.CollectSpec | app/backend/pipeline/steps/verify.py:9-36 | success iff every search succeeds; then one verdict per claim in order; else the first failing search's error |
| Verifier.VerifyAllSpec | app/backend/pipeline/steps/verify.py:9-36 | the same for the store's own searches |
| Verifier.VerifyAll | app/backend/pipeline/steps/verify.py:9-36 | `verify_claims` on the store's dictionaries; stated by `Verifier.VerifyAllSpec`, `Verifier.VerifyAllOk` and `Verifier.VerifyAllIds` |
| Verifier.VerifyAllOk | app/backend/pipeline/steps/verify.py:9-36 | the run succeeds exactly when every search does |
| Verifier.VerifyAllIds | app/backend/pipeline/steps/verify.py:9-36 | one verdict per claim, in order, with the claim's id |
| Verifier.VerdictSpec | app/backend/pipeline/steps/verify.py:12-35 | `insufficient` (0.2, no citations) exactly when nothing ranks; else `supported` (0.6) with 1 to 5 citations of the ranked metadata |
| Verifier.EmptyStoreSupportsNothing | app/backend/pipeline/steps/verify.py:12-17 | an empty store gives `insufficient` for every claim |
| Verifier.VerifyClaims | app/backend/pipeline/steps/verify.py:9-36 | the loop computes `VerifyAll` |
| Engine.UsesPack | app/backend/core/engine.py:37-39 | `verify and pack_name`; when it holds and what the last stage then does is stated by `Engine.FinishOkIff` and `Engine.PipelineResultSpec` |
| Engine.FinishOkIff | app/backend/core/engine.py:36-39 | the last stage fails only when verifying and some search fails |
| Engine.FinishRecords | app/backend/core/engine.py:36-54 | the result keeps metadata, transcript and claims, with one verdict per claim when verifying and none otherwise |
| Engine.PipelineOkIff | app/backend/core/engine.py:17-54 | with every stage successful, the run fails only when verifying and some search fails |
| Engine.PipelineRecords | app/backend/core/engine.py:17-54 | a successful run means every stage succeeded; it records the arguments, the aligned transcript, its claims and one verdict per claim |
| Engine.PipelineResultSpec | app/backend/core/engine.py:17-54 | both of the above in one statement |
| Engine.MissingPackSupportsNothing | app/backend/core/engine.py:37-39 | a pack without a vector file supports no claim |
| Engine.Finish | app/backend/core/engine.py:36-54 | verification and the assembled result; stated by `Engine.FinishOkIff` and `Engine.FinishRecords` |
| Engine.Pipeline | app/backend/core/engine.py:17-54 | `run_pipeline` as a function of its arguments and the stages' outcomes; stated by `Engine.PipelineResultSpec` |
| Jobs.NewJobStatus | app/backend/pipeline/job_manager.py:15-22 | a new status is `queued`, progress 0, step `queued`, no logs, no result |
| Jobs.SubmitError | app/backend/pipeline/job_manager.py:43-46 | submission is refused exactly for a missing or empty file |
| Jobs.Started | app/backend/pipeline/job_manager.py:77-96 | the `running` status; stated by `Jobs.FinishedSpec` |
| Jobs.Failed | app/backend/pipeline/job_manager.py:77-96 | the `failed` status after an exception; stated by `Jobs.FinishedSpec` |
| Jobs.RunJob | app/backend/pipeline/job_manager.py:77-96 | the pipeline run on a queued job; stated by `Jobs.JobManager.ProcessNext` and `Engine.PipelineResultSpec` |
| Jobs.FinishedSpec | app/backend/pipeline/job_manager.py:77-96 | `completed` iff pipeline and save succeed, with progress 1.0, step `done` and the result path; otherwise `failed`, step `error`, result path unchanged; two log lines appended |
| Jobs.FinishedMovesForward | app/backend/pipeline/job_manager.py:78-96 | progress never decreases and logs are only appended |
| Jobs.FinishedSettles | app/backend/pipeline/job_manager.py:90-96 | a processed job is `completed` or `failed` |
| Jobs.Finished | app/backend/pipeline/job_manager.py:77-96 | the status after one job: running, then completed or failed; stated by `Jobs.FinishedSpec` and `Jobs.FinishedMovesForward` |
| Jobs.Step | app/backend/pipeline/job_manager.py:73-98 | one worker turn on the queue and job table; stated by `Jobs.StepTracked` and the `ensures` of `Jobs.JobManager.ProcessNext` |
| Jobs.Turns | app/backend/pipeline/job_manager.py:73-98 | successive worker turns; stated by `Jobs.TurnsSettleQueue` |
| Jobs.ResultOf | app/backend/pipeline/job_manager.py:66-71 | a result exists exactly for a known job with an existing result path |
| Jobs.StepTracked | app/backend/pipeline/job_manager.py:75-77 | a turn takes the queue head and keeps every queued job tracked |
| Jobs.TurnsEmptyQueue | app/backend/pipeline/job_manager.py:73-98 | a turn per queued job empties the queue and keeps the job set |
| Jobs.TurnsSettle | app/backend/pipeline/job_manager.py:73-98 | a turn per queued job settles every queued job, failures included |
| Jobs.TurnsKeepOthers | app/backend/pipeline/job_manager.py:73-98 | jobs not queued are left as they were |
| Jobs.TurnsSettleQueue | app/backend/pipeline/job_manager.py:73-98 | the queue empties, every queued job settles, other jobs stay as they were |
| Jobs.SettledStays | app/backend/pipeline/job_manager.py:73-98 | a settled job stays settled |
| Jobs.CompletedJobHasResult | app/backend/pipeline/job_manager.py:66-92 | a completed job's saved result is returned |
| Jobs.FailedNewJobHasNoResult | app/backend/pipeline/job_manager.py:66-96 | a job failing before any save has no result |
| Jobs.JobManager.constructor | app/backend/pipeline/job_manager.py:26-29 | an empty queue, no jobs, no worker |
| Jobs.JobManager.Start | app/backend/pipeline/job_manager.py:31-33 | the worker is started; queue and jobs unchanged |
| Jobs.JobManager.Submit | app/backend/pipeline/job_manager.py:35-61 | refusal leaves everything unchanged; otherwise a queued status under the new id and the request at the queue tail |
| Jobs.JobManager.GetStatus | app/backend/pipeline/job_manager.py:63-64 | `None` exactly for an unknown id, else its status |
| Jobs.JobManager.GetResult | app/backend/pipeline/job_manager.py:66-71 | the result the status table and files give |
| Jobs.JobManager.ProcessNext | app/backend/pipeline/job_manager.py:73-98 | an empty queue changes nothing; otherwise first job taken (FIFO) and its status is the pipeline outcome's |
| Routes.ClaimRows | app/backend/api/routes_jobs.py:97-98 | the CSV rows of the claims; stated by `Routes.ClaimRowsLayout` |
| Routes.ClaimRowsLayout | app/backend/api/routes_jobs.py:97-98 | one row per claim, in order |
| Routes.ExportCsv | app/backend/api/routes_jobs.py:93-98 | the header row, then the claim rows |
| Routes.CsvExample | tests/test_export_csv.py:7-32 | the repository's example gives the header and a row holding `Hay 3 millones` |
| Routes.FlattenLength | app/backend/api/routes_jobs.py:102-109 | blocks of w lines give w lines per block |
| Routes.FlattenBlock | app/backend/api/routes_jobs.py:102-109 | block i is lines w i to w i + w - 1 |
| Routes.LineOfBlock | app/backend/api/routes_jobs.py:102-109 | line k of block i after h header lines |
| Routes.FlattenAppend | app/backend/api/routes_jobs.py:102-109 | appending a block appends its lines |
| Routes.SrtCues | app/backend/api/routes_jobs.py:103-109 | per-segment definition of the cues, numbered from 1; the line layout is stated by `Routes.SrtLinesLayout` |
| Routes.SrtLines | app/backend/api/routes_jobs.py:101-110 | the SubRip lines; stated by `Routes.SrtLinesLayout` |
| Routes.SrtLinesLayout | app/backend/api/routes_jobs.py:101-110 | four lines per segment: its 1-based number, its timing, `speaker: text`, an empty line |
| Routes.SrtCueLines | app/backend/api/routes_jobs.py:103-109 | the four lines of segment i are its cue |
| Routes.SrtCue | app/backend/api/routes_jobs.py:104-109 | the four lines one segment gets; stated by `Routes.SrtLinesLayout` and `Routes.SrtCueLines` |
| Routes.ExportSrt | app/backend/api/routes_jobs.py:101-110 | the loop's lines joined by newlines |
| Routes.VttCues | app/backend/api/routes_jobs.py:115-120 | per-segment definition of the cues; the line layout is stated by `Routes.VttLinesLayout` |
| Routes.VttLines | app/backend/api/routes_jobs.py:113-121 | the WebVTT lines; stated by `Routes.VttLinesLayout` |
| Routes.VttLinesLayout | app/backend/api/routes_jobs.py:113-121 | `WEBVTT`, empty line, then three lines per segment |
| Routes.VttHeaderLines | app/backend/api/routes_jobs.py:114 | the file starts with `WEBVTT` and an empty line |
| Routes.VttCueLines | app/backend/api/routes_jobs.py:115-120 | the three lines of segment i are its cue |
| Routes.VttCue | app/backend/api/routes_jobs.py:116-120 | the three lines one segment gets; stated by `Routes.VttCueLines` and `Routes.VttCueMatchesSrtCue` |
| Routes.VttCueMatchesSrtCue | app/backend/api/routes_jobs.py:105-120 | a WebVTT cue is the SubRip cue with a full stop for the comma |
| Routes.ExportVtt | app/backend/api/routes_jobs.py:113-121 | the header and the loop's lines joined by newlines |
| Routes.ApplyEditsToResult | app/backend/api/routes_jobs.py:124-131 | only the transcript changes; metadata, claims, verifications kept |
| Routes.ApplyEditsToResultTwice | app/backend/api/routes_jobs.py:124-131 | two overlays in turn are one overlay of the joined list |
| Routes.EditsPathHoldsId | app/backend/api/routes_jobs.py:63 | the job id can be read back from the edits path |
| Routes.EditsPathInjective | app/backend/api/routes_jobs.py:63 | different jobs use different edit files |
| Routes.EditsPath | app/backend/api/routes_jobs.py:63 | the job's edits file; stated by `Routes.EditsPathHoldsId` and `Routes.EditsPathInjective` |
| Routes.SaveEdits | app/backend/api/routes_jobs.py:61-66 | after saving, the files are the old ones plus the job's edits path |
| Routes.ResultView | app/backend/api/routes_jobs.py:48-58 | the result `get_result` returns, with or without the saved edits; stated by `Routes.ReadAppliesSavedEdits`, `Routes.NoEditsFileShowsStored` and `Routes.SaveKeepsOtherJobs` |
| Routes.ReadAppliesSavedEdits | app/backend/api/routes_jobs.py:48-66 | after saving, a read with overlay applies exactly the saved list, a read without gives the stored result |
| Routes.SaveOverwrites | app/backend/api/routes_jobs.py:61-66 | a second save replaces the first entirely |
| Routes.SaveKeepsOtherJobs | app/backend/api/routes_jobs.py:48-66 | saving one job's edits changes no other job's reads |
| Routes.NoEditsFileShowsStored | app/backend/api/routes_jobs.py:53-57 | without an edits file the stored result is shown |

## Left out

- File and network I/O: JSON files, result and export files, `mkdir`, `VectorStore._save` and `from_pack`. Saved files are given as `Option` values; a write error is a parameter.
- uuid generation: ids are a given function `ids(n)` or a given `newId`.
- File existence and sizes: these are given booleans and numbers.
- The external stages (ffmpeg, pyannote, whisper) and document ingestion. They are given results, or given `(path, content)` documents.
- asyncio: the worker is one synchronous turn (`Jobs.JobManager.ProcessNext`), and `start` only sets a flag.
- The HTTP handlers `create_job`, `get_job` and `export_result`, and FastAPI error mapping: they only wire the modelled operations to HTTP.
- Edits.Edit: edit entries are taken to be well-formed. Each action's fields are taken to be present with the right types, and `Other` stands only for a missing action or one outside the four tags (`Edits.WellTagged`). In the code, a missing `start`, `end` or `time` makes the comparisons raise `TypeError` (pipeline/steps/edits.py:19-30 and 51-56), and a missing `new` or `speaker` sets the speaker to `None` (edits.py:13-24).
- Routes.SaveEdits: the saved body is taken to be a list of edit entries. The code stores `body.get("edits", [])` as given (api/routes_jobs.py:65), and a non-list would make a later read raise.
- Vectors.Meta: loaded metadata is taken to hold `title`, `source` and `excerpt`. The code raises `KeyError` while building a citation when one is missing (pipeline/steps/verify.py:20-24).
- Vectors.KeyErrorMessage: `repr`'s escapes of non-printable characters other than newline, carriage return and tab (`\xNN`, `\uNNNN`) are not modelled.
- Vectors.BaseName: `Path`'s dropping of `.` components (`a/.` names `a`) is not modelled.
- Vectors.Score: the `sqrt` of the cosine is not modelled. The score is the cosine times its absolute value, which over exact reals has the same sign, the same zeros and the same order as the cosine, so ranking and filtering agree with the source there; with floats, rounding in the square roots and the division can create or break ties and so change the order among near-equal scores, and the reported score values differ.
- TimeFormat.ClockOf: `timedelta` microsecond rounding and float error in `int((seconds - int(seconds)) * 1000)` are not modelled; times are exact reals.
- TimeFormat.ClockOfSpec: the milliseconds bound is proved for non-negative times only.
- Strings.IsAlphaChar: exact on Latin-1 only. `str.isalpha` and `str.lower` beyond code point 255 are not modelled.
- Claims.IsWordChar: exact on Latin-1 plus the pattern's own letters. Other Unicode word characters are not modelled.
- Routes.ExportCsv: `csv.writer` quoting and the printing of floats are not modelled; the model is the row sequence of cells.
- Chunking.ChunkText: the budget `fuel` is a parameter. A budget too small for a stopping loop gives `StillRunning`, and the lemmas show which inputs stop at all.
- Vectors.VectorStore.Build: it chunks with the intended, terminating chunker. As written, `build` would not return on any non-empty document (see Findings).
- Vectors.StoreDocChunks: its chunk list is computed by the outer loop and passed in.
- Engine.Pipeline: the job directory's `mkdir` failure is folded into the audio stage's error.

## Findings

| source | as written | input that shows it | evidently intended | confidence | as-written member | corrected member |
|---|---|---|---|---|---|---|
| app/backend/indexing/chunking.py:13-18 | after the window that reaches the end, `start = len(text) - overlap` is again inside the text, so with a positive overlap the loop repeats its last window and never returns | `chunk_text("a" * 1200, 500, 50)` (tests/test_indexing_chunking.py:5-6) | stop after the window that reaches the end, giving 3 chunks: 500 `a`s, then 500 starting with the 50-character overlap, then 300 | not executed | Chunking.SourceLoopDivergesOnTest | Chunking.IntendedMatchesTest |
