/** The pipeline (app/backend/core/engine.py): audio extraction,
    diarization, transcription, speaker alignment, claim extraction and, on
    request, verification against an evidence pack. */
module Engine {
  import opened Wrappers
  import opened Dicts
  import opened Models
  import opened SegmentMerge
  import opened Claims
  import opened Vectors
  import opened Verifier

  /** What the outside world gives one run: the error, if any, of creating
      the job directory and extracting the audio; the diarizer's and the
      transcriber's outputs or errors; the ids `uuid4` returns, in order;
      and the pack's saved files (`None` for a file that does not exist). */
  datatype Stages = Stages(
    audioError: Option<string>,
    diarized: Result<seq<Segment>>,
    transcribed: Result<seq<Segment>>,
    ids: nat -> string,
    savedMetadata: Option<Dict<Meta>>,
    savedVectors: Option<Dict<Vector>>)

  /** `verify and pack_name`: verification runs only when asked for and
      the pack name is neither missing nor empty. */
  predicate UsesPack(verify: bool, packName: Option<string>) {
    verify && packName.Some? && packName.value != []
  }

  /** A saved dictionary, or the empty one the store starts with. */
  function SavedOr<V>(saved: Option<Dict<V>>): Dict<V> {
    if saved.Some? then saved.value else []
  }

  /** `run_pipeline(...)` as a function of its arguments and the stages'
      outcomes; an exception is an `Err` with its message. */
  function Pipeline(jobId: string, videoPath: string, language: string, numSpeakers: Option<int>,
                    packName: Option<string>, verify: bool, st: Stages): Result<JobResult>
  {
    if st.audioError.Some? then Err(st.audioError.value)
    else if st.diarized.Err? then Err(st.diarized.message)
    else if st.transcribed.Err? then Err(st.transcribed.message)
    else
      var transcript := Transcript(MergedSegments(st.diarized.value, st.transcribed.value));
      var claims := ClaimsFrom(transcript.segments, st.ids, 0);
      var metadata := JobMetadata(jobId, videoPath, language, numSpeakers, packName, verify);
      Finish(metadata, transcript, claims, UsesPack(verify, packName), SavedOr(st.savedVectors), SavedOr(st.savedMetadata))
  }

  /** The last stage: the claims verified against the pack's dictionaries
      when the pack is used, and the result assembled. */
  function Finish(metadata: JobMetadata, transcript: Transcript, claims: seq<Claim>, usesPack: bool,
                  vectors: Dict<Vector>, saved: Dict<Meta>): Result<JobResult>
  {
    if usesPack then
      match VerifyAll(claims, vectors, saved)
      case Err(e) => Err(e)
      case Ok(verifications) => Ok(JobResult(metadata, transcript, claims, verifications))
    else Ok(JobResult(metadata, transcript, claims, []))
  }

  /** The last stage fails only when verification runs and some claim's
      search fails. */
  lemma FinishOkIff(metadata: JobMetadata, transcript: Transcript, claims: seq<Claim>, usesPack: bool,
                    vectors: Dict<Vector>, saved: Dict<Meta>)
    ensures Finish(metadata, transcript, claims, usesPack, vectors, saved).Ok?
            <==> (usesPack ==> AllSearchesOk(claims, vectors, saved))
  {
    VerifyAllOk(claims, vectors, saved);
  }

  /** A successful last stage keeps the metadata, the transcript and the
      claims, with one verdict per claim when verifying and none otherwise. */
  lemma FinishRecords(metadata: JobMetadata, transcript: Transcript, claims: seq<Claim>, usesPack: bool,
                      vectors: Dict<Vector>, saved: Dict<Meta>)
    requires Finish(metadata, transcript, claims, usesPack, vectors, saved).Ok?
    ensures var r := Finish(metadata, transcript, claims, usesPack, vectors, saved).value;
            r.metadata == metadata && r.transcript == transcript && r.claims == claims
            && (!usesPack ==> r.verifications == [])
            && (usesPack ==> |r.verifications| == |claims|
                             && forall i :: 0 <= i < |claims| ==> r.verifications[i].claimId == claims[i].id)
  {
    if usesPack {
      VerifyAllIds(claims, vectors, saved);
    }
  }

  /** With every stage successful, the run fails only when verification
      runs and some claim's search fails. */
  lemma PipelineOkIff(jobId: string, videoPath: string, language: string, numSpeakers: Option<int>,
                      packName: Option<string>, verify: bool, st: Stages)
    requires st.audioError.None? && st.diarized.Ok? && st.transcribed.Ok?
    ensures var claims := ClaimsFrom(MergedSegments(st.diarized.value, st.transcribed.value), st.ids, 0);
            var vectors, metadata := SavedOr(st.savedVectors), SavedOr(st.savedMetadata);
            Pipeline(jobId, videoPath, language, numSpeakers, packName, verify, st).Ok?
            <==> (UsesPack(verify, packName) ==> AllSearchesOk(claims, vectors, metadata))
  {
    var transcript := Transcript(MergedSegments(st.diarized.value, st.transcribed.value));
    var claims := ClaimsFrom(transcript.segments, st.ids, 0);
    var metadata := JobMetadata(jobId, videoPath, language, numSpeakers, packName, verify);
    FinishOkIff(metadata, transcript, claims, UsesPack(verify, packName), SavedOr(st.savedVectors), SavedOr(st.savedMetadata));
  }

  /** A successful run records the arguments, the aligned transcript, its
      claims and one verdict per claim, in claim order (none without
      verification). */
  lemma PipelineRecords(jobId: string, videoPath: string, language: string, numSpeakers: Option<int>,
                        packName: Option<string>, verify: bool, st: Stages)
    requires Pipeline(jobId, videoPath, language, numSpeakers, packName, verify, st).Ok?
    ensures st.audioError.None? && st.diarized.Ok? && st.transcribed.Ok?
    ensures var r := Pipeline(jobId, videoPath, language, numSpeakers, packName, verify, st).value;
            var segs := MergedSegments(st.diarized.value, st.transcribed.value);
            var claims := ClaimsFrom(segs, st.ids, 0);
            r.metadata == JobMetadata(jobId, videoPath, language, numSpeakers, packName, verify)
            && r.transcript.segments == segs && r.claims == claims
            && (!UsesPack(verify, packName) ==> r.verifications == [])
            && (UsesPack(verify, packName) ==>
                  |r.verifications| == |claims|
                  && forall i :: 0 <= i < |claims| ==> r.verifications[i].claimId == claims[i].id)
  {
    var transcript := Transcript(MergedSegments(st.diarized.value, st.transcribed.value));
    var claims := ClaimsFrom(transcript.segments, st.ids, 0);
    var metadata := JobMetadata(jobId, videoPath, language, numSpeakers, packName, verify);
    FinishRecords(metadata, transcript, claims, UsesPack(verify, packName), SavedOr(st.savedVectors), SavedOr(st.savedMetadata));
  }

  /** A run succeeds exactly when every stage does and, with verification,
      every claim's search does; the result then records the arguments, the
      aligned transcript and its claims, and one verdict per claim (none
      without verification). */
  lemma PipelineResultSpec(jobId: string, videoPath: string, language: string, numSpeakers: Option<int>,
                           packName: Option<string>, verify: bool, st: Stages)
    requires st.audioError.None? && st.diarized.Ok? && st.transcribed.Ok?
    ensures var r := Pipeline(jobId, videoPath, language, numSpeakers, packName, verify, st);
            var segs := MergedSegments(st.diarized.value, st.transcribed.value);
            var claims := ClaimsFrom(segs, st.ids, 0);
            var vectors, metadata := SavedOr(st.savedVectors), SavedOr(st.savedMetadata);
            (r.Ok? <==> (UsesPack(verify, packName) ==> AllSearchesOk(claims, vectors, metadata)))
            && (r.Ok? ==>
                  r.value.metadata == JobMetadata(jobId, videoPath, language, numSpeakers, packName, verify)
                  && r.value.transcript.segments == segs
                  && r.value.claims == claims
                  && (!UsesPack(verify, packName) ==> r.value.verifications == [])
                  && (UsesPack(verify, packName) ==>
                        |r.value.verifications| == |claims|
                        && forall i :: 0 <= i < |claims| ==> r.value.verifications[i].claimId == claims[i].id))
  {
    PipelineOkIff(jobId, videoPath, language, numSpeakers, packName, verify, st);
    if Pipeline(jobId, videoPath, language, numSpeakers, packName, verify, st).Ok? {
      PipelineRecords(jobId, videoPath, language, numSpeakers, packName, verify, st);
    }
  }

  /** A pack whose vector file does not exist supports no claim: every
      verdict is `insufficient`. */
  lemma MissingPackSupportsNothing(jobId: string, videoPath: string, language: string, numSpeakers: Option<int>,
                                   packName: Option<string>, verify: bool, st: Stages)
    requires st.audioError.None? && st.diarized.Ok? && st.transcribed.Ok? && st.savedVectors.None?
    ensures var r := Pipeline(jobId, videoPath, language, numSpeakers, packName, verify, st);
            r.Ok? && forall v :: v in r.value.verifications ==> v.status == "insufficient" && v.citations == []
  {
    var segs := MergedSegments(st.diarized.value, st.transcribed.value);
    EmptyStoreSupportsNothing(ClaimsFrom(segs, st.ids, 0), SavedOr(st.savedMetadata));
  }
}
