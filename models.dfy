/** The record types of the application (app/backend/core/models.py).
    Seconds, confidences and progress values are Python floats, modelled as
    exact reals. */
module Models {
  import opened Wrappers

  /** A timed span of speech. Nothing in the record ties `start` to `end`. */
  datatype Segment = Segment(start: real, end: real, speaker: string, text: string)

  /** The ordering a well-formed segment is expected to have; a separate
      predicate, because the record does not enforce it. */
  predicate Ordered(s: Segment) {
    s.start <= s.end
  }

  /** A segment may be built with its end before its start. */
  lemma SegmentMayBeReversed()
    ensures exists s: Segment :: !Ordered(s)
  {
    var s := Segment(1.0, 0.0, "", "");
    assert !Ordered(s);
  }

  datatype Transcript = Transcript(segments: seq<Segment>)

  datatype Claim = Claim(
    id: string,
    speaker: string,
    start: real,
    end: real,
    text: string,
    claimType: string,
    confidence: real,
    contextBefore: Option<string>,
    contextAfter: Option<string>)

  const DefaultClaimType: string := "statement"
  const DefaultClaimConfidence: real := 0.5

  /** `Claim(id=…, speaker=…, start=…, end=…, text=…)` with every other field
      left at its default. */
  function NewClaim(id: string, speaker: string, start: real, end: real, text: string): (c: Claim)
    ensures c.id == id && c.speaker == speaker && c.start == start && c.end == end && c.text == text
    ensures c.claimType == "statement" && c.confidence == 0.5
    ensures c.contextBefore == None && c.contextAfter == None
  {
    Claim(id, speaker, start, end, text, DefaultClaimType, DefaultClaimConfidence, None, None)
  }

  datatype Citation = Citation(
    sourceTitle: string,
    sourceRef: string,
    snapshotDate: Option<string>,
    page: Option<int>,
    excerpt: string)

  datatype Verification = Verification(
    claimId: string,
    status: string,
    confidence: real,
    citations: seq<Citation>)

  /** `Verification(claim_id=…, status=…, confidence=…)`: no citations. */
  function NewVerification(claimId: string, status: string, confidence: real): (v: Verification)
    ensures v.claimId == claimId && v.status == status && v.confidence == confidence
    ensures v.citations == []
  {
    Verification(claimId, status, confidence, [])
  }

  datatype JobMetadata = JobMetadata(
    jobId: string,
    videoPath: string,
    language: string,
    numSpeakers: Option<int>,
    packName: Option<string>,
    verify: bool)

  /** `JobMetadata(job_id=…, video_path=…, language=…, num_speakers=…)`:
      no pack and no verification. */
  function NewJobMetadata(jobId: string, videoPath: string, language: string, numSpeakers: Option<int>): (m: JobMetadata)
    ensures m.jobId == jobId && m.videoPath == videoPath && m.language == language
    ensures m.numSpeakers == numSpeakers
    ensures m.packName == None && !m.verify
  {
    JobMetadata(jobId, videoPath, language, numSpeakers, None, false)
  }

  datatype JobResult = JobResult(
    metadata: JobMetadata,
    transcript: Transcript,
    claims: seq<Claim>,
    verifications: seq<Verification>)

  /** `JobResult(metadata=…, transcript=…)`: no claims, no verifications. */
  function NewJobResult(metadata: JobMetadata, transcript: Transcript): (r: JobResult)
    ensures r.metadata == metadata && r.transcript == transcript
    ensures r.claims == [] && r.verifications == []
  {
    JobResult(metadata, transcript, [], [])
  }
}
