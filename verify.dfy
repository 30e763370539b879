/** The claim verifier (app/backend/pipeline/steps/verify.py): every claim
    is searched for in the evidence store, five hits at most, and marked
    `supported` with the hits as citations, or `insufficient` without any. */
module Verifier {
  import opened Wrappers
  import opened Dicts
  import opened Models
  import opened Vectors

  /** The number of hits asked for per claim. */
  const SearchDepth: int := 5

  /** A citation copies the hit's metadata field by field. */
  function CitationOf(meta: Meta): (c: Citation)
    ensures c.sourceTitle == meta.title && c.sourceRef == meta.source && c.excerpt == meta.excerpt
    ensures c.snapshotDate == meta.snapshotDate && c.page == meta.page
  {
    Citation(meta.title, meta.source, meta.snapshotDate, meta.page, meta.excerpt)
  }

  function Citations(hits: seq<Hit>): (cs: seq<Citation>)
    ensures |cs| == |hits| && forall j :: 0 <= j < |hits| ==> cs[j] == CitationOf(hits[j].meta)
  {
    seq(|hits|, j requires 0 <= j < |hits| => CitationOf(hits[j].meta))
  }

  /** The verdict on one claim given its hits. */
  function VerificationOf(claimId: string, hits: seq<Hit>): Verification {
    if hits == [] then NewVerification(claimId, "insufficient", 0.2)
    else Verification(claimId, "supported", 0.6, Citations(hits))
  }

  /** The verdicts on `claims`, given the outcome of each claim's search:
      the first failed search ends the run with its error. */
  function Collect(claims: seq<Claim>, outcomes: seq<Result<seq<Hit>>>): Result<seq<Verification>>
    requires |outcomes| == |claims|
  {
    if claims == [] then Ok([])
    else
      match outcomes[0]
      case Err(e) => Err(e)
      case Ok(hits) =>
        match Collect(claims[1..], outcomes[1..])
        case Err(e) => Err(e)
        case Ok(rest) => Ok([VerificationOf(claims[0].id, hits)] + rest)
  }

  /** The outcome of each claim's search, in claim order. */
  function Searches(claims: seq<Claim>, vectors: Dict<Vector>, metadata: Dict<Meta>): (o: seq<Result<seq<Hit>>>)
    ensures |o| == |claims|
    ensures forall i :: 0 <= i < |claims| ==> o[i] == SearchResult(vectors, metadata, claims[i].text, SearchDepth)
  {
    seq(|claims|, i requires 0 <= i < |claims| => SearchResult(vectors, metadata, claims[i].text, SearchDepth))
  }

  /** `verify_claims(claims, store)` on the store's dictionaries. */
  function VerifyAll(claims: seq<Claim>, vectors: Dict<Vector>, metadata: Dict<Meta>): Result<seq<Verification>> {
    Collect(claims, Searches(claims, vectors, metadata))
  }

  /** The run succeeds exactly when every search does, and then gives one
      verdict per claim, in order, on that claim's hits; otherwise it fails
      with the error of the first search that fails. */
  lemma {:induction false} CollectSpec(claims: seq<Claim>, outcomes: seq<Result<seq<Hit>>>)
    requires |outcomes| == |claims|
    ensures var r := Collect(claims, outcomes);
            (r.Ok? <==> forall i :: 0 <= i < |claims| ==> outcomes[i].Ok?)
            && (r.Ok? ==>
                  (|r.value| == |claims|
                   && forall i :: 0 <= i < |claims| ==> r.value[i] == VerificationOf(claims[i].id, outcomes[i].value)))
            && (r.Err? ==>
                  exists i :: 0 <= i < |claims| && outcomes[i] == Err(r.message)
                              && forall j :: 0 <= j < i ==> outcomes[j].Ok?)
  {
    if claims != [] {
      CollectSpec(claims[1..], outcomes[1..]);
      var r := Collect(claims, outcomes);
      var rest := Collect(claims[1..], outcomes[1..]);
      if outcomes[0].Err? {
        assert outcomes[0] == Err(r.message);
      } else if rest.Err? {
        var i :| 0 <= i < |claims[1..]| && outcomes[1..][i] == Err(rest.message)
                 && forall j :: 0 <= j < i ==> outcomes[1..][j].Ok?;
        assert outcomes[i + 1] == Err(r.message);
        forall j | 0 <= j < i + 1 ensures outcomes[j].Ok? {
          if j > 0 {
            assert outcomes[1..][j - 1].Ok?;
          }
        }
      } else {
        forall i | 0 <= i < |claims| ensures outcomes[i].Ok? {
          if i > 0 {
            assert outcomes[1..][i - 1].Ok?;
          }
        }
        forall i | 0 < i < |claims|
          ensures r.value[i] == VerificationOf(claims[i].id, outcomes[i].value)
        {
          assert r.value[i] == rest.value[i - 1];
          assert claims[1..][i - 1] == claims[i] && outcomes[1..][i - 1] == outcomes[i];
        }
      }
    }
  }

  /** The same for the store's own searches. */
  lemma VerifyAllSpec(claims: seq<Claim>, vectors: Dict<Vector>, metadata: Dict<Meta>)
    ensures var r := VerifyAll(claims, vectors, metadata);
            (r.Ok? <==> forall i :: 0 <= i < |claims| ==> SearchResult(vectors, metadata, claims[i].text, SearchDepth).Ok?)
            && (r.Ok? ==>
                  (|r.value| == |claims|
                   && forall i :: 0 <= i < |claims| ==>
                        r.value[i] == VerificationOf(claims[i].id, SearchResult(vectors, metadata, claims[i].text, SearchDepth).value)))
            && (r.Err? ==>
                  exists i :: 0 <= i < |claims| && SearchResult(vectors, metadata, claims[i].text, SearchDepth) == Err(r.message)
                              && forall j :: 0 <= j < i ==> SearchResult(vectors, metadata, claims[j].text, SearchDepth).Ok?)
  {
    CollectSpec(claims, Searches(claims, vectors, metadata));
  }

  /** Every claim's search succeeds. */
  predicate AllSearchesOk(claims: seq<Claim>, vectors: Dict<Vector>, metadata: Dict<Meta>) {
    forall i :: 0 <= i < |claims| ==> SearchResult(vectors, metadata, claims[i].text, SearchDepth).Ok?
  }

  /** The run succeeds exactly when every search does. */
  lemma VerifyAllOk(claims: seq<Claim>, vectors: Dict<Vector>, metadata: Dict<Meta>)
    ensures VerifyAll(claims, vectors, metadata).Ok? <==> AllSearchesOk(claims, vectors, metadata)
  {
    CollectSpec(claims, Searches(claims, vectors, metadata));
  }

  /** A successful run gives one verdict per claim, carrying its id. */
  lemma VerifyAllIds(claims: seq<Claim>, vectors: Dict<Vector>, metadata: Dict<Meta>)
    requires VerifyAll(claims, vectors, metadata).Ok?
    ensures var v := VerifyAll(claims, vectors, metadata).value;
            |v| == |claims| && forall i :: 0 <= i < |claims| ==> v[i].claimId == claims[i].id
  {
    CollectSpec(claims, Searches(claims, vectors, metadata));
  }

  /** One citation per ranked entry, in order, each copying the metadata
      stored under the entry's key. */
  predicate CitesRanked(citations: seq<Citation>, ranked: seq<Scored>, metadata: Dict<Meta>) {
    |citations| == |ranked|
    && forall j :: 0 <= j < |ranked| ==>
         Get(metadata, ranked[j].0).Some? && citations[j] == CitationOf(Get(metadata, ranked[j].0).value)
  }

  /** Each verdict: `supported` with confidence 0.6 and one citation per
      hit, at most five, each copying the metadata of its ranked key; or
      `insufficient` with confidence 0.2, exactly when nothing scored above
      zero. */
  lemma VerdictSpec(claim: Claim, vectors: Dict<Vector>, metadata: Dict<Meta>)
    requires SearchResult(vectors, metadata, claim.text, SearchDepth).Ok?
    ensures var v := VerificationOf(claim.id, SearchResult(vectors, metadata, claim.text, SearchDepth).value);
            var p := if vectors == [] then [] else Ranked(claim.text, vectors, SearchDepth);
            v.claimId == claim.id
            && (v.status == "insufficient" <==> p == [])
            && (v.status == "insufficient" ==> v.confidence == 0.2 && v.citations == [])
            && (v.status != "insufficient" ==>
                  v.status == "supported" && v.confidence == 0.6
                  && 1 <= |v.citations| <= 5 && CitesRanked(v.citations, p, metadata))
  {
    if vectors == [] {
      SearchEmpty(metadata, claim.text, SearchDepth);
    } else {
      SearchRanked(vectors, metadata, claim.text, SearchDepth);
      var h := SearchResult(vectors, metadata, claim.text, SearchDepth).value;
      var v := VerificationOf(claim.id, h);
      var p := Ranked(claim.text, vectors, SearchDepth);
      assert |h| == |p| && |h| <= 5;
      assert v.status == "insufficient" <==> p == [];
      if p != [] {
        assert v.citations == Citations(h);
        forall j | 0 <= j < |p| ensures Get(metadata, p[j].0) == Some(h[j].meta) && v.citations[j] == CitationOf(h[j].meta) {
          assert Get(metadata, p[j].0) == Some(h[j].meta);
          assert v.citations[j] == CitationOf(h[j].meta);
        }
        assert CitesRanked(v.citations, p, metadata);
      }
    }
  }

  /** An empty evidence store supports nothing. */
  lemma EmptyStoreSupportsNothing(claims: seq<Claim>, metadata: Dict<Meta>)
    ensures VerifyAll(claims, [], metadata).Ok?
    ensures var v := VerifyAll(claims, [], metadata).value;
            |v| == |claims| && forall i :: 0 <= i < |v| ==> v[i] == NewVerification(claims[i].id, "insufficient", 0.2)
  {
    forall i | 0 <= i < |claims| ensures SearchResult([], metadata, claims[i].text, SearchDepth) == Ok([]) {
      SearchEmpty(metadata, claims[i].text, SearchDepth);
    }
    VerifyAllSpec(claims, [], metadata);
  }

  /** `verify_claims`: a loop over the claims that searches the store for
      each and appends its verdict; a failing search ends the loop with its
      error. */
  method VerifyClaims(claims: seq<Claim>, store: VectorStore) returns (r: Result<seq<Verification>>)
    ensures r == VerifyAll(claims, store.vectors, store.metadata)
  {
    ghost var outcomes := Searches(claims, store.vectors, store.metadata);
    var verifications: seq<Verification> := [];
    var i := 0;
    assert claims[0..] == claims && outcomes[0..] == outcomes;
    PrependNothingV(VerifyAll(claims, store.vectors, store.metadata));
    while i < |claims|
      invariant 0 <= i <= |claims|
      invariant VerifyAll(claims, store.vectors, store.metadata)
                == PrependVerdicts(verifications, Collect(claims[i..], outcomes[i..]))
    {
      var claim := claims[i];
      assert claims[i..][1..] == claims[i + 1..] && outcomes[i..][1..] == outcomes[i + 1..];
      var matches := store.Search(claim.text, SearchDepth);
      assert outcomes[i..][0] == matches;
      if matches.Err? {
        return Err(matches.message);
      }
      var verdict := if matches.value == [] then NewVerification(claim.id, "insufficient", 0.2)
                     else Verification(claim.id, "supported", 0.6, Citations(matches.value));
      assert Collect(claims[i..], outcomes[i..]) == PrependVerdicts([verdict], Collect(claims[i + 1..], outcomes[i + 1..]));
      PrependVerdictsTwice(verifications, [verdict], Collect(claims[i + 1..], outcomes[i + 1..]));
      verifications := verifications + [verdict];
      i := i + 1;
    }
    assert claims[i..] == [];
    assert verifications + [] == verifications;
    return Ok(verifications);
  }

  function PrependVerdicts(v: seq<Verification>, r: Result<seq<Verification>>): Result<seq<Verification>> {
    match r
    case Err(e) => Err(e)
    case Ok(rest) => Ok(v + rest)
  }

  lemma PrependNothingV(r: Result<seq<Verification>>)
    ensures PrependVerdicts([], r) == r
  {
    if r.Ok? {
      assert [] + r.value == r.value;
    }
  }

  lemma PrependVerdictsTwice(a: seq<Verification>, b: seq<Verification>, r: Result<seq<Verification>>)
    ensures PrependVerdicts(a, PrependVerdicts(b, r)) == PrependVerdicts(a + b, r)
  {
    if r.Ok? {
      assert a + (b + r.value) == (a + b) + r.value;
    }
  }
}
