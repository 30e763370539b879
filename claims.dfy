/** The claim extractor (app/backend/pipeline/steps/claims.py): one claim
    per transcript segment whose text matches the claim pattern. */
module Claims {
  import opened Wrappers
  import opened Strings
  import opened Models
  import opened Seqs

  /** A regular-expression word character (`\w`), exact on Latin-1: ASCII
      letters and digits, `_`, the Latin-1 letters and the Latin-1 numeric
      characters (superscripts and fractions); beyond Latin-1 only the
      letters the pattern itself uses (U+0102, U+0103, U+02C7). */
  predicate IsWordChar(c: char) {
    IsAlphaChar(c) || IsDigit(c) || c == '_'
    || c == '\U{b2}' || c == '\U{b3}' || c == '\U{b9}' || ('\U{bc}' <= c <= '\U{be}')
    || c == '\U{0102}' || c == '\U{0103}' || c == '\U{02c7}'
  }

  /** The maximal runs of word characters, in order; `cur` is the run being
      read. Word boundaries (`\b`) are exactly the ends of these runs. */
  function Runs(s: string, cur: string): seq<string>
    decreases |s|
  {
    if s == [] then (if cur == [] then [] else [cur])
    else if IsWordChar(s[0]) then Runs(s[1..], cur + [s[0]])
    else (if cur == [] then [] else [cur]) + Runs(s[1..], [])
  }

  function Words(text: string): seq<string> {
    Runs(text, [])
  }

  predicate AllWordChars(w: string) {
    forall k :: 0 <= k < |w| ==> IsWordChar(w[k])
  }

  /** Every run is a non-empty string of word characters. */
  lemma {:induction false} RunsAreWords(s: string, cur: string)
    requires AllWordChars(cur)
    ensures forall w :: w in Runs(s, cur) ==> w != [] && AllWordChars(w)
    decreases |s|
  {
    if s != [] {
      if IsWordChar(s[0]) {
        RunsAreWords(s[1..], cur + [s[0]]);
      } else {
        RunsAreWords(s[1..], []);
      }
    }
  }

  /** Case folding under `re.IGNORECASE` on the characters modelled. */
  function Fold(c: char): char {
    if c == '\U{0102}' then '\U{0103}' else LowerChar(c)
  }

  function FoldAll(w: string): (r: string)
    ensures |r| == |w| && forall k :: 0 <= k < |w| ==> r[k] == Fold(w[k])
  {
    if w == [] then [] else [Fold(w[0])] + FoldAll(w[1..])
  }

  /** Folding keeps the length and changes nothing a second time. */
  lemma FoldAllIdempotent(w: string)
    ensures |FoldAll(w)| == |w|
    ensures FoldAll(FoldAll(w)) == FoldAll(w)
  {
  }

  /** The fixed words of `CLAIM_PATTERN`, the last one as the source spells
      it (a mis-decoded `será`). */
  const ClaimWords: seq<string> :=
    ["porcentaje", "millones", "miles", "es", "son", "fue", "eran", "ser\U{0103}\U{02c7}"]

  /** A whole word the pattern accepts: a run of decimal digits, or one of
      the fixed words in any letter case. */
  predicate IsClaimWord(w: string) {
    (w != [] && AllDigits(w)) || FoldAll(w) in ClaimWords
  }

  /** `CLAIM_PATTERN.search(text)` finds a match. */
  predicate Matches(text: string) {
    exists i :: 0 <= i < |Words(text)| && IsClaimWord(Words(text)[i])
  }

  /** Reading a run of word characters extends the current run. */
  lemma {:induction false} RunsWord(w: string, s: string, cur: string)
    requires AllWordChars(w)
    ensures Runs(w + s, cur) == Runs(s, cur + w)
    decreases |w|
  {
    if w == [] {
      assert w + s == s && cur + w == cur;
    } else {
      assert (w + s)[0] == w[0] && (w + s)[1..] == w[1..] + s;
      RunsWord(w[1..], s, cur + [w[0]]);
      assert cur + [w[0]] + w[1..] == cur + w;
    }
  }

  /** A character outside words ends the current run. */
  lemma RunsBreak(c: char, s: string, cur: string)
    requires !IsWordChar(c)
    ensures Runs([c] + s, cur) == (if cur == [] then [] else [cur]) + Runs(s, [])
  {
    assert ([c] + s)[1..] == s;
  }

  /** A text that is one word. */
  lemma WordsOfOne(a: string)
    requires a != [] && AllWordChars(a)
    ensures Words(a) == [a]
  {
    RunsWord(a, [], []);
    assert [] + a == a && a + [] == a;
  }

  /** Two words separated by a space. */
  lemma WordsOfTwo(a: string, b: string)
    requires a != [] && b != [] && AllWordChars(a) && AllWordChars(b)
    ensures Words(a + " " + b) == [a, b]
  {
    assert a + " " + b == a + (" " + b);
    RunsWord(a, " " + b, []);
    assert [] + a == a;
    RunsBreak(' ', b, a);
    WordsOfOne(b);
  }

  /** Three words separated by spaces. */
  lemma WordsOfThree(a: string, b: string, c: string)
    requires a != [] && b != [] && c != [] && AllWordChars(a) && AllWordChars(b) && AllWordChars(c)
    ensures Words(a + " " + b + " " + c) == [a, b, c]
  {
    assert a + " " + b + " " + c == a + (" " + (b + " " + c));
    RunsWord(a, " " + (b + " " + c), []);
    assert [] + a == a;
    RunsBreak(' ', b + " " + c, a);
    WordsOfTwo(b, c);
  }

  /** The repository's example sentence matches (on the number and on
      `millones`). */
  lemma MatchesExample()
    ensures Matches("Hay 3 millones")
  {
    assert AllDigits("3");
    MiddleWordMatches("Hay", "3", "millones");
    assert "Hay" + " " + "3" + " " + "millones" == "Hay 3 millones";
  }

  /** Three words match when the middle one is a claim word. */
  lemma MiddleWordMatches(a: string, b: string, c: string)
    requires a != [] && b != [] && c != [] && AllWordChars(a) && AllWordChars(b) && AllWordChars(c)
    requires IsClaimWord(b)
    ensures Matches(a + " " + b + " " + c)
  {
    WordsOfThree(a, b, c);
    assert Words(a + " " + b + " " + c)[1] == b;
  }

  /** Letter case does not matter. */
  lemma MatchesIgnoringCase()
    ensures Matches("ESO ES")
  {
    assert Words("ESO ES") == ["ESO", "ES"] by {
      WordsOfTwo("ESO", "ES");
      assert "ESO ES" == "ESO" + " " + "ES";
    }
    assert FoldAll("ES") == "es";
    assert IsClaimWord(Words("ESO ES")[1]);
  }

  /** Only whole words count: `esto` does not contain the word `es`, and
      `3D` is not a number. */
  lemma MatchesWholeWordsOnly()
    ensures !Matches("esto") && !Matches("3D")
  {
    assert !Matches("esto") by {
      WordsOfOne("esto");
      assert FoldAll("esto") == "esto";
    }
    assert !Matches("3D") by {
      WordsOfOne("3D");
      assert FoldAll("3D") == "3d";
      assert !AllDigits("3D") by {
        assert !IsDigit("3D"[1]);
      }
    }
  }

  const ClaimType: string := "statement"
  const ClaimConfidence: real := 0.55

  /** The claim made from a matching segment. */
  function ClaimOf(seg: Segment, id: string): (c: Claim)
    ensures c.id == id && c.speaker == seg.speaker && c.start == seg.start && c.end == seg.end
    ensures c.text == seg.text && c.claimType == "statement" && c.confidence == 0.55
    ensures c.contextBefore == None && c.contextAfter == None
  {
    Claim(id, seg.speaker, seg.start, seg.end, seg.text, ClaimType, ClaimConfidence, None, None)
  }

  /** The matching segments, in order. */
  function Matching(segs: seq<Segment>): (r: seq<Segment>)
    ensures |r| <= |segs|
  {
    if segs == [] then []
    else (if Matches(segs[0].text) then [segs[0]] else []) + Matching(segs[1..])
  }

  /** The matching segments keep the order they have in the transcript:
      they are a subsequence of it. */
  lemma {:induction false} MatchingInOrder(segs: seq<Segment>)
    ensures IsSubsequence(Matching(segs), segs)
  {
    if segs != [] {
      var rest := Matching(segs[1..]);
      MatchingInOrder(segs[1..]);
      if Matches(segs[0].text) {
        assert Matching(segs) == [segs[0]] + rest;
        assert ([segs[0]] + rest)[1..] == rest;
      } else {
        assert Matching(segs) == rest;
      }
    }
  }

  /** Exactly the segments that match are kept. */
  lemma {:induction false} MatchingKeepsMatches(segs: seq<Segment>)
    ensures forall s :: s in Matching(segs) <==> s in segs && Matches(s.text)
  {
    if segs != [] {
      MatchingKeepsMatches(segs[1..]);
      assert segs == [segs[0]] + segs[1..];
    }
  }

  /** `extract_claims` from the `n`-th generated id on: `ids(n)` is the
      id that the `n`-th call of `uuid4` returns. */
  function ClaimsFrom(segs: seq<Segment>, ids: nat -> string, n: nat): seq<Claim> {
    if segs == [] then []
    else if Matches(segs[0].text) then [ClaimOf(segs[0], ids(n))] + ClaimsFrom(segs[1..], ids, n + 1)
    else ClaimsFrom(segs[1..], ids, n)
  }

  /** One claim per matching segment, in segment order, the `i`-th with the
      `i`-th generated id. */
  lemma {:induction false} ClaimsArePerMatchingSegment(segs: seq<Segment>, ids: nat -> string, n: nat)
    ensures var r, m := ClaimsFrom(segs, ids, n), Matching(segs);
            |r| == |m| && forall i :: 0 <= i < |r| ==> r[i] == ClaimOf(m[i], ids(n + i))
  {
    if segs != [] {
      var tail := segs[1..];
      var hit := Matches(segs[0].text);
      if hit {
        var r', m' := ClaimsFrom(tail, ids, n + 1), Matching(tail);
        ClaimsArePerMatchingSegment(tail, ids, n + 1);
        var r, m := [ClaimOf(segs[0], ids(n))] + r', [segs[0]] + m';
        assert ClaimsFrom(segs, ids, n) == r;
        assert Matching(segs) == m;
        forall i | 0 < i < |r| ensures r[i] == ClaimOf(m[i], ids(n + i)) {
          var j := i - 1;
          assert r[i] == r'[j] && m[i] == m'[j];
          assert r'[j] == ClaimOf(m'[j], ids(n + 1 + j));
          assert n + 1 + j == n + i;
        }
      } else {
        assert ClaimsFrom(segs, ids, n) == ClaimsFrom(tail, ids, n);
        assert Matching(segs) == [] + Matching(tail) == Matching(tail);
        ClaimsArePerMatchingSegment(tail, ids, n);
      }
    }
  }

  /** There are never more claims than segments; every claim copies a
      matching segment and is a `statement` of confidence 0.55; segments that
      do not match give no claim. */
  lemma ClaimsProperties(segs: seq<Segment>, ids: nat -> string)
    ensures var r := ClaimsFrom(segs, ids, 0);
            |r| <= |segs|
            && forall c :: c in r ==>
                 Matches(c.text) && c.claimType == "statement" && c.confidence == 0.55
                 && exists s :: s in segs && c.speaker == s.speaker && c.start == s.start
                                && c.end == s.end && c.text == s.text
  {
    ClaimsArePerMatchingSegment(segs, ids, 0);
    MatchingKeepsMatches(segs);
    var r, m := ClaimsFrom(segs, ids, 0), Matching(segs);
    forall c | c in r
      ensures Matches(c.text) && c.claimType == "statement" && c.confidence == 0.55
              && exists s :: s in segs && c.speaker == s.speaker && c.start == s.start
                             && c.end == s.end && c.text == s.text
    {
      var i :| 0 <= i < |r| && r[i] == c;
      assert m[i] in m;
    }
  }

  /** No segment matches: no claims. */
  lemma NoMatchNoClaims(segs: seq<Segment>, ids: nat -> string)
    requires forall s :: s in segs ==> !Matches(s.text)
    ensures ClaimsFrom(segs, ids, 0) == []
  {
    ClaimsArePerMatchingSegment(segs, ids, 0);
  }

  /** Ids from a generator that never repeats itself are distinct. */
  lemma ClaimIdsDistinct(segs: seq<Segment>, ids: nat -> string)
    requires forall i: nat, j: nat :: i != j ==> ids(i) != ids(j)
    ensures var r := ClaimsFrom(segs, ids, 0);
            forall i, j :: 0 <= i < j < |r| ==> r[i].id != r[j].id
  {
    ClaimsArePerMatchingSegment(segs, ids, 0);
  }

  /** `extract_claims(transcript)`: a loop over the segments that appends a
      claim, with the next ids id, for every matching one. */
  method ExtractClaims(transcript: Transcript, ids: nat -> string) returns (claims: seq<Claim>)
    ensures claims == ClaimsFrom(transcript.segments, ids, 0)
  {
    var segs := transcript.segments;
    claims := [];
    var generated: nat := 0;
    var i := 0;
    while i < |segs|
      invariant 0 <= i <= |segs|
      invariant claims + ClaimsFrom(segs[i..], ids, generated) == ClaimsFrom(segs, ids, 0)
    {
      var segment := segs[i];
      assert segs[i..][1..] == segs[i + 1..];
      if Matches(segment.text) {
        claims := claims + [ClaimOf(segment, ids(generated))];
        generated := generated + 1;
      }
      i := i + 1;
    }
    assert claims + [] == claims;
  }
}
