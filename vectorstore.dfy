/** The term-frequency evidence index (app/backend/indexing/vectorstore.py).

    Documents are cut into chunks, every chunk is stored under the key
    `"{pack}-{n}"` with its metadata and its bag-of-words vector, and a
    query is answered with the best-scoring chunks' metadata.

    The cosine similarity `dot / (sqrt(|a|^2) * sqrt(|b|^2))` is replaced by
    `dot * |dot| / (|a|^2 * |b|^2)`, which is the cosine times its absolute
    value: a strictly increasing function of the cosine with the same sign
    and the same zero cases. Over exact reals, ranking and filtering are
    therefore those of the source; in floating point, rounding in the square
    roots and the division can create or break ties, which this model does
    not reproduce. */
module Vectors {
  import opened Wrappers
  import opened Strings
  import opened Dicts
  import Chunking
  import opened Seqs

  /** A term-frequency vector: token -> count, in first-seen order. */
  type Vector = Dict<int>

  // ----------------------------------------------------------- _embed_text

  /** The alphabetic words, lower-cased, in order. */
  function AlphaTokens(words: seq<string>): (ts: seq<string>)
    ensures |ts| <= |words|
    ensures forall w :: w in words && IsAlpha(w) ==> Lower(w) in ts
  {
    if words == [] then []
    else (if IsAlpha(words[0]) then [Lower(words[0])] else []) + AlphaTokens(words[1..])
  }

  /** Every token comes from an alphabetic word. */
  lemma {:induction false} AlphaTokensFromWords(words: seq<string>, t: string)
    requires t in AlphaTokens(words)
    ensures exists w :: w in words && IsAlpha(w) && t == Lower(w)
  {
    if !(IsAlpha(words[0]) && t == Lower(words[0])) {
      AlphaTokensFromWords(words[1..], t);
      var w :| w in words[1..] && IsAlpha(w) && t == Lower(w);
      assert w in words;
    }
  }

  /** The tokens `_embed_text` counts. */
  function Tokens(text: string): seq<string> {
    AlphaTokens(Split(text))
  }

  function GetOr0(v: Vector, t: string): int {
    match Get(v, t)
    case None => 0
    case Some(c) => c
  }

  /** `Counter(tokens)` starting from the counts `v`: each token in turn
      adds one to its count, a new token going last. */
  function CountInto(v: Vector, ts: seq<string>): Vector
    decreases |ts|
  {
    if ts == [] then v
    else CountInto(Put(v, ts[0], GetOr0(v, ts[0]) + 1), ts[1..])
  }

  /** `Counter(tokens)`. */
  function Count(ts: seq<string>): Vector {
    CountInto([], ts)
  }

  /** `_embed_text`. */
  function Embed(text: string): Vector {
    Count(Tokens(text))
  }

  predicate Positive(v: Vector) {
    forall i :: 0 <= i < |v| ==> v[i].1 >= 1
  }

  lemma {:induction false} PutKeepsPositive(v: Vector, t: string, c: int)
    requires Positive(v) && c >= 1
    ensures Positive(Put(v, t, c))
  {
    if v != [] && v[0].0 != t {
      PutKeepsPositive(v[1..], t, c);
    }
  }

  lemma {:induction false} GetPositive(v: Vector, t: string)
    requires Positive(v)
    ensures Get(v, t).Some? ==> Get(v, t).value >= 1
  {
    if v != [] && v[0].0 != t {
      GetPositive(v[1..], t);
    }
  }

  /** Counting keeps the keys distinct. */
  lemma {:induction false} CountIntoDistinct(v: Vector, ts: seq<string>)
    requires Distinct(Keys(v))
    ensures Distinct(Keys(CountInto(v, ts)))
    decreases |ts|
  {
    if ts != [] {
      var w := Put(v, ts[0], GetOr0(v, ts[0]) + 1);
      PutKeepsDistinct(v, ts[0], GetOr0(v, ts[0]) + 1);
      CountIntoDistinct(w, ts[1..]);
    }
  }

  /** Counting adds each token's number of occurrences to its count. */
  lemma {:induction false} CountIntoOccurrences(v: Vector, ts: seq<string>, t: string)
    ensures GetOr0(CountInto(v, ts), t) == GetOr0(v, t) + multiset(ts)[t]
    decreases |ts|
  {
    if ts != [] {
      var w := Put(v, ts[0], GetOr0(v, ts[0]) + 1);
      MultisetCons(ts, t);
      GetPut(v, ts[0], GetOr0(v, ts[0]) + 1, t);
      assert GetOr0(w, t) == GetOr0(v, t) + (if ts[0] == t then 1 else 0);
      CountIntoOccurrences(w, ts[1..], t);
    }
  }

  /** Counting keeps every count at least 1. */
  lemma {:induction false} CountIntoPositive(v: Vector, ts: seq<string>)
    requires Positive(v)
    ensures Positive(CountInto(v, ts))
    decreases |ts|
  {
    if ts != [] {
      GetPositive(v, ts[0]);
      var c := GetOr0(v, ts[0]) + 1;
      assert c >= 1 by {
        assert Get(v, ts[0]).Some? ==> Get(v, ts[0]).value >= 1;
      }
      var w := Put(v, ts[0], c);
      PutKeepsPositive(v, ts[0], c);
      CountIntoPositive(w, ts[1..]);
      assert CountInto(v, ts) == CountInto(w, ts[1..]);
    }
  }

  function Total(v: Vector): int {
    if v == [] then 0 else v[0].1 + Total(v[1..])
  }

  lemma {:induction false} TotalPut(v: Vector, t: string, c: int)
    requires Distinct(Keys(v))
    ensures Total(Put(v, t, c)) == Total(v) - GetOr0(v, t) + c
  {
    if v == [] {
    } else if v[0].0 == t {
      assert t !in Keys(v[1..]) by {
        assert Keys(v) == [t] + Keys(v[1..]);
      }
      assert Put(v, t, c)[1..] == v[1..];
    } else {
      assert Distinct(Keys(v[1..])) by {
        assert Keys(v) == [v[0].0] + Keys(v[1..]);
      }
      TotalPut(v[1..], t, c);
      assert Put(v, t, c) == [v[0]] + Put(v[1..], t, c);
      assert ([v[0]] + Put(v[1..], t, c))[1..] == Put(v[1..], t, c);
    }
  }

  /** Counting adds one to the total per token. */
  lemma {:induction false} CountIntoTotal(v: Vector, ts: seq<string>)
    requires Distinct(Keys(v))
    ensures Total(CountInto(v, ts)) == Total(v) + |ts|
    decreases |ts|
  {
    if ts != [] {
      var c := GetOr0(v, ts[0]) + 1;
      TotalPut(v, ts[0], c);
      PutKeepsDistinct(v, ts[0], c);
      CountIntoTotal(Put(v, ts[0], c), ts[1..]);
    }
  }

  /** A count holds each token once. */
  lemma CountDistinct(ts: seq<string>)
    ensures Distinct(Keys(Count(ts)))
  {
    CountIntoDistinct([], ts);
  }

  /** The count of a token is the number of its occurrences. */
  lemma CountIsOccurrences(ts: seq<string>, t: string)
    ensures GetOr0(Count(ts), t) == multiset(ts)[t]
  {
    CountIntoOccurrences([], ts, t);
  }

  /** Every count is at least 1. */
  lemma CountPositive(ts: seq<string>)
    ensures Positive(Count(ts))
  {
    CountIntoPositive([], ts);
  }

  /** The counts add up to the number of tokens. */
  lemma CountTotal(ts: seq<string>)
    ensures Total(Count(ts)) == |ts|
  {
    CountIntoTotal([], ts);
  }

  /** The keys are exactly the tokens. */
  lemma CountKeys(ts: seq<string>, t: string)
    ensures t in Keys(Count(ts)) <==> t in ts
  {
    CountIsOccurrences(ts, t);
    CountPositive(ts);
    GetPositive(Count(ts), t);
  }

  /** What `_embed_text` promises: distinct keys, each the lower-cased form
      of an alphabetic word of the text, each counted at least once, the
      count of a key being its number of occurrences and the counts adding
      up to the number of alphabetic words. */
  lemma EmbedProperties(text: string)
    ensures var v := Embed(text);
            Distinct(Keys(v)) && Positive(v) && Total(v) == |Tokens(text)|
            && (forall t :: GetOr0(v, t) == multiset(Tokens(text))[t])
            && (forall i :: 0 <= i < |v| ==> exists w :: w in Split(text) && IsAlpha(w) && v[i].0 == Lower(w))
  {
    var ts := Tokens(text);
    CountDistinct(ts);
    CountPositive(ts);
    CountTotal(ts);
    forall t ensures GetOr0(Embed(text), t) == multiset(ts)[t] {
      CountIsOccurrences(ts, t);
    }
    forall i | 0 <= i < |Embed(text)|
      ensures exists w :: w in Split(text) && IsAlpha(w) && Embed(text)[i].0 == Lower(w)
    {
      var t := Embed(text)[i].0;
      assert t in Keys(Embed(text));
      CountKeys(ts, t);
      AlphaTokensFromWords(Split(text), t);
    }
  }

  // ----------------------------------------------------- _cosine_similarity

  /** The dot product over the shared keys: for keys of `a` missing from
      `b` the term is 0. */
  function Dot(a: Vector, b: Vector): int {
    if a == [] then 0 else a[0].1 * GetOr0(b, a[0].0) + Dot(a[1..], b)
  }

  function SumSquares(a: Vector): (n: int)
    ensures n >= 0
  {
    if a == [] then 0 else a[0].1 * a[0].1 + SumSquares(a[1..])
  }

  function Abs(x: int): int { if x >= 0 then x else -x }

  /** `_cosine_similarity`, as the cosine times its absolute value. */
  function Score(a: Vector, b: Vector): real {
    if a == [] || b == [] then 0.0
    else
      var na, nb := SumSquares(a), SumSquares(b);
      if na == 0 || nb == 0 then 0.0
      else (Dot(a, b) * Abs(Dot(a, b))) as real / (na * nb) as real
  }

  lemma {:induction false} DotEmptyRight(a: Vector)
    ensures Dot(a, []) == 0
  {
    if a != [] {
      DotEmptyRight(a[1..]);
    }
  }

  /** Adding one key `t` in front of `b` adds `c * a[t]`. */
  lemma {:induction false} DotConsRight(a: Vector, t: string, c: int, b: Vector)
    requires Distinct(Keys(a)) && t !in Keys(b)
    ensures Dot(a, [(t, c)] + b) == Dot(a, b) + c * GetOr0(a, t)
  {
    if a != [] {
      assert Keys(a) == [a[0].0] + Keys(a[1..]);
      DotConsRight(a[1..], t, c, b);
      var x, d := a[0].0, a[0].1;
      if x == t {
        assert t !in Keys(a[1..]);
        assert GetOr0(a[1..], t) == 0;
        assert GetOr0(b, t) == 0;
        assert GetOr0([(t, c)] + b, t) == c;
        assert d * c == c * d;
      } else {
        assert GetOr0([(t, c)] + b, x) == GetOr0(b, x);
      }
    }
  }

  /** The dot product is symmetric (for dictionaries, whose keys are
      distinct). */
  lemma {:induction false} DotSymmetric(a: Vector, b: Vector)
    requires Distinct(Keys(a)) && Distinct(Keys(b))
    ensures Dot(a, b) == Dot(b, a)
  {
    if b == [] {
      DotEmptyRight(a);
    } else {
      assert Keys(b) == [b[0].0] + Keys(b[1..]);
      assert b == [(b[0].0, b[0].1)] + b[1..];
      DotConsRight(a, b[0].0, b[0].1, b[1..]);
      DotSymmetric(a, b[1..]);
    }
  }

  /** `_cosine_similarity(a, b) == _cosine_similarity(b, a)`. */
  lemma ScoreSymmetric(a: Vector, b: Vector)
    requires Distinct(Keys(a)) && Distinct(Keys(b))
    ensures Score(a, b) == Score(b, a)
  {
    DotSymmetric(a, b);
    assert SumSquares(a) * SumSquares(b) == SumSquares(b) * SumSquares(a);
  }

  /** The score is 0 when either vector is empty. */
  lemma ScoreEmpty(a: Vector)
    ensures Score(a, []) == 0.0 && Score([], a) == 0.0
  {
  }

  lemma MulPositive(x: int, y: int)
    requires x >= 1 && y >= 1
    ensures x * y >= 1
  {
  }

  lemma MulNonNegative(x: int, y: int)
    requires x >= 0 && y >= 0
    ensures x * y >= 0
  {
  }

  predicate Shares(a: Vector, b: Vector) {
    exists t :: t in Keys(a) && t in Keys(b)
  }

  /** With positive counts the dot product is never negative, and positive
      exactly when a key is shared. */
  lemma {:induction false} DotPositiveIff(a: Vector, b: Vector)
    requires Positive(a) && Positive(b)
    ensures Dot(a, b) >= 0
    ensures Dot(a, b) > 0 <==> Shares(a, b)
  {
    if a != [] {
      DotPositiveIff(a[1..], b);
      GetPositive(b, a[0].0);
      var g := GetOr0(b, a[0].0);
      if a[0].0 in Keys(b) {
        MulPositive(a[0].1, g);
        assert a[0].0 in Keys(a);
      } else {
        assert g == 0;
        if Shares(a, b) {
          var t :| t in Keys(a) && t in Keys(b);
          assert t in Keys(a[1..]);
        }
      }
      MulNonNegative(a[0].1, g);
      if Shares(a[1..], b) {
        var t :| t in Keys(a[1..]) && t in Keys(b);
        assert t in Keys(a);
      }
    }
  }

  lemma {:induction false} SumSquaresPositive(a: Vector)
    requires Positive(a) && a != []
    ensures SumSquares(a) > 0
  {
    MulPositive(a[0].1, a[0].1);
  }

  /** The score, for vectors with positive counts (every embedding), is
      never negative and is positive exactly when a token is shared. */
  lemma ScorePositiveIff(a: Vector, b: Vector)
    requires Positive(a) && Positive(b)
    ensures Score(a, b) >= 0.0
    ensures Score(a, b) > 0.0 <==> Shares(a, b)
  {
    DotPositiveIff(a, b);
    if a != [] && b != [] {
      SumSquaresPositive(a);
      SumSquaresPositive(b);
      var d, n := Dot(a, b), SumSquares(a) * SumSquares(b);
      MulNonNegative(d, d);
      MulPositive(SumSquares(a), SumSquares(b));
      if d > 0 {
        MulPositive(d, d);
        assert (d * d) as real > 0.0;
      } else {
        assert d * Abs(d) == 0;
      }
    } else {
      assert |Keys(a)| == 0 || |Keys(b)| == 0;
    }
  }

  // ---------------------------------------------------------------- search

  /** A vector agreeing with `b` on each of its keys has its own sum of
      squares as dot product with `b`. */
  lemma {:induction false} DotAgreeing(s: Vector, b: Vector)
    requires forall i :: 0 <= i < |s| ==> GetOr0(b, s[i].0) == s[i].1
    ensures Dot(s, b) == SumSquares(s)
  {
    if s != [] {
      assert forall i :: 0 <= i < |s| - 1 ==> s[1..][i] == s[i + 1];
      DotAgreeing(s[1..], b);
    }
  }

  lemma DivSelf(x: real)
    requires x > 0.0
    ensures x / x == 1.0
  {
  }

  /** A non-empty vector with distinct keys and positive counts (every
      non-empty embedding) scores exactly 1 against itself. */
  lemma ScoreSelf(a: Vector)
    requires Distinct(Keys(a)) && Positive(a) && a != []
    ensures Score(a, a) == 1.0
  {
    forall i | 0 <= i < |a| ensures GetOr0(a, a[i].0) == a[i].1 {
      GetEntry(a, i);
    }
    DotAgreeing(a, a);
    SumSquaresPositive(a);
    var n := SumSquares(a);
    assert Abs(Dot(a, a)) == n;
    MulPositive(n, n);
    DivSelf((n * n) as real);
  }

  type Scored = (string, real)

  predicate SortedDesc(s: seq<Scored>) {
    forall i, j :: 0 <= i < j < |s| ==> s[i].1 >= s[j].1
  }

  /** Places `x` in front of the first entry whose score does not exceed
      its own. */
  function InsertDesc(x: Scored, l: seq<Scored>): (r: seq<Scored>)
    ensures multiset(r) == multiset(l) + multiset{x}
    ensures |r| == |l| + 1
  {
    if l == [] || l[0].1 <= x.1 then [x] + l
    else
      assert l == [l[0]] + l[1..];
      [l[0]] + InsertDesc(x, l[1..])
  }

  /** Inserting below a bound keeps every score below it. */
  lemma {:induction false} InsertDescBounded(x: Scored, l: seq<Scored>, b: real)
    requires x.1 <= b && forall i :: 0 <= i < |l| ==> l[i].1 <= b
    ensures forall i :: 0 <= i < |InsertDesc(x, l)| ==> InsertDesc(x, l)[i].1 <= b
  {
    var r := InsertDesc(x, l);
    if l != [] && l[0].1 > x.1 {
      forall i | 0 <= i < |l[1..]| ensures l[1..][i].1 <= b {
        assert l[1..][i] == l[i + 1];
      }
      InsertDescBounded(x, l[1..], b);
      var rest := InsertDesc(x, l[1..]);
      assert r == [l[0]] + rest;
      forall i | 0 <= i < |r| ensures r[i].1 <= b {
        if i > 0 {
          assert r[i] == rest[i - 1];
        } else {
          assert r[0] == l[0];
        }
      }
    } else {
      assert r == [x] + l;
      forall i | 0 <= i < |r| ensures r[i].1 <= b {
        if i > 0 {
          assert r[i] == l[i - 1];
        }
      }
    }
  }

  lemma {:induction false} InsertDescSorted(x: Scored, l: seq<Scored>)
    requires SortedDesc(l)
    ensures SortedDesc(InsertDesc(x, l))
  {
    if l != [] && l[0].1 > x.1 {
      InsertDescSorted(x, l[1..]);
      var rest := InsertDesc(x, l[1..]);
      forall i | 0 <= i < |l[1..]| ensures l[1..][i].1 <= l[0].1 {
        assert l[1..][i] == l[i + 1];
      }
      InsertDescBounded(x, l[1..], l[0].1);
      var r := [l[0]] + rest;
      assert InsertDesc(x, l) == r;
      forall i, j | 0 <= i < j < |r| ensures r[i].1 >= r[j].1 {
        assert r[j] == rest[j - 1] && rest[j - 1].1 <= l[0].1;
        if i > 0 {
          assert r[i] == rest[i - 1];
        }
      }
    }
  }

  /** `scored.sort(key=score, reverse=True)`: Python's stable sort, by
      insertion from the back. */
  function SortDesc(s: seq<Scored>): (r: seq<Scored>)
    ensures multiset(r) == multiset(s)
  {
    if s == [] then []
    else
      assert s == [s[0]] + s[1..];
      InsertDesc(s[0], SortDesc(s[1..]))
  }

  lemma {:induction false} SortDescSorted(s: seq<Scored>)
    ensures SortedDesc(SortDesc(s))
  {
    if s != [] {
      SortDescSorted(s[1..]);
      InsertDescSorted(s[0], SortDesc(s[1..]));
    }
  }

  /** The entries with score `v`, in order. */
  function WithScore(v: real, s: seq<Scored>): (r: seq<Scored>)
    ensures |r| <= |s|
  {
    if s == [] then []
    else (if s[0].1 == v then [s[0]] else []) + WithScore(v, s[1..])
  }

  lemma {:induction false} WithScoreAppend(v: real, a: seq<Scored>, b: seq<Scored>)
    ensures WithScore(v, a + b) == WithScore(v, a) + WithScore(v, b)
  {
    if a != [] {
      assert (a + b)[1..] == a[1..] + b;
      WithScoreAppend(v, a[1..], b);
    } else {
      assert a + b == b;
    }
  }

  lemma {:induction false} InsertDescWithScore(v: real, x: Scored, l: seq<Scored>)
    ensures WithScore(v, InsertDesc(x, l)) == (if x.1 == v then [x] else []) + WithScore(v, l)
  {
    var r := InsertDesc(x, l);
    if l != [] && l[0].1 > x.1 {
      var rest := InsertDesc(x, l[1..]);
      InsertDescWithScore(v, x, l[1..]);
      assert r == [l[0]] + rest && r[0] == l[0] && r[1..] == rest;
      assert WithScore(v, r) == (if l[0].1 == v then [l[0]] else []) + WithScore(v, rest);
      assert WithScore(v, l) == (if l[0].1 == v then [l[0]] else []) + WithScore(v, l[1..]);
      if x.1 == v {
        assert l[0].1 != v;
      }
    } else {
      assert r == [x] + l && r[0] == x && r[1..] == l;
    }
  }

  /** Stability: the entries of equal score keep their relative order. */
  lemma {:induction false} SortDescStable(v: real, s: seq<Scored>)
    ensures WithScore(v, SortDesc(s)) == WithScore(v, s)
  {
    if s != [] {
      SortDescStable(v, s[1..]);
      InsertDescWithScore(v, s[0], SortDesc(s[1..]));
    }
  }

  /** The length of `s[:k]` in Python, negative `k` included. */
  function PrefixLength(n: nat, k: int): (m: nat)
    ensures m <= n
    ensures k >= 0 ==> m <= k
  {
    if k >= 0 then (if k <= n then k else n) else (if n + k >= 0 then n + k else 0)
  }

  /** `s[:k]`. */
  function TakePy(s: seq<Scored>, k: int): seq<Scored> {
    s[..PrefixLength(|s|, k)]
  }

  /** The metadata of a chunk; loaded files are taken to hold these fields. */
  datatype Meta = Meta(title: string, source: string, excerpt: string,
                       snapshotDate: Option<string>, page: Option<int>)

  /** A search hit: a copy of the metadata with its score. */
  datatype Hit = Hit(meta: Meta, score: real)

  /** The quote `repr` puts around a string: a double quote when the text
      holds a single quote and no double quote, a single quote otherwise. */
  function ReprQuote(s: string): char {
    if '\'' in s && '"' !in s then '"' else '\''
  }

  /** One character inside `repr`'s quotes `q`: backslash, the quote itself,
      newline, carriage return and tab are escaped. */
  function ReprChar(c: char, q: char): string {
    if c == '\\' then "\\\\"
    else if c == q then ['\\', q]
    else if c == '\n' then "\\n"
    else if c == '\r' then "\\r"
    else if c == '\t' then "\\t"
    else [c]
  }

  function ReprBody(s: string, q: char): string {
    if s == [] then [] else ReprChar(s[0], q) + ReprBody(s[1..], q)
  }

  /** The text of the `KeyError` raised for a key without metadata:
      `str(KeyError(key))`, which is `repr(key)`. */
  function KeyErrorMessage(key: string): string {
    var q := ReprQuote(key);
    [q] + ReprBody(key, q) + [q]
  }

  /** A character `repr` leaves as it is inside single quotes. */
  predicate PlainChar(c: char) {
    c != '\\' && c != '\'' && c != '\n' && c != '\r' && c != '\t'
  }

  lemma {:induction false} ReprBodyPlain(s: string)
    requires forall k :: 0 <= k < |s| ==> PlainChar(s[k])
    ensures ReprBody(s, '\'') == s
  {
    if s != [] {
      ReprBodyPlain(s[1..]);
    }
  }

  /** A key without quotes, backslashes or control characters, such as
      every `"{pack}-{n}"` of a plain pack name, is reported between single
      quotes as it is. */
  lemma KeyErrorMessagePlain(key: string)
    requires forall k :: 0 <= k < |key| ==> PlainChar(key[k])
    ensures KeyErrorMessage(key) == "'" + key + "'"
  {
    assert '\'' !in key by {
      forall k | 0 <= k < |key| ensures key[k] != '\'' { }
    }
    ReprBodyPlain(key);
  }

  /** A key holding a single quote and no double quote is reported between
      double quotes. */
  lemma KeyErrorMessageQuoted(key: string)
    requires '\'' in key && '"' !in key
    ensures KeyErrorMessage(key)[0] == '"' && KeyErrorMessage(key)[|KeyErrorMessage(key)| - 1] == '"'
  {
  }

  /** The entries with a positive score, in order. */
  function Positives(s: seq<Scored>): (r: seq<Scored>)
    ensures |r| <= |s|
    ensures forall x :: x in r ==> x in s && x.1 > 0.0
  {
    if s == [] then []
    else (if s[0].1 > 0.0 then [s[0]] else []) + Positives(s[1..])
  }

  /** The result loop of `search`: skip non-positive scores, copy the
      metadata of the rest, fail on the first key without metadata. */
  function Hits(top: seq<Scored>, metadata: Dict<Meta>): Result<seq<Hit>> {
    if top == [] then Ok([])
    else if top[0].1 <= 0.0 then Hits(top[1..], metadata)
    else
      match Get(metadata, top[0].0)
      case None => Err(KeyErrorMessage(top[0].0))
      case Some(meta) =>
        match Hits(top[1..], metadata)
        case Err(e) => Err(e)
        case Ok(rest) => Ok([Hit(meta, top[0].1)] + rest)
  }

  /** The result loop succeeds exactly when every positive entry has
      metadata, and then gives one hit per positive entry, in order, with
      its metadata and score. */
  lemma HitsSpec(top: seq<Scored>, metadata: Dict<Meta>)
    ensures Hits(top, metadata).Ok? <==> forall x :: x in Positives(top) ==> x.0 in Keys(metadata)
    ensures Hits(top, metadata).Ok? ==>
              var h, p := Hits(top, metadata).value, Positives(top);
              |h| == |p| && forall i :: 0 <= i < |h| ==> Get(metadata, p[i].0) == Some(h[i].meta) && h[i].score == p[i].1
  {
    HitsOkIff(top, metadata);
    if Hits(top, metadata).Ok? {
      HitsValues(top, metadata);
    }
  }

  lemma {:induction false} HitsOkIff(top: seq<Scored>, metadata: Dict<Meta>)
    ensures Hits(top, metadata).Ok? <==> forall x :: x in Positives(top) ==> x.0 in Keys(metadata)
  {
    if top != [] {
      HitsOkIff(top[1..], metadata);
      var p, rest := Positives(top), Positives(top[1..]);
      if top[0].1 > 0.0 {
        assert p == [top[0]] + rest;
        assert top[0] in p;
        assert forall x :: x in p ==> x == top[0] || x in rest;
        assert forall x :: x in rest ==> x in p;
      } else {
        assert p == rest;
        assert Hits(top, metadata) == Hits(top[1..], metadata);
      }
    }
  }

  lemma {:induction false} HitsValues(top: seq<Scored>, metadata: Dict<Meta>)
    requires Hits(top, metadata).Ok?
    ensures HitsFollow(Hits(top, metadata).value, Positives(top), metadata)
  {
    if top != [] {
      var rest := Positives(top[1..]);
      if top[0].1 > 0.0 {
        var meta := Get(metadata, top[0].0).value;
        assert Hits(top[1..], metadata).Ok?;
        HitsValues(top[1..], metadata);
        var hr := Hits(top[1..], metadata).value;
        assert Hits(top, metadata).value == [Hit(meta, top[0].1)] + hr;
        assert Positives(top) == [top[0]] + rest;
        HitsFollowCons(Hit(meta, top[0].1), hr, top[0], rest, metadata);
      } else {
        assert Positives(top) == rest;
        assert Hits(top, metadata) == Hits(top[1..], metadata);
        HitsValues(top[1..], metadata);
      }
    }
  }

  /** A hit for one more positive entry, in front. */
  lemma HitsFollowCons(hit: Hit, h: seq<Hit>, x: Scored, p: seq<Scored>, metadata: Dict<Meta>)
    requires HitsFollow(h, p, metadata)
    requires Get(metadata, x.0) == Some(hit.meta) && hit.score == x.1 && x.1 > 0.0
    ensures HitsFollow([hit] + h, [x] + p, metadata)
  {
  }

  /** `(key, score)` for every stored vector, in insertion order. */
  function ScoredEntries(q: Vector, vectors: Dict<Vector>): seq<Scored> {
    seq(|vectors|, i requires 0 <= i < |vectors| => (vectors[i].0, Score(q, vectors[i].1)))
  }

  /** The entries `search` turns into hits. */
  function Ranked(query: string, vectors: Dict<Vector>, k: int): seq<Scored> {
    Positives(TakePy(SortDesc(ScoredEntries(Embed(query), vectors)), k))
  }

  /** `search(query, k)` on the store's dictionaries. */
  function SearchResult(vectors: Dict<Vector>, metadata: Dict<Meta>, query: string, k: int): Result<seq<Hit>> {
    if vectors == [] then Ok([])
    else Hits(TakePy(SortDesc(ScoredEntries(Embed(query), vectors)), k), metadata)
  }

  /** An index with no vectors finds nothing. */
  lemma SearchEmpty(metadata: Dict<Meta>, query: string, k: int)
    ensures SearchResult([], metadata, query, k) == Ok([])
  {
  }

  lemma {:induction false} PositivesSorted(s: seq<Scored>)
    requires SortedDesc(s)
    ensures SortedDesc(Positives(s))
  {
    if s != [] {
      PositivesSorted(s[1..]);
      var p := Positives(s);
      if s[0].1 > 0.0 {
        assert p == [s[0]] + Positives(s[1..]);
        forall i, j | 0 <= i < j < |p| ensures p[i].1 >= p[j].1 {
          if i == 0 {
            assert p[j] in Positives(s[1..]);
            var m :| 0 <= m < |s[1..]| && s[1..][m] == p[j];
            assert p[j] == s[m + 1];
          }
        }
      }
    }
  }

  /** Hit `i` copies the metadata stored under ranked key `i`, with its
      positive score. */
  predicate HitsFollow(h: seq<Hit>, p: seq<Scored>, metadata: Dict<Meta>) {
    |h| == |p|
    && forall i :: 0 <= i < |p| ==>
         Get(metadata, p[i].0) == Some(h[i].meta) && h[i].score == p[i].1 && p[i].1 > 0.0
  }

  /** The ranked entries have positive, never increasing scores, and there
      are at most as many as `s[:k]` keeps. */
  lemma RankedShape(query: string, vectors: Dict<Vector>, k: int)
    ensures var p := Ranked(query, vectors, k);
            SortedDesc(p) && |p| <= PrefixLength(|vectors|, k)
            && forall i :: 0 <= i < |p| ==> p[i].1 > 0.0
  {
    var s := ScoredEntries(Embed(query), vectors);
    var sorted := SortDesc(s);
    var top := TakePy(sorted, k);
    assert |multiset(sorted)| == |sorted| && |multiset(s)| == |vectors|;
    SortDescSorted(s);
    assert SortedDesc(top);
    PositivesSorted(top);
    var p := Ranked(query, vectors, k);
    forall i | 0 <= i < |p| ensures p[i].1 > 0.0 {
      assert p[i] in p;
    }
  }

  /** In a sorted sequence, the positive entries of a prefix are the best:
      a positive entry outside them scores no higher than any of them. */
  lemma SortedTopBest(sorted: seq<Scored>, n: nat)
    requires SortedDesc(sorted) && n <= |sorted|
    ensures var p := Positives(sorted[..n]);
            forall e, r :: e in sorted && e.1 > 0.0 && e !in p && r in p ==> e.1 <= r.1
  {
    var top := sorted[..n];
    var p := Positives(top);
    forall e, r | e in sorted && e.1 > 0.0 && e !in p && r in p ensures e.1 <= r.1 {
      var j :| 0 <= j < |sorted| && sorted[j] == e;
      if j < n {
        assert top[j] == e;
        PositivesCount(top, e);
        assert false;
      }
      assert r in top;
      var i :| 0 <= i < |top| && top[i] == r;
      assert sorted[i] == r;
    }
  }

  /** Among any scored entries, the positive ones of `sorted[:k]` are the
      best: a positive entry left out scores no higher than any entry kept. */
  lemma TopKOf(s: seq<Scored>, k: int)
    ensures var p := Positives(TakePy(SortDesc(s), k));
            forall e, r :: e in s && e.1 > 0.0 && e !in p && r in p ==> e.1 <= r.1
  {
    var sorted := SortDesc(s);
    SortDescSorted(s);
    SortedTopBest(sorted, PrefixLength(|sorted|, k));
    forall e | e in s ensures e in sorted {
      assert e in multiset(s);
    }
  }

  /** The ranked entries are the best of the index: a positive-scored entry
      left out scores no higher than any entry kept. */
  lemma RankedAreTopK(query: string, vectors: Dict<Vector>, k: int)
    ensures var s, p := ScoredEntries(Embed(query), vectors), Ranked(query, vectors, k);
            forall e, r :: e in s && e.1 > 0.0 && e !in p && r in p ==> e.1 <= r.1
  {
    TopKOf(ScoredEntries(Embed(query), vectors), k);
  }

  /** The search of a non-empty index fails exactly on a ranked key without
      metadata, and otherwise gives one hit per ranked entry. */
  lemma SearchFollowsRanked(vectors: Dict<Vector>, metadata: Dict<Meta>, query: string, k: int)
    requires vectors != []
    ensures var r, p := SearchResult(vectors, metadata, query, k), Ranked(query, vectors, k);
            (r.Ok? <==> forall x :: x in p ==> x.0 in Keys(metadata))
            && (r.Ok? ==> HitsFollow(r.value, p, metadata))
  {
    var top := TakePy(SortDesc(ScoredEntries(Embed(query), vectors)), k);
    HitsSpec(top, metadata);
    RankedShape(query, vectors, k);
  }

  /** `search` gives hits in the order of the ranked entries, each a copy of
      the entry's metadata with its positive score; scores never increase,
      at most `k` hits come back for a non-negative `k`, and the search
      fails only on a ranked key without metadata. */
  lemma SearchRanked(vectors: Dict<Vector>, metadata: Dict<Meta>, query: string, k: int)
    requires vectors != []
    ensures var r, p := SearchResult(vectors, metadata, query, k), Ranked(query, vectors, k);
            (r.Ok? <==> forall x :: x in p ==> x.0 in Keys(metadata))
            && (r.Ok? ==>
                  HitsFollow(r.value, p, metadata)
                  && |r.value| <= PrefixLength(|vectors|, k) && (k >= 0 ==> |r.value| <= k)
                  && forall i, j :: 0 <= i < j < |p| ==> r.value[i].score >= r.value[j].score)
  {
    SearchFollowsRanked(vectors, metadata, query, k);
    RankedShape(query, vectors, k);
  }

  lemma {:induction false} WithScorePositives(v: real, s: seq<Scored>)
    requires v > 0.0
    ensures WithScore(v, Positives(s)) == WithScore(v, s)
  {
    if s != [] {
      WithScorePositives(v, s[1..]);
      if s[0].1 > 0.0 {
        var p := [s[0]] + Positives(s[1..]);
        assert Positives(s) == p && p[0] == s[0] && p[1..] == Positives(s[1..]);
      } else {
        assert s[0].1 != v;
        assert Positives(s) == Positives(s[1..]);
      }
    }
  }

  /** Ties are broken by insertion order: the ranked entries of any one
      positive score are the first entries of that score in the order the
      vectors were stored. */
  lemma SearchTiesInInsertionOrder(query: string, vectors: Dict<Vector>, k: int, v: real)
    requires v > 0.0
    ensures WithScore(v, Ranked(query, vectors, k)) <= WithScore(v, ScoredEntries(Embed(query), vectors))
  {
    var s := ScoredEntries(Embed(query), vectors);
    var sorted := SortDesc(s);
    var n := PrefixLength(|sorted|, k);
    assert sorted == sorted[..n] + sorted[n..];
    WithScoreAppend(v, sorted[..n], sorted[n..]);
    WithScorePositives(v, sorted[..n]);
    SortDescStable(v, s);
  }

  lemma {:induction false} PositivesCount(s: seq<Scored>, x: Scored)
    ensures multiset(Positives(s))[x] == if x.1 > 0.0 then multiset(s)[x] else 0
  {
    if s != [] {
      PositivesCount(s[1..], x);
      assert s == [s[0]] + s[1..];
    }
  }

  /** With `k` at least the number of vectors nothing is cut off: the
      ranked entries are all the positive-scored entries, reordered. */
  lemma SearchKeepsAllPositives(query: string, vectors: Dict<Vector>, k: int)
    requires k >= |vectors|
    ensures multiset(Ranked(query, vectors, k)) == multiset(Positives(ScoredEntries(Embed(query), vectors)))
  {
    var s := ScoredEntries(Embed(query), vectors);
    var sorted := SortDesc(s);
    assert TakePy(sorted, k) == sorted;
    forall x ensures multiset(Positives(sorted))[x] == multiset(Positives(s))[x] {
      PositivesCount(sorted, x);
      PositivesCount(s, x);
    }
  }

  // ----------------------------------------------------------------- build

  /** A text with an alphabetic word, looked up in an index that holds only
      its own chunk, finds that chunk with score 1. */
  lemma SelfQueryScoresOne(text: string, key: string, meta: Meta, k: int)
    requires Tokens(text) != [] && k >= 1
    ensures SearchResult([(key, Embed(text))], [(key, meta)], text, k) == Ok([Hit(meta, 1.0)])
  {
    var v := Embed(text);
    CountDistinct(Tokens(text));
    CountPositive(Tokens(text));
    CountKeys(Tokens(text), Tokens(text)[0]);
    ScoreSelf(v);
    var s := ScoredEntries(v, [(key, v)]);
    assert s == [(key, 1.0)];
    assert SortDesc(s[1..]) == [];
    assert SortDesc(s) == s;
    assert TakePy(s, k) == s;
    assert Hits(s[1..], [(key, meta)]) == Ok([]);
    assert Get([(key, meta)], s[0].0) == Some(meta) && s[0].1 == 1.0;
    assert [Hit(meta, 1.0)] + [] == [Hit(meta, 1.0)];
  }

  /** A document as produced by ingestion: its path and its text. */
  datatype Doc = Doc(path: string, content: string)

  /** One chunk of one document, in build order. */
  datatype Item = Item(path: string, chunk: string)

  /** `chunk_text(content)` with the default sizes; the terminating variant
      (the loop as written does not stop on non-empty text). */
  function DocChunks(content: string): seq<string> {
    var r := Chunking.ChunkTextIntended(content, Chunking.DefaultChunkSize, Chunking.DefaultOverlap);
    if r.Ok? then r.value else []
  }

  lemma DocChunksAccepted(content: string)
    ensures Chunking.ChunkTextIntended(content, Chunking.DefaultChunkSize, Chunking.DefaultOverlap).Ok?
  {
  }

  /** The chunks of one document, each paired with its path. */
  function ItemsOf(path: string, chunks: seq<string>): seq<Item> {
    if chunks == [] then []
    else ItemsOf(path, chunks[..|chunks| - 1]) + [Item(path, chunks[|chunks| - 1])]
  }

  lemma {:induction false} ItemsOfSpec(path: string, chunks: seq<string>)
    ensures var r := ItemsOf(path, chunks);
            |r| == |chunks| && forall i :: 0 <= i < |r| ==> r[i] == Item(path, chunks[i])
  {
    if chunks != [] {
      ItemsOfSpec(path, chunks[..|chunks| - 1]);
    }
  }

  /** Every chunk of every document, in order. */
  function Items(docs: seq<Doc>): seq<Item> {
    if docs == [] then []
    else Items(docs[..|docs| - 1]) + ItemsOf(docs[|docs| - 1].path, DocChunks(docs[|docs| - 1].content))
  }

  /** `f"{pack}-{n}"`. */
  function ChunkKey(pack: string, n: nat): string {
    pack + "-" + NatToString(n)
  }

  lemma ChunkKeyInjective(pack: string, m: nat, n: nat)
    requires m != n
    ensures ChunkKey(pack, m) != ChunkKey(pack, n)
  {
    NatToStringInjective(m, n);
    assert ChunkKey(pack, m)[|pack| + 1..] == NatToString(m);
    assert ChunkKey(pack, n)[|pack| + 1..] == NatToString(n);
  }

  /** The path without its trailing `/`s. */
  function TrimSlashes(path: string): (t: string)
    ensures t <= path && (t == [] || t[|t| - 1] != '/')
    ensures forall k :: |t| <= k < |path| ==> path[k] == '/'
  {
    if path != [] && path[|path| - 1] == '/' then TrimSlashes(path[..|path| - 1]) else path
  }

  /** The text after the last `/`. */
  function LastComponent(t: string): (name: string)
    ensures |name| <= |t| && name == t[|t| - |name|..] && '/' !in name
    ensures |name| < |t| ==> t[|t| - |name| - 1] == '/'
  {
    if t == [] || t[|t| - 1] == '/' then []
    else LastComponent(t[..|t| - 1]) + [t[|t| - 1]]
  }

  /** `Path(path).name`: the last component, after trailing `/`s are
      dropped; it is the longest `/`-free end of the trimmed path. */
  function BaseName(path: string): (name: string)
    ensures var t := TrimSlashes(path);
            |name| <= |t| && name == t[|t| - |name|..] && '/' !in name
            && (|name| < |t| ==> t[|t| - |name| - 1] == '/')
  {
    LastComponent(TrimSlashes(path))
  }

  /** The metadata `build` records for a chunk: the file name, the path,
      and the first 300 characters. */
  function MetaOf(item: Item): (m: Meta)
    ensures m.excerpt <= item.chunk && |m.excerpt| == if |item.chunk| < 300 then |item.chunk| else 300
    ensures m.source == item.path && m.snapshotDate == None && m.page == None
  {
    var n := if |item.chunk| < 300 then |item.chunk| else 300;
    Meta(BaseName(item.path), item.path, item.chunk[..n], None, None)
  }

  /** The vectors after storing the items as chunks 1, 2, … */
  function PutVectors(vectors: Dict<Vector>, pack: string, items: seq<Item>): Dict<Vector> {
    if items == [] then vectors
    else Put(PutVectors(vectors, pack, items[..|items| - 1]), ChunkKey(pack, |items|), Embed(items[|items| - 1].chunk))
  }

  /** The metadata after storing the items as chunks 1, 2, … */
  function PutMetadata(metadata: Dict<Meta>, pack: string, items: seq<Item>): Dict<Meta> {
    if items == [] then metadata
    else Put(PutMetadata(metadata, pack, items[..|items| - 1]), ChunkKey(pack, |items|), MetaOf(items[|items| - 1]))
  }

  lemma {:induction false} BuildStoresVector(vectors: Dict<Vector>, pack: string, items: seq<Item>, n: nat)
    requires 1 <= n <= |items|
    ensures Get(PutVectors(vectors, pack, items), ChunkKey(pack, n)) == Some(Embed(items[n - 1].chunk))
  {
    var init := items[..|items| - 1];
    var e := Embed(items[|items| - 1].chunk);
    assert PutVectors(vectors, pack, items) == Put(PutVectors(vectors, pack, init), ChunkKey(pack, |items|), e);
    GetPut(PutVectors(vectors, pack, init), ChunkKey(pack, |items|), e, ChunkKey(pack, n));
    if n < |items| {
      ChunkKeyInjective(pack, n, |items|);
      BuildStoresVector(vectors, pack, init, n);
      assert init[n - 1] == items[n - 1];
    }
  }

  lemma {:induction false} BuildStoresMetadata(metadata: Dict<Meta>, pack: string, items: seq<Item>, n: nat)
    requires 1 <= n <= |items|
    ensures Get(PutMetadata(metadata, pack, items), ChunkKey(pack, n)) == Some(MetaOf(items[n - 1]))
  {
    var init := items[..|items| - 1];
    var e := MetaOf(items[|items| - 1]);
    assert PutMetadata(metadata, pack, items) == Put(PutMetadata(metadata, pack, init), ChunkKey(pack, |items|), e);
    GetPut(PutMetadata(metadata, pack, init), ChunkKey(pack, |items|), e, ChunkKey(pack, n));
    if n < |items| {
      ChunkKeyInjective(pack, n, |items|);
      BuildStoresMetadata(metadata, pack, init, n);
      assert init[n - 1] == items[n - 1];
    }
  }

  /** Chunk `n` (from 1) is stored under `"{pack}-{n}"` in both
      dictionaries, with its embedding and its metadata. */
  lemma BuildStoresChunk(vectors: Dict<Vector>, metadata: Dict<Meta>, pack: string, items: seq<Item>, n: nat)
    requires 1 <= n <= |items|
    ensures Get(PutVectors(vectors, pack, items), ChunkKey(pack, n)) == Some(Embed(items[n - 1].chunk))
    ensures Get(PutMetadata(metadata, pack, items), ChunkKey(pack, n)) == Some(MetaOf(items[n - 1]))
  {
    BuildStoresVector(vectors, pack, items, n);
    BuildStoresMetadata(metadata, pack, items, n);
  }

  lemma PutVectorsPrefix(vectors: Dict<Vector>, pack: string, items: seq<Item>, j: nat)
    requires 0 < j <= |items|
    ensures PutVectors(vectors, pack, items[..j])
            == Put(PutVectors(vectors, pack, items[..j - 1]), ChunkKey(pack, j), Embed(items[j - 1].chunk))
  {
    assert items[..j][..j - 1] == items[..j - 1];
  }

  lemma PutMetadataPrefix(metadata: Dict<Meta>, pack: string, items: seq<Item>, j: nat)
    requires 0 < j <= |items|
    ensures PutMetadata(metadata, pack, items[..j])
            == Put(PutMetadata(metadata, pack, items[..j - 1]), ChunkKey(pack, j), MetaOf(items[j - 1]))
  {
    assert items[..j][..j - 1] == items[..j - 1];
  }

  /** Storing, under the same numbers, chunks that a dictionary already
      holds changes none of its vectors. */
  lemma {:induction false} RestoreKeepsVectors(x: Dict<Vector>, pack: string, items: seq<Item>, j: nat)
    requires j <= |items|
    requires forall n :: 1 <= n <= j ==> Get(x, ChunkKey(pack, n)) == Some(Embed(items[n - 1].chunk))
    ensures PutVectors(x, pack, items[..j]) == x
  {
    if j > 0 {
      RestoreKeepsVectors(x, pack, items, j - 1);
      PutVectorsPrefix(x, pack, items, j);
      PutPresent(x, ChunkKey(pack, j), Embed(items[j - 1].chunk));
    }
  }

  /** The same for the metadata. */
  lemma {:induction false} RestoreKeepsMetadata(y: Dict<Meta>, pack: string, items: seq<Item>, j: nat)
    requires j <= |items|
    requires forall n :: 1 <= n <= j ==> Get(y, ChunkKey(pack, n)) == Some(MetaOf(items[n - 1]))
    ensures PutMetadata(y, pack, items[..j]) == y
  {
    if j > 0 {
      RestoreKeepsMetadata(y, pack, items, j - 1);
      PutMetadataPrefix(y, pack, items, j);
      PutPresent(y, ChunkKey(pack, j), MetaOf(items[j - 1]));
    }
  }

  /** Building twice from the same documents leaves what building once
      leaves: the same chunks, vectors and metadata. */
  lemma RebuildChangesNothing(vectors: Dict<Vector>, metadata: Dict<Meta>, pack: string, docs: seq<Doc>)
    ensures var items := Items(docs);
            PutVectors(PutVectors(vectors, pack, items), pack, items) == PutVectors(vectors, pack, items)
    ensures var items := Items(docs);
            PutMetadata(PutMetadata(metadata, pack, items), pack, items) == PutMetadata(metadata, pack, items)
  {
    var items := Items(docs);
    var x, y := PutVectors(vectors, pack, items), PutMetadata(metadata, pack, items);
    forall n | 1 <= n <= |items|
      ensures Get(x, ChunkKey(pack, n)) == Some(Embed(items[n - 1].chunk))
      ensures Get(y, ChunkKey(pack, n)) == Some(MetaOf(items[n - 1]))
    {
      BuildStoresChunk(vectors, metadata, pack, items, n);
    }
    RestoreKeepsVectors(x, pack, items, |items|);
    RestoreKeepsMetadata(y, pack, items, |items|);
    TakeAll(items);
  }


  /** Every other key, in particular a chunk key beyond the new chunk count
      left by an earlier build, keeps its old entry in both dictionaries. */
  lemma {:induction false} BuildKeepsOtherKeys(vectors: Dict<Vector>, metadata: Dict<Meta>, pack: string, items: seq<Item>, key: string)
    requires forall n :: 1 <= n <= |items| ==> key != ChunkKey(pack, n)
    ensures Get(PutVectors(vectors, pack, items), key) == Get(vectors, key)
    ensures Get(PutMetadata(metadata, pack, items), key) == Get(metadata, key)
  {
    if items != [] {
      var init := items[..|items| - 1];
      GetPut(PutVectors(vectors, pack, init), ChunkKey(pack, |items|), Embed(items[|items| - 1].chunk), key);
      GetPut(PutMetadata(metadata, pack, init), ChunkKey(pack, |items|), MetaOf(items[|items| - 1]), key);
      BuildKeepsOtherKeys(vectors, metadata, pack, init, key);
    }
  }

  lemma StaleChunksSurvive(vectors: Dict<Vector>, metadata: Dict<Meta>, pack: string, items: seq<Item>, n: nat)
    requires n > |items|
    ensures Get(PutVectors(vectors, pack, items), ChunkKey(pack, n)) == Get(vectors, ChunkKey(pack, n))
    ensures Get(PutMetadata(metadata, pack, items), ChunkKey(pack, n)) == Get(metadata, ChunkKey(pack, n))
  {
    forall m | 1 <= m <= |items| ensures ChunkKey(pack, n) != ChunkKey(pack, m) {
      ChunkKeyInjective(pack, n, m);
    }
    BuildKeepsOtherKeys(vectors, metadata, pack, items, ChunkKey(pack, n));
  }

  /** The vector keys stay distinct, with the old keys first in their old
      order. */
  lemma {:induction false} BuildKeysGrow(vectors: Dict<Vector>, pack: string, items: seq<Item>)
    requires Distinct(Keys(vectors))
    ensures Distinct(Keys(PutVectors(vectors, pack, items)))
    ensures Keys(vectors) <= Keys(PutVectors(vectors, pack, items))
  {
    if items != [] {
      var init := items[..|items| - 1];
      var v := PutVectors(vectors, pack, init);
      var key, e := ChunkKey(pack, |items|), Embed(items[|items| - 1].chunk);
      BuildKeysGrow(vectors, pack, init);
      PutKeepsDistinct(v, key, e);
      PutExtendsOrder(v, key, e);
    }
  }

  /** Both dictionaries gain the same keys. */
  lemma {:induction false} BuildKeysMatch(vectors: Dict<Vector>, metadata: Dict<Meta>, pack: string, items: seq<Item>)
    requires forall key :: key in Keys(metadata) <==> key in Keys(vectors)
    ensures forall key :: key in Keys(PutMetadata(metadata, pack, items)) <==> key in Keys(PutVectors(vectors, pack, items))
  {
    if items != [] {
      var init := items[..|items| - 1];
      var v, m := PutVectors(vectors, pack, init), PutMetadata(metadata, pack, init);
      var key := ChunkKey(pack, |items|);
      BuildKeysMatch(vectors, metadata, pack, init);
      PutKeys(v, key, Embed(items[|items| - 1].chunk));
      PutKeys(m, key, MetaOf(items[|items| - 1]));
    }
  }

  /** The keys of the two dictionaries stay the same set, and the vector
      keys stay distinct, with the old keys first in their old order. */
  lemma BuildKeepsKeysAligned(vectors: Dict<Vector>, metadata: Dict<Meta>, pack: string, items: seq<Item>)
    requires Distinct(Keys(vectors))
    ensures Distinct(Keys(PutVectors(vectors, pack, items)))
    ensures Keys(vectors) <= Keys(PutVectors(vectors, pack, items))
    ensures (forall key :: key in Keys(metadata) <==> key in Keys(vectors)) ==>
              forall key :: key in Keys(PutMetadata(metadata, pack, items)) <==> key in Keys(PutVectors(vectors, pack, items))
  {
    BuildKeysGrow(vectors, pack, items);
    if forall key :: key in Keys(metadata) <==> key in Keys(vectors) {
      BuildKeysMatch(vectors, metadata, pack, items);
    }
  }

  lemma BuildStep(vectors: Dict<Vector>, metadata: Dict<Meta>, pack: string, done: seq<Item>, item: Item)
    ensures PutVectors(vectors, pack, done + [item])
            == Put(PutVectors(vectors, pack, done), pack + "-" + NatToString(|done| + 1), Embed(item.chunk))
    ensures PutMetadata(metadata, pack, done + [item])
            == Put(PutMetadata(metadata, pack, done), pack + "-" + NatToString(|done| + 1),
                   Meta(BaseName(item.path), item.path, item.chunk[..if |item.chunk| < 300 then |item.chunk| else 300], None, None))
  {
    BuildStepVectors(vectors, pack, done, item);
    BuildStepMetadata(metadata, pack, done, item);
  }

  lemma BuildStepVectors(vectors: Dict<Vector>, pack: string, done: seq<Item>, item: Item)
    ensures PutVectors(vectors, pack, done + [item])
            == Put(PutVectors(vectors, pack, done), ChunkKey(pack, |done| + 1), Embed(item.chunk))
  {
    assert (done + [item])[..|done|] == done;
  }

  lemma BuildStepMetadata(metadata: Dict<Meta>, pack: string, done: seq<Item>, item: Item)
    ensures PutMetadata(metadata, pack, done + [item])
            == Put(PutMetadata(metadata, pack, done), ChunkKey(pack, |done| + 1), MetaOf(item))
  {
    var items := done + [item];
    assert items[..|items| - 1] == done && items[|items| - 1] == item;
  }

  lemma ItemsOfStep(before: seq<Item>, path: string, chunks: seq<string>, j: nat)
    requires j < |chunks|
    ensures before + ItemsOf(path, chunks[..j + 1]) == before + ItemsOf(path, chunks[..j]) + [Item(path, chunks[j])]
  {
    assert chunks[..j + 1][..j] == chunks[..j];
    assert ItemsOf(path, chunks[..j + 1]) == ItemsOf(path, chunks[..j]) + [Item(path, chunks[j])];
  }

  /** One turn of the inner loop of `build`: chunk `j` of the document is
      stored as the next chunk. */
  lemma StoreDocStep(vectors: Dict<Vector>, metadata: Dict<Meta>, pack: string, done: seq<Item>,
                     path: string, chunks: seq<string>, j: nat)
    requires j < |chunks|
    ensures var before, item := done + ItemsOf(path, chunks[..j]), Item(path, chunks[j]);
            var after := done + ItemsOf(path, chunks[..j + 1]);
            |after| == |before| + 1
            && PutVectors(vectors, pack, after) == Put(PutVectors(vectors, pack, before), ChunkKey(pack, |before| + 1), Embed(item.chunk))
            && PutMetadata(metadata, pack, after) == Put(PutMetadata(metadata, pack, before), ChunkKey(pack, |before| + 1), MetaOf(item))
  {
    var before, item := done + ItemsOf(path, chunks[..j]), Item(path, chunks[j]);
    ItemsOfStep(done, path, chunks, j);
    BuildStepVectors(vectors, pack, before, item);
    BuildStepMetadata(metadata, pack, before, item);
  }

  /** Before the inner loop no chunk of the document is stored. */
  lemma StoreDocStart(done: seq<Item>, path: string, chunks: seq<string>)
    ensures done + ItemsOf(path, chunks[..0]) == done
  {
    assert chunks[..0] == [];
    assert done + [] == done;
  }

  lemma ItemsStep(docs: seq<Doc>, i: nat)
    requires i < |docs|
    ensures Items(docs[..i + 1]) == Items(docs[..i]) + ItemsOf(docs[i].path, DocChunks(docs[i].content))
  {
    var cs := DocChunks(docs[i].content);
    assert docs[..i + 1][..i] == docs[..i];
    assert cs[..|cs|] == cs;
  }

  /** The nested loop of `build`: every chunk of every document, numbered
      from 1, written into both dictionaries. */
  method StoreChunks(pack: string, vectors: Dict<Vector>, metadata: Dict<Meta>, docs: seq<Doc>)
    returns (vs: Dict<Vector>, md: Dict<Meta>)
    ensures vs == PutVectors(vectors, pack, Items(docs))
    ensures md == PutMetadata(metadata, pack, Items(docs))
  {
    var chunkId: nat := 0;
    vs, md := vectors, metadata;
    ghost var done: seq<Item> := [];
    var i := 0;
    while i < |docs|
      invariant 0 <= i <= |docs|
      invariant done == Items(docs[..i]) && chunkId == |done|
      invariant vs == PutVectors(vectors, pack, done)
      invariant md == PutMetadata(metadata, pack, done)
    {
      var chunks := DocChunks(docs[i].content);
      vs, md, chunkId := StoreDocChunks(pack, vectors, metadata, done, vs, md, chunkId, docs[i].path, chunks);
      ItemsStep(docs, i);
      done := done + ItemsOf(docs[i].path, DocChunks(docs[i].content));
      i := i + 1;
    }
    assert docs[..|docs|] == docs;
  }

  /** The body of the inner loop of `build`: the next chunk number, and
      the chunk's metadata and embedding stored under its key. */
  method StoreChunk(pack: string, vs0: Dict<Vector>, md0: Dict<Meta>, chunkId0: nat, path: string, chunk: string)
    returns (vs: Dict<Vector>, md: Dict<Meta>, chunkId: nat)
    ensures chunkId == chunkId0 + 1
    ensures vs == Put(vs0, ChunkKey(pack, chunkId), Embed(chunk))
    ensures md == Put(md0, ChunkKey(pack, chunkId), MetaOf(Item(path, chunk)))
  {
    chunkId := chunkId0 + 1;
    var key := pack + "-" + NatToString(chunkId);
    var n := if |chunk| < 300 then |chunk| else 300;
    md := Put(md0, key, Meta(BaseName(path), path, chunk[..n], None, None));
    vs := Put(vs0, key, Embed(chunk));
  }

  /** The inner loop of `build`: the chunks of the document at `path`,
      numbered on from `chunkId`, given what `done` (the earlier chunks)
      left. */
  method StoreDocChunks(pack: string, ghost vectors: Dict<Vector>, ghost metadata: Dict<Meta>, ghost done: seq<Item>,
                        vs0: Dict<Vector>, md0: Dict<Meta>, chunkId0: nat, path: string, chunks: seq<string>)
    returns (vs: Dict<Vector>, md: Dict<Meta>, chunkId: nat)
    requires chunkId0 == |done|
    requires vs0 == PutVectors(vectors, pack, done) && md0 == PutMetadata(metadata, pack, done)
    ensures var all := done + ItemsOf(path, chunks);
            chunkId == |all| && vs == PutVectors(vectors, pack, all) && md == PutMetadata(metadata, pack, all)
  {
    vs, md, chunkId := vs0, md0, chunkId0;
    ghost var sofar := done;
    var j := 0;
    StoreDocStart(done, path, chunks);
    while j < |chunks|
      invariant 0 <= j <= |chunks|
      invariant sofar == done + ItemsOf(path, chunks[..j])
      invariant chunkId == |sofar|
      invariant vs == PutVectors(vectors, pack, sofar)
      invariant md == PutMetadata(metadata, pack, sofar)
    {
      StoreDocStep(vectors, metadata, pack, done, path, chunks, j);
      vs, md, chunkId := StoreChunk(pack, vs, md, chunkId, path, chunks[j]);
      sofar := done + ItemsOf(path, chunks[..j + 1]);
      j := j + 1;
    }
    TakeAll(chunks);
  }

  // ------------------------------------------------------------- the store

  class VectorStore {
    var packName: string
    var vectors: Dict<Vector>
    var metadata: Dict<Meta>

    /** `VectorStore(pack_name, …)`: empty dictionaries. */
    constructor (packName: string)
      ensures this.packName == packName && vectors == [] && metadata == []
    {
      this.packName := packName;
      vectors := [];
      metadata := [];
    }

    /** `_load`: each dictionary is replaced by its saved file, when that
        file exists (`None` when it does not). */
    method Load(savedMetadata: Option<Dict<Meta>>, savedVectors: Option<Dict<Vector>>)
      modifies this
      ensures packName == old(packName)
      ensures metadata == if savedMetadata.Some? then savedMetadata.value else old(metadata)
      ensures vectors == if savedVectors.Some? then savedVectors.value else old(vectors)
    {
      if savedMetadata.Some? {
        metadata := savedMetadata.value;
      }
      if savedVectors.Some? {
        vectors := savedVectors.value;
      }
    }

    /** `build` over the ingested documents: chunk `n`, counted across all
        documents, is stored as `"{pack}-{n}"`; nothing is removed. */
    method Build(docs: seq<Doc>)
      modifies this
      ensures packName == old(packName)
      ensures vectors == PutVectors(old(vectors), packName, Items(docs))
      ensures metadata == PutMetadata(old(metadata), packName, Items(docs))
    {
      vectors, metadata := StoreChunks(packName, vectors, metadata, docs);
    }

    /** `search(query, k)`; the dictionaries are left unchanged. */
    method Search(query: string, k: int) returns (r: Result<seq<Hit>>)
      ensures r == SearchResult(vectors, metadata, query, k)
    {
      if vectors == [] {
        return Ok([]);
      }
      var q := Embed(query);
      var scored: seq<Scored> := [];
      var i := 0;
      while i < |vectors|
        invariant 0 <= i <= |vectors|
        invariant scored == ScoredEntries(q, vectors[..i])
      {
        assert vectors[..i + 1][..i] == vectors[..i];
        scored := scored + [(vectors[i].0, Score(q, vectors[i].1))];
        i := i + 1;
      }
      assert vectors[..|vectors|] == vectors;
      var top := TakePy(SortDesc(scored), k);
      var results: seq<Hit> := [];
      var j := 0;
      assert top[0..] == top;
      PrependNothing(Hits(top, metadata));
      while j < |top|
        invariant 0 <= j <= |top|
        invariant Hits(top, metadata) == PrependHits(results, Hits(top[j..], metadata))
      {
        var key, score := top[j].0, top[j].1;
        assert top[j..][1..] == top[j + 1..];
        if score > 0.0 {
          var meta := Get(metadata, key);
          if meta.None? {
            return Err(KeyErrorMessage(key));
          }
          var hit := Hit(meta.value, score);
          assert Hits(top[j..], metadata) == PrependHits([hit], Hits(top[j + 1..], metadata));
          PrependHitsTwice(results, [hit], Hits(top[j + 1..], metadata));
          results := results + [hit];
        }
        j := j + 1;
      }
      assert top[j..] == [];
      assert results + [] == results;
      return Ok(results);
    }
  }

  lemma PrependNothing(r: Result<seq<Hit>>)
    ensures PrependHits([], r) == r
  {
    if r.Ok? {
      assert [] + r.value == r.value;
    }
  }

  lemma PrependHitsTwice(a: seq<Hit>, b: seq<Hit>, r: Result<seq<Hit>>)
    ensures PrependHits(a, PrependHits(b, r)) == PrependHits(a + b, r)
  {
    if r.Ok? {
      assert a + (b + r.value) == (a + b) + r.value;
    }
  }

  function PrependHits(h: seq<Hit>, r: Result<seq<Hit>>): Result<seq<Hit>> {
    match r
    case Err(e) => Err(e)
    case Ok(rest) => Ok(h + rest)
  }
}
