/** Sliding-window text chunking (app/backend/indexing/chunking.py).

    The loop of `chunk_text` stops only when `start` reaches the end of the
    text. Once a window reaches the end, `start` becomes `len(text) -
    overlap`, and for a positive overlap that is again inside the text: the
    loop repeats its last window forever. The loop is therefore modelled
    with an iteration budget (`fuel`); the lemmas below show that it stops
    for every non-empty text exactly when `overlap <= 0`. `ChunkTextIntended`
    is the variant that stops after the window that reaches the end, which
    is what the repository's test expects; the evidence index uses it. */
module Chunking {
  import opened Wrappers
  import opened Strings

  const DefaultChunkSize: int := 500
  const DefaultOverlap: int := 50

  /** What running `chunk_text` for at most `fuel` iterations gives: the
      chunks, the `ValueError` it raises, or a loop still running. */
  datatype ChunkOutcome = Chunks(chunks: seq<string>) | Rejected(message: string) | StillRunning

  function Min(x: int, y: int): int { if x <= y then x else y }
  function Max0(x: int): nat { if x >= 0 then x else 0 }

  /** The argument checks, in the source's order. */
  function Validate(chunkSize: int, overlap: int): (err: Option<string>)
    ensures err == None <==> chunkSize > 0 && overlap < chunkSize
  {
    if chunkSize <= 0 then Some("chunk_size must be positive")
    else if overlap >= chunkSize then Some("overlap must be smaller than chunk_size")
    else None
  }

  /** The end of the window that begins at `start`. */
  function WindowEnd(n: nat, chunkSize: int, start: nat): (e: nat)
    requires chunkSize > 0 && start < n
    ensures start < e <= n && e - start <= chunkSize
  {
    Min(n, start + chunkSize)
  }

  /** The next `start`: `end - overlap`, clamped at 0. Before the end of the
      text is reached it is `start + chunk_size - overlap`, clamped at 0. */
  function NextStart(n: nat, chunkSize: int, overlap: int, start: nat): (next: nat)
    requires chunkSize > 0 && start < n
    ensures start + chunkSize < n ==> next == Max0(start + chunkSize - overlap)
    ensures start + chunkSize >= n ==> next == Max0(n - overlap)
  {
    Max0(WindowEnd(n, chunkSize, start) - overlap)
  }

  /** A window `text[start:end]`, by its bounds. */
  datatype Span = Span(start: nat, end: nat)

  /** A non-empty window inside a text of length `n`, at most `chunkSize`
      characters long. */
  predicate SpanIn(n: nat, chunkSize: int, sp: Span) {
    sp.start < sp.end <= n && sp.end - sp.start <= chunkSize
  }

  predicate SpansIn(n: nat, chunkSize: int, spans: seq<Span>) {
    forall k :: 0 <= k < |spans| ==> SpanIn(n, chunkSize, spans[k])
  }

  /** The iterations' windows from `start` on, if the loop stops within
      `fuel` more iterations (`None` if it does not). They depend only on the
      length `n` of the text. */
  function Spans(n: nat, chunkSize: int, overlap: int, start: nat, fuel: nat): (r: Option<seq<Span>>)
    requires chunkSize > 0
    ensures r.Some? ==> SpansIn(n, chunkSize, r.value)
    decreases fuel
  {
    if start >= n then Some([])
    else if fuel == 0 then None
    else
      var sp := Span(start, WindowEnd(n, chunkSize, start));
      match Spans(n, chunkSize, overlap, NextStart(n, chunkSize, overlap, start), fuel - 1)
      case None => None
      case Some(rest) => Some([sp] + rest)
  }

  /** A chunk as the loop appends it: the stripped window. */
  function Piece(text: string, sp: Span): string
    requires sp.start <= sp.end <= |text|
  {
    Strip(text[sp.start..sp.end])
  }

  /** The chunks of the windows, in order. */
  function Pieces(text: string, spans: seq<Span>): seq<string>
    requires forall k :: 0 <= k < |spans| ==> spans[k].start <= spans[k].end <= |text|
  {
    if spans == [] then []
    else Pieces(text, spans[..|spans| - 1]) + [Piece(text, spans[|spans| - 1])]
  }

  /** One chunk per window, in order. */
  lemma {:induction false} PiecesLayout(text: string, spans: seq<Span>)
    requires forall k :: 0 <= k < |spans| ==> spans[k].start <= spans[k].end <= |text|
    ensures var r := Pieces(text, spans);
            |r| == |spans| && forall k :: 0 <= k < |spans| ==> r[k] == Piece(text, spans[k])
  {
    if spans != [] {
      var init := spans[..|spans| - 1];
      PiecesLayout(text, init);
      var r := Pieces(text, spans);
      forall k | 0 <= k < |init| ensures r[k] == Piece(text, spans[k]) {
        assert r[k] == Pieces(text, init)[k];
        assert init[k] == spans[k];
      }
    }
  }

  lemma PiecesSnoc(text: string, spans: seq<Span>, sp: Span)
    requires forall k :: 0 <= k < |spans| ==> spans[k].start <= spans[k].end <= |text|
    requires sp.start <= sp.end <= |text|
    ensures Pieces(text, spans + [sp]) == Pieces(text, spans) + [Piece(text, sp)]
  {
    assert (spans + [sp])[..|spans|] == spans;
  }

  /** The chunk is the stripped text of some window of at most `chunkSize`
      characters inside the text. */
  predicate IsWindowOf(text: string, chunkSize: int, c: string) {
    exists s: nat, e: nat :: s <= e <= |text| && e - s <= chunkSize && c == Strip(text[s..e])
  }

  /** Every chunk of windows inside the text is the stripped text of a
      window. */
  lemma PiecesAreWindows(text: string, chunkSize: int, spans: seq<Span>)
    requires SpansIn(|text|, chunkSize, spans)
    ensures forall c :: c in Pieces(text, spans) ==> IsWindowOf(text, chunkSize, c)
  {
    var r := Pieces(text, spans);
    PiecesLayout(text, spans);
    forall c | c in r ensures IsWindowOf(text, chunkSize, c) {
      var k :| 0 <= k < |r| && r[k] == c;
      assert SpanIn(|text|, chunkSize, spans[k]);
      assert c == Strip(text[spans[k].start..spans[k].end]);
    }
  }

  /** The final comprehension: the non-empty chunks, in order. */
  function NonEmpty(chunks: seq<string>): (r: seq<string>)
    ensures |r| <= |chunks|
    ensures forall c :: c in r ==> c != [] && c in chunks
    ensures forall c :: c in chunks && c != [] ==> c in r
  {
    if chunks == [] then []
    else (if chunks[0] == [] then [] else [chunks[0]]) + NonEmpty(chunks[1..])
  }

  /** `chunk_text(text, chunk_size, overlap)` run for at most `fuel` loop
      iterations. */
  function ChunkTextSpec(text: string, chunkSize: int, overlap: int, fuel: nat): ChunkOutcome {
    match Validate(chunkSize, overlap)
    case Some(message) => Rejected(message)
    case None =>
      match Spans(|text|, chunkSize, overlap, 0, fuel)
      case None => StillRunning
      case Some(spans) => Chunks(NonEmpty(Pieces(text, spans)))
  }

  /** Whatever the budget, the chunks the loop returns are non-empty
      stripped windows of at most `chunk_size` characters. */
  lemma ChunksAreWindows(text: string, chunkSize: int, overlap: int, fuel: nat)
    ensures var r := ChunkTextSpec(text, chunkSize, overlap, fuel);
            r.Chunks? ==> forall c :: c in r.chunks ==> c != [] && IsWindowOf(text, chunkSize, c)
  {
    if chunkSize > 0 && overlap < chunkSize {
      var spans := Spans(|text|, chunkSize, overlap, 0, fuel);
      if spans.Some? {
        PiecesAreWindows(text, chunkSize, spans.value);
      }
    }
  }

  function Prepend<T>(xs: seq<T>, rest: Option<seq<T>>): Option<seq<T>> {
    match rest
    case None => None
    case Some(r) => Some(xs + r)
  }

  /** What one iteration of the loop does to the windows still to come. */
  lemma LoopStep(n: nat, chunkSize: int, overlap: int, done: seq<Span>, start: nat, fuel: nat)
    requires chunkSize > 0 && start < n && fuel > 0
    ensures Prepend(done, Spans(n, chunkSize, overlap, start, fuel))
            == Prepend(done + [Span(start, Min(n, start + chunkSize))],
                       Spans(n, chunkSize, overlap, Max0(Min(n, start + chunkSize) - overlap), fuel - 1))
  {
    var rest := Spans(n, chunkSize, overlap, Max0(Min(n, start + chunkSize) - overlap), fuel - 1);
    if rest.Some? {
      assert done + ([Span(start, Min(n, start + chunkSize))] + rest.value)
             == (done + [Span(start, Min(n, start + chunkSize))]) + rest.value;
    }
  }

  /** One more window inside the text keeps the windows inside it. */
  lemma SpansInSnoc(n: nat, chunkSize: int, done: seq<Span>, sp: Span)
    requires SpansIn(n, chunkSize, done) && SpanIn(n, chunkSize, sp)
    ensures SpansIn(n, chunkSize, done + [sp])
  {
    assert forall k :: 0 <= k < |done| ==> (done + [sp])[k] == done[k];
  }

  lemma PrependEmpty<T>(rest: Option<seq<T>>)
    ensures Prepend([], rest) == rest
  {
    if rest.Some? {
      assert [] + rest.value == rest.value;
    }
  }

  /** `chunk_text` with the source's loop, stopped after `fuel` iterations
      if it has not finished by then. */
  method ChunkText(text: string, chunkSize: int, overlap: int, fuel: nat) returns (r: ChunkOutcome)
    ensures r == ChunkTextSpec(text, chunkSize, overlap, fuel)
  {
    if chunkSize <= 0 {
      return Rejected("chunk_size must be positive");
    }
    if overlap >= chunkSize {
      return Rejected("overlap must be smaller than chunk_size");
    }
    var chunks: seq<string> := [];
    var start: nat := 0;
    var steps: nat := 0;
    ghost var all := Spans(|text|, chunkSize, overlap, 0, fuel);
    ghost var done: seq<Span> := [];
    PrependEmpty(all);
    while start < |text| && steps < fuel
      invariant steps <= fuel
      invariant SpansIn(|text|, chunkSize, done)
      invariant chunks == Pieces(text, done)
      invariant all == Prepend(done, Spans(|text|, chunkSize, overlap, start, fuel - steps))
      decreases fuel - steps
    {
      var end := Min(|text|, start + chunkSize);
      var piece := Strip(text[start..end]);
      LoopStep(|text|, chunkSize, overlap, done, start, fuel - steps);
      PiecesSnoc(text, done, Span(start, end));
      SpansInSnoc(|text|, chunkSize, done, Span(start, end));
      chunks := chunks + [piece];
      done := done + [Span(start, end)];
      var next := end - overlap;
      if next < 0 {
        next := 0;
      }
      start := next;
      steps := steps + 1;
    }
    if start < |text| {
      return StillRunning;
    }
    assert done + [] == done;
    r := Chunks(NonEmpty(chunks));
  }

  /** Empty text gives no chunks. */
  lemma EmptyTextGivesNoChunks(chunkSize: int, overlap: int, fuel: nat)
    requires chunkSize > 0 && overlap < chunkSize
    ensures ChunkTextSpec("", chunkSize, overlap, fuel) == Chunks([])
  {
  }

  /** Without a positive overlap every iteration moves `start` forward by at
      least one, so the loop stops within `len(text) - start` iterations. */
  lemma {:induction false} StopsWithoutOverlap(n: nat, chunkSize: int, overlap: int, start: nat, fuel: nat)
    requires chunkSize > 0 && overlap <= 0
    requires start + fuel >= n
    ensures Spans(n, chunkSize, overlap, start, fuel).Some?
    decreases fuel
  {
    if start < n {
      var next := NextStart(n, chunkSize, overlap, start);
      StopsWithoutOverlap(n, chunkSize, overlap, next, fuel - 1);
    }
  }

  /** With a positive overlap every next `start` is again inside a non-empty
      text, so no budget is ever enough. */
  lemma {:induction false} RunsForeverWithOverlap(n: nat, chunkSize: int, overlap: int, start: nat, fuel: nat)
    requires chunkSize > 0 && 0 < overlap < chunkSize
    requires start < n
    ensures Spans(n, chunkSize, overlap, start, fuel) == None
    decreases fuel
  {
    if fuel > 0 {
      var next := NextStart(n, chunkSize, overlap, start);
      RunsForeverWithOverlap(n, chunkSize, overlap, next, fuel - 1);
    }
  }

  /** With a positive overlap the state `start = max(0, len(text) - overlap)`
      is inside the text and leads back to itself. */
  lemma RepeatedState(n: nat, chunkSize: int, overlap: int)
    requires n > 0 && 0 < overlap < chunkSize
    ensures Max0(n - overlap) < n
    ensures NextStart(n, chunkSize, overlap, Max0(n - overlap)) == Max0(n - overlap)
  {
  }

  /** `start` after `m` iterations of the loop from `start`, while inside
      the text. */
  function Iterate(n: nat, chunkSize: int, overlap: int, start: nat, m: nat): nat
    requires chunkSize > 0
    decreases m
  {
    if m == 0 || start >= n then start
    else Iterate(n, chunkSize, overlap, NextStart(n, chunkSize, overlap, start), m - 1)
  }

  /** With a positive overlap the loop reaches the repeated state from any
      start inside the text after at most `n - start` iterations. */
  lemma {:induction false} ReachesRepeatedState(n: nat, chunkSize: int, overlap: int, start: nat)
    requires 0 < overlap < chunkSize && start < n
    ensures exists m :: 1 <= m <= n - start && Iterate(n, chunkSize, overlap, start, m) == Max0(n - overlap)
    decreases n - start
  {
    var next := NextStart(n, chunkSize, overlap, start);
    if start + chunkSize >= n {
      assert Iterate(n, chunkSize, overlap, start, 1) == next;
    } else {
      ReachesRepeatedState(n, chunkSize, overlap, next);
      var m :| 1 <= m <= n - next && Iterate(n, chunkSize, overlap, next, m) == Max0(n - overlap);
      assert Iterate(n, chunkSize, overlap, start, m + 1) == Iterate(n, chunkSize, overlap, next, m);
    }
  }

  /** `chunk_text` with valid arguments stops (for some iteration budget)
      if and only if the text is empty or the overlap is not positive. */
  lemma ChunkTextStopsIff(text: string, chunkSize: int, overlap: int)
    requires chunkSize > 0 && overlap < chunkSize
    ensures (exists fuel: nat :: ChunkTextSpec(text, chunkSize, overlap, fuel) != StillRunning)
            <==> (|text| == 0 || overlap <= 0)
  {
    if |text| == 0 || overlap <= 0 {
      StopsWithoutOverlapOrEmpty(|text|, chunkSize, overlap);
      assert ChunkTextSpec(text, chunkSize, overlap, |text|) != StillRunning;
    } else {
      forall fuel: nat ensures ChunkTextSpec(text, chunkSize, overlap, fuel) == StillRunning {
        RunsForeverWithOverlap(|text|, chunkSize, overlap, 0, fuel);
      }
    }
  }

  lemma StopsWithoutOverlapOrEmpty(n: nat, chunkSize: int, overlap: int)
    requires chunkSize > 0 && (n == 0 || overlap <= 0)
    ensures Spans(n, chunkSize, overlap, 0, n).Some?
  {
    if n > 0 {
      StopsWithoutOverlap(n, chunkSize, overlap, 0, n);
    }
  }

  // ------------------------------------------------------- intended variant

  /** The windows of the intended loop: it stops right after the window
      that reaches the end of the text. */
  function IntendedSpans(n: nat, chunkSize: int, overlap: int, start: nat): (r: seq<Span>)
    requires 0 < chunkSize && overlap < chunkSize
    ensures SpansIn(n, chunkSize, r)
    decreases n - start
  {
    if start >= n then []
    else
      var e := WindowEnd(n, chunkSize, start);
      if e == n then [Span(start, e)]
      else [Span(start, e)] + IntendedSpans(n, chunkSize, overlap, NextStart(n, chunkSize, overlap, start))
  }

  /** The intended `chunk_text`: the same checks and windows, ending after
      the last window. */
  function ChunkTextIntended(text: string, chunkSize: int, overlap: int): (r: Result<seq<string>>)
    ensures r.Err? <==> chunkSize <= 0 || overlap >= chunkSize
  {
    match Validate(chunkSize, overlap)
    case Some(message) => Err(message)
    case None => Ok(NonEmpty(Pieces(text, IntendedSpans(|text|, chunkSize, overlap, 0))))
  }

  /** Every chunk of the intended variant is non-empty and is the stripped
      text of a window of at most `chunk_size` characters. */
  lemma IntendedChunksAreWindows(text: string, chunkSize: int, overlap: int)
    ensures var r := ChunkTextIntended(text, chunkSize, overlap);
            r.Ok? ==> forall c :: c in r.value ==> c != [] && IsWindowOf(text, chunkSize, c)
  {
    if chunkSize > 0 && overlap < chunkSize {
      PiecesAreWindows(text, chunkSize, IntendedSpans(|text|, chunkSize, overlap, 0));
    }
  }

  /** Where the source's loop does stop (no positive overlap), it takes the
      windows the intended variant takes. */
  lemma {:induction false} IntendedAgreesWithoutOverlap(n: nat, chunkSize: int, overlap: int, start: nat, fuel: nat)
    requires 0 < chunkSize && overlap <= 0
    requires start + fuel >= n
    ensures Spans(n, chunkSize, overlap, start, fuel) == Some(IntendedSpans(n, chunkSize, overlap, start))
    decreases fuel
  {
    if start < n {
      var e := WindowEnd(n, chunkSize, start);
      var next := NextStart(n, chunkSize, overlap, start);
      if e == n {
        assert Spans(n, chunkSize, overlap, next, fuel - 1) == Some([]);
        assert [Span(start, e)] + [] == [Span(start, e)];
      } else {
        IntendedAgreesWithoutOverlap(n, chunkSize, overlap, next, fuel - 1);
      }
    }
  }

  /** So without a positive overlap, the source's `chunk_text` returns
      exactly the intended chunks. */
  lemma SourceAgreesWithoutOverlap(text: string, chunkSize: int, overlap: int)
    requires 0 < chunkSize && overlap <= 0
    ensures ChunkTextSpec(text, chunkSize, overlap, |text|) == Chunks(ChunkTextIntended(text, chunkSize, overlap).value)
  {
    IntendedAgreesWithoutOverlap(|text|, chunkSize, overlap, 0, |text|);
  }

  /** The repository's test: 1200 `a`s in windows of 500 overlapping by 50
      give three chunks, the first 500 `a`s and the second beginning with
      50 `a`s (the overlap). */
  lemma IntendedMatchesTest()
    ensures var r := ChunkTextIntended(seq(1200, _ => 'a'), 500, 50);
            r.Ok? && |r.value| == 3 && r.value[0] == seq(500, _ => 'a')
            && |r.value[1]| >= 50 && r.value[1][..50] == seq(50, _ => 'a')
  {
    var text: string := seq(1200, _ => 'a');
    var w0, w2 := seq(500, _ => 'a'), seq(300, _ => 'a');
    var spans := IntendedSpans(|text|, 500, 50, 0);
    assert ChunkTextIntended(text, 500, 50) == Ok(NonEmpty(Pieces(text, spans)));
    TestSpans();
    TestPieces(text);
    TestNonEmpty(w0, w2);
    assert w0[..50] == seq(50, _ => 'a');
  }

  /** The test's windows: 0-500, 450-950 and 900-1200. */
  lemma TestSpans()
    ensures IntendedSpans(1200, 500, 50, 0) == [Span(0, 500), Span(450, 950), Span(900, 1200)]
  {
    assert IntendedSpans(1200, 500, 50, 900) == [Span(900, 1200)];
    assert IntendedSpans(1200, 500, 50, 450) == [Span(450, 950)] + [Span(900, 1200)];
  }

  lemma TestPieces(text: string)
    requires text == seq(1200, _ => 'a')
    ensures Pieces(text, [Span(0, 500), Span(450, 950), Span(900, 1200)])
            == [seq(500, _ => 'a'), seq(500, _ => 'a'), seq(300, _ => 'a')]
  {
    var spans := [Span(0, 500), Span(450, 950), Span(900, 1200)];
    PiecesLayout(text, spans);
    TestWindow(text, spans[0]);
    TestWindow(text, spans[1]);
    TestWindow(text, spans[2]);
  }

  lemma TestNonEmpty(w0: string, w2: string)
    requires w0 != [] && w2 != []
    ensures NonEmpty([w0, w0, w2]) == [w0, w0, w2]
  {
    assert NonEmpty([w2]) == [w2] + NonEmpty([]) == [w2] by {
      assert [w2][1..] == [];
    }
    assert NonEmpty([w0, w2]) == [w0] + NonEmpty([w2]) by {
      assert [w0, w2][1..] == [w2];
    }
    assert NonEmpty([w0, w0, w2]) == [w0] + NonEmpty([w0, w2]) by {
      assert [w0, w0, w2][1..] == [w0, w2];
    }
  }

  /** A window of a run of `a`s is a run of `a`s and strips to itself. */
  lemma TestWindow(text: string, sp: Span)
    requires text == seq(1200, _ => 'a') && sp.start < sp.end <= 1200
    ensures Piece(text, sp) == seq(sp.end - sp.start, _ => 'a')
  {
    var w := text[sp.start..sp.end];
    assert w == seq(sp.end - sp.start, _ => 'a');
    StripKeepsTrimmed(w);
  }

  /** The source's loop on the same input never stops, whatever the budget. */
  lemma SourceLoopDivergesOnTest(fuel: nat)
    ensures ChunkTextSpec(seq(1200, _ => 'a'), 500, 50, fuel) == StillRunning
  {
    RunsForeverWithOverlap(1200, 500, 50, 0, fuel);
  }
}
