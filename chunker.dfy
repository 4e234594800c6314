/**
 * `splitIntoChunks` of src/lib/preprocessor.ts: a cursor walks the text in
 * windows of at most `MaxChunkSize` characters, cuts each window after the
 * rightmost sentence end that is followed by white space (or hard at the window
 * size when there is none) and steps back `OverlapSize` characters.
 *
 * The cursor is an `int`, as in the source: when a cut lies within the overlap
 * of the cursor, the next cursor is not larger than the current one and may be
 * negative, and `String.prototype.slice` then counts from the end of the text.
 * `LoopStep` is one iteration of the outer loop exactly as written; `Chunks` is
 * the list the loop returns, or `None` when the cursor fails to advance.
 */
module Chunker {
  import opened Wrappers
  import opened JsString

  const MaxChunkSize: nat := 1000
  const OverlapSize: nat := 100

  /** The class `[.!?。]`. */
  predicate IsSentenceEnd(c: char) {
    c == '.' || c == '!' || c == '?' || c == '\U{3002}'
  }

  /** `/[.!?。]\s/.test(w)`: some sentence end in `w` is followed by white space. */
  predicate SentenceBreakIn(w: string)
    decreases |w|
  {
    |w| >= 2 && ((IsSentenceEnd(w[0]) && IsSpace(w[1])) || SentenceBreakIn(w[1..]))
  }

  /** The inner loop's test at `end`, on `text.slice(end - 1, end + 1)`. */
  predicate BoundaryAt(text: string, end: int) {
    SentenceBreakIn(JsSlice(text, end - 1, end + 1))
  }

  /** Reference definition: a cut at `p` keeps a sentence end and leaves white space next. */
  predicate IsBoundary(text: string, p: int) {
    1 <= p < |text| && IsSentenceEnd(text[p - 1]) && IsSpace(text[p])
  }

  /** Inside the text the inner loop's test is exactly `IsBoundary`. */
  lemma BoundaryAtAgrees(text: string, p: int)
    requires 1 <= p && p + 1 <= |text|
    ensures BoundaryAt(text, p) <==> IsBoundary(text, p)
  {
    var w := JsSlice(text, p - 1, p + 1);
    assert w == [text[p - 1], text[p]];
    assert !SentenceBreakIn(w[1..]);
  }

  /** The inner `while`: move `end` down until a boundary or `start` is reached. */
  function ScanBack(text: string, start: int, end: int): (r: int)
    ensures start <= end ==> start <= r <= end
    decreases end - start
  {
    if end <= start || BoundaryAt(text, end) then end else ScanBack(text, start, end - 1)
  }

  /** The scan stops at a boundary above `start`, or at `start`. */
  lemma {:induction false} ScanBackStops(text: string, start: int, end: int)
    ensures ScanBack(text, start, end) > start ==> BoundaryAt(text, ScanBack(text, start, end))
    decreases end - start
  {
    if end > start && !BoundaryAt(text, end) {
      ScanBackStops(text, start, end - 1);
    }
  }

  /** No position between the scan's result and `end` is a boundary. */
  lemma {:induction false} ScanBackSkips(text: string, start: int, end: int, p: int)
    requires ScanBack(text, start, end) < p <= end
    ensures !BoundaryAt(text, p)
    decreases end - start
  {
    if p < end {
      ScanBackSkips(text, start, end - 1, p);
    }
  }

  /** The scan stops at the highest boundary above `start`, or at `start` when there is none. */
  lemma ScanBackSpec(text: string, start: int, end: int)
    ensures var r := ScanBack(text, start, end);
      && (r > start ==> BoundaryAt(text, r))
      && (forall p :: r < p <= end ==> !BoundaryAt(text, p))
  {
    ScanBackStops(text, start, end);
    forall p | ScanBack(text, start, end) < p <= end
      ensures !BoundaryAt(text, p)
    {
      ScanBackSkips(text, start, end, p);
    }
  }

  /** Where a window opened at `start` is cut: the scan's result, or a hard cut. */
  function Cut(text: string, start: int): (c: int)
    ensures start < c <= start + MaxChunkSize
  {
    var e := ScanBack(text, start, start + MaxChunkSize);
    if e == start then start + MaxChunkSize else e
  }

  /** `start = end - OVERLAP_SIZE`. */
  function NextStart(text: string, start: int): int {
    Cut(text, start) - OverlapSize
  }

  datatype Iteration =
    | Exit                                  // `start < text.length` fails
    | LastChunk(chunk: string)              // the window reaches the end: push and break
    | Continue(chunk: string, next: int)    // push a cut chunk and move the cursor

  /** One pass of the outer loop from cursor `start`. */
  function LoopStep(text: string, start: int): (it: Iteration)
    ensures it.Continue? ==> it.next < |text| - OverlapSize
  {
    if start >= |text| then Exit
    else if start + MaxChunkSize >= |text| then LastChunk(JsSlice(text, start, |text|))
    else Continue(JsSlice(text, start, Cut(text, start)), NextStart(text, start))
  }

  /** The chunks the loop returns from cursor `start`; `None` once the cursor does not advance. */
  function Chunks(text: string, start: int): Option<seq<string>>
    decreases |text| - start
  {
    match LoopStep(text, start)
    case Exit => Some([])
    case LastChunk(c) => Some([c])
    case Continue(c, next) =>
      if next <= start then None
      else match Chunks(text, next)
        case None => None
        case Some(rest) => Some([c] + rest)
  }

  /** The cursor after `n` passes of the loop, or `None` once the loop has left. */
  function Iterate(text: string, start: int, n: nat): Option<int>
    decreases n
  {
    if n == 0 then Some(start)
    else match LoopStep(text, start)
      case Continue(_, next) => Iterate(text, next, n - 1)
      case _ => None
  }

  /** Lines 34-40 of the source's loop: scan back from the end of the window, else cut hard. */
  method CutWindow(text: string, start: int) returns (end: int)
    ensures end == Cut(text, start)
  {
    end := start + MaxChunkSize;
    while end > start && !BoundaryAt(text, end)
      invariant start <= end <= start + MaxChunkSize
      invariant ScanBack(text, start, end) == ScanBack(text, start, start + MaxChunkSize)
      decreases end - start
    {
      end := end - 1;
    }
    if end == start {
      end := start + MaxChunkSize;
    }
  }

  /** The source's function, proved against `Chunks`. */
  method SplitIntoChunks(text: string) returns (chunks: seq<string>)
    requires Chunks(text, 0).Some?
    ensures Chunks(text, 0) == Some(chunks)
    ensures |text| <= MaxChunkSize ==> chunks == (if text == [] then [] else [text])
  {
    chunks := [];
    var start: int := 0;
    assert chunks + Chunks(text, start).value == Chunks(text, 0).value;
    while start < |text|
      invariant 0 <= start
      invariant Chunks(text, start).Some?
      invariant Chunks(text, 0) == Some(chunks + Chunks(text, start).value)
      decreases |text| - start
    {
      var end := start + MaxChunkSize;
      if end >= |text| {
        SplitLast(text, start, chunks);
        chunks := chunks + [JsSlice(text, start, |text|)];
        break;
      }
      end := CutWindow(text, start);
      SplitStep(text, start, chunks);
      chunks := chunks + [JsSlice(text, start, end)];
      start := end - OverlapSize;
    }
    if start >= |text| {
      SplitExit(text, start, chunks);
    }
    if |text| <= MaxChunkSize {
      ShortText(text);
    }
  }

  /** Once the cursor has passed the end of the text, nothing more is pushed. */
  lemma SplitExit(text: string, start: int, chunks: seq<string>)
    requires start >= |text| && Chunks(text, start).Some?
    requires Chunks(text, 0) == Some(chunks + Chunks(text, start).value)
    ensures Chunks(text, 0) == Some(chunks)
  {
    assert Chunks(text, start) == Some([]);
    assert chunks + [] == chunks;
  }

  /** The pass that reaches the end of the text pushes its last chunk. */
  lemma SplitLast(text: string, start: nat, chunks: seq<string>)
    requires start < |text| <= start + MaxChunkSize
    requires Chunks(text, 0) == Some(chunks + Chunks(text, start).value)
    ensures Chunks(text, 0) == Some(chunks + [JsSlice(text, start, |text|)])
  {
    LoopStepInside(text, start);
  }

  /** A pass that cuts pushes the window up to the cut and moves the cursor back by the overlap. */
  lemma SplitStep(text: string, start: nat, chunks: seq<string>)
    requires start + MaxChunkSize < |text| && Chunks(text, start).Some?
    requires Chunks(text, 0) == Some(chunks + Chunks(text, start).value)
    ensures var next := Cut(text, start) - OverlapSize;
      && start < next < |text| && Chunks(text, next).Some?
      && Chunks(text, 0) == Some((chunks + [JsSlice(text, start, Cut(text, start))]) + Chunks(text, next).value)
  {
    ChunksStep(text, start);
    var c := Cut(text, start);
    var rest := Chunks(text, c - OverlapSize).value;
    assert JsSlice(text, start, c) == text[start..c];
    assert chunks + ([text[start..c]] + rest) == (chunks + [text[start..c]]) + rest;
  }

  // ---------------------------------------------------------------------------
  // Where a chunk ends

  lemma {:induction false} ScanBackNone(text: string, start: int, end: int)
    requires start <= end
    requires forall p :: start < p <= end ==> !BoundaryAt(text, p)
    ensures ScanBack(text, start, end) == start
    decreases end - start
  {
    if end > start {
      ScanBackNone(text, start, end - 1);
    }
  }

  lemma {:induction false} ScanBackFinds(text: string, start: int, end: int, q: int)
    requires start < q <= end && BoundaryAt(text, q)
    requires forall p :: q < p <= end ==> !BoundaryAt(text, p)
    ensures ScanBack(text, start, end) == q
    decreases end - start
  {
    if end > q {
      ScanBackFinds(text, start, end - 1, q);
    }
  }

  /**
   * A window that does not reach the end of the text is cut after the
   * rightmost boundary inside it, or hard at `MaxChunkSize` when it has none.
   */
  lemma CutSpec(text: string, start: nat)
    requires start + MaxChunkSize < |text|
    ensures var c := Cut(text, start);
      && ((exists p :: start < p <= start + MaxChunkSize && IsBoundary(text, p)) ==>
            IsBoundary(text, c) && forall p :: c < p <= start + MaxChunkSize ==> !IsBoundary(text, p))
      && ((forall p :: start < p <= start + MaxChunkSize ==> !IsBoundary(text, p)) ==>
            c == start + MaxChunkSize)
  {
    var e := ScanBack(text, start, start + MaxChunkSize);
    ScanBackSpec(text, start, start + MaxChunkSize);
    forall p | start < p <= start + MaxChunkSize
      ensures BoundaryAt(text, p) <==> IsBoundary(text, p)
    {
      BoundaryAtAgrees(text, p);
    }
    if q :| start < q <= start + MaxChunkSize && IsBoundary(text, q) {
      assert e >= q;
    }
  }

  // ---------------------------------------------------------------------------
  // How the chunks tile the text

  /** The first chunk plus every later chunk without its leading overlap. */
  function Reassemble(cs: seq<string>): string {
    if cs == [] then "" else cs[0] + Tails(cs[1..])
  }

  function Tails(cs: seq<string>): string
    decreases |cs|
  {
    if cs == [] then "" else (if |cs[0]| >= OverlapSize then cs[0][OverlapSize..] else "") + Tails(cs[1..])
  }

  lemma LoopStepInside(text: string, start: nat)
    requires start < |text|
    ensures start + MaxChunkSize >= |text| ==> LoopStep(text, start) == LastChunk(text[start..])
    ensures start + MaxChunkSize < |text| ==>
      LoopStep(text, start) == Continue(text[start..Cut(text, start)], Cut(text, start) - OverlapSize)
  {
  }

  /** A pass that cuts: the chunk is the window up to the cut, the rest comes from the next cursor. */
  lemma ChunksStep(text: string, start: nat)
    requires start + MaxChunkSize < |text| && Chunks(text, start).Some?
    ensures var next := Cut(text, start) - OverlapSize;
      && start < next < |text|
      && Chunks(text, next).Some?
      && Chunks(text, start).value == [text[start..Cut(text, start)]] + Chunks(text, next).value
  {
    LoopStepInside(text, start);
  }

  /** Gluing the chunks back without their overlaps gives the text from the cursor on. */
  lemma {:induction false} ChunksReassemble(text: string, start: nat, cs: seq<string>)
    requires start < |text| && Chunks(text, start) == Some(cs)
    ensures |cs| >= 1
    ensures Reassemble(cs) == text[start..]
    ensures |cs[0]| > OverlapSize || cs == [text[start..]]
    decreases |text| - start
  {
    if start + MaxChunkSize < |text| {
      ChunksStep(text, start);
      var c := Cut(text, start);
      var next := c - OverlapSize;
      var rest := Chunks(text, next).value;
      ChunksReassemble(text, next, rest);
      TailsAfterOverlap(text, next, c, rest);
      ReassembleCons(text, start, c, cs, rest);
    } else {
      LoopStepInside(text, start);
    }
  }

  lemma ReassembleCons(text: string, start: nat, c: nat, cs: seq<string>, rest: seq<string>)
    requires start + OverlapSize < c <= |text|
    requires cs == [text[start..c]] + rest && Tails(rest) == text[c..]
    ensures Reassemble(cs) == text[start..] && |cs[0]| > OverlapSize
  {
    assert cs[0] == text[start..c] && cs[1..] == rest;
    assert text[start..] == text[start..c] + text[c..];
  }

  /** Chunks from a cursor `next` that lies exactly `OverlapSize` before `c`. */
  lemma TailsAfterOverlap(text: string, next: nat, c: nat, rest: seq<string>)
    requires next + OverlapSize == c <= |text|
    requires |rest| >= 1 && |rest[0]| >= OverlapSize
    requires Reassemble(rest) == text[next..]
    ensures Tails(rest) == text[c..]
    ensures rest[0][..OverlapSize] == text[next..c]
  {
    var r0, t := rest[0], Tails(rest[1..]);
    var x := text[next..];
    assert x == r0 + t;
    assert text[next..c] == x[..OverlapSize] == r0[..OverlapSize];
    assert text[c..] == x[OverlapSize..] == r0[OverlapSize..] + t;
    assert Tails(rest) == r0[OverlapSize..] + t;
  }

  /** Every chunk is non-empty and no longer than `MaxChunkSize`. */
  lemma {:induction false} ChunksSizes(text: string, start: nat, cs: seq<string>)
    requires Chunks(text, start) == Some(cs)
    ensures forall i :: 0 <= i < |cs| ==> 0 < |cs[i]| <= MaxChunkSize
    decreases |text| - start
  {
    if start + MaxChunkSize < |text| {
      ChunksStep(text, start);
      var next := Cut(text, start) - OverlapSize;
      var rest := Chunks(text, next).value;
      ChunksSizes(text, next, rest);
      assert cs == [cs[0]] + rest;
    } else if start < |text| {
      LoopStepInside(text, start);
    }
  }

  /** `b` starts with the last `OverlapSize` characters of `a`, and both are long enough for that. */
  predicate Overlaps(a: string, b: string) {
    OverlapSize < |a| && OverlapSize <= |b| && a[|a| - OverlapSize..] == b[..OverlapSize]
  }

  /** Each chunk after the first starts with the last `OverlapSize` characters of the one before. */
  lemma {:induction false} ChunksOverlap(text: string, start: nat, cs: seq<string>)
    requires Chunks(text, start) == Some(cs)
    ensures forall i, j :: 0 <= i && j == i + 1 && j < |cs| ==> Overlaps(cs[i], cs[j])
    decreases |text| - start
  {
    if start + MaxChunkSize < |text| {
      ChunksStep(text, start);
      var c := Cut(text, start);
      var next := c - OverlapSize;
      var rest := Chunks(text, next).value;
      ChunksOverlap(text, next, rest);
      ChunksReassemble(text, next, rest);
      TailsAfterOverlap(text, next, c, rest);
      OverlapCons(text, start, c, cs, rest);
    } else if start < |text| {
      LoopStepInside(text, start);
    }
  }

  /** Prepending the window up to `c` keeps the overlaps when the rest starts `OverlapSize` before `c`. */
  lemma OverlapCons(text: string, start: nat, c: nat, cs: seq<string>, rest: seq<string>)
    requires start + OverlapSize < c <= |text|
    requires cs == [text[start..c]] + rest
    requires |rest| >= 1 && OverlapSize <= |rest[0]| && rest[0][..OverlapSize] == text[c - OverlapSize..c]
    requires forall i, j :: 0 <= i && j == i + 1 && j < |rest| ==> Overlaps(rest[i], rest[j])
    ensures forall i, j :: 0 <= i && j == i + 1 && j < |cs| ==> Overlaps(cs[i], cs[j])
  {
    assert cs[0][|cs[0]| - OverlapSize..] == text[c - OverlapSize..c];
    assert Overlaps(cs[0], cs[1]);
    forall i, j | 0 <= i && j == i + 1 && j < |cs|
      ensures Overlaps(cs[i], cs[j])
    {
      if i > 0 {
        assert cs[i] == rest[i - 1] && cs[j] == rest[j - 1];
      }
    }
  }

  /** The last chunk runs to the end of the text. */
  lemma {:induction false} ChunksLastIsSuffix(text: string, start: nat, cs: seq<string>)
    requires start < |text| && Chunks(text, start) == Some(cs)
    ensures |cs| >= 1 && |cs[|cs| - 1]| <= |text| - start
    ensures cs[|cs| - 1] == text[|text| - |cs[|cs| - 1]|..]
    decreases |text| - start
  {
    if start + MaxChunkSize < |text| {
      ChunksStep(text, start);
      var next := Cut(text, start) - OverlapSize;
      var rest := Chunks(text, next).value;
      ChunksLastIsSuffix(text, next, rest);
      assert cs[|cs| - 1] == rest[|rest| - 1];
    } else {
      LoopStepInside(text, start);
    }
  }

  /** Text of at most `MaxChunkSize` characters is returned as it is, in one chunk. */
  lemma ShortText(text: string)
    requires |text| <= MaxChunkSize
    ensures Chunks(text, 0) == (if text == [] then Some([]) else Some([text]))
  {
    if text != [] {
      LoopStepInside(text, 0);
      assert text[0..] == text;
    }
  }

  /** 1050 characters without a boundary: a hard cut at 1000, then the last 150 characters. */
  lemma NoBoundaryExample(text: string)
    requires |text| == 1050
    requires forall p :: !IsBoundary(text, p)
    ensures Chunks(text, 0) == Some([text[..1000], text[900..]])
  {
    forall p | 0 < p <= MaxChunkSize
      ensures !BoundaryAt(text, p)
    {
      BoundaryAtAgrees(text, p);
    }
    ScanBackNone(text, 0, MaxChunkSize);
    LoopStepInside(text, 0);
    LoopStepInside(text, 900);
    assert Cut(text, 0) == 1000;
    assert text[0..1000] == text[..1000];
    assert Chunks(text, 900) == Some([text[900..]]);
    assert LoopStep(text, 0) == Continue(text[..1000], 900);
    assert Chunks(text, 0) == Some([text[..1000]] + [text[900..]]);
    assert [text[..1000]] + [text[900..]] == [text[..1000], text[900..]];
  }

  // ---------------------------------------------------------------------------
  // When the loop does not advance

  /** A cut within the overlap of the cursor sends the cursor back: `Chunks` gives up. */
  lemma StallNoProgress(text: string, start: int)
    requires start < |text| && start + MaxChunkSize < |text|
    requires Cut(text, start) <= start + OverlapSize
    ensures NextStart(text, start) <= start
    ensures Chunks(text, start) == None
  {
  }

  /** A cursor the loop maps to itself is kept for ever: the loop never exits. */
  lemma {:induction false} FixpointLoopsForever(text: string, start: int, c: string, n: nat)
    requires LoopStep(text, start) == Continue(c, start)
    ensures Iterate(text, start, n) == Some(start)
    decreases n
  {
    if n > 0 {
      FixpointLoopsForever(text, start, c, n - 1);
    }
  }

  /**
   * Every stall is a fixpoint: when a window is cut within the overlap, the
   * cursor steps back to `Cut - OverlapSize`, the scan from there finds the same
   * cut again, and the cursor stays where it is for any number of passes.
   */
  lemma StallIsFixpoint(text: string, start: int)
    requires start + MaxChunkSize < |text|
    requires Cut(text, start) <= start + OverlapSize
    ensures var s := NextStart(text, start);
      && LoopStep(text, s) == Continue(JsSlice(text, s, Cut(text, start)), s)
      && forall n: nat :: Iterate(text, s, n) == Some(s)
  {
    var c := Cut(text, start);
    var s := NextStart(text, start);
    ScanBackSpec(text, start, start + MaxChunkSize);
    assert ScanBack(text, start, start + MaxChunkSize) == c;
    forall p | c < p <= s + MaxChunkSize
      ensures !BoundaryAt(text, p)
    {
      assert p <= start + MaxChunkSize;
    }
    ScanBackFinds(text, s, s + MaxChunkSize, c);
    assert Cut(text, s) == c;
    forall n: nat
      ensures Iterate(text, s, n) == Some(s)
    {
      FixpointLoopsForever(text, s, JsSlice(text, s, c), n);
    }
  }

  lemma HiOnlyBoundary(xs: string, p: int)
    requires forall i :: 0 <= i < |xs| ==> xs[i] == 'x'
    requires 3 <= p && p + 1 <= 4 + |xs|
    ensures BoundaryAt("Hi. " + xs, p) <==> p == 3
  {
    var text := "Hi. " + xs;
    BoundaryAtAgrees(text, p);
    if p == 3 {
      assert text[2] == '.' && text[3] == ' ';
    } else {
      assert p == 4 || text[p - 1] == xs[p - 5];
    }
  }

  /**
   * "Hi. " followed by 1200 characters without a sentence end: the first cut is
   * at 3, the cursor moves to -97, and from there the scan finds the same cut
   * again, so every further pass pushes the empty `text.slice(-97, 3)` and
   * leaves the cursor at -97.
   */
  lemma StallExample(xs: string)
    requires |xs| == 1200 && forall i :: 0 <= i < |xs| ==> xs[i] == 'x'
    ensures NextStart("Hi. " + xs, 0) == -97
    ensures LoopStep("Hi. " + xs, -97) == Continue("", -97)
    ensures Chunks("Hi. " + xs, 0) == None
    ensures forall n: nat :: Iterate("Hi. " + xs, -97, n) == Some(-97)
  {
    var text := "Hi. " + xs;
    forall p | 3 <= p <= MaxChunkSize
      ensures BoundaryAt(text, p) <==> p == 3
    {
      HiOnlyBoundary(xs, p);
    }
    ScanBackFinds(text, 0, MaxChunkSize, 3);
    ScanBackFinds(text, -97, 903, 3);
    assert JsSlice(text, -97, 3) == "";
    forall n: nat
      ensures Iterate(text, -97, n) == Some(-97)
    {
      FixpointLoopsForever(text, -97, "", n);
    }
  }
}
