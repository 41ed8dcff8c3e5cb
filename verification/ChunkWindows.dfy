/**
 Greedy packing of text blocks into overlapping chunks (ingest.py:472-503), over token counts alone: `t` counts a block
 when it is packed, `u` counts it again when it is kept for the overlap. The two differ for blocks built word by word.
 */
module ChunkWindows {
  const MAX_TOKENS: nat := 512
  const OVERLAP_TOKENS: nat := 64

  /** The blocks of one chunk; `alone` when it was emitted for a block that could not follow anything. */
  datatype Window = Window(start: nat, end: nat, alone: bool)

  function Sum(x: seq<nat>, a: nat, b: nat): nat
    requires b <= |x|
    decreases b - a
  {
    if a >= b then 0 else x[a] + Sum(x, a + 1, b)
  }

  lemma {:induction false} SumSplit(x: seq<nat>, a: nat, m: nat, b: nat)
    requires a <= m <= b <= |x|
    ensures Sum(x, a, b) == Sum(x, a, m) + Sum(x, m, b)
    decreases m - a
  {
    if a < m {
      SumSplit(x, a + 1, m, b);
    }
  }

  /** Where the previous window ended. */
  function PrevEnd(ws: seq<Window>, k: nat): nat
    requires k <= |ws|
  {
    if k == 0 then 0 else ws[k - 1].end
  }

  /** Nothing is carried over into window k. */
  predicate Clean(ws: seq<Window>, k: nat)
    requires k <= |ws|
  {
    k == 0 || ws[k - 1].alone
  }

  /** The token count a window is packed by: its overlap counted anew, its own blocks as tracked. */
  function Tracked(t: seq<nat>, u: seq<nat>, start: nat, mid: nat, end: nat): nat
    requires |t| == |u| && start <= mid <= end <= |t|
  {
    Sum(u, start, mid) + Sum(t, mid, end)
  }

  /** The longest run of whole blocks before the cut that fits the overlap. */
  predicate LongestOverlap(u: seq<nat>, low: nat, cut: nat, start: nat)
    requires cut <= |u|
  {
    low <= start <= cut && Sum(u, start, cut) <= OVERLAP_TOKENS && (low < start ==> Sum(u, start - 1, cut) > OVERLAP_TOKENS)
  }

  /** Blocks fit one by one, save the first, which is never refused. */
  predicate Fits(t: seq<nat>, u: seq<nat>, start: nat, mid: nat, end: nat)
    requires |t| == |u| && start <= mid <= end <= |t|
  {
    forall e | mid < e < end :: Tracked(t, u, start, mid, e) + t[e] <= MAX_TOKENS
  }

  /** Where a window starts, given the one before it. */
  predicate Follows(u: seq<nat>, ws: seq<Window>, k: nat, start: nat)
    requires k <= |ws| && forall j | 0 <= j < k :: ws[j].end <= |u|
  {
    if k == 0 then start == 0
    else if ws[k - 1].alone then start == ws[k - 1].end
    else LongestOverlap(u, ws[k - 1].start, ws[k - 1].end, start)
  }

  predicate Shaped(t: seq<nat>, u: seq<nat>, ws: seq<Window>) {
    |t| == |u| && forall k | 0 <= k < |ws| :: ws[k].start <= PrevEnd(ws, k) < ws[k].end <= |t|
  }

  /** One window of the greedy packing, cut only where the next block no longer fits. */
  predicate Greedy(t: seq<nat>, u: seq<nat>, ws: seq<Window>, k: nat)
    requires Shaped(t, u, ws) && k < |ws|
  {
    var (w, mid) := (ws[k], PrevEnd(ws, k));
    && Follows(u, ws, k, w.start) && Fits(t, u, w.start, mid, w.end)
    && (w.end < |t| ==> Tracked(t, u, w.start, mid, w.end) + t[w.end] > MAX_TOKENS)
    && (w.alone <==> Clean(ws, k) && t[mid] > MAX_TOKENS)
  }

  predicate Packing(t: seq<nat>, u: seq<nat>, ws: seq<Window>) {
    Shaped(t, u, ws) && forall k | 0 <= k < |ws| :: Greedy(t, u, ws, k)
  }

  /** All blocks are packed. */
  predicate Complete(t: seq<nat>, u: seq<nat>, ws: seq<Window>) { Packing(t, u, ws) && PrevEnd(ws, |ws|) == |t| }

  // ---------------------------------------------------------------- what a packing guarantees

  /**
   A chunk counts at most 512 tokens, or it is an overlap of at most 64 followed by one block: so at most 576, unless
   that one block alone is over 512.
   */
  lemma WindowBound(t: seq<nat>, u: seq<nat>, ws: seq<Window>, k: nat)
    requires Packing(t, u, ws) && k < |ws|
    ensures
      var (w, mid) := (ws[k], PrevEnd(ws, k));
      && (Tracked(t, u, w.start, mid, w.end) <= 512 || w.end == mid + 1)
      && Sum(u, w.start, mid) <= 64
      && (t[mid] <= 512 ==> Tracked(t, u, w.start, mid, w.end) <= 576)
  {
    var (w, mid) := (ws[k], PrevEnd(ws, k));
    assert Greedy(t, u, ws, k);
    if w.end > mid + 1 {
      SumSplit(t, mid, w.end - 1, w.end);
      assert Tracked(t, u, w.start, mid, w.end - 1) + t[w.end - 1] <= MAX_TOKENS;
      assert Sum(t, w.end - 1, w.end) == t[w.end - 1];
    } else {
      assert Sum(t, mid, w.end) == t[mid];
    }
  }

  /**
   A chunk takes blocks as long as they fit 512 tokens and is cut only before one that does not; it starts with the
   longest run of whole blocks of the chunk before it that fits 64 tokens.
   */
  lemma WindowFull(t: seq<nat>, u: seq<nat>, ws: seq<Window>, k: nat)
    requires Packing(t, u, ws) && k < |ws|
    ensures
      var (w, mid) := (ws[k], PrevEnd(ws, k));
      && (forall e | mid < e < w.end :: Tracked(t, u, w.start, mid, e) + t[e] <= 512)
      && (w.end < |t| ==> Tracked(t, u, w.start, mid, w.end) + t[w.end] > 512)
      && (w.alone <==> (k == 0 || ws[k - 1].alone) && t[mid] > 512)
    ensures
      var (low, start, cut) := (if k == 0 || ws[k - 1].alone then PrevEnd(ws, k) else ws[k - 1].start, ws[k].start, PrevEnd(ws, k));
      low <= start <= cut && Sum(u, start, cut) <= 64 && (low < start ==> Sum(u, start - 1, cut) > 64)
  {
    assert Greedy(t, u, ws, k);
  }

  /** The blocks a chunk adds to the chunks before it. */
  function Added<T>(xs: seq<T>, ws: seq<Window>): (ys: seq<T>)
    requires forall k | 0 <= k < |ws| :: PrevEnd(ws, k) <= ws[k].end <= |xs|
  {
    if ws == [] then []
    else
      var n := |ws| - 1;
      assert forall k | 0 <= k < n :: PrevEnd(ws[..n], k) == PrevEnd(ws, k);
      Added(xs, ws[..n]) + xs[PrevEnd(ws, n)..ws[n].end]
  }

  lemma PrevEndOfPrefix(ws: seq<Window>, n: nat)
    requires n <= |ws|
    ensures forall k | 0 <= k <= n :: PrevEnd(ws[..n], k) == PrevEnd(ws, k)
  {
  }

  lemma AddedLast<T>(xs: seq<T>, ws: seq<Window>, before: seq<Window>)
    requires ws != [] && before == ws[..|ws| - 1] && forall k | 0 <= k < |ws| :: PrevEnd(ws, k) <= ws[k].end <= |xs|
    ensures forall k | 0 <= k < |before| :: PrevEnd(before, k) <= before[k].end <= |xs|
    ensures Added(xs, ws) == Added(xs, before) + xs[PrevEnd(ws, |before|)..ws[|before|].end]
  {
    PrevEndOfPrefix(ws, |before|);
  }

  /** Dropping the overlaps gives back all blocks, in order, up to the last end. */
  lemma {:induction false} AddedIsAll<T>(xs: seq<T>, ws: seq<Window>)
    requires forall k | 0 <= k < |ws| :: PrevEnd(ws, k) <= ws[k].end <= |xs|
    ensures PrevEnd(ws, |ws|) <= |xs| && Added(xs, ws) == xs[..PrevEnd(ws, |ws|)]
    decreases |ws|
  {
    if ws == [] {
    } else {
      var before := ws[..|ws| - 1];
      hide PrevEnd;
      AddedLast(xs, ws, before);
      AddedIsAll(xs, before);
      LastPart(xs, ws, before, Added(xs, before));
    }
  }

  lemma LastPart<T>(xs: seq<T>, ws: seq<Window>, before: seq<Window>, ys: seq<T>)
    requires ws != [] && before == ws[..|ws| - 1] && PrevEnd(ws, |before|) <= ws[|before|].end <= |xs|
    requires PrevEnd(before, |before|) <= |xs| && ys == xs[..PrevEnd(before, |before|)]
    ensures PrevEnd(ws, |ws|) <= |xs| && ys + xs[PrevEnd(ws, |before|)..ws[|before|].end] == xs[..PrevEnd(ws, |ws|)]
  {
    PrevEndOfPrefix(ws, |before|);
  }

  lemma OverlapUnique(u: seq<nat>, low: nat, cut: nat, a: nat, b: nat)
    requires cut <= |u| && LongestOverlap(u, low, cut, a) && LongestOverlap(u, low, cut, b)
    ensures a == b
  {
    if a < b {
      SumSplit(u, a, b - 1, cut);
    } else if b < a {
      SumSplit(u, b, a - 1, cut);
    }
  }

  lemma EndUnique(t: seq<nat>, u: seq<nat>, start: nat, mid: nat, a: nat, b: nat)
    requires |t| == |u| && start <= mid < a <= |t| && mid < b <= |t|
    requires Fits(t, u, start, mid, a) && (a < |t| ==> Tracked(t, u, start, mid, a) + t[a] > MAX_TOKENS)
    requires Fits(t, u, start, mid, b) && (b < |t| ==> Tracked(t, u, start, mid, b) + t[b] > MAX_TOKENS)
    ensures a == b
  {
  }

  lemma WindowUnique(t: seq<nat>, u: seq<nat>, a: seq<Window>, b: seq<Window>, k: nat)
    requires Complete(t, u, a) && Complete(t, u, b) && k < |a| && k < |b|
    requires k > 0 ==> a[k - 1] == b[k - 1]
    ensures a[k] == b[k]
  {
    hide Fits, LongestOverlap, Tracked, Sum;
    assert Greedy(t, u, a, k) && Greedy(t, u, b, k);
    if k > 0 && !a[k - 1].alone {
      OverlapUnique(u, a[k - 1].start, a[k - 1].end, a[k].start, b[k].start);
    }
    EndUnique(t, u, a[k].start, PrevEnd(a, k), a[k].end, b[k].end);
  }

  lemma AnotherWindow(t: seq<nat>, u: seq<nat>, a: seq<Window>, b: seq<Window>, k: nat)
    requires Complete(t, u, a) && Complete(t, u, b) && k < |a| && k <= |b| && (k > 0 ==> a[k - 1] == b[k - 1])
    ensures k < |b|
  {
    hide Greedy;
    assert PrevEnd(a, k) < a[k].end <= |t|;
  }

  lemma {:induction false} PrefixUnique(t: seq<nat>, u: seq<nat>, a: seq<Window>, b: seq<Window>, n: nat)
    requires Complete(t, u, a) && Complete(t, u, b) && n <= |a|
    ensures n <= |b| && (forall k | 0 <= k < n :: a[k] == b[k])
  {
    hide *;
    if n > 0 {
      PrefixUnique(t, u, a, b, n - 1);
      AnotherWindow(t, u, a, b, n - 1);
      WindowUnique(t, u, a, b, n - 1);
    }
  }

  /** The token counts determine the chunks: any two complete packings agree. */
  lemma PackingUnique(t: seq<nat>, u: seq<nat>, a: seq<Window>, b: seq<Window>)
    requires Complete(t, u, a) && Complete(t, u, b)
    ensures a == b
  {
    PrefixUnique(t, u, a, b, |a|);
    PrefixUnique(t, u, b, a, |b|);
  }
}
