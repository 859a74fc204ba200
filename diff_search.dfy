// The edit graph of the O(NP) comparison (Wu, Manber, Myers): snakes, the
// paths they form and the state of the search kept in fp, path and
// pathCordinates, with the facts each diagonal of a round preserves.
module DiffSearch {

  /** `P`: a point (x, y) of the edit graph and the index `k` of the record of
    * the point the snake started from (-1 for the start at the origin). */
  datatype Point = Point(x: int, y: int, k: int)

  // ---------------------------------------------------------------------
  // Edit-graph geometry over the pair (A, B) being searched (A the shorter).
  // ---------------------------------------------------------------------

  /** A diagonal run of `len` matching lines from (x0, y0). */
  ghost predicate Run(A: seq<string>, B: seq<string>, x0: int, y0: int, len: int)
  {
    0 <= x0 && 0 <= y0 && 0 <= len && x0 + len <= |A| && y0 + len <= |B| &&
    forall i | x0 <= i < x0 + len :: A[i] == B[i - x0 + y0]
  }

  /** The snake on diagonal k that ended at row y cannot slide further. */
  ghost predicate Stuck(A: seq<string>, B: seq<string>, k: int, y: int)
  {
    !(0 <= y - k < |A| && 0 <= y < |B| && A[y - k] == B[y])
  }

  /** `c` ends the snake that starts at the origin. */
  ghost predicate Origin(A: seq<string>, B: seq<string>, c: Point)
  {
    c.x == c.y && Run(A, B, 0, 0, c.x)
  }

  /** `c` ends a snake that starts one inserted line below `prev`. */
  ghost predicate AddStep(A: seq<string>, B: seq<string>, prev: Point, c: Point)
  {
    c.y - c.x == prev.y - prev.x + 1 && c.x >= prev.x && Run(A, B, prev.x, prev.y + 1, c.x - prev.x)
  }

  /** `c` ends a snake that starts one deleted line right of `prev`. */
  ghost predicate DeleteStep(A: seq<string>, B: seq<string>, prev: Point, c: Point)
  {
    c.y - c.x == prev.y - prev.x - 1 && c.x >= prev.x + 1 && Run(A, B, prev.x + 1, prev.y, c.x - prev.x - 1)
  }

  ghost predicate Step(A: seq<string>, B: seq<string>, prev: Point, c: Point)
  {
    AddStep(A, B, prev, c) || DeleteStep(A, B, prev, c)
  }

  /** The snake start (x0, y0) is one edit away from `prev`. */
  predicate OneStep(prev: Point, x0: int, y0: int)
  {
    (x0 == prev.x && y0 == prev.y + 1) || (x0 == prev.x + 1 && y0 == prev.y)
  }

  /** A path read back from the terminal point: v[0] is the terminal point,
    * the last element ends the snake from the origin and each element is one
    * edit plus a snake away from the element after it. */
  ghost predicate Chain(A: seq<string>, B: seq<string>, v: seq<Point>)
  {
    |v| >= 1 && Origin(A, B, v[|v| - 1]) &&
    forall i | 0 <= i < |v| - 1 :: Step(A, B, v[i + 1], v[i])
  }

  function Max(a: int, b: int): int
  {
    if a < b then b else a
  }

  lemma MulMono(a: nat, b: nat, c: nat, d: nat)
    requires a <= c && b <= d
    ensures a * b <= c * d
  {
    assert a * b <= c * b;
    assert c * b <= c * d;
  }

  /** The snapshot of one search: the pair being compared, fp (furthest
    * reaching y per diagonal slot), path (record index per diagonal slot) and
    * the records. Diagonal k lives in slot k + |A| + 1. */
  datatype Search = Search(A: seq<string>, B: seq<string>, fp: seq<int>, path: seq<int>, pc: seq<Point>)
  {
    function Delta(): int
    {
      |B| - |A|
    }

    function D(k: int): int
    {
      k + |A| + 1
    }

    ghost predicate Arrays()
    {
      |A| <= |B| && |fp| == |A| + |B| + 3 && |fp| <= |path|
    }

    /** Slot d holds a point reached by this search. */
    ghost predicate Reached(d: int)
    {
      0 <= d < |fp| && d < |path| &&
      0 <= fp[d] <= |B| && 0 <= fp[d] - (d - |A| - 1) <= |A| &&
      0 <= path[d] < |pc| && pc[path[d]].x == fp[d] - (d - |A| - 1) && pc[path[d]].y == fp[d]
    }

    ghost predicate Unvisited(d: int)
    {
      0 <= d < |fp| && d < |path| && fp[d] == -1 && path[d] == -1
    }

    /** Exactly the slots lo..hi have been reached. */
    ghost predicate Frontier(lo: int, hi: int)
    {
      |fp| <= |path| &&
      forall d | 0 <= d < |fp| :: if lo <= d <= hi then Reached(d) else Unvisited(d)
    }

    /** x = fp[d] - (d - offset) does not decrease from one slot of lo..hi
      * to the next (MonoXSorted gives every pair). */
    ghost predicate MonoX(lo: int, hi: int)
    {
      forall d | 0 <= lo <= d < hi < |fp| :: fp[d] - d <= fp[d + 1] - (d + 1)
    }

    /** y = fp[d] does not increase from one slot of lo..hi to the next. */
    ghost predicate MonoY(lo: int, hi: int)
    {
      forall d | 0 <= lo <= d < hi < |fp| :: fp[d] >= fp[d + 1]
    }

    /** The points of an unfinished round: below the terminal diagonal x < M,
      * above it y < N. */
    ghost predicate OldBounds(lo: int, hi: int)
    {
      forall d | 0 <= lo <= d <= hi < |fp| ::
        (d <= D(Delta()) ==> fp[d] - (d - |A| - 1) < |A|) && (d >= D(Delta()) ==> fp[d] < |B|)
    }

    ghost predicate CoordOk(i: int)
      requires 0 <= i < |pc|
    {
      if pc[i].k == -1 then Origin(A, B, pc[i])
      else 0 <= pc[i].k < i && Step(A, B, pc[pc[i].k], pc[i])
    }

    ghost predicate CoordsOk()
    {
      forall i | 0 <= i < |pc| :: CoordOk(i)
    }

    /** The record a snake on diagonal k links back to. */
    function Pred(k: int, above: int, below: int): int
      requires 0 <= D(k) - 1 && D(k) + 1 < |path|
    {
      if above > below then path[D(k) - 1] else path[D(k) + 1]
    }

    /** What snake(k, above, below) needs: its start point lies in the grid and
      * is the origin or one edit away from the record it links back to. */
    /** Diagonal k can be snaked: its neighbour slots are in range and the
      * snake's start continues the record it links back to. */
    ghost predicate CanSnake(k: int)
    {
      Arrays() && CoordsOk() && 1 <= D(k) && D(k) + 1 < |fp| &&
      SnakeStart(k, fp[D(k) - 1] + 1, fp[D(k) + 1])
    }

    /** t is this search after the snake on diagonal k ended at row y and
      * was recorded with link r; y is at least where the snake started. */
    ghost predicate Snaked(t: Search, k: int, y: int, r: int)
    {
      1 <= D(k) && D(k) + 1 < |fp| && D(k) + 1 < |path| &&
      t == this.(fp := fp[D(k) := y], path := path[D(k) := |pc|], pc := pc + [Point(y - k, y, r)]) &&
      Max(fp[D(k) - 1] + 1, fp[D(k) + 1]) <= y <= |B| && 0 <= y - k <= |A| && t.CoordsOk()
    }

    ghost predicate SnakeStart(k: int, above: int, below: int)
    {
      0 <= D(k) - 1 && D(k) + 1 < |path| &&
      var y0 := Max(above, below);
      var r := Pred(k, above, below);
      0 <= y0 - k <= |A| && 0 <= y0 <= |B| &&
      ((r == -1 && y0 - k == 0 && y0 == 0) || (0 <= r < |pc| && OneStep(pc[r], y0 - k, y0)))
    }

    /** State before round p: rounds 0..p-1 reached diagonals -(p-1)..delta+(p-1)
      * without reaching (M, N). */
    ghost predicate RoundStart(p: int)
    {
      Arrays() && CoordsOk() && 0 <= p <= |A| && |pc| == Area(p, Delta()) &&
      Frontier(D(-p) + 1, if p == 0 then D(-1) else D(Delta() + p - 1)) &&
      (p >= 1 ==> OldBounds(D(-p) + 1, D(Delta() + p - 1)))
    }

    /** State after round p: diagonals -p..delta+p reached, x increasing up to
      * the terminal diagonal and y decreasing after it. */
    /** On identical sequences the search ends in round 0 at (M, N). */
    ghost predicate SameDone(p: int)
    {
      A == B ==> p == 0 && 0 <= D(Delta()) < |fp| && fp[D(Delta())] == |B|
    }

    ghost predicate RoundEnd(p: int)
    {
      Arrays() && CoordsOk() && 0 <= p <= |A| && |pc| == Area(p + 1, Delta()) &&
      Frontier(D(-p), D(Delta() + p)) &&
      MonoX(D(-p), D(Delta())) && MonoY(D(Delta()), D(Delta() + p))
    }

    function FwdLo(p: int, k: int): int
    {
      D(-p) + (if k == -p then 1 else 0)
    }

    function FwdHi(p: int, k: int): int
    {
      if p == 0 then D(k - 1) else D(Delta() + p - 1)
    }

    /** The forward loop of round p, before diagonal k. */
    ghost predicate Forward(p: int, k: int)
    {
      Arrays() && CoordsOk() && 0 <= p <= |A| && -p <= k <= Delta() &&
      |pc| == Area(p, Delta()) + (k + p) &&
      Frontier(FwdLo(p, k), FwdHi(p, k)) &&
      MonoX(D(-p), D(k - 1)) &&
      (p >= 1 ==> OldBounds(D(k) + (if k == -p then 1 else 0), D(Delta() + p - 1)))
    }

    /** The backward loop of round p, before diagonal k. */
    ghost predicate Backward(p: int, k: int)
    {
      Arrays() && CoordsOk() && 0 <= p <= |A| && Delta() <= k <= Delta() + p &&
      |pc| == Area(p, Delta()) + (Delta() + p) + (Delta() + p - k) &&
      Frontier(FwdLo(p, Delta()), if k == Delta() + p then FwdHi(p, Delta()) else D(Delta() + p)) &&
      MonoX(D(-p), D(Delta() - 1)) &&
      OldBounds(D(Delta()), if k == Delta() + p then D(k - 1) else D(k)) &&
      MonoY(D(k + 1), D(Delta() + p))
    }
  }

  /** Recording snake's point for diagonal k in slot D(k) keeps every other
    * slot and adds D(k) to the reached range. */
  lemma FrontierGrow(s: Search, t: Search, k: int, y: int, r: int, lo: int, hi: int, lo': int, hi': int)
    requires s.Frontier(lo, hi) && 0 <= s.D(k) < |s.fp|
    requires t == s.(fp := s.fp[s.D(k) := y], path := s.path[s.D(k) := |s.pc|], pc := s.pc + [Point(y - k, y, r)])
    requires 0 <= y <= |s.B| && 0 <= y - k <= |s.A|
    requires var d := s.D(k);
      (lo' == lo && hi' == hi && lo <= d <= hi) ||
      (lo' == lo && hi' == d && d == hi + 1 && lo <= d) ||
      (lo' == d && d == lo - 1 && hi' == hi && d <= hi) ||
      (lo' == d && hi' == d && lo > hi)
    ensures t.Frontier(lo', hi')
  {
    forall d | 0 <= d < |t.fp| ensures if lo' <= d <= hi' then t.Reached(d) else t.Unvisited(d) {
      if d != s.D(k) {
        if lo <= d <= hi {
          assert s.Reached(d);
        } else {
          assert s.Unvisited(d);
        }
      }
    }
  }

  lemma CoordsGrow(s: Search, c: Point)
    requires s.CoordsOk()
    requires c.k == -1 ==> Origin(s.A, s.B, c)
    requires c.k != -1 ==> 0 <= c.k < |s.pc| && Step(s.A, s.B, s.pc[c.k], c)
    ensures s.(pc := s.pc + [c]).CoordsOk()
  {
    var t := s.(pc := s.pc + [c]);
    forall i | 0 <= i < |t.pc| ensures t.CoordOk(i) {
      if i < |s.pc| {
        assert s.CoordOk(i);
      }
    }
  }

  /** The point snake records continues the record it links back to. */
  lemma SnakeLink(s: Search, k: int, above: int, below: int, y: int)
    requires s.CoordsOk() && s.SnakeStart(k, above, below)
    requires Run(s.A, s.B, Max(above, below) - k, Max(above, below), y - Max(above, below))
    ensures s.(pc := s.pc + [Point(y - k, y, s.Pred(k, above, below))]).CoordsOk()
  {
    var r := s.Pred(k, above, below);
    var c := Point(y - k, y, r);
    if r != -1 {
      assert AddStep(s.A, s.B, s.pc[r], c) || DeleteStep(s.A, s.B, s.pc[r], c);
    }
    CoordsGrow(s, c);
  }

  lemma CoordsKeep(s: Search, fp': seq<int>, path': seq<int>)
    requires s.CoordsOk()
    ensures s.(fp := fp', path := path').CoordsOk()
  {
    var t := s.(fp := fp', path := path');
    forall i | 0 <= i < |t.pc| ensures t.CoordOk(i) {
      assert s.CoordOk(i);
    }
  }

  lemma MonoXGrow(s: Search, t: Search, lo: int, hi: int, d: int, y: int, lo': int, hi': int)
    requires 0 <= lo <= d < |s.fp| && t.fp == s.fp[d := y]
    requires s.MonoX(lo, hi) && hi == d - 1 && lo' == lo && hi' == d
    requires lo <= d - 1 ==> s.fp[d - 1] - (d - 1) <= y - d
    ensures t.MonoX(lo', hi')
  {
    forall e | 0 <= lo <= e < d < |t.fp| ensures t.fp[e] - e <= t.fp[e + 1] - (e + 1) {
      if e + 1 < d {
        assert s.fp[e] - e <= s.fp[e + 1] - (e + 1);
      }
    }
  }

  lemma MonoXKeep(s: Search, t: Search, lo: int, hi: int, d: int, y: int)
    requires s.MonoX(lo, hi) && (d < lo || d > hi) && 0 <= d < |s.fp| && t.fp == s.fp[d := y]
    ensures t.MonoX(lo, hi)
  {
    forall e | 0 <= lo <= e < hi < |t.fp| ensures t.fp[e] - e <= t.fp[e + 1] - (e + 1) {
      assert t.fp[e] == s.fp[e] && t.fp[e + 1] == s.fp[e + 1];
      assert s.fp[e] - e <= s.fp[e + 1] - (e + 1);
    }
  }

  lemma MonoYGrow(s: Search, t: Search, lo: int, hi: int, d: int, y: int, lo': int, hi': int)
    requires 0 <= d < |s.fp| && t.fp == s.fp[d := y]
    requires 0 <= d <= hi < |s.fp| || (0 <= d < |s.fp| && hi < d)
    requires s.MonoY(lo, hi) && lo == d + 1 && lo' == d && hi' == hi
    requires d + 1 <= hi ==> y >= s.fp[d + 1]
    ensures t.MonoY(lo', hi')
  {
    forall e | 0 <= d <= e < hi < |t.fp| ensures t.fp[e] >= t.fp[e + 1] {
      if d < e {
        assert s.fp[e] >= s.fp[e + 1];
      }
    }
  }

  /** Step-wise monotone x means x never decreases over lo..hi. */
  lemma {:induction false} MonoXSorted(s: Search, lo: int, hi: int, d1: int, d2: int)
    requires s.MonoX(lo, hi) && 0 <= lo <= d1 <= d2 <= hi < |s.fp|
    ensures s.fp[d1] - d1 <= s.fp[d2] - d2
    decreases d2 - d1
  {
    if d1 < d2 {
      MonoXSorted(s, lo, hi, d1 + 1, d2);
      assert s.fp[d1] - d1 <= s.fp[d1 + 1] - (d1 + 1);
    }
  }

  /** Step-wise monotone y means y never increases over lo..hi. */
  lemma {:induction false} MonoYSorted(s: Search, lo: int, hi: int, d1: int, d2: int)
    requires s.MonoY(lo, hi) && 0 <= lo <= d1 <= d2 <= hi < |s.fp|
    ensures s.fp[d1] >= s.fp[d2]
    decreases d2 - d1
  {
    if d1 < d2 {
      MonoYSorted(s, lo, hi, d1 + 1, d2);
      assert s.fp[d1] >= s.fp[d1 + 1];
    }
  }

  lemma OldBoundsShrink(s: Search, t: Search, lo: int, hi: int, d: int, y: int, lo': int, hi': int)
    requires s.OldBounds(lo, hi) && 0 <= d < |s.fp| && 0 <= lo && hi < |s.fp|
    requires t.A == s.A && t.B == s.B && t.fp == s.fp[d := y]
    requires lo <= lo' && hi' <= hi && (d < lo' || d > hi')
    ensures t.OldBounds(lo', hi')
  {
    forall e | 0 <= lo' <= e <= hi' < |t.fp|
      ensures (e <= t.D(t.Delta()) ==> t.fp[e] - (e - |t.A| - 1) < |t.A|) && (e >= t.D(t.Delta()) ==> t.fp[e] < |t.B|)
    {
      assert t.fp[e] == s.fp[e];
      assert (e <= s.D(s.Delta()) ==> s.fp[e] - (e - |s.A| - 1) < |s.A|) && (e >= s.D(s.Delta()) ==> s.fp[e] < |s.B|);
    }
  }

  /** After round p the terminal diagonal reached x >= p, since diagonal -p
    * needs p deletions. */
  lemma TerminalProgress(s: Search, p: int)
    requires s.RoundEnd(p)
    ensures s.fp[s.D(s.Delta())] - s.Delta() >= p
    ensures s.fp[s.D(s.Delta())] <= |s.B|
  {
    assert s.Reached(s.D(-p));
    assert s.Reached(s.D(s.Delta()));
    MonoXSorted(s, s.D(-p), s.D(s.Delta()), s.D(-p), s.D(s.Delta()));
  }

  /** An unfinished round p starts round p + 1 with p + 1 <= M. */
  lemma NextRound(s: Search, p: int)
    requires s.RoundEnd(p) && s.fp[s.D(s.Delta())] != |s.B|
    ensures p + 1 <= |s.A| && s.RoundStart(p + 1)
  {
    TerminalProgress(s, p);
    var dD := s.D(s.Delta());
    assert s.Reached(dD);
    forall d | 0 <= s.D(-p) <= d <= s.D(s.Delta() + p) < |s.fp|
      ensures (d <= dD ==> s.fp[d] - (d - |s.A| - 1) < |s.A|) && (d >= dD ==> s.fp[d] < |s.B|)
    {
      if d <= dD {
        MonoXSorted(s, s.D(-p), dD, d, dD);
      } else {
        MonoYSorted(s, dD, s.D(s.Delta() + p), dD, d);
      }
    }
    assert s.D(-(p + 1)) + 1 == s.D(-p);
  }

  /** The number of points recorded by rounds 0..p-1 on a pair whose lengths
    * differ by delta: round q records delta + 2q + 1 points. */
  function Area(p: int, delta: int): int
    decreases p
  {
    if p <= 0 then 0 else Area(p - 1, delta) + delta + 2 * p - 1
  }

  lemma {:induction false} AreaIs(p: nat, delta: int)
    ensures Area(p, delta) == p * (delta + p)
  {
    if p > 0 {
      AreaIs(p - 1, delta);
    }
  }

  /** Points recorded for round p when it stops on the cap without reaching
    * (M, N) number at most M * N. */
  lemma CapNeedsLargeInput(s: Search, p: int)
    requires s.RoundEnd(p) && s.fp[s.D(s.Delta())] != |s.B|
    ensures |s.pc| <= |s.A| * |s.B|
  {
    TerminalProgress(s, p);
    assert s.Reached(s.D(s.Delta()));
    assert p + 1 <= |s.A|;
    AreaIs(p + 1, s.Delta());
    MulMono(p + 1, s.Delta() + p + 1, |s.A|, |s.B|);
  }

  /** A search whose slots are all unvisited and which has no records is
    * ready for round 0. */
  lemma FirstRound(s: Search)
    requires s.Arrays() && s.pc == []
    requires forall d | 0 <= d < |s.fp| :: s.fp[d] == -1
    requires forall d | 0 <= d < |s.path| :: s.path[d] == -1
    ensures s.RoundStart(0)
  {
    assert s.Frontier(s.D(0) + 1, s.D(-1));
  }

  /** A round that stopped short of (M, N) with more than one record ended
    * away from the origin. */
  lemma RestartMoves(s: Search, p: int)
    requires s.RoundEnd(p)
    ensures |s.pc| > 1 ==> s.fp[s.D(s.Delta())] - s.Delta() + s.fp[s.D(s.Delta())] >= 1
  {
    TerminalProgress(s, p);
    assert s.Reached(s.D(s.Delta()));
    if s.Delta() == 0 && p == 0 {
      assert |s.pc| == 1;
    }
  }

  // ---------------------------------------------------------------------
  // The per-diagonal steps of a round, as lemmas over the search snapshot.
  // ---------------------------------------------------------------------

  lemma ForwardStart(s: Search, p: int, k: int)
    requires s.Forward(p, k) && k <= s.Delta() - 1
    ensures s.CanSnake(k)
  {
    var lo, hi := s.FwdLo(p, k), s.FwdHi(p, k);
    var above, below := s.fp[s.D(k) - 1] + 1, s.fp[s.D(k) + 1];
    if k == -p {
      assert s.Unvisited(s.D(k) - 1);
    } else {
      assert s.Reached(s.D(k) - 1);
    }
    if p == 0 {
      assert s.Unvisited(s.D(k) + 1);
    } else {
      assert s.Reached(s.D(k) + 1);
    }
  }

  lemma ForwardStep(s: Search, t: Search, p: int, k: int, y: int, r: int, next: int)
    requires s.Forward(p, k) && k <= s.Delta() - 1
    requires s.Snaked(t, k, y, r) && next == k + 1
    ensures t.Forward(p, next)
  {
    var d := s.D(k);
    if p == 0 && k == 0 {
      assert s.FwdLo(p, k) > s.FwdHi(p, k) && s.FwdLo(p, k + 1) == d && s.FwdHi(p, k + 1) == d;
    } else if p == 0 {
      assert s.FwdLo(p, k + 1) == s.FwdLo(p, k) <= d && s.FwdHi(p, k + 1) == d == s.FwdHi(p, k) + 1;
    } else if k == -p {
      assert s.FwdLo(p, k + 1) == d == s.FwdLo(p, k) - 1 && s.FwdHi(p, k + 1) == s.FwdHi(p, k) >= d;
    } else {
      assert s.FwdLo(p, k + 1) == s.FwdLo(p, k) <= d <= s.FwdHi(p, k) == s.FwdHi(p, k + 1);
    }
    if k > -p {
      assert s.Reached(d - 1);
    } else {
      assert s.Unvisited(d - 1);
    }
    assert t.A == s.A && t.B == s.B && t.fp == s.fp[d := y];
    FrontierGrow(s, t, k, y, r, s.FwdLo(p, k), s.FwdHi(p, k), t.FwdLo(p, k + 1), t.FwdHi(p, k + 1));
    MonoXGrow(s, t, s.D(-p), s.D(k - 1), d, y, t.D(-p), t.D(next - 1));
    if p >= 1 {
      OldBoundsShrink(s, t, s.D(k) + (if k == -p then 1 else 0), s.D(s.Delta() + p - 1), d, y, t.D(k + 1), t.D(t.Delta() + p - 1));
    }
  }

  lemma StartForward(s: Search, p: int)
    requires s.RoundStart(p)
    ensures s.Forward(p, -p)
  {
    assert s.FwdLo(p, -p) == s.D(-p) + 1;
  }

  /** The forward loop stops at diagonal delta. */
  lemma ForwardDone(s: Search, p: int, k: int, d: int)
    requires s.Forward(p, k) && !(k <= d - 1) && d == s.Delta()
    ensures s.Forward(p, d)
  {
  }

  /** The backward loop stops at diagonal delta. */
  lemma BackwardDone(s: Search, p: int, k: int, d: int)
    requires s.Backward(p, k) && !(k >= d + 1) && d == s.Delta()
    ensures s.Backward(p, d)
  {
  }

  lemma ForwardToBackward(s: Search, p: int, d: int, k: int)
    requires d == s.Delta() && s.Forward(p, d) && k == d + p
    ensures s.Backward(p, k)
  {
  }

  lemma BackwardStart(s: Search, p: int, k: int)
    requires s.Backward(p, k) && k >= s.Delta() + 1
    ensures s.CanSnake(k)
  {
    assert s.Reached(s.D(k) - 1);
    if k == s.Delta() + p {
      assert s.Unvisited(s.D(k) + 1);
    } else {
      assert s.Reached(s.D(k) + 1);
    }
  }

  lemma BackwardStep(s: Search, t: Search, p: int, k: int, y: int, r: int, next: int)
    requires s.Backward(p, k) && k >= s.Delta() + 1
    requires s.Snaked(t, k, y, r) && next == k - 1
    ensures t.Backward(p, next)
  {
    var d := s.D(k);
    var dl := s.Delta();
    assert t.A == s.A && t.B == s.B && t.fp == s.fp[d := y];
    FrontierGrow(s, t, k, y, r, s.FwdLo(p, dl), if k == dl + p then s.FwdHi(p, dl) else s.D(dl + p),
                 t.FwdLo(p, t.Delta()), t.D(t.Delta() + p));
    MonoXKeep(s, t, t.D(-p), t.D(t.Delta() - 1), d, y);
    OldBoundsShrink(s, t, s.D(dl), if k == dl + p then s.D(k - 1) else s.D(k), d, y, t.D(t.Delta()), t.D(k - 1));
    if k < dl + p {
      assert s.Reached(d + 1);
    }
    MonoYGrow(s, t, s.D(k + 1), s.D(s.Delta() + p), d, y, t.D(next + 1), t.D(t.Delta() + p));
    assert t.Arrays() && t.Delta() == dl;
    assert |t.pc| == Area(p, t.Delta()) + (t.Delta() + p) + (t.Delta() + p - (k - 1));
    assert t.Frontier(t.FwdLo(p, t.Delta()), if k - 1 == t.Delta() + p then t.FwdHi(p, t.Delta()) else t.D(t.Delta() + p));
    assert t.OldBounds(t.D(t.Delta()), if k - 1 == t.Delta() + p then t.D(k - 1 - 1) else t.D(k - 1));
  }

  lemma FinalStart(s: Search, p: int, k: int)
    requires k == s.Delta() && s.Backward(p, k)
    ensures s.CanSnake(k)
  {
    var dl := s.Delta();
    if p == 0 && dl == 0 {
      assert s.Unvisited(s.D(dl) - 1);
    } else {
      assert s.Reached(s.D(dl) - 1);
    }
    if p == 0 {
      assert s.Unvisited(s.D(dl) + 1);
    } else {
      assert s.Reached(s.D(dl) + 1);
    }
  }

  lemma FinalStep(s: Search, t: Search, p: int, k: int, y: int, r: int)
    requires k == s.Delta() && s.Backward(p, k)
    requires s.Snaked(t, k, y, r)
    ensures t.RoundEnd(p)
  {
    var d := s.D(k);
    assert t.A == s.A && t.B == s.B && t.fp == s.fp[d := y] && t.Delta() == k;
    assert t.Frontier(t.D(-p), t.D(t.Delta() + p)) by {
      FrontierGrow(s, t, k, y, r, s.FwdLo(p, k), if p == 0 then s.FwdHi(p, k) else s.D(k + p), t.D(-p), t.D(t.Delta() + p));
    }
    assert t.MonoX(t.D(-p), t.D(t.Delta())) by {
      if p + k >= 1 {
        assert s.Reached(d - 1);
      }
      MonoXGrow(s, t, s.D(-p), s.D(s.Delta() - 1), d, y, t.D(-p), t.D(t.Delta()));
    }
    assert t.MonoY(t.D(t.Delta()), t.D(t.Delta() + p)) by {
      if p >= 1 {
        assert s.Reached(d + 1);
      }
      MonoYGrow(s, t, s.D(k + 1), s.D(s.Delta() + p), d, y, t.D(t.Delta()), t.D(t.Delta() + p));
    }
    assert Area(p + 1, k) == Area(p, k) + k + 2 * (p + 1) - 1;
    assert t.Arrays() && t.CoordsOk() && |t.pc| == Area(p + 1, t.Delta());
  }

  /** Round 0 on identical sequences: the terminal diagonal is diagonal 0,
    * whose snake from the origin slides to (M, N). */
  lemma FinalSame(s: Search, t: Search, k: int, y: int, r: int)
    requires k == s.Delta() && s.Snaked(t, k, y, r) && Stuck(s.A, s.B, k, y)
    ensures t.SameDone(0)
  {
  }

  /** A round that did not reach (M, N) rules out identical sequences. */
  lemma NotSame(s: Search, p: int)
    requires s.SameDone(p) && 0 <= s.D(s.Delta()) < |s.fp| && s.fp[s.D(s.Delta())] != |s.B|
    ensures s.A != s.B
  {
  }
}
