// Diff_Util: the Wu-Manber-Myers O(NP) comparison of two lists of lines
// and the recording of the edit script it finds.
module DiffUtil {
  import opened DiffSes
  import opened DiffSearch

  /** Cap on the number of recorded points; reaching it restarts the search
    * on the unconsumed suffixes. */
  const MAX_CORDINATES_SIZE: nat := 2000000

  /** The segments of a script recorded across restarts: cut j ends segment
    * j, given as how many entries, old-file lines and new-file lines were
    * consumed in total up to it. */
  datatype Cut = Cut(entries: nat, before: nat, after: nat)

  /** Segment lo..hi of `s` is a complete script of the corresponding slices
    * of `a` and `b`, numbered from 1 within the slices. */
  predicate SegmentOk(s: seq<SesElem>, a: seq<string>, b: seq<string>, lo: Cut, hi: Cut)
  {
    lo.entries <= hi.entries <= |s| && lo.before <= hi.before <= |a| && lo.after <= hi.after <= |b| &&
    ScriptUpTo(s[lo.entries..hi.entries], a[lo.before..], b[lo.after..], hi.before - lo.before, hi.after - lo.after)
  }

  /** Where segment j starts. */
  function Start(cuts: seq<Cut>, j: int): Cut
    requires j < |cuts|
  {
    if j <= 0 then Cut(0, 0, 0) else cuts[j - 1]
  }

  predicate SegmentsUpTo(s: seq<SesElem>, a: seq<string>, b: seq<string>, cuts: seq<Cut>)
  {
    forall j {:trigger Start(cuts, j)} | 0 <= j < |cuts| :: SegmentOk(s, a, b, Start(cuts, j), cuts[j])
  }

  /** `s` is made of the segments `cuts`, the last ending at the end of both files. */
  predicate Segments(s: seq<SesElem>, a: seq<string>, b: seq<string>, cuts: seq<Cut>)
  {
    |cuts| >= 1 && cuts[|cuts| - 1] == Cut(|s|, |a|, |b|) && SegmentsUpTo(s, a, b, cuts)
  }

  /** A single segment is a complete edit script. */
  lemma SingleSegment(s: seq<SesElem>, a: seq<string>, b: seq<string>, cuts: seq<Cut>)
    requires Segments(s, a, b, cuts) && |cuts| == 1
    ensures Script(s, a, b)
  {
    assert SegmentOk(s, a, b, Start(cuts, 0), cuts[0]);
    assert s[0..|s|] == s && a[0..] == a && b[0..] == b;
  }

  /** A segment of `done` is still one once more entries are appended. */
  lemma SegmentKeep(done: seq<SesElem>, seg: seq<SesElem>, a: seq<string>, b: seq<string>, lo: Cut, hi: Cut)
    requires SegmentOk(done, a, b, lo, hi)
    ensures SegmentOk(done + seg, a, b, lo, hi)
  {
    assert (done + seg)[lo.entries..hi.entries] == done[lo.entries..hi.entries];
  }

  /** The entries appended by one search form the segment after `done`. */
  lemma SegmentNew(done: seq<SesElem>, seg: seq<SesElem>, a: seq<string>, b: seq<string>, cb: nat, ca: nat, i: nat, j: nat)
    requires cb <= |a| && ca <= |b| && ScriptUpTo(seg, a[cb..], b[ca..], i, j)
    ensures SegmentOk(done + seg, a, b, Cut(|done|, cb, ca), Cut(|done| + |seg|, cb + i, ca + j))
  {
    assert (done + seg)[|done|..|done| + |seg|] == seg;
  }

  /** Appending the script of the suffixes that follow the last cut extends
    * the segmentation by one segment. */
  lemma SegmentsAppend(done: seq<SesElem>, seg: seq<SesElem>, a: seq<string>, b: seq<string>, cuts: seq<Cut>, cb: nat, ca: nat, i: nat, j: nat)
    requires SegmentsUpTo(done, a, b, cuts)
    requires |cuts| == 0 ==> done == [] && cb == 0 && ca == 0
    requires |cuts| > 0 ==> cuts[|cuts| - 1] == Cut(|done|, cb, ca)
    requires cb <= |a| && ca <= |b|
    requires ScriptUpTo(seg, a[cb..], b[ca..], i, j)
    ensures SegmentsUpTo(done + seg, a, b, cuts + [Cut(|done| + |seg|, cb + i, ca + j)])
  {
    var cs := cuts + [Cut(|done| + |seg|, cb + i, ca + j)];
    forall m | 0 <= m < |cs| ensures SegmentOk(done + seg, a, b, Start(cs, m), cs[m]) {
      if m < |cuts| {
        assert Start(cs, m) == Start(cuts, m) && cs[m] == cuts[m];
        SegmentKeep(done, seg, a, b, Start(cuts, m), cuts[m]);
      } else {
        if m > 0 {
          assert cs[m - 1] == cuts[|cuts| - 1];
        }
        SegmentNew(done, seg, a, b, cb, ca, i, j);
      }
    }
  }

  /** The log `calls` holds `calls0` followed by the segments `cuts` of a
    * script of `a` and `b`, the last ending after cb lines of `a` and ca
    * lines of `b`. */
  predicate LogOk(calls: seq<SesElem>, calls0: seq<SesElem>, a: seq<string>, b: seq<string>, cb: nat, ca: nat, cuts: seq<Cut>)
  {
    |calls| >= |calls0| && calls[..|calls0|] == calls0 && cb <= |a| && ca <= |b| &&
    SegmentsUpTo(calls[|calls0|..], a, b, cuts) &&
    (|cuts| == 0 ==> |calls| == |calls0| && cb == 0 && ca == 0) &&
    (|cuts| > 0 ==> cuts[|cuts| - 1] == Cut(|calls| - |calls0|, cb, ca))
  }

  /** The log after one more pass of compose: the entries `calls` appended
    * to `mid`, a script of the suffixes after the last cut, form the next
    * segment. */
  lemma SegmentsExtend(calls0: seq<SesElem>, mid: seq<SesElem>, calls: seq<SesElem>, a: seq<string>, b: seq<string>,
                       cuts: seq<Cut>, cb: nat, ca: nat, before: seq<string>, after: seq<string>, i: nat, j: nat,
                       cuts': seq<Cut>, cb': nat, ca': nat)
    requires LogOk(mid, calls0, a, b, cb, ca, cuts)
    requires |calls| >= |mid| && calls[..|mid|] == mid
    requires before == a[cb..] && after == b[ca..] && ScriptUpTo(calls[|mid|..], before, after, i, j)
    requires cb' == cb + i && ca' == ca + j && cuts' == cuts + [Cut(|calls| - |calls0|, cb', ca')]
    ensures LogOk(calls, calls0, a, b, cb', ca', cuts')
  {
    var done, seg := mid[|calls0|..], calls[|mid|..];
    assert calls[|calls0|..] == done + seg;
    assert calls[..|calls0|] == mid[..|calls0|];
    SegmentsAppend(done, seg, a, b, cuts, cb, ca, i, j);
  }

  /** Diff_Util: compares A and B (stored with the shorter first). */
  class DiffUtil {
    var A: seq<string>
    var B: seq<string>
    var M: nat
    var N: nat
    var delta: nat
    var offset: nat
    var fp: array<int>
    const ses: Ses
    var path: array<int>
    var pathCordinates: seq<Point>
    var swapped: bool

    ghost predicate Valid()
      reads this, ses
    {
      ses.Valid() && Dims()
    }

    /** The sizes and the diagonal offset follow the pair being compared. */
    ghost predicate Dims()
      reads this
    {
      M == |A| && N == |B| && M <= N && delta == N - M && offset == M + 1
    }

    /** The old file, whichever of A and B holds it. */
    ghost function Before(): seq<string>
      reads this
    {
      if swapped then B else A
    }

    /** The new file. */
    ghost function After(): seq<string>
      reads this
    {
      if swapped then A else B
    }

    ghost function S(): Search
      reads this, fp, path
    {
      Search(A, B, fp[..], path[..], pathCordinates)
    }

    /** Diff_Util(a, b): stores the pair and initialises it. */
    constructor (a: seq<string>, b: seq<string>)
      ensures Valid() && fresh(ses)
      ensures Before() == a && After() == b && swapped == (|a| >= |b|)
      ensures ses.calls == [] && !ses.deletesFirst
    {
      A := a;
      B := b;
      ses := new Ses(false);
      pathCordinates := [];
      new;
      Init();
    }

    /** init: puts the shorter sequence in A (swapping on a tie too). */
    method Init()
      requires ses.Valid()
      modifies this
      ensures Valid() && fresh(fp) && fp.Length == 0
      ensures old(|A|) < old(|B|) ==> A == old(A) && B == old(B) && !swapped
      ensures old(|A|) >= old(|B|) ==> A == old(B) && B == old(A) && swapped
      ensures pathCordinates == old(pathCordinates)
    {
      M := |A|;
      N := |B|;
      if M < N {
        swapped := false;
      } else {
        A, B := B, A;
        M, N := N, M;
        swapped := true;
      }
      delta := N - M;
      offset := M + 1;
      fp := new int[0];   // nullptr until compose allocates it
    }

    /** getSes */
    function GetSes(): Ses
    {
      ses
    }

    function WasSwapped(): bool
      reads this
    {
      swapped
    }

    /** snake: slides from the furthest start on diagonal k along matching
      * lines, records the end point with its back link and returns its y. */
    method Snake(k: int, above: int, below: int) returns (y: int)
      requires Dims() && fp != path && 1 <= k + offset && k + offset + 1 < path.Length
      requires 0 <= Max(above, below) - k <= M && 0 <= Max(above, below) <= N
      modifies this`pathCordinates, path
      ensures pathCordinates == old(pathCordinates) + [Point(y - k, y, old(if above > below then path[k - 1 + offset] else path[k + 1 + offset]))]
      ensures Max(above, below) <= y <= N && 0 <= y - k <= M
      ensures Run(A, B, Max(above, below) - k, Max(above, below), y - Max(above, below))
      ensures !(y - k < M && y < N && A[y - k] == B[y])
      ensures path[..] == old(path[..])[k + offset := |old(pathCordinates)|]
    {
      var r := if above > below then path[k - 1 + offset] else path[k + 1 + offset];
      y := if above < below then below else above;
      var x := y - k;
      ghost var y0 := y;
      // The source casts x and y to size_t; both are non-negative here.
      // Diff_Compare::impl is string equality, so the swapped argument order
      // of the comparison makes no difference.
      while x < M && y < N && A[x] == B[y]
        invariant y0 <= y <= N && x == y - k && 0 <= x <= M
        invariant Run(A, B, y0 - k, y0, y - y0)
        decreases N - y
      {
        x := x + 1;
        y := y + 1;
      }
      path[k + offset] := |pathCordinates|;
      pathCordinates := pathCordinates + [Point(x, y, r)];
    }

    /** fp[k + offset] = snake(k, fp[k - 1 + offset] + 1, fp[k + 1 + offset]) */
    method SnakeAt(k: int, ghost s: Search) returns (ghost y: int, ghost r: int)
      requires Dims() && fp != path && s == S() && s.CanSnake(k)
      modifies this`pathCordinates, path, fp
      ensures s.Snaked(S(), k, y, r) && Stuck(A, B, k, y)
    {
      var above, below := fp[k - 1 + offset] + 1, fp[k + 1 + offset];
      var v := Snake(k, above, below);
      fp[k + offset] := v;
      y, r := v, s.Pred(k, above, below);
      assert fp[..] == s.fp[k + offset := y];
      SnakeLink(s, k, above, below, y);
      CoordsKeep(s.(pc := pathCordinates), fp[..], path[..]);
    }

    /** Diagonal k of the first loop of round p. */
    method ForwardDiag(p: int, k: int) returns (next: int)
      requires Dims() && fp != path && S().Forward(p, k) && k <= delta - 1
      modifies this`pathCordinates, path, fp
      ensures next == k + 1 && Dims() && S().Forward(p, next)
    {
      next := k + 1;
      ghost var s := S();
      ForwardStart(s, p, k);
      ghost var y, r := SnakeAt(k, s);
      ForwardStep(s, S(), p, k, y, r, next);
    }

    /** Diagonal k of the second loop of round p. */
    method BackwardDiag(p: int, k: int) returns (next: int)
      requires Dims() && fp != path && S().Backward(p, k) && k >= delta + 1
      modifies this`pathCordinates, path, fp
      ensures next == k - 1 && Dims() && S().Backward(p, next)
    {
      next := k - 1;
      ghost var s := S();
      BackwardStart(s, p, k);
      ghost var y, r := SnakeAt(k, s);
      BackwardStep(s, S(), p, k, y, r, next);
    }

    /** The first loop of a round: diagonals -p up to delta - 1. */
    method ForwardLoop(p: int)
      requires Dims() && fp != path && S().RoundStart(p)
      modifies this`pathCordinates, path, fp
      ensures Dims() && S().Forward(p, delta)
    {
      var k: int := -p;
      StartForward(S(), p);
      while k <= delta as int - 1
        invariant Dims() && S().Forward(p, k)
        decreases delta - k
      {
        k := ForwardDiag(p, k);
      }
      ForwardDone(S(), p, k, delta);
    }

    /** The second loop of a round: diagonals delta + p down to delta + 1. */
    method BackwardLoop(p: int)
      requires Dims() && fp != path && S().Forward(p, delta)
      modifies this`pathCordinates, path, fp
      ensures Dims() && S().Backward(p, delta)
    {
      var k: int := delta + p;
      ForwardToBackward(S(), p, delta, k);
      while k >= delta as int + 1
        invariant Dims() && S().Backward(p, k)
        decreases k
      {
        k := BackwardDiag(p, k);
      }
      BackwardDone(S(), p, k, delta);
    }

    /** One round of the search: both loops, then the terminal diagonal. */
    method Round(p: int)
      requires Dims() && fp != path && S().RoundStart(p)
      modifies this`pathCordinates, path, fp
      ensures Dims() && S().RoundEnd(p)
      ensures p == 0 ==> S().SameDone(p)
    {
      ForwardLoop(p);
      BackwardLoop(p);
      FinalDiag(p);
    }

    /** The terminal diagonal of round p. */
    method FinalDiag(p: int)
      requires Dims() && fp != path && S().Backward(p, delta)
      modifies this`pathCordinates, path, fp
      ensures Dims() && S().RoundEnd(p)
      ensures p == 0 ==> S().SameDone(p)
    {
      ghost var s := S();
      FinalStart(s, p, delta);
      ghost var y, r := SnakeAt(delta, s);
      FinalStep(s, S(), p, delta, y, r);
      if p == 0 {
        FinalSame(s, S(), delta, y, r);
      }
    }

    /** The do-while loop of compose: rounds p = 0, 1, ... until the terminal
      * diagonal reaches (M, N) or the record cap is hit. */
    method ONP() returns (p: int)
      requires Dims() && fp != path && S().RoundStart(0)
      modifies this`pathCordinates, path, fp
      ensures Dims() && S().RoundEnd(p)
      ensures fp[delta + offset] == N || |pathCordinates| >= MAX_CORDINATES_SIZE
      ensures S().SameDone(p)
    {
      // The source starts from p = -1 and increments before each round.
      p := 0;
      Round(p);
      while fp[delta + offset] != N && |pathCordinates| < MAX_CORDINATES_SIZE
        invariant Dims() && fp != path && S().RoundEnd(p) && S().SameDone(p)
        decreases M - p
      {
        NotSame(S(), p);
        NextRound(S(), p);
        p := p + 1;
        Round(p);
      }
    }

    /** Reads the path back from the terminal point by following the links. */
    method ReadPath(p: int) returns (epc: seq<Point>)
      requires Valid() && S().RoundEnd(p)
      ensures Chain(A, B, epc)
      ensures epc[0].y == fp[delta + offset] && epc[0].x == fp[delta + offset] - delta
      ensures 0 <= epc[0].x <= M && 0 <= epc[0].y <= N
      ensures |pathCordinates| == 1 ==> |epc| == 1
    {
      ghost var s := S();
      assert s.Reached(s.D(delta));
      var r := path[delta + offset];
      ghost var cur := r;
      // The source leaves this point's k uninitialised; only x and y are read.
      var cordinate := Point(0, 0, 0);
      epc := [];
      while r != -1
        invariant -1 <= r < |pathCordinates|
        invariant epc == [] ==> r == path[delta + offset]
        invariant epc != [] ==> 0 <= cur < |pathCordinates| && r == pathCordinates[cur].k &&
                                epc[|epc| - 1].x == pathCordinates[cur].x && epc[|epc| - 1].y == pathCordinates[cur].y
        invariant epc != [] ==> epc[0].x == pathCordinates[path[delta + offset]].x && epc[0].y == pathCordinates[path[delta + offset]].y
        invariant forall i | 0 <= i < |epc| - 1 :: Step(A, B, epc[i + 1], epc[i])
        invariant |pathCordinates| == 1 ==> epc == [] || (|epc| == 1 && r == -1)
        decreases r + 1
      {
        assert epc != [] ==> s.CoordOk(cur);
        cordinate := cordinate.(x := pathCordinates[r].x, y := pathCordinates[r].y);
        epc := epc + [cordinate];
        cur := r;
        assert s.CoordOk(r);
        r := pathCordinates[r].k;
      }
      assert s.CoordOk(cur);
    }

    /** The entries recorded since `calls0` form a script of the first px
      * lines of A and py lines of B, in the orientation of the caller's files. */
    ghost predicate Recorded(calls0: seq<SesElem>, a: seq<string>, b: seq<string>, px: int, py: int)
      reads this, ses
    {
      |ses.calls| >= |calls0| && ses.calls[..|calls0|] == calls0 && 0 <= px && 0 <= py &&
      ScriptUpTo(ses.calls[|calls0|..], a, b, if swapped then py else px, if swapped then px else py)
    }

    /** One line of B: an insertion, or a deletion when the files were swapped. */
    method RecordLineOfB(ghost calls0: seq<SesElem>, ghost a: seq<string>, ghost b: seq<string>,
                         y_idx: int, px_idx: int, py_idx: int) returns (y_idx': int, py_idx': int)
      requires Valid() && Before() == a && After() == b && y_idx == py_idx + 1 && py_idx < N
      requires Recorded(calls0, a, b, px_idx, py_idx)
      modifies ses
      ensures Valid() && y_idx' == y_idx + 1 && py_idx' == py_idx + 1
      ensures Recorded(calls0, a, b, px_idx, py_idx')
    {
      ghost var before := ses.calls;
      if !swapped {
        ses.AddSequence(B[py_idx], 0, y_idx, Add);
      } else {
        ses.AddSequence(B[py_idx], y_idx, 0, Delete);
      }
      RecordStep(before, ses.calls, calls0, a, b, if swapped then py_idx else px_idx, if swapped then px_idx else py_idx);
      y_idx', py_idx' := y_idx + 1, py_idx + 1;
    }

    /** One line of A: a deletion, or an insertion when the files were swapped. */
    method RecordLineOfA(ghost calls0: seq<SesElem>, ghost a: seq<string>, ghost b: seq<string>,
                         x_idx: int, px_idx: int, py_idx: int) returns (x_idx': int, px_idx': int)
      requires Valid() && Before() == a && After() == b && x_idx == px_idx + 1 && 0 <= px_idx < M
      requires Recorded(calls0, a, b, px_idx, py_idx)
      modifies ses
      ensures Valid() && x_idx' == x_idx + 1 && px_idx' == px_idx + 1
      ensures Recorded(calls0, a, b, px_idx', py_idx)
    {
      ghost var before := ses.calls;
      if !swapped {
        ses.AddSequence(A[px_idx], x_idx, 0, Delete);
      } else {
        ses.AddSequence(A[px_idx], 0, x_idx, Add);
      }
      RecordStep(before, ses.calls, calls0, a, b, if swapped then py_idx else px_idx, if swapped then px_idx else py_idx);
      x_idx', px_idx' := x_idx + 1, px_idx + 1;
    }

    /** A matching pair of lines: a common entry. */
    method RecordMatch(ghost calls0: seq<SesElem>, ghost a: seq<string>, ghost b: seq<string>,
                       x_idx: int, y_idx: int, px_idx: int, py_idx: int)
      returns (x_idx': int, y_idx': int, px_idx': int, py_idx': int)
      requires Valid() && Before() == a && After() == b && x_idx == px_idx + 1 && y_idx == py_idx + 1
      requires 0 <= px_idx < M && 0 <= py_idx < N && A[px_idx] == B[py_idx]
      requires Recorded(calls0, a, b, px_idx, py_idx)
      modifies ses
      ensures Valid() && x_idx' == x_idx + 1 && y_idx' == y_idx + 1 && px_idx' == px_idx + 1 && py_idx' == py_idx + 1
      ensures Recorded(calls0, a, b, px_idx', py_idx')
      ensures AppendsCommon(old(ses.calls), ses.calls)
    {
      ghost var before := ses.calls;
      if !swapped {
        ses.AddSequence(A[px_idx], x_idx, y_idx, Common);
      } else {
        ses.AddSequence(B[py_idx], y_idx, x_idx, Common);
      }
      RecordStep(before, ses.calls, calls0, a, b, if swapped then py_idx else px_idx, if swapped then px_idx else py_idx);
      x_idx', y_idx', px_idx', py_idx' := x_idx + 1, y_idx + 1, px_idx + 1, py_idx + 1;
    }

    /** One pass of the inner loop of recordSequence: the entry for the next
      * step towards `t`, chosen by comparing the diagonal of t with the
      * current one. */
    method RecordEntry(ghost calls0: seq<SesElem>, ghost a: seq<string>, ghost b: seq<string>,
                       ghost origin: bool, ghost prev: Point, t: Point,
                       x_idx: int, y_idx: int, px_idx: int, py_idx: int)
      returns (x_idx': int, y_idx': int, px_idx': int, py_idx': int)
      requires Valid() && Before() == a && After() == b
      requires x_idx == px_idx + 1 && y_idx == py_idx + 1
      requires OnLeg(A, B, origin, prev, t, px_idx, py_idx) && (px_idx < t.x || py_idx < t.y)
      requires Recorded(calls0, a, b, px_idx, py_idx)
      modifies ses
      ensures Valid() && x_idx' == px_idx' + 1 && y_idx' == py_idx' + 1
      ensures OnLeg(A, B, origin, prev, t, px_idx', py_idx')
      ensures px_idx <= px_idx' && py_idx <= py_idx' && px_idx' + py_idx' > px_idx + py_idx
      ensures Recorded(calls0, a, b, px_idx', py_idx')
      ensures origin ==> AppendsCommon(old(ses.calls), ses.calls)
    {
      LegEnter(A, B, origin, prev, t, px_idx, py_idx);
      x_idx', y_idx', px_idx', py_idx' := x_idx, y_idx, px_idx, py_idx;
      if t.y - t.x > py_idx - px_idx {
        y_idx', py_idx' := RecordLineOfB(calls0, a, b, y_idx, px_idx, py_idx);
      } else if t.y - t.x < py_idx - px_idx {
        x_idx', px_idx' := RecordLineOfA(calls0, a, b, x_idx, px_idx, py_idx);
      } else {
        x_idx', y_idx', px_idx', py_idx' := RecordMatch(calls0, a, b, x_idx, y_idx, px_idx, py_idx);
      }
      LegAdvance(A, B, origin, prev, t, px_idx, py_idx, px_idx', py_idx');
    }

    /** The inner loop of recordSequence: the entries from `prev` (the origin
      * when `origin`) to point `t` of the path. */
    method RecordLeg(ghost calls0: seq<SesElem>, ghost a: seq<string>, ghost b: seq<string>,
                     ghost origin: bool, ghost prev: Point, t: Point,
                     x_idx: int, y_idx: int, px_idx: int, py_idx: int)
      returns (x_idx': int, y_idx': int, px_idx': int, py_idx': int)
      requires Valid() && Before() == a && After() == b
      requires x_idx == px_idx + 1 && y_idx == py_idx + 1
      requires OnLeg(A, B, origin, prev, t, px_idx, py_idx)
      requires Recorded(calls0, a, b, px_idx, py_idx)
      modifies ses
      ensures Valid() && x_idx' == px_idx' + 1 && y_idx' == py_idx' + 1
      ensures px_idx' == t.x && py_idx' == t.y
      ensures Recorded(calls0, a, b, px_idx', py_idx')
      ensures origin && CommonSince(old(ses.calls), |calls0|) ==> CommonSince(ses.calls, |calls0|)
    {
      ghost var common := origin && CommonSince(ses.calls, |calls0|);
      x_idx', y_idx', px_idx', py_idx' := x_idx, y_idx, px_idx, py_idx;
      while px_idx' < t.x || py_idx' < t.y
        invariant Valid() && Before() == a && After() == b
        invariant x_idx' == px_idx' + 1 && y_idx' == py_idx' + 1
        invariant OnLeg(A, B, origin, prev, t, px_idx', py_idx')
        invariant Recorded(calls0, a, b, px_idx', py_idx')
        invariant common ==> CommonSince(ses.calls, |calls0|)
        decreases t.x - px_idx' + t.y - py_idx'
      {
        ghost var before := ses.calls;
        x_idx', y_idx', px_idx', py_idx' := RecordEntry(calls0, a, b, origin, prev, t, x_idx', y_idx', px_idx', py_idx');
        if common {
          CommonSinceSnoc(before, ses.calls, |calls0|);
        }
      }
    }

    /** The restart of recordSequence: the search continues on the suffixes
      * from line x_idx of A and line y_idx of B, with fp reallocated and path
      * cleared. */
    method Restart(x_idx: int, y_idx: int)
      requires Dims() && 1 <= x_idx <= M + 1 && 1 <= y_idx <= N + 1 && (y_idx - 1) - (x_idx - 1) == delta
      modifies this, path
      ensures A == old(A)[x_idx - 1..] && B == old(B)[y_idx - 1..] && Dims() && M == N
      ensures M + N == old(M) + old(N) - (x_idx - 1) - (y_idx - 1)
      ensures swapped == old(swapped) && pathCordinates == old(pathCordinates) && path == old(path)
      ensures fresh(fp) && fp.Length == M + N + 3 && fp != path
      ensures forall d | 0 <= d < fp.Length :: fp[d] == -1
      ensures forall d | 0 <= d < path.Length :: path[d] == -1
    {
      A := A[x_idx - 1..];
      B := B[y_idx - 1..];
      M := |A|;
      N := |B|;
      delta := N - M;
      offset := M + 1;
      fp := new int[M + N + 3](_ => -1);   // delete[] fp; new; std::fill(-1)
      forall d | 0 <= d < path.Length {
        path[d] := -1;
      }
    }

    /** The loop of recordSequence: walks the path v from the origin (its last
      * point) to v[0], recording one entry per step in the orientation of the
      * caller's files. */
    method RecordPath(v: seq<Point>) returns (x_idx: int, y_idx: int)
      requires Valid() && Chain(A, B, v)
      modifies ses
      ensures Valid() && x_idx == v[0].x + 1 && y_idx == v[0].y + 1
      ensures Recorded(old(ses.calls), Before(), After(), v[0].x, v[0].y)
      ensures |v| == 1 ==> CommonSince(ses.calls, |old(ses.calls)|)
    {
      ghost var calls0 := ses.calls;
      ghost var a, b := Before(), After();
      x_idx, y_idx := 1, 1;        // line numbers of the unified format
      var px_idx, py_idx := 0, 0;  // coordinates
      var complete := false;
      var i := |v| - 1;
      assert ses.calls[|calls0|..] == [];
      ghost var single := |v| == 1;
      while !complete
        invariant Valid() && Before() == a && After() == b
        invariant x_idx == px_idx + 1 && y_idx == py_idx + 1
        invariant -1 <= i < |v|
        invariant complete <==> i == -1
        invariant !complete ==> (if i == |v| - 1 then px_idx == 0 && py_idx == 0 else px_idx == v[i + 1].x && py_idx == v[i + 1].y)
        invariant complete ==> px_idx == v[0].x && py_idx == v[0].y
        invariant Recorded(calls0, a, b, px_idx, py_idx)
        invariant single ==> CommonSince(ses.calls, |calls0|)
        decreases i + 1
      {
        LegStart(A, B, v, i, px_idx, py_idx);
        ghost var origin := i == |v| - 1;
        assert single ==> origin;
        x_idx, y_idx, px_idx, py_idx := RecordLeg(calls0, a, b, origin, if origin then Point(0, 0, 0) else v[i + 1], v[i],
                                                  x_idx, y_idx, px_idx, py_idx);
        if i == 0 {
          complete := true;
        }
        i := i - 1;
      }
    }

    /** recordSequence: records the path, then returns whether it reached the
      * end of both sequences; otherwise only the unconsumed suffixes are left
      * to be searched again. */
    method RecordSequence(v: seq<Point>) returns (complete: bool)
      requires Valid() && Chain(A, B, v) && v[0].y - v[0].x == delta && 0 <= v[0].x <= M && 0 <= v[0].y <= N
      requires fp.Length == M + N + 3 <= path.Length && fp != path
      modifies this, ses, path
      ensures Valid() && swapped == old(swapped) && pathCordinates == old(pathCordinates) && path == old(path)
      ensures Recorded(old(ses.calls), old(Before()), old(After()), v[0].x, v[0].y)
      ensures complete == (v[0].x == old(M))
      ensures |v| == 1 ==> CommonSince(ses.calls, |old(ses.calls)|)
      ensures complete ==> A == old(A) && B == old(B) && fp == old(fp) && path[..] == old(path[..])
      ensures !complete ==> A == old(A)[v[0].x..] && B == old(B)[v[0].y..] && fresh(fp) && fp != path &&
                            fp.Length == M + N + 3 <= path.Length && M == N &&
                            (forall d | 0 <= d < fp.Length :: fp[d] == -1) &&
                            (forall d | 0 <= d < path.Length :: path[d] == -1)
    {
      var x_idx, y_idx := RecordPath(v);
      complete := x_idx > M && y_idx > N;
      if !complete {
        Restart(x_idx, y_idx);
      }
    }

    /** The state each search of compose starts from: fp and path filled
      * with -1 and no records. */
    ghost predicate Ready()
      reads this, fp, path
    {
      Dims() && fp != path && fp.Length == M + N + 3 <= path.Length && pathCordinates == [] &&
      (forall d | 0 <= d < fp.Length :: fp[d] == -1) && (forall d | 0 <= d < path.Length :: path[d] == -1)
    }

    /** The search of one pass of compose: the rounds of ONP and the path
      * read back. A path that stops short of (M, N) was cut by the record
      * cap, which only a large pair of files reaches. */
    method FindPath() returns (epc: seq<Point>)
      requires Valid() && Ready()
      modifies this`pathCordinates, path, fp
      ensures Valid() && fp == old(fp) && path == old(path)
      ensures Chain(A, B, epc) && epc[0].y - epc[0].x == delta && 0 <= epc[0].x <= M && 0 <= epc[0].y <= N
      ensures epc[0].x != M ==> M * N >= MAX_CORDINATES_SIZE && epc[0].x + epc[0].y >= 1
      ensures A == B ==> |epc| == 1 && epc[0].x == M
    {
      FirstRound(S());
      var p := ONP();
      epc := ReadPath(p);
      if epc[0].x != M {
        ghost var s := S();
        CapNeedsLargeInput(s, p);
        RestartMoves(s, p);
      }
    }

    /** One pass of compose from the ONP label: the search, the path
      * recorded, and on a restart the records cleared. The entries appended
      * are a script of the first i lines of the old file and the first j
      * lines of the new one; the search restarts on what follows. */
    method SearchAndRecord() returns (complete: bool, ghost i: nat, ghost j: nat)
      requires Valid() && Ready()
      modifies this, ses, path, fp
      ensures Valid() && swapped == old(swapped) && path == old(path)
      ensures |ses.calls| >= |old(ses.calls)| && ses.calls[..|old(ses.calls)|] == old(ses.calls)
      ensures ScriptUpTo(ses.calls[|old(ses.calls)|..], old(Before()), old(After()), i, j)
      ensures complete <==> i == |old(Before())| && j == |old(After())|
      ensures !complete ==> Before() == old(Before())[i..] && After() == old(After())[j..] && Ready() && fresh(fp) &&
                            i + j >= 1 && old(M) * old(N) >= MAX_CORDINATES_SIZE
      ensures old(Before()) == old(After()) ==> complete && CommonSince(ses.calls, |old(ses.calls)|)
    {
      var epc := FindPath();
      ghost var x, y := epc[0].x, epc[0].y;
      complete := RecordSequence(epc);
      i, j := if swapped then y else x, if swapped then x else y;
      if !complete {
        pathCordinates := [];
      }
    }

    /** The arrays of compose, sized for the first search and filled with -1. */
    method Allocate()
      requires Dims()
      modifies this`fp, this`path, this`pathCordinates
      ensures Ready() && fresh(fp) && fresh(path)
    {
      fp := new int[M + N + 3](_ => -1);
      path := new int[M + N + 3](_ => -1);
      pathCordinates := [];
    }

    /** What holds between the passes of compose: the log holds `calls0`
      * followed by the segments `cuts`, the last ending where the current
      * suffixes A and B of the original files `a` and `b` begin. (m0, n0)
      * are the sizes of the first pass, and a later pass needs the record
      * cap to have been reached. */
    ghost predicate Composing(calls0: seq<SesElem>, a: seq<string>, b: seq<string>, cb: nat, ca: nat, cuts: seq<Cut>, m0: nat, n0: nat)
      reads this, ses, fp, path
    {
      LogOk(ses.calls, calls0, a, b, cb, ca, cuts) && Valid() && Ready() && Before() == a[cb..] && After() == b[ca..] &&
      (|cuts| == 0 ==> M == m0 && N == n0) && (|cuts| > 0 ==> m0 * n0 >= MAX_CORDINATES_SIZE)
    }

    /** One iteration of compose: a pass, its entries added as the next
      * segment; either the files are consumed or compose goes on with the
      * shorter suffixes. */
    method ComposeStep(ghost calls0: seq<SesElem>, ghost a: seq<string>, ghost b: seq<string>, ghost cb: nat, ghost ca: nat,
                       ghost cuts: seq<Cut>, ghost m0: nat, ghost n0: nat)
      returns (complete: bool, ghost cb': nat, ghost ca': nat, ghost cuts': seq<Cut>)
      requires Composing(calls0, a, b, cb, ca, cuts, m0, n0)
      modifies this, ses, path, fp
      ensures swapped == old(swapped) && path == old(path)
      ensures !complete ==> Composing(calls0, a, b, cb', ca', cuts', m0, n0) && fresh(fp) &&
                            |Before()| + |After()| < old(|Before()| + |After()|)
      ensures complete ==> Valid() && |ses.calls| >= |calls0| && ses.calls[..|calls0|] == calls0 &&
                           Segments(ses.calls[|calls0|..], a, b, cuts') &&
                           (m0 * n0 < MAX_CORDINATES_SIZE ==> Script(ses.calls[|calls0|..], a, b))
      ensures old(Before()) == old(After()) ==> complete && CommonSince(ses.calls, |old(ses.calls)|)
    {
      ghost var mid, before, after := ses.calls, Before(), After();
      ghost var i: nat, j: nat;
      complete, i, j := SearchAndRecord();
      cb', ca' := cb + i, ca + j;
      cuts' := cuts + [Cut(|ses.calls| - |calls0|, cb', ca')];
      SegmentsExtend(calls0, mid, ses.calls, a, b, cuts, cb, ca, before, after, i, j, cuts', cb', ca');
      if complete && |cuts'| == 1 {
        SingleSegment(ses.calls[|calls0|..], a, b, cuts');
      }
    }

    /** compose: searches, records the script and restarts on the suffixes
      * while a search stopped on the record cap. */
    method Compose() returns (ghost cuts: seq<Cut>)
      requires Valid()
      modifies this, ses
      ensures Valid() && swapped == old(swapped)
      ensures |ses.calls| >= |old(ses.calls)| && ses.calls[..|old(ses.calls)|] == old(ses.calls)
      ensures Segments(ses.calls[|old(ses.calls)|..], old(Before()), old(After()), cuts)
      ensures old(M) * old(N) < MAX_CORDINATES_SIZE ==>
                Script(ses.calls[|old(ses.calls)|..], old(Before()), old(After()))
      ensures old(Before()) == old(After()) ==> CommonSince(ses.calls, |old(ses.calls)|) && ses.onlyCopy == old(ses.onlyCopy)
      ensures old(M) * old(N) < MAX_CORDINATES_SIZE ==>
                (CommonSince(ses.calls, |old(ses.calls)|) <==> old(Before()) == old(After()))
    {
      ghost var calls0 := ses.calls;
      ghost var a, b := Before(), After();
      ghost var m0, n0 := M, N;
      ghost var cb: nat, ca: nat := 0, 0;
      Allocate();
      cuts := [];
      while true
        invariant Composing(calls0, a, b, cb, ca, cuts, m0, n0) && swapped == old(swapped) && fresh(fp) && fresh(path)
        invariant a == b ==> ses.calls == calls0 && Before() == a && After() == b
        decreases |Before()| + |After()|
      {
        var complete;
        complete, cb, ca, cuts := ComposeStep(calls0, a, b, cb, ca, cuts, m0, n0);
        if complete {
          if a == b {
            CommonSinceAll(ses.calls, |calls0|);
          } else if m0 * n0 < MAX_CORDINATES_SIZE && CommonSince(ses.calls, |calls0|) {
            UnchangedScriptIdentical(ses.calls[|calls0|..], a, b);
          }
          break;
        }
      }
    }
  }

  /** Progress of recordSequence along the leg from `prev` to `t`: either still
    * at `prev`, or on the snake that ends at `t`. */
  ghost predicate OnLeg(A: seq<string>, B: seq<string>, origin: bool, prev: Point, t: Point, px: int, py: int)
  {
    if origin then Origin(A, B, t) && px == py && 0 <= px <= t.x
    else
      0 <= prev.x && 0 <= prev.y &&
      ((AddStep(A, B, prev, t) &&
        ((px == prev.x && py == prev.y) || (py - px == t.y - t.x && prev.x <= px <= t.x))) ||
       (DeleteStep(A, B, prev, t) &&
        ((px == prev.x && py == prev.y) || (py - px == t.y - t.x && prev.x + 1 <= px <= t.x))))
  }

  /** Leg i of a path starts at the point after it (the origin for the
    * last point). */
  lemma LegStart(A: seq<string>, B: seq<string>, v: seq<Point>, i: int, px: int, py: int)
    requires Chain(A, B, v) && 0 <= i < |v|
    requires if i == |v| - 1 then px == 0 && py == 0 else px == v[i + 1].x && py == v[i + 1].y
    ensures OnLeg(A, B, i == |v| - 1, if i == |v| - 1 then Point(0, 0, 0) else v[i + 1], v[i], px, py)
  {
    if i < |v| - 1 {
      assert Step(A, B, v[i + 1], v[i]);
      if i + 1 == |v| - 1 {
        assert Origin(A, B, v[i + 1]);
      } else {
        assert Step(A, B, v[i + 2], v[i + 1]);
      }
    }
  }

  /** The next step of a leg stays in the grid, and a diagonal step is a
    * pair of matching lines. */
  lemma LegEnter(A: seq<string>, B: seq<string>, origin: bool, prev: Point, t: Point, px: int, py: int)
    requires OnLeg(A, B, origin, prev, t, px, py) && (px < t.x || py < t.y)
    ensures 0 <= px
    ensures 0 <= py
    ensures t.y - t.x > py - px ==> py < |B|
    ensures t.y - t.x < py - px ==> px < |A|
    ensures t.y - t.x == py - px ==> px < |A| && py < |B| && A[px] == B[py]
  {
    if t.y - t.x == py - px {
      if origin {
        assert A[px] == B[px - 0 + 0];
      } else if AddStep(A, B, prev, t) {
        assert A[px] == B[px - prev.x + (prev.y + 1)];
      } else {
        assert A[px] == B[px - (prev.x + 1) + prev.y];
      }
    }
  }

  /** The step recordSequence takes keeps it on the leg. */
  lemma LegAdvance(A: seq<string>, B: seq<string>, origin: bool, prev: Point, t: Point, px: int, py: int, px': int, py': int)
    requires OnLeg(A, B, origin, prev, t, px, py) && (px < t.x || py < t.y)
    requires t.y - t.x > py - px ==> px' == px && py' == py + 1
    requires t.y - t.x < py - px ==> px' == px + 1 && py' == py
    requires t.y - t.x == py - px ==> px' == px + 1 && py' == py + 1
    ensures OnLeg(A, B, origin, prev, t, px', py')
  {
  }

  /** One recorded entry extends the script by the line(s) it consumes. */
  lemma RecordStep(before: seq<SesElem>, after: seq<SesElem>, calls0: seq<SesElem>, a: seq<string>, b: seq<string>, i: nat, j: nat)
    requires |before| >= |calls0| && before[..|calls0|] == calls0
    requires ScriptUpTo(before[|calls0|..], a, b, i, j)
    requires |after| == |before| + 1 && after[..|before|] == before
    requires var e := after[|before|];
      (e.info.sesType == Add ==> e.info.beforeIdx == 0 && e.info.afterIdx == j + 1 && j < |b| && e.elem == b[j]) &&
      (e.info.sesType == Delete ==> e.info.afterIdx == 0 && e.info.beforeIdx == i + 1 && i < |a| && e.elem == a[i]) &&
      (e.info.sesType == Common ==> e.info.beforeIdx == i + 1 && e.info.afterIdx == j + 1 && i < |a| && j < |b| && e.elem == a[i] && a[i] == b[j])
    ensures |after| >= |calls0| && after[..|calls0|] == calls0
    ensures var e := after[|before|];
      ScriptUpTo(after[|calls0|..], a, b, i + (if OnBeforeSide(e.info.sesType) then 1 else 0), j + (if OnAfterSide(e.info.sesType) then 1 else 0))
  {
    var e := after[|before|];
    assert after[|calls0|..] == before[|calls0|..] + [e];
    ScriptUpToExtend(before[|calls0|..], a, b, i, j, e,
      i + (if OnBeforeSide(e.info.sesType) then 1 else 0), j + (if OnAfterSide(e.info.sesType) then 1 else 0));
  }


  /** `after` is `before` with one Common entry appended. */
  predicate AppendsCommon(before: seq<SesElem>, after: seq<SesElem>)
  {
    |after| == |before| + 1 && after[..|before|] == before && after[|before|].info.sesType == Common
  }

  /** Every entry after the first n is a Common one. */
  predicate CommonSince(calls: seq<SesElem>, n: nat)
  {
    n <= |calls| && AllOfType(calls[n..], Common)
  }

  lemma CommonSinceSnoc(before: seq<SesElem>, after: seq<SesElem>, n: nat)
    requires CommonSince(before, n) && AppendsCommon(before, after)
    ensures CommonSince(after, n)
  {
    assert after[n..] == before[n..] + [after[|before|]];
    AllOfTypeSnoc(before[n..], after[|before|], Common);
  }

  /** Appending only Common entries leaves "all Common" as it was. */
  lemma CommonSinceAll(calls: seq<SesElem>, n: nat)
    requires CommonSince(calls, n)
    ensures AllOfType(calls, Common) == AllOfType(calls[..n], Common)
  {
    if AllOfType(calls[..n], Common) {
      forall i | 0 <= i < |calls| ensures calls[i].info.sesType == Common {
        if i < n {
          assert calls[..n][i] == calls[i];
        } else {
          assert calls[n..][i - n] == calls[i];
        }
      }
    }
  }
}
