// matchedInMVICFG (MVICFG.cpp:783-892): the MVICFG lines that the diff
// matches with ICFG lines are paired with them, and the MVICFG edges that
// join matched lines as the ICFG joins their partners are given the new
// version.
module MvicfgMatched {
  import opened Common
  import opened DiffMapping
  import opened GraphEdge
  import opened Graphs
  import opened MvicfgLookup
  import opened MvicfgWire

  // ---- The first loop: pairing the matched lines -----------------------------

  /** matchedGraphLines (from ICFG line to MVICFG line) and mvicfgM (the ICFG
    * lines paired, in the order they were paired). */
  datatype Pairs = Pairs(matched: map<LineId, LineId>, m: seq<LineId>)

  /** The entries of the diff's matched-lines map (MVICFG number, ICFG
    * number) in the map's order. */
  function Entries(lm: map<int, int>): (r: seq<(int, int)>)
    ensures |r| == |lm|
    ensures forall j | 0 <= j < |r| :: r[j].0 in lm && r[j].1 == lm[r[j].0]
    ensures forall j, k | 0 <= j < k < |r| :: r[j].0 < r[k].0
  {
    var ks := Ascending(lm.Keys);
    seq(|ks|, j requires 0 <= j < |ks| => (ks[j], lm[ks[j]]))
  }

  /** Every key of the map has its entry. */
  lemma EntriesCover(lm: map<int, int>, x: int)
    requires x in lm
    ensures exists j | 0 <= j < |Entries(lm)| :: Entries(lm)[j] == (x, lm[x])
  {
    var ks := Ascending(lm.Keys);
    var j :| 0 <= j < |ks| && ks[j] == x;
    assert Entries(lm)[j] == (x, lm[x]);
  }

  /** For each entry, the ICFG lines carrying its second number and the
    * MVICFG lines carrying its first, in the diff's file. */
  function LineLists(g: GraphState, c: Pass, es: seq<(int, int)>): (r: seq<(seq<LineId>, seq<LineId>)>)
    ensures |r| == |es|
    decreases |es|
  {
    if es == [] then [] else LineLists(g, c, es[..|es| - 1]) + [EntryLists(g, c, es[|es| - 1])]
  }

  /** The ICFG lines carrying entry `e`'s second number and the MVICFG lines
    * carrying its first, in the diff's file. */
  function EntryLists(g: GraphState, c: Pass, e: (int, int)): (seq<LineId>, seq<LineId>)
  {
    (GraphLinesGivenLine(c.icfg, e.1, c.diff.fileName), GraphLinesGivenLine(g, e.0, c.diff.fileName))
  }

  /** The first `n` steps of walking the ICFG lines `ics` alongside the
    * MVICFG lines `mvs` of one entry: each ICFG line is mapped to its
    * partner (a std::map insert, so an ICFG line keeps its first partner)
    * and appended to mvicfgM. */
  function Zip(acc: Pairs, ics: seq<LineId>, mvs: seq<LineId>, n: nat): Pairs
    requires n <= |ics| && n <= |mvs|
  {
    if n == 0 then acc
    else
      var p := Zip(acc, ics, mvs, n - 1);
      Pairs(MapInsert(p.matched, ics[n - 1], mvs[n - 1]), p.m + [ics[n - 1]])
  }

  /** The body of the loop over the entries: skipped when the MVICFG has no
    * line with the first number, the ICFG none with the second, or their
    * counts differ. */
  function PairsFor(acc: Pairs, ics: seq<LineId>, mvs: seq<LineId>): Pairs
  {
    if mvs == [] || ics == [] || |mvs| != |ics| then acc else Zip(acc, ics, mvs, |ics|)
  }

  /** The loop over the first `n` entries, given their line lists. */
  function PairsUpTo(ls: seq<(seq<LineId>, seq<LineId>)>, n: nat): Pairs
    requires n <= |ls|
  {
    if n == 0 then Pairs(map[], []) else PairsFor(PairsUpTo(ls, n - 1), ls[n - 1].0, ls[n - 1].1)
  }

  /** The first loop of matchedInMVICFG. */
  function MatchedPairs(g: GraphState, c: Pass): Pairs
  {
    var ls := LineLists(g, c, Entries(c.diff.matchedLines));
    PairsUpTo(ls, |ls|)
  }

  /** ICFG line `ic` and MVICFG line `mv` stand at the same place in the
    * two line lists of one entry, which have the same length. */
  predicate PairedIn(ls: seq<(seq<LineId>, seq<LineId>)>, ic: LineId, mv: LineId)
  {
    exists k, j | 0 <= k < |ls| && 0 <= j < |ls[k].0| :: |ls[k].1| == |ls[k].0| && ls[k].0[j] == ic && ls[k].1[j] == mv
  }

  /** The map's keys are the lines of mvicfgM, and every pair comes from
    * one entry. */
  predicate PairsOk(ls: seq<(seq<LineId>, seq<LineId>)>, p: Pairs)
  {
    (forall ic | ic in p.matched :: ic in p.m) && (forall ic | ic in p.m :: ic in p.matched) &&
    (forall ic | ic in p.matched :: PairedIn(ls, ic, p.matched[ic]))
  }

  lemma {:induction false} ZipOk(ls: seq<(seq<LineId>, seq<LineId>)>, acc: Pairs, k: nat, n: nat)
    requires PairsOk(ls, acc) && k < |ls| && |ls[k].1| == |ls[k].0| && n <= |ls[k].0|
    ensures PairsOk(ls, Zip(acc, ls[k].0, ls[k].1, n))
  {
    var ics, mvs := ls[k].0, ls[k].1;
    if n > 0 {
      ZipOk(ls, acc, k, n - 1);
      var p := Zip(acc, ics, mvs, n - 1);
      var r := Zip(acc, ics, mvs, n);
      var x := ics[n - 1];
      assert r.m == p.m + [x] && r.matched == MapInsert(p.matched, x, mvs[n - 1]);
      forall ic | ic in r.matched
        ensures ic in r.m
      {
        if ic != x {
          assert ic in p.matched;
        }
      }
      forall ic | ic in r.m
        ensures ic in r.matched
      {
        if ic != x {
          assert ic in p.m;
        }
      }
      forall ic | ic in r.matched
        ensures PairedIn(ls, ic, r.matched[ic])
      {
        if ic !in p.matched {
          assert ic == x && r.matched[ic] == mvs[n - 1];
          assert ls[k].0[n - 1] == ic;
        } else {
          assert r.matched[ic] == p.matched[ic];
        }
      }
    }
  }

  /** The first loop keeps mvicfgM and the map's keys the same lines, and
    * pairs only lines that an entry of the diff pairs. */
  lemma {:induction false} PairsUpToOk(ls: seq<(seq<LineId>, seq<LineId>)>, n: nat)
    requires n <= |ls|
    ensures PairsOk(ls, PairsUpTo(ls, n))
  {
    if n > 0 {
      PairsUpToOk(ls, n - 1);
      var ics, mvs := ls[n - 1].0, ls[n - 1].1;
      if !(mvs == [] || ics == [] || |mvs| != |ics|) {
        ZipOk(ls, PairsUpTo(ls, n - 1), n - 1, |ics|);
      }
    }
  }

  // ---- The second loop: stamping the matched edges -------------------------

  /** The MVICFG edge matchedInMVICFG expects for neighbour `t` of nDash:
    * none when t is not an ICFG line of mvicfgM, lies outside the diff's
    * file or has no matching MVICFG line tDash. For a predecessor, the edge
    * getEdge finds from tDash's last instruction to n's first, else the one
    * getInBetweenEdge finds from tDash to n; for a successor, from n's last
    * instruction to tDash's first, else between n and tDash. */
  function StampTarget(g: GraphState, c: Pass, M: seq<LineId>, a: Around, t: LineId): Option<EdgeId>
  {
    if t !in M || FileOf(c.icfg, t) != c.diff.fileName then None
    else
      match FindMatchedLine(g, c.icfg, t, c.diff)
      case None => None
      case Some(tDash) => EdgeWith(g, a, t, tDash)
  }

  /** The edge StampTarget looks for once t's match tDash is known. */
  function EdgeWith(g: GraphState, a: Around, t: LineId, tDash: LineId): Option<EdgeId>
  {
    var mine, theirs := LineOf(g, a.n).instructions, LineOf(g, tDash).instructions;
    if t in a.pred then
      match GetEdge(g, Back(theirs), Front(mine), Any)
      case Some(e) => Some(e)
      case None => GetInBetweenEdge(g, tDash, a.n)
    else if t in a.succ then
      match GetEdge(g, Back(mine), Front(theirs), Any)
      case Some(e) => Some(e)
      case None => GetInBetweenEdge(g, a.n, tDash)
    else None
  }

  /** The body of the loop over T: the edge found is given the version
    * unless it already has it. */
  function StampFor(g: GraphState, c: Pass, M: seq<LineId>, a: Around, t: LineId): GraphState
  {
    match StampTarget(g, c, M, a, t)
    case None => g
    case Some(e) => StampEdge(g, e, c.version)
  }

  /** The first `n` passes of the loop over T. */
  function StampsUpTo(g: GraphState, c: Pass, M: seq<LineId>, a: Around, ts: seq<LineId>, n: nat): GraphState
    requires n <= |ts|
  {
    if n == 0 then g else StampFor(StampsUpTo(g, c, M, a, ts, n - 1), c, M, a, ts[n - 1])
  }

  /** The body of the loop over the pairs: MVICFG line `n` paired with ICFG
    * line `nDash`, walked along nDash's ICFG neighbours. */
  function StampedPair(g: GraphState, c: Pass, M: seq<LineId>, nDash: LineId, n: LineId): GraphState
  {
    var a := AroundPair(c, nDash, n);
    StampsUpTo(g, c, M, a, a.pred + a.succ, |a.pred + a.succ|)
  }

  /** MVICFG line `n` paired with ICFG line `nDash`, and nDash's ICFG
    * predecessors and successors. */
  function AroundPair(c: Pass, nDash: LineId, n: LineId): Around
  {
    Around(n, nDash, PredLines(c.icfg, nDash), SuccLines(c.icfg, nDash))
  }

  /** The first `n` passes of the loop over the pairs, in the map's order. */
  function StampedPairsUpTo(g: GraphState, c: Pass, p: Pairs, ks: seq<LineId>, n: nat): GraphState
    requires n <= |ks|
  {
    if n == 0 then g
    else
      var nDash := ks[n - 1];
      var h := StampedPairsUpTo(g, c, p, ks, n - 1);
      if nDash in p.matched then StampedPair(h, c, p.m, nDash, p.matched[nDash]) else h
  }

  /** matchedInMVICFG as a whole. */
  function Matched(g: GraphState, c: Pass): GraphState
  {
    var p := MatchedPairs(g, c);
    var ks := AscendingIds(p.matched.Keys);
    StampedPairsUpTo(g, c, p, ks, |ks|)
  }

  // ---- What the second loop does ---------------------------------------------

  /** One neighbour stamps at most one edge, which then has the version;
    * no edge is added and no other edge changes. */
  lemma StampForEffect(g: GraphState, c: Pass, M: seq<LineId>, a: Around, t: LineId)
    requires WellFormed(g)
    ensures var r := StampFor(g, c, M, a, t);
      Restamps(g, r, c.version) &&
      (StampTarget(g, c, M, a, t).None? ==> r == g) &&
      (StampTarget(g, c, M, a, t).Some? ==>
         var e := StampTarget(g, c, M, a, t).value;
         e < |g.edges| ==> IsPartOfGraph(r.edges[e], c.version) && forall k | 0 <= k < |g.edges| && k != e :: r.edges[k] == g.edges[k])
  {
    match StampTarget(g, c, M, a, t)
    case None =>
      RestampsRefl(g, c.version);
    case Some(e) =>
      StampEdgeRewired(g, e, c.version);
  }

  lemma {:induction false} StampsUpToRestamps(g: GraphState, c: Pass, M: seq<LineId>, a: Around, ts: seq<LineId>, n: nat)
    requires WellFormed(g) && n <= |ts|
    ensures Restamps(g, StampsUpTo(g, c, M, a, ts, n), c.version)
  {
    if n == 0 {
      RestampsRefl(g, c.version);
    } else {
      var h := StampsUpTo(g, c, M, a, ts, n - 1);
      StampsUpToRestamps(g, c, M, a, ts, n - 1);
      RewiredWellFormed(g, h, c.version);
      StampForEffect(h, c, M, a, ts[n - 1]);
      RestampsTrans(g, h, StampFor(h, c, M, a, ts[n - 1]), c.version);
    }
  }

  /** The second loop adds no edge and changes no edge list; it only gives
    * existing edges the pass's version, never twice. */
  lemma {:induction false} StampedPairsRestamps(g: GraphState, c: Pass, p: Pairs, ks: seq<LineId>, n: nat)
    requires WellFormed(g) && n <= |ks|
    ensures Restamps(g, StampedPairsUpTo(g, c, p, ks, n), c.version)
  {
    if n == 0 {
      RestampsRefl(g, c.version);
    } else {
      var nDash := ks[n - 1];
      var h := StampedPairsUpTo(g, c, p, ks, n - 1);
      StampedPairsRestamps(g, c, p, ks, n - 1);
      if nDash in p.matched {
        RewiredWellFormed(g, h, c.version);
        var a := AroundPair(c, nDash, p.matched[nDash]);
        StampsUpToRestamps(h, c, p.m, a, a.pred + a.succ, |a.pred + a.succ|);
        RestampsTrans(g, h, StampedPair(h, c, p.m, nDash, p.matched[nDash]), c.version);
      }
    }
  }

  // ---- Which edges the second loop stamps ----------------------------------

  /** A restamped graph differs from the original only in edge versions. */
  lemma RestampsOnlyVersions(g: GraphState, h: GraphState, v: nat)
    requires Restamps(g, h, v)
    ensures OnlyVersionsDiffer(g, h)
  {
    assert h.(edges := g.edges) == h.(insts := g.insts, edges := g.edges);
    forall k | 0 <= k < |g.edges|
      ensures h.edges[k].(versions := g.edges[k].versions) == g.edges[k]
    {
      assert Extends(g.edges[k], h.edges[k]);
    }
  }

  /** The edge a neighbour leads to does not depend on edge versions, so it
    * is the same at every step of the pass. */
  lemma StampTargetSame(g: GraphState, h: GraphState, c: Pass, M: seq<LineId>, a: Around, t: LineId)
    requires OnlyVersionsDiffer(g, h)
    ensures StampTarget(h, c, M, a, t) == StampTarget(g, c, M, a, t)
  {
    FindMatchedLineSame(g, h, c.icfg, t, c.diff);
    match FindMatchedLine(g, c.icfg, t, c.diff)
    case None =>
    case Some(tDash) =>
      EdgeWithSame(g, h, a, t, tDash);
  }

  lemma EdgeWithSame(g: GraphState, h: GraphState, a: Around, t: LineId, tDash: LineId)
    requires OnlyVersionsDiffer(g, h)
    ensures EdgeWith(h, a, t, tDash) == EdgeWith(g, a, t, tDash)
  {
    var mine, theirs := LineOf(g, a.n).instructions, LineOf(g, tDash).instructions;
    assert h.lines == g.lines;
    GetEdgeSame(g, h, Back(theirs), Front(mine), Any);
    GetEdgeSame(g, h, Back(mine), Front(theirs), Any);
    InBetweenEdgeSame(g, h, tDash, a.n);
    InBetweenEdgeSame(g, h, a.n, tDash);
  }

  /** Some neighbour in `ts` leads to edge `k`. */
  predicate HitIn(g: GraphState, c: Pass, M: seq<LineId>, a: Around, ts: seq<LineId>, k: EdgeId)
  {
    exists t | t in ts :: StampTarget(g, c, M, a, t) == Some(k)
  }

  lemma HitInSame(g: GraphState, h: GraphState, c: Pass, M: seq<LineId>, a: Around, ts: seq<LineId>, k: EdgeId)
    requires OnlyVersionsDiffer(g, h)
    ensures HitIn(h, c, M, a, ts, k) == HitIn(g, c, M, a, ts, k)
  {
    forall t | t in ts
      ensures StampTarget(h, c, M, a, t) == StampTarget(g, c, M, a, t)
    {
      StampTargetSame(g, h, c, M, a, t);
    }
  }

  lemma HitInSnoc(g: GraphState, c: Pass, M: seq<LineId>, a: Around, ts: seq<LineId>, t: LineId, k: EdgeId)
    ensures HitIn(g, c, M, a, ts + [t], k) == (HitIn(g, c, M, a, ts, k) || StampTarget(g, c, M, a, t) == Some(k))
  {
    if HitIn(g, c, M, a, ts + [t], k) {
      var x :| x in ts + [t] && StampTarget(g, c, M, a, x) == Some(k);
      if x != t {
        assert x in ts;
      }
    }
    if HitIn(g, c, M, a, ts, k) {
      var x :| x in ts && StampTarget(g, c, M, a, x) == Some(k);
      assert x in ts + [t];
    }
    if StampTarget(g, c, M, a, t) == Some(k) {
      assert t in ts + [t];
    }
  }

  /** Edge `e` with the version when `hit`, as it is otherwise. */
  function StampIf(e: Edge, hit: bool, v: nat): Edge
  {
    if hit then Stamp(e, v) else e
  }

  /** Every edge of `r` is edge `k` of `g`, stamped exactly when some
    * neighbour in `ts` leads to it. */
  predicate StampedPer(g: GraphState, r: GraphState, c: Pass, M: seq<LineId>, a: Around, ts: seq<LineId>)
  {
    |r.edges| == |g.edges| &&
    forall k | 0 <= k < |g.edges| :: r.edges[k] == StampIf(g.edges[k], HitIn(g, c, M, a, ts, k), c.version)
  }

  /** The loop over T stamps exactly the edges its neighbours lead to, once
    * each. */
  lemma {:induction false} StampsUpToAs(g: GraphState, c: Pass, M: seq<LineId>, a: Around, ts: seq<LineId>, n: nat)
    requires WellFormed(g) && n <= |ts|
    ensures StampedPer(g, StampsUpTo(g, c, M, a, ts, n), c, M, a, ts[..n])
  {
    if n > 0 {
      var h := StampsUpTo(g, c, M, a, ts, n - 1);
      StampsUpToAs(g, c, M, a, ts, n - 1);
      StampsUpToRestamps(g, c, M, a, ts, n - 1);
      RestampsOnlyVersions(g, h, c.version);
      assert ts[..n] == ts[..n - 1] + [ts[n - 1]];
      StampsPerNext(g, h, c, M, a, ts[..n - 1], ts[n - 1]);
    }
  }

  lemma StampsPerNext(g: GraphState, h: GraphState, c: Pass, M: seq<LineId>, a: Around, pre: seq<LineId>, t: LineId)
    requires OnlyVersionsDiffer(g, h) && StampedPer(g, h, c, M, a, pre)
    ensures StampedPer(g, StampFor(h, c, M, a, t), c, M, a, pre + [t])
  {
    StampTargetSame(g, h, c, M, a, t);
    StampForSize(h, c, M, a, t);
    var r := StampFor(h, c, M, a, t);
    forall k | 0 <= k < |g.edges|
      ensures r.edges[k] == StampIf(g.edges[k], HitIn(g, c, M, a, pre + [t], k), c.version)
    {
      HitInSnoc(g, c, M, a, pre, t, k);
      StampForAt(g, h, c, M, a, t, k, HitIn(g, c, M, a, pre, k), StampTarget(g, c, M, a, t));
    }
  }

  lemma StampForSize(h: GraphState, c: Pass, M: seq<LineId>, a: Around, t: LineId)
    ensures |StampFor(h, c, M, a, t).edges| == |h.edges|
  {
    match StampTarget(h, c, M, a, t)
    case None =>
    case Some(e) =>
  }

  /** One step on an edge already stamped as `hit` says. */
  lemma StampForAt(g: GraphState, h: GraphState, c: Pass, M: seq<LineId>, a: Around, t: LineId, k: EdgeId, hit: bool, target: Option<EdgeId>)
    requires k < |g.edges| == |h.edges| && h.edges[k] == StampIf(g.edges[k], hit, c.version)
    requires StampTarget(h, c, M, a, t) == target
    ensures StampFor(h, c, M, a, t).edges[k] == StampIf(g.edges[k], hit || target == Some(k), c.version)
  {
    StampIdempotent(g.edges[k], c.version);
    match target
    case None =>
      assert StampFor(h, c, M, a, t) == h;
    case Some(e) =>
      assert StampFor(h, c, M, a, t) == StampEdge(h, e, c.version);
  }

  /** Some ICFG line of `ns` that has a partner has a neighbour leading to
    * edge `k`. */
  predicate PairHit(g: GraphState, c: Pass, p: Pairs, ns: seq<LineId>, k: EdgeId)
  {
    exists nDash | nDash in ns && nDash in p.matched ::
      HitIn(g, c, p.m, AroundPair(c, nDash, p.matched[nDash]), PredLines(c.icfg, nDash) + SuccLines(c.icfg, nDash), k)
  }

  lemma PairHitSnoc(g: GraphState, c: Pass, p: Pairs, ns: seq<LineId>, nDash: LineId, k: EdgeId)
    ensures PairHit(g, c, p, ns + [nDash], k) ==
      (PairHit(g, c, p, ns, k) ||
       (nDash in p.matched &&
        HitIn(g, c, p.m, AroundPair(c, nDash, p.matched[nDash]), PredLines(c.icfg, nDash) + SuccLines(c.icfg, nDash), k)))
  {
    if PairHit(g, c, p, ns + [nDash], k) {
      var x :| x in ns + [nDash] && x in p.matched &&
        HitIn(g, c, p.m, AroundPair(c, x, p.matched[x]), PredLines(c.icfg, x) + SuccLines(c.icfg, x), k);
      if x != nDash {
        assert x in ns;
      }
    }
    if PairHit(g, c, p, ns, k) {
      var x :| x in ns && x in p.matched &&
        HitIn(g, c, p.m, AroundPair(c, x, p.matched[x]), PredLines(c.icfg, x) + SuccLines(c.icfg, x), k);
      assert x in ns + [nDash];
    }
    assert nDash in ns + [nDash];
  }

  /** Every edge of `r` is edge `k` of `g`, stamped exactly when a
    * neighbour of some ICFG line in `ns` leads to it. */
  predicate PairsPer(g: GraphState, r: GraphState, c: Pass, p: Pairs, ns: seq<LineId>)
  {
    |r.edges| == |g.edges| &&
    forall k | 0 <= k < |g.edges| :: r.edges[k] == StampIf(g.edges[k], PairHit(g, c, p, ns, k), c.version)
  }

  /** The loop over the pairs stamps exactly the edges the neighbours of
    * the walked ICFG lines lead to, once each. */
  lemma {:induction false} StampedPairsAs(g: GraphState, c: Pass, p: Pairs, ks: seq<LineId>, n: nat)
    requires WellFormed(g) && n <= |ks|
    ensures PairsPer(g, StampedPairsUpTo(g, c, p, ks, n), c, p, ks[..n])
  {
    if n > 0 {
      var nDash := ks[n - 1];
      var h := StampedPairsUpTo(g, c, p, ks, n - 1);
      StampedPairsAs(g, c, p, ks, n - 1);
      StampedPairsRestamps(g, c, p, ks, n - 1);
      RewiredWellFormed(g, h, c.version);
      RestampsOnlyVersions(g, h, c.version);
      assert ks[..n] == ks[..n - 1] + [nDash];
      if nDash in p.matched {
        PairsPerMatched(g, h, c, p, ks[..n - 1], nDash);
      } else {
        PairsPerUnmatched(g, h, c, p, ks[..n - 1], nDash);
      }
    }
  }

  lemma PairsPerMatched(g: GraphState, h: GraphState, c: Pass, p: Pairs, pre: seq<LineId>, nDash: LineId)
    requires WellFormed(h) && OnlyVersionsDiffer(g, h) && PairsPer(g, h, c, p, pre) && nDash in p.matched
    ensures PairsPer(g, StampedPair(h, c, p.m, nDash, p.matched[nDash]), c, p, pre + [nDash])
  {
    var a := AroundPair(c, nDash, p.matched[nDash]);
    var ts := a.pred + a.succ;
    StampsUpToAs(h, c, p.m, a, ts, |ts|);
    assert ts[..|ts|] == ts;
    var r := StampedPair(h, c, p.m, nDash, p.matched[nDash]);
    assert StampedPer(h, r, c, p.m, a, ts);
    forall k | 0 <= k < |g.edges|
      ensures r.edges[k] == StampIf(g.edges[k], PairHit(g, c, p, pre + [nDash], k), c.version)
    {
      HitInSame(g, h, c, p.m, a, ts, k);
      PairHitSnoc(g, c, p, pre, nDash, k);
      StampIdempotent(g.edges[k], c.version);
    }
  }

  lemma PairsPerUnmatched(g: GraphState, h: GraphState, c: Pass, p: Pairs, pre: seq<LineId>, nDash: LineId)
    requires PairsPer(g, h, c, p, pre) && nDash !in p.matched
    ensures PairsPer(g, h, c, p, pre + [nDash])
  {
    forall k | 0 <= k < |g.edges|
      ensures h.edges[k] == StampIf(g.edges[k], PairHit(g, c, p, pre + [nDash], k), c.version)
    {
      PairHitSnoc(g, c, p, pre, nDash, k);
    }
  }

  /** Edge `k` is one that matchedInMVICFG expects: some ICFG line nDash of
    * the map has a predecessor or successor t for which StampTarget finds
    * edge `k` between nDash's partner and t's match. */
  predicate MatchedHit(g: GraphState, c: Pass, k: EdgeId)
  {
    var p := MatchedPairs(g, c);
    exists nDash | nDash in p.matched ::
      HitIn(g, c, p.m, AroundPair(c, nDash, p.matched[nDash]), PredLines(c.icfg, nDash) + SuccLines(c.icfg, nDash), k)
  }

  /** matchedInMVICFG gives the version to exactly the edges it expects,
    * and leaves every other edge as it was. */
  lemma MatchedEdges(g: GraphState, c: Pass)
    requires WellFormed(g)
    ensures |Matched(g, c).edges| == |g.edges|
    ensures forall k | 0 <= k < |g.edges| :: Matched(g, c).edges[k] == StampIf(g.edges[k], MatchedHit(g, c, k), c.version)
  {
    var p := MatchedPairs(g, c);
    var ks := AscendingIds(p.matched.Keys);
    MatchedPer(g, c, p, ks);
    PairsPerAll(g, Matched(g, c), c, p, ks);
  }

  lemma MatchedPer(g: GraphState, c: Pass, p: Pairs, ks: seq<LineId>)
    requires WellFormed(g) && p == MatchedPairs(g, c) && ks == AscendingIds(p.matched.Keys)
    ensures PairsPer(g, Matched(g, c), c, p, ks)
  {
    StampedPairsAs(g, c, p, ks, |ks|);
    assert ks[..|ks|] == ks;
  }

  lemma PairsPerAll(g: GraphState, r: GraphState, c: Pass, p: Pairs, ks: seq<LineId>)
    requires p == MatchedPairs(g, c) && PairsPer(g, r, c, p, ks)
    requires forall x :: x in ks <==> x in p.matched
    ensures |r.edges| == |g.edges|
    ensures forall k | 0 <= k < |g.edges| :: r.edges[k] == StampIf(g.edges[k], MatchedHit(g, c, k), c.version)
  {
    forall k | 0 <= k < |g.edges|
      ensures PairHit(g, c, p, ks, k) == MatchedHit(g, c, k)
    {
      PairHitAll(g, c, p, ks, k);
    }
  }

  /** Over all the map's keys, PairHit is MatchedHit. */
  lemma PairHitAll(g: GraphState, c: Pass, p: Pairs, ks: seq<LineId>, k: EdgeId)
    requires p == MatchedPairs(g, c)
    requires forall x :: x in ks <==> x in p.matched
    ensures PairHit(g, c, p, ks, k) == MatchedHit(g, c, k)
  {
    if MatchedHit(g, c, k) {
      var x :| x in p.matched &&
        HitIn(g, c, p.m, AroundPair(c, x, p.matched[x]), PredLines(c.icfg, x) + SuccLines(c.icfg, x), k);
      assert x in ks;
    }
  }

  lemma {:induction false} LineListsSame(g: GraphState, h: GraphState, c: Pass, es: seq<(int, int)>)
    requires OnlyVersionsDiffer(g, h)
    ensures LineLists(h, c, es) == LineLists(g, c, es)
    decreases |es|
  {
    if es != [] {
      LineListsSame(g, h, c, es[..|es| - 1]);
      GraphLinesGivenLineSame(g, h, es[|es| - 1].0, c.diff.fileName);
    }
  }

  /** Running matchedInMVICFG a second time changes nothing: the pairs are
    * found again and every edge it expects already has the version. */
  lemma MatchedIdempotent(g: GraphState, c: Pass)
    requires WellFormed(g)
    ensures Matched(Matched(g, c), c) == Matched(g, c)
  {
    var r := Matched(g, c);
    MatchedOnlyVersions(g, c);
    MatchedEdges(g, c);
    MatchedEdges(r, c);
    var r2 := Matched(r, c);
    MatchedOnlyVersions(r, c);
    forall k | 0 <= k < |r.edges|
      ensures r2.edges[k] == r.edges[k]
    {
      MatchedHitSame(g, r, c, k);
      StampIdempotent(g.edges[k], c.version);
    }
    assert r2.edges == r.edges;
  }

  /** matchedInMVICFG changes only edge versions, and finds the same pairs
    * again on its own result. */
  lemma MatchedOnlyVersions(g: GraphState, c: Pass)
    requires WellFormed(g)
    ensures OnlyVersionsDiffer(g, Matched(g, c)) && WellFormed(Matched(g, c))
    ensures MatchedPairs(Matched(g, c), c) == MatchedPairs(g, c)
  {
    var r := Matched(g, c);
    var p := MatchedPairs(g, c);
    var ks := AscendingIds(p.matched.Keys);
    StampedPairsRestamps(g, c, p, ks, |ks|);
    RewiredWellFormed(g, r, c.version);
    RestampsOnlyVersions(g, r, c.version);
    LineListsSame(g, r, c, Entries(c.diff.matchedLines));
  }

  lemma MatchedHitSame(g: GraphState, h: GraphState, c: Pass, k: EdgeId)
    requires OnlyVersionsDiffer(g, h) && MatchedPairs(h, c) == MatchedPairs(g, c)
    ensures MatchedHit(h, c, k) == MatchedHit(g, c, k)
  {
    var p := MatchedPairs(g, c);
    forall nDash | nDash in p.matched
      ensures HitIn(h, c, p.m, AroundPair(c, nDash, p.matched[nDash]), PredLines(c.icfg, nDash) + SuccLines(c.icfg, nDash), k) ==
              HitIn(g, c, p.m, AroundPair(c, nDash, p.matched[nDash]), PredLines(c.icfg, nDash) + SuccLines(c.icfg, nDash), k)
    {
      HitInSame(g, h, c, p.m, AroundPair(c, nDash, p.matched[nDash]), PredLines(c.icfg, nDash) + SuccLines(c.icfg, nDash), k);
    }
  }

  /** matchedInMVICFG: every pair it records comes from one entry of the
    * diff, mvicfgM and the map hold the same ICFG lines; the MVICFG gains
    * no edge and no line changes; an edge has the pass's version afterwards
    * exactly when it had it before or the pass expects it (MatchedHit), and
    * existing edges only gain that version (at most once each, when they
    * had it at most once); the graph stays well-formed. */
  lemma MatchedShape(g: GraphState, c: Pass)
    requires WellFormed(g)
    ensures PairsOk(LineLists(g, c, Entries(c.diff.matchedLines)), MatchedPairs(g, c))
    ensures Restamps(g, Matched(g, c), c.version) && WellFormed(Matched(g, c))
    ensures forall k | 0 <= k < |g.edges| ::
      IsPartOfGraph(Matched(g, c).edges[k], c.version) <==> IsPartOfGraph(g.edges[k], c.version) || MatchedHit(g, c, k)
  {
    var ls := LineLists(g, c, Entries(c.diff.matchedLines));
    PairsUpToOk(ls, |ls|);
    var p := MatchedPairs(g, c);
    var ks := AscendingIds(p.matched.Keys);
    StampedPairsRestamps(g, c, p, ks, |ks|);
    RewiredWellFormed(g, Matched(g, c), c.version);
    MatchedEdges(g, c);
  }

  // ---- matchedInMVICFG on the MVICFG object --------------------------------

  /** The walk over one entry's two line lists. */
  method ZipLines(acc: Pairs, ics: seq<LineId>, mvs: seq<LineId>) returns (p: Pairs)
    requires |ics| == |mvs|
    ensures p == Zip(acc, ics, mvs, |ics|)
  {
    p := acc;
    var j := 0;
    while j < |ics|
      invariant 0 <= j <= |ics| && p == Zip(acc, ics, mvs, j)
    {
      p := Pairs(MapInsert(p.matched, ics[j], mvs[j]), p.m + [ics[j]]);
      j := j + 1;
    }
  }

  /** The body of the first loop of matchedInMVICFG, on entry `e`. */
  method CollectEntry(g: GraphState, c: Pass, e: (int, int), acc: Pairs) returns (p: Pairs)
    ensures p == PairsFor(acc, EntryLists(g, c, e).0, EntryLists(g, c, e).1)
  {
    p := acc;
    var mvs := GraphLinesGivenLine(g, e.0, c.diff.fileName);
    if mvs != [] {
      var ics := GraphLinesGivenLine(c.icfg, e.1, c.diff.fileName);
      if ics != [] && |mvs| == |ics| {
        p := ZipLines(p, ics, mvs);
      }
    }
  }

  lemma PairsUpToNext(ls: seq<(seq<LineId>, seq<LineId>)>, k: nat, acc: Pairs, p: Pairs)
    requires k < |ls| && acc == PairsUpTo(ls, k) && p == PairsFor(acc, ls[k].0, ls[k].1)
    ensures p == PairsUpTo(ls, k + 1)
  {
  }

  lemma {:induction false} LineListsAt(g: GraphState, c: Pass, es: seq<(int, int)>, k: nat)
    requires k < |es|
    ensures LineLists(g, c, es)[k] == EntryLists(g, c, es[k])
    decreases |es|
  {
    if k < |es| - 1 {
      LineListsAt(g, c, es[..|es| - 1], k);
      assert es[..|es| - 1][k] == es[k];
    }
  }

  lemma PairsForSame(a: Pairs, b: Pairs, l: (seq<LineId>, seq<LineId>), m: (seq<LineId>, seq<LineId>))
    requires a == b && l == m
    ensures PairsFor(a, l.0, l.1) == PairsFor(b, m.0, m.1)
  {
  }

  lemma CollectStep(g: GraphState, c: Pass, es: seq<(int, int)>, k: nat, acc: Pairs, p: Pairs)
    requires k < |es| && acc == PairsUpTo(LineLists(g, c, es), k)
    requires p == PairsFor(acc, EntryLists(g, c, es[k]).0, EntryLists(g, c, es[k]).1)
    ensures p == PairsUpTo(LineLists(g, c, es), k + 1)
  {
    var ls := LineLists(g, c, es);
    LineListsAt(g, c, es, k);
    PairsForSame(acc, acc, EntryLists(g, c, es[k]), ls[k]);
    PairsUpToNext(ls, k, acc, p);
  }

  /** One pass of the first loop, on entry `k` of `es`. */
  method CollectNext(g: GraphState, c: Pass, es: seq<(int, int)>, k: nat, acc: Pairs) returns (p: Pairs)
    requires k < |es| && acc == PairsUpTo(LineLists(g, c, es), k)
    ensures p == PairsUpTo(LineLists(g, c, es), k + 1)
  {
    p := CollectEntry(g, c, es[k], acc);
    CollectStep(g, c, es, k, acc, p);
  }

  /** The first loop of matchedInMVICFG, over the entries `es`. */
  method CollectFrom(g: GraphState, c: Pass, es: seq<(int, int)>) returns (p: Pairs)
    ensures p == PairsUpTo(LineLists(g, c, es), |es|)
  {
    p := Pairs(map[], []);
    var k := 0;
    while k < |es|
      invariant 0 <= k <= |es| && p == PairsUpTo(LineLists(g, c, es), k)
    {
      p := CollectNext(g, c, es, k, p);
      k := k + 1;
    }
  }

  /** The first loop of matchedInMVICFG. */
  method CollectMatched(g: GraphState, c: Pass) returns (p: Pairs)
    ensures p == MatchedPairs(g, c)
  {
    p := CollectFrom(g, c, Entries(c.diff.matchedLines));
  }

  /** The body of the loop over T. */
  method StampNeighbour(mv: Graph, c: Pass, M: seq<LineId>, a: Around, t: LineId)
    requires mv.Valid()
    modifies mv`graphEdges
    ensures mv.Valid() && mv.State() == StampFor(old(mv.State()), c, M, a, t)
  {
    if t in M && FileOf(c.icfg, t) == c.diff.fileName {
      var found := FindMatchedLine(mv.State(), c.icfg, t, c.diff);
      if found.Some? {
        var tDash := found.value;
        var mine, theirs := LineOf(mv.State(), a.n).instructions, LineOf(mv.State(), tDash).instructions;
        var checkEdge: Option<EdgeId> := None;
        if t in a.pred {
          checkEdge := GetEdge(mv.State(), Back(theirs), Front(mine), Any);
          if checkEdge.None? {
            checkEdge := GetInBetweenEdge(mv.State(), tDash, a.n);
          }
        } else if t in a.succ {
          checkEdge := GetEdge(mv.State(), Back(mine), Front(theirs), Any);
          if checkEdge.None? {
            checkEdge := GetInBetweenEdge(mv.State(), a.n, tDash);
          }
        }
        if checkEdge.Some? {
          StampGraphEdge(mv, checkEdge.value, c.version);
        }
      }
    }
  }

  /** The loop over T for MVICFG line `n` paired with ICFG line `nDash`. */
  method StampPair(mv: Graph, c: Pass, M: seq<LineId>, nDash: LineId, n: LineId)
    requires mv.Valid()
    modifies mv`graphEdges
    ensures mv.Valid() && mv.State() == StampedPair(old(mv.State()), c, M, nDash, n)
  {
    ghost var g0 := mv.State();
    var pred := PredLines(c.icfg, nDash);
    var succ := SuccLines(c.icfg, nDash);
    var a := Around(n, nDash, pred, succ);
    var ts := pred + succ;
    var j := 0;
    while j < |ts|
      invariant 0 <= j <= |ts| && mv.Valid()
      invariant mv.State() == StampsUpTo(g0, c, M, a, ts, j)
    {
      StampNeighbour(mv, c, M, a, ts[j]);
      j := j + 1;
    }
  }

  /** The second loop of matchedInMVICFG, over the ICFG lines `ks`. */
  method StampPairs(mv: Graph, c: Pass, p: Pairs, ks: seq<LineId>)
    requires mv.Valid()
    modifies mv`graphEdges
    ensures mv.Valid() && mv.State() == StampedPairsUpTo(old(mv.State()), c, p, ks, |ks|)
  {
    ghost var g0 := mv.State();
    var k := 0;
    while k < |ks|
      invariant 0 <= k <= |ks| && mv.Valid()
      invariant mv.State() == StampedPairsUpTo(g0, c, p, ks, k)
    {
      var nDash := ks[k];
      ghost var h := mv.State();
      if nDash in p.matched {
        StampPair(mv, c, p.m, nDash, p.matched[nDash]);
        assert mv.State() == StampedPair(h, c, p.m, nDash, p.matched[nDash]);
      }
      assert mv.State() == StampedPairsUpTo(g0, c, p, ks, k + 1);
      k := k + 1;
    }
  }

  /** matchedInMVICFG: returns matchedGraphLines. */
  method MatchedInMVICFG(mv: Graph, icfg: GraphState, diff: MappingState, version: nat) returns (matched: map<LineId, LineId>)
    requires mv.Valid()
    modifies mv`graphEdges
    ensures mv.Valid() && mv.State() == Matched(old(mv.State()), Pass(icfg, diff, version))
    ensures matched == MatchedPairs(old(mv.State()), Pass(icfg, diff, version)).matched
  {
    var c := Pass(icfg, diff, version);
    var p := CollectMatched(mv.State(), c);
    matched := p.matched;
    StampPairs(mv, c, p, AscendingIds(p.matched.Keys));
  }
}
