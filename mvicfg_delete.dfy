// deleteFromMVICFG (MVICFG.cpp:636-781): every MVICFG line of the diff's
// file carrying a deleted line number is marked deleted at the new version
// (number 0), and each line that survives next to a deleted one is joined
// to the MVICFG lines matching its new neighbours in the ICFG.
module MvicfgDelete {
  import opened Common
  import opened DiffMapping
  import opened GraphEdge
  import opened GraphLine
  import opened Graphs
  import opened MvicfgLookup
  import opened MvicfgWire
  import MvicfgAdd

  // ---- The first loop: marking the deleted lines -----------------------------

  /** setLineNumber(ICFG version, 0) on MVICFG line `l`; a line outside the
    * graph changes nothing. */
  function MarkLine(g: GraphState, v: nat, l: LineId): GraphState
  {
    if l < |g.lines| then WithLineNumber(g, l, v, 0) else g
  }

  /** The loop over the lines found for one deleted number. */
  function MarkLines(g: GraphState, v: nat, ls: seq<LineId>): GraphState
    decreases |ls|
  {
    if ls == [] then g else MarkLine(MarkLines(g, v, ls[..|ls| - 1]), v, ls[|ls| - 1])
  }

  /** The loop over the deleted numbers: the lines carrying each are looked
    * up in the graph as it is at that point. */
  function MarkAll(g: GraphState, c: Pass, nums: seq<int>): GraphState
    decreases |nums|
  {
    if nums == [] then g
    else
      var h := MarkAll(g, c, nums[..|nums| - 1]);
      MarkLines(h, c.icfg.version, GraphLinesGivenLine(h, nums[|nums| - 1], c.diff.fileName))
  }

  /** N: the lines the first loop marks, in order. */
  function MarkedLines(g: GraphState, c: Pass, nums: seq<int>): seq<LineId>
    decreases |nums|
  {
    if nums == [] then []
    else
      var h := MarkAll(g, c, nums[..|nums| - 1]);
      MarkedLines(g, c, nums[..|nums| - 1]) + GraphLinesGivenLine(h, nums[|nums| - 1], c.diff.fileName)
  }

  /** `r` is `g` with every line of `ls` given number 0 at version `v` (a
    * line that already has a number there keeps it, as setLineNumber is a
    * map insert) and nothing else changed. */
  predicate Marks(g: GraphState, r: GraphState, v: nat, ls: seq<LineId>)
  {
    r.(lines := g.lines) == g && |r.lines| == |g.lines| &&
    forall l | 0 <= l < |g.lines| :: r.lines[l] == if l in ls then g.lines[l].WithLineNumber(v, 0) else g.lines[l]
  }

  lemma MarkLineStep(g: GraphState, v: nat, l: LineId)
    ensures Marks(g, MarkLine(g, v, l), v, [l])
  {
  }

  lemma MarksRefl(g: GraphState, v: nat)
    ensures Marks(g, g, v, [])
  {
  }

  lemma MarksTrans(g: GraphState, h: GraphState, r: GraphState, v: nat, a: seq<LineId>, b: seq<LineId>)
    requires Marks(g, h, v, a) && Marks(h, r, v, b)
    ensures Marks(g, r, v, a + b)
  {
    forall l | 0 <= l < |g.lines|
      ensures r.lines[l] == if l in a + b then g.lines[l].WithLineNumber(v, 0) else g.lines[l]
    {
      if l in a && l in b {
        SetTwice(g.lines[l], v, 0, 0);
      }
    }
  }

  lemma {:induction false} MarkLinesShape(g: GraphState, v: nat, ls: seq<LineId>)
    ensures Marks(g, MarkLines(g, v, ls), v, ls)
    decreases |ls|
  {
    if ls == [] {
      MarksRefl(g, v);
    } else {
      var init := ls[..|ls| - 1];
      var h := MarkLines(g, v, init);
      MarkLinesShape(g, v, init);
      MarkLineStep(h, v, ls[|ls| - 1]);
      MarksTrans(g, h, MarkLine(h, v, ls[|ls| - 1]), v, init, [ls[|ls| - 1]]);
      SplitLast(ls);
    }
  }

  /** The first loop marks exactly the lines it collects in N. */
  lemma {:induction false} MarkAllShape(g: GraphState, c: Pass, nums: seq<int>)
    ensures Marks(g, MarkAll(g, c, nums), c.icfg.version, MarkedLines(g, c, nums))
    decreases |nums|
  {
    if nums == [] {
      MarksRefl(g, c.icfg.version);
    } else {
      var init := nums[..|nums| - 1];
      var h := MarkAll(g, c, init);
      var found := GraphLinesGivenLine(h, nums[|nums| - 1], c.diff.fileName);
      MarkAllShape(g, c, init);
      MarkLinesShape(h, c.icfg.version, found);
      MarksTrans(g, h, MarkLines(h, c.icfg.version, found), c.icfg.version, MarkedLines(g, c, init), found);
    }
  }

  /** Marking changes line numbers only, so the graph stays well-formed. */
  lemma MarksWellFormed(g: GraphState, r: GraphState, v: nat, ls: seq<LineId>)
    requires WellFormed(g) && Marks(g, r, v, ls)
    ensures WellFormed(r)
  {
    forall l | 0 <= l < |r.lines|
      ensures r.lines[l].instructions == g.lines[l].instructions && r.lines[l].func == g.lines[l].func
    {
    }
  }

  /** A marked line reads 0 at the new version unless it had a number there
    * already; its numbers at the other versions are as they were. */
  lemma MarkedReads(g: GraphState, r: GraphState, v: nat, ls: seq<LineId>, l: LineId, w: nat)
    requires Marks(g, r, v, ls) && l in ls && l < |g.lines|
    ensures NumberOf(r, l, v) == (if v in g.lines[l].numbers then NumberOf(g, l, v) else 0)
    ensures w != v ==> NumberOf(r, l, w) == NumberOf(g, l, w)
  {
    SetThenGet(g.lines[l], v, 0, w);
  }

  /** Marking writes 0 only where a line has no number at that version, and
    * a missing number reads 0, so no line reads a different number at any
    * version. */
  lemma MarksKeepNumbers(g: GraphState, r: GraphState, v: nat, ls: seq<LineId>, l: LineId, w: nat)
    requires Marks(g, r, v, ls)
    ensures NumberOf(r, l, w) == NumberOf(g, l, w)
  {
    if l < |g.lines| && l in ls {
      SetThenGet(g.lines[l], v, 0, w);
    }
  }

  lemma {:induction false} MarksKeepNumbered(g: GraphState, r: GraphState, v: nat, ls: seq<LineId>, xs: seq<LineId>, w: nat, n: int)
    requires Marks(g, r, v, ls)
    ensures NumberedLines(r, xs, w, n) == NumberedLines(g, xs, w, n)
    decreases |xs|
  {
    if xs != [] {
      MarksKeepNumbers(g, r, v, ls, xs[0], w);
      MarksKeepNumbered(g, r, v, ls, xs[1..], w, n);
    }
  }

  /** Marking changes no getGraphLinesGivenLine lookup. */
  lemma {:induction false} MarksKeepLookup(g: GraphState, r: GraphState, v: nat, ls: seq<LineId>, fs: seq<FuncId>, lineNo: int, fileName: string)
    requires Marks(g, r, v, ls)
    ensures LinesGivenLineIn(r, fs, lineNo, fileName) == LinesGivenLineIn(g, fs, lineNo, fileName)
    decreases |fs|
  {
    if fs != [] {
      assert r.funcs == g.funcs && r.version == g.version;
      assert FuncOf(r, fs[0]) == FuncOf(g, fs[0]);
      MarksKeepNumbered(g, r, v, ls, FuncOf(g, fs[0]).lines, g.version, lineNo);
      MarksKeepLookup(g, r, v, ls, fs[1..], lineNo, fileName);
    }
  }

  /** Each deleted number is looked up in the graph as marked so far, which
    * answers as the unmarked graph does: N is the lines of the file found
    * for the deleted numbers, in order, as the add pass finds them. */
  lemma {:induction false} MarkedLinesFound(g: GraphState, c: Pass, nums: seq<int>)
    ensures MarkedLines(g, c, nums) == MvicfgAdd.FoundLines(g, nums, c.diff.fileName)
    decreases |nums|
  {
    if nums != [] {
      var init := nums[..|nums| - 1];
      var h := MarkAll(g, c, init);
      MarkedLinesFound(g, c, init);
      MarkAllShape(g, c, init);
      assert h.functions == g.functions;
      MarksKeepLookup(g, h, c.icfg.version, MarkedLines(g, c, init), g.functions, nums[|nums| - 1], c.diff.fileName);
    }
  }

  /** N holds only lines of registered functions of the diff's file whose
    * number at the MVICFG's version is a deleted line, and a deleted number
    * that some such line carries is never skipped. */
  lemma MarkedLinesAre(g: GraphState, c: Pass, nums: seq<int>)
    ensures forall l | l in MarkedLines(g, c, nums) ::
      InFileFunction(g, g.functions, c.diff.fileName, None, l) && NumberOf(g, l, g.version) as int in nums
    ensures forall l | InFileFunction(g, g.functions, c.diff.fileName, None, l) && NumberOf(g, l, g.version) as int in nums ::
      MarkedLines(g, c, nums) != []
  {
    MarkedLinesFound(g, c, nums);
    MvicfgAdd.FoundLinesAre(g, nums, c.diff.fileName);
  }

  // ---- The second loop: linking the surviving neighbours -------------------

  /** The MVICFG line for ICFG line mDash: its match, else the line copied
    * for it when mDash carries an added number. */
  function MatchOrAdded(g: GraphState, c: Pass, mDash: LineId): Option<LineId>
  {
    match FindMatchedLine(g, c.icfg, mDash, c.diff)
    case Some(m) => Some(m)
    case None => GetNewlyAdded(g, c.icfg, mDash, c.diff)
  }

  /** The decision for one line mDash of MDash (the ICFG neighbours of
    * nDash, where n is a line next to a deleted one): none outside the diff's file
    * or without an MVICFG line m. A predecessor is joined from m's last
    * instruction to n's first, typed after the ICFG edge from mDash's first
    * instruction to nDash's last (else MVICFG_DEL); a successor from n's last
    * instruction to m's first, typed after the ICFG edge from nDash's last
    * to mDash's first, else after an edge between the two lines, and else
    * with `uninit`: the source leaves the type uninitialised there. A line
    * of both lists counts as a predecessor. */
  function LinkingFor(g: GraphState, c: Pass, uninit: EdgeType, k: Around, mDash: LineId): Option<Wiring>
  {
    if FileOf(c.icfg, mDash) != c.diff.fileName then None
    else
      match MatchOrAdded(g, c, mDash)
      case None => None
      case Some(m) =>
        var ms, ns := LineOf(g, m).instructions, LineOf(g, k.n).instructions;
        var nDashs, mDashs := LineOf(c.icfg, k.nDash).instructions, LineOf(c.icfg, mDash).instructions;
        if mDash in k.pred then
          Some(Wiring(Back(ms), Front(ns), TypeFrom(c.icfg, Front(mDashs), Back(nDashs), mDash, k.nDash, MvicfgDel)))
        else if mDash in k.succ then
          Some(Wiring(Back(ns), Front(ms), TypeFrom(c.icfg, Back(nDashs), Front(mDashs), k.nDash, mDash, uninit)))
        else None
  }

  /** The body of the loop over MDash: the link chosen for mDash, if any. */
  function LinkFor(g: GraphState, c: Pass, uninit: EdgeType, k: Around, mDash: LineId): GraphState
  {
    match LinkingFor(g, c, uninit, k, mDash)
    case None => g
    case Some(w) => Link(g, w.from, w.to, c.version, w.kind)
  }

  /** The loop over MDash, in order. */
  function LinksFor(g: GraphState, c: Pass, uninit: EdgeType, k: Around, ms: seq<LineId>): GraphState
    decreases |ms|
  {
    if ms == [] then g else LinkFor(LinksFor(g, c, uninit, k, ms[..|ms| - 1]), c, uninit, k, ms[|ms| - 1])
  }

  /** The body of the loop over T: when neighbour `t` is a deleted line and
    * `n` lies in the diff's file and matches an ICFG line nDash, n is linked
    * along nDash's neighbours (once per deleted neighbour). Without a match
    * nothing happens, whatever n's number. */
  function ForNeighbour(g: GraphState, c: Pass, uninit: EdgeType, N: seq<LineId>, n: LineId, t: LineId): GraphState
  {
    if t !in N || FileOf(g, n) != c.diff.fileName then g
    else
      match FindMatchedLine(c.icfg, g, n, c.diff)
      case None => g
      case Some(nDash) =>
        var k := Around(n, nDash, PredLines(c.icfg, nDash), SuccLines(c.icfg, nDash));
        LinksFor(g, c, uninit, k, k.pred + k.succ)
  }

  /** The loop over T. */
  function ForNeighbours(g: GraphState, c: Pass, uninit: EdgeType, N: seq<LineId>, n: LineId, ts: seq<LineId>): GraphState
    decreases |ts|
  {
    if ts == [] then g else ForNeighbour(ForNeighbours(g, c, uninit, N, n, ts[..|ts| - 1]), c, uninit, N, n, ts[|ts| - 1])
  }

  /** The body of the loop over a function's lines: a line not in N is
    * looked at through its MVICFG predecessors and successors. */
  function ForLine(g: GraphState, c: Pass, uninit: EdgeType, N: seq<LineId>, n: LineId): GraphState
  {
    if n in N then g else ForNeighbours(g, c, uninit, N, n, PredLines(g, n) + SuccLines(g, n))
  }

  /** The loop over a function's lines. */
  function ForLines(g: GraphState, c: Pass, uninit: EdgeType, N: seq<LineId>, ns: seq<LineId>): GraphState
    decreases |ns|
  {
    if ns == [] then g else ForLine(ForLines(g, c, uninit, N, ns[..|ns| - 1]), c, uninit, N, ns[|ns| - 1])
  }

  /** The body of the loop over the MVICFG's functions: only functions of
    * the diff's file. */
  function ForFunction(g: GraphState, c: Pass, uninit: EdgeType, N: seq<LineId>, f: FuncId): GraphState
  {
    if FuncOf(g, f).file != c.diff.fileName then g else ForLines(g, c, uninit, N, FuncOf(g, f).lines)
  }

  /** The loop over the MVICFG's functions. */
  function ForFunctions(g: GraphState, c: Pass, uninit: EdgeType, N: seq<LineId>, fs: seq<FuncId>): GraphState
    decreases |fs|
  {
    if fs == [] then g else ForFunction(ForFunctions(g, c, uninit, N, fs[..|fs| - 1]), c, uninit, N, fs[|fs| - 1])
  }

  /** deleteFromMVICFG as a whole: the marking, then the links. */
  function Deleted(g: GraphState, c: Pass, uninit: EdgeType): GraphState
  {
    var h := MarkAll(g, c, c.diff.deletedLines);
    ForFunctions(h, c, uninit, MarkedLines(g, c, c.diff.deletedLines), h.functions)
  }

  // ---- What the second loop does ---------------------------------------------

  /** One line of MDash at most links one pair: afterwards an edge joins
    * the chosen instructions; it is new, of the chosen type and the pass's
    * version, exactly when none joined them before (an existing edge is
    * left as it is); besides, only edges change. */
  lemma LinkForEffect(g: GraphState, c: Pass, uninit: EdgeType, k: Around, mDash: LineId)
    requires WellFormed(g)
    ensures var r := LinkFor(g, c, uninit, k, mDash);
      Appends(g, r, c.version) &&
      (LinkingFor(g, c, uninit, k, mDash).None? ==> r == g) &&
      (LinkingFor(g, c, uninit, k, mDash).Some? ==>
         var w := LinkingFor(g, c, uninit, k, mDash).value;
         w.from < |g.insts| && w.to < |g.insts| ==>
           (exists e | e in InstOf(r, w.from).edges :: EdgeFits(r, e, w.from, w.to, Any)) &&
           (GetEdge(g, w.from, w.to, Any).Some? ==> r == g) &&
           (GetEdge(g, w.from, w.to, Any).None? ==> r.edges == g.edges + [Edge(w.from, w.to, w.kind, [c.version])]))
  {
    match LinkingFor(g, c, uninit, k, mDash)
    case None =>
      AppendsRefl(g, c.version);
    case Some(w) =>
      LinkAppends(g, w.from, w.to, c.version, w.kind);
      if w.from < |g.insts| && w.to < |g.insts| {
        LinkEffect(g, w.from, w.to, c.version, w.kind);
      }
  }

  lemma LinksForNext(g0: GraphState, c: Pass, uninit: EdgeType, k: Around, done: seq<LineId>, next: seq<LineId>, m: LineId,
                     h: GraphState, r: GraphState)
    requires next == done + [m] && h == LinksFor(g0, c, uninit, k, done) && r == LinkFor(h, c, uninit, k, m)
    ensures r == LinksFor(g0, c, uninit, k, next)
  {
    assert next[..|done|] == done;
  }

  lemma {:induction false} LinksForAppends(g: GraphState, c: Pass, uninit: EdgeType, k: Around, ms: seq<LineId>)
    requires WellFormed(g)
    ensures Appends(g, LinksFor(g, c, uninit, k, ms), c.version)
    decreases |ms|
  {
    if ms == [] {
      AppendsRefl(g, c.version);
    } else {
      var init := ms[..|ms| - 1];
      var h := LinksFor(g, c, uninit, k, init);
      LinksForAppends(g, c, uninit, k, init);
      RewiredWellFormed(g, h, c.version);
      LinkForEffect(h, c, uninit, k, ms[|ms| - 1]);
      AppendsTrans(g, h, LinkFor(h, c, uninit, k, ms[|ms| - 1]), c.version);
    }
  }

  lemma ForNeighbourAppends(g: GraphState, c: Pass, uninit: EdgeType, N: seq<LineId>, n: LineId, t: LineId)
    requires WellFormed(g)
    ensures Appends(g, ForNeighbour(g, c, uninit, N, n, t), c.version)
  {
    if t !in N || FileOf(g, n) != c.diff.fileName {
      AppendsRefl(g, c.version);
    } else {
      match FindMatchedLine(c.icfg, g, n, c.diff)
      case None =>
        AppendsRefl(g, c.version);
      case Some(nDash) =>
        var k := Around(n, nDash, PredLines(c.icfg, nDash), SuccLines(c.icfg, nDash));
        LinksForAppends(g, c, uninit, k, k.pred + k.succ);
    }
  }

  lemma ForNeighboursNext(g0: GraphState, c: Pass, uninit: EdgeType, N: seq<LineId>, n: LineId, done: seq<LineId>,
                          next: seq<LineId>, t: LineId, h: GraphState, r: GraphState)
    requires next == done + [t] && h == ForNeighbours(g0, c, uninit, N, n, done) && r == ForNeighbour(h, c, uninit, N, n, t)
    ensures r == ForNeighbours(g0, c, uninit, N, n, next)
  {
    assert next[..|done|] == done;
  }

  lemma {:induction false} ForNeighboursAppends(g: GraphState, c: Pass, uninit: EdgeType, N: seq<LineId>, n: LineId, ts: seq<LineId>)
    requires WellFormed(g)
    ensures Appends(g, ForNeighbours(g, c, uninit, N, n, ts), c.version)
    decreases |ts|
  {
    if ts == [] {
      AppendsRefl(g, c.version);
    } else {
      var init := ts[..|ts| - 1];
      var h := ForNeighbours(g, c, uninit, N, n, init);
      ForNeighboursAppends(g, c, uninit, N, n, init);
      RewiredWellFormed(g, h, c.version);
      ForNeighbourAppends(h, c, uninit, N, n, ts[|ts| - 1]);
      AppendsTrans(g, h, ForNeighbour(h, c, uninit, N, n, ts[|ts| - 1]), c.version);
    }
  }

  lemma ForLineAppends(g: GraphState, c: Pass, uninit: EdgeType, N: seq<LineId>, n: LineId)
    requires WellFormed(g)
    ensures Appends(g, ForLine(g, c, uninit, N, n), c.version)
  {
    if n in N {
      AppendsRefl(g, c.version);
    } else {
      ForNeighboursAppends(g, c, uninit, N, n, PredLines(g, n) + SuccLines(g, n));
    }
  }

  lemma ForLinesNext(g0: GraphState, c: Pass, uninit: EdgeType, N: seq<LineId>, done: seq<LineId>, next: seq<LineId>, n: LineId,
                     h: GraphState, r: GraphState)
    requires next == done + [n] && h == ForLines(g0, c, uninit, N, done) && r == ForLine(h, c, uninit, N, n)
    ensures r == ForLines(g0, c, uninit, N, next)
  {
    assert next[..|done|] == done;
  }

  lemma {:induction false} ForLinesAppends(g: GraphState, c: Pass, uninit: EdgeType, N: seq<LineId>, ns: seq<LineId>)
    requires WellFormed(g)
    ensures Appends(g, ForLines(g, c, uninit, N, ns), c.version)
    decreases |ns|
  {
    if ns == [] {
      AppendsRefl(g, c.version);
    } else {
      var init := ns[..|ns| - 1];
      var h := ForLines(g, c, uninit, N, init);
      ForLinesAppends(g, c, uninit, N, init);
      RewiredWellFormed(g, h, c.version);
      ForLineAppends(h, c, uninit, N, ns[|ns| - 1]);
      AppendsTrans(g, h, ForLine(h, c, uninit, N, ns[|ns| - 1]), c.version);
    }
  }

  lemma ForFunctionAppends(g: GraphState, c: Pass, uninit: EdgeType, N: seq<LineId>, f: FuncId)
    requires WellFormed(g)
    ensures Appends(g, ForFunction(g, c, uninit, N, f), c.version)
  {
    if FuncOf(g, f).file != c.diff.fileName {
      AppendsRefl(g, c.version);
    } else {
      ForLinesAppends(g, c, uninit, N, FuncOf(g, f).lines);
    }
  }

  lemma ForFunctionsNext(g0: GraphState, c: Pass, uninit: EdgeType, N: seq<LineId>, done: seq<FuncId>, next: seq<FuncId>, f: FuncId,
                         h: GraphState, r: GraphState)
    requires next == done + [f] && h == ForFunctions(g0, c, uninit, N, done) && r == ForFunction(h, c, uninit, N, f)
    ensures r == ForFunctions(g0, c, uninit, N, next)
  {
    assert next[..|done|] == done;
  }

  /** The second loop only adds edges, all of the pass's version, between
    * instructions that exist; every edge the graph had stays as it was. */
  lemma {:induction false} ForFunctionsAppends(g: GraphState, c: Pass, uninit: EdgeType, N: seq<LineId>, fs: seq<FuncId>)
    requires WellFormed(g)
    ensures Appends(g, ForFunctions(g, c, uninit, N, fs), c.version)
    decreases |fs|
  {
    if fs == [] {
      AppendsRefl(g, c.version);
    } else {
      var init := fs[..|fs| - 1];
      var h := ForFunctions(g, c, uninit, N, init);
      ForFunctionsAppends(g, c, uninit, N, init);
      RewiredWellFormed(g, h, c.version);
      ForFunctionAppends(h, c, uninit, N, fs[|fs| - 1]);
      AppendsTrans(g, h, ForFunction(h, c, uninit, N, fs[|fs| - 1]), c.version);
    }
  }

  /** deleteFromMVICFG: the lines of N are marked deleted at the new version
    * and nothing else about the lines changes; then edges of the pass's
    * version are added, no edge the graph had gains a version, and the
    * result is well-formed. */
  lemma DeletedShape(g: GraphState, c: Pass, uninit: EdgeType)
    requires WellFormed(g)
    ensures var N := MarkedLines(g, c, c.diff.deletedLines);
      var h := MarkAll(g, c, c.diff.deletedLines);
      var r := Deleted(g, c, uninit);
      Marks(g, h, c.icfg.version, N) && Appends(h, r, c.version) && WellFormed(r) && r.lines == h.lines
    ensures var N := MarkedLines(g, c, c.diff.deletedLines);
      forall l | l in N ::
        InFileFunction(g, g.functions, c.diff.fileName, None, l) && NumberOf(g, l, g.version) as int in c.diff.deletedLines
    ensures forall l | InFileFunction(g, g.functions, c.diff.fileName, None, l) && NumberOf(g, l, g.version) as int in c.diff.deletedLines ::
      MarkedLines(g, c, c.diff.deletedLines) != []
  {
    var N := MarkedLines(g, c, c.diff.deletedLines);
    var h := MarkAll(g, c, c.diff.deletedLines);
    MarkedLinesAre(g, c, c.diff.deletedLines);
    MarkAllShape(g, c, c.diff.deletedLines);
    MarksWellFormed(g, h, c.icfg.version, N);
    ForFunctionsAppends(h, c, uninit, N, h.functions);
    RewiredWellFormed(h, Deleted(g, c, uninit), c.version);
  }

  // ---- deleteFromMVICFG on the MVICFG object -------------------------------

  lemma MarkLinesNext(g0: GraphState, v: nat, done: seq<LineId>, next: seq<LineId>, l: LineId, h: GraphState, r: GraphState)
    requires next == done + [l] && h == MarkLines(g0, v, done) && r == MarkLine(h, v, l)
    ensures r == MarkLines(g0, v, next)
  {
    assert next[..|done|] == done;
  }

  lemma MarkAllNext(g0: GraphState, c: Pass, done: seq<int>, next: seq<int>, n: int, h: GraphState, r: GraphState)
    requires next == done + [n] && h == MarkAll(g0, c, done)
    requires r == MarkLines(h, c.icfg.version, GraphLinesGivenLine(h, n, c.diff.fileName))
    ensures r == MarkAll(g0, c, next)
    ensures MarkedLines(g0, c, next) == MarkedLines(g0, c, done) + GraphLinesGivenLine(h, n, c.diff.fileName)
  {
    assert next[..|done|] == done;
  }

  /** One pass of the loop over the lines found for a deleted number. */
  method MarkGraphLine(mv: Graph, v: nat, ghost g0: GraphState, ghost done: seq<LineId>, ghost next: seq<LineId>, l: LineId)
    requires mv.Valid() && mv.State() == MarkLines(g0, v, done) && next == done + [l]
    modifies mv`lines
    ensures mv.Valid() && mv.State() == MarkLines(g0, v, next)
  {
    ghost var h := mv.State();
    if l < |mv.lines| {
      mv.SetLineNumber(l, v, 0);
    }
    MarkLinesNext(g0, v, done, next, l, h, mv.State());
  }

  method MarkGraphLines(mv: Graph, v: nat, ls: seq<LineId>)
    requires mv.Valid()
    modifies mv`lines
    ensures mv.Valid() && mv.State() == MarkLines(old(mv.State()), v, ls)
  {
    ghost var g0 := mv.State();
    var j := 0;
    while j < |ls|
      invariant 0 <= j <= |ls| && mv.Valid()
      invariant mv.State() == MarkLines(g0, v, ls[..j])
    {
      TakeNext(ls, j);
      MarkGraphLine(mv, v, g0, ls[..j], ls[..j + 1], ls[j]);
      j := j + 1;
    }
    assert ls[..|ls|] == ls;
  }

  /** One pass of the loop over the deleted numbers: the lines carrying `n`
    * are marked and appended to N. */
  method MarkNumber(mv: Graph, c: Pass, ghost g0: GraphState, ghost done: seq<int>, ghost next: seq<int>, n: int, N: seq<LineId>)
    returns (N': seq<LineId>)
    requires mv.Valid() && mv.State() == MarkAll(g0, c, done) && N == MarkedLines(g0, c, done) && next == done + [n]
    modifies mv`lines
    ensures mv.Valid() && mv.State() == MarkAll(g0, c, next) && N' == MarkedLines(g0, c, next)
  {
    var found := GraphLinesGivenLine(mv.State(), n, c.diff.fileName);
    ghost var h := mv.State();
    MarkGraphLines(mv, c.icfg.version, found);
    MarkAllNext(g0, c, done, next, n, h, mv.State());
    N' := N + found;
  }

  /** The first loop of deleteFromMVICFG; returns N. */
  method MarkDeletedLines(mv: Graph, c: Pass) returns (N: seq<LineId>)
    requires mv.Valid()
    modifies mv`lines
    ensures mv.Valid() && mv.State() == MarkAll(old(mv.State()), c, c.diff.deletedLines)
    ensures N == MarkedLines(old(mv.State()), c, c.diff.deletedLines)
    ensures forall l | l in N ::
      InFileFunction(old(mv.State()), old(mv.State()).functions, c.diff.fileName, None, l) &&
      NumberOf(old(mv.State()), l, old(mv.State()).version) as int in c.diff.deletedLines
  {
    ghost var g0 := mv.State();
    MarkedLinesAre(g0, c, c.diff.deletedLines);
    var nums := c.diff.deletedLines;
    N := [];
    var k := 0;
    while k < |nums|
      invariant 0 <= k <= |nums| && mv.Valid()
      invariant mv.State() == MarkAll(g0, c, nums[..k]) && N == MarkedLines(g0, c, nums[..k])
    {
      TakeNext(nums, k);
      N := MarkNumber(mv, c, g0, nums[..k], nums[..k + 1], nums[k], N);
      k := k + 1;
    }
    assert nums[..|nums|] == nums;
  }

  /** The body of the loop over MDash. */
  method LinkLine(mv: Graph, c: Pass, uninit: EdgeType, k: Around, mDash: LineId)
    requires mv.Valid()
    modifies mv`insts, mv`graphEdges
    ensures mv.Valid() && mv.State() == LinkFor(old(mv.State()), c, uninit, k, mDash)
  {
    if FileOf(c.icfg, mDash) == c.diff.fileName {
      var found := FindMatchedLine(mv.State(), c.icfg, mDash, c.diff);
      if found.None? {
        found := GetNewlyAdded(mv.State(), c.icfg, mDash, c.diff);
      }
      assert found == MatchOrAdded(mv.State(), c, mDash);
      if found.Some? {
        LinkMatched(mv, c, uninit, k, mDash, found.value);
      }
    }
  }

  /** The link for mDash once its MVICFG line `m` is known. */
  method LinkMatched(mv: Graph, c: Pass, uninit: EdgeType, k: Around, mDash: LineId, m: LineId)
    requires mv.Valid() && FileOf(c.icfg, mDash) == c.diff.fileName && MatchOrAdded(mv.State(), c, mDash) == Some(m)
    modifies mv`insts, mv`graphEdges
    ensures mv.Valid() && mv.State() == LinkFor(old(mv.State()), c, uninit, k, mDash)
  {
    var ms, ns := LineOf(mv.State(), m).instructions, LineOf(mv.State(), k.n).instructions;
    var nDashs, mDashs := LineOf(c.icfg, k.nDash).instructions, LineOf(c.icfg, mDash).instructions;
    if mDash in k.pred {
      LinkEdge(mv, Back(ms), Front(ns), c.version, TypeFrom(c.icfg, Front(mDashs), Back(nDashs), mDash, k.nDash, MvicfgDel));
    } else if mDash in k.succ {
      LinkEdge(mv, Back(ns), Front(ms), c.version, TypeFrom(c.icfg, Back(nDashs), Front(mDashs), k.nDash, mDash, uninit));
    }
  }

  method LinkStep(mv: Graph, c: Pass, uninit: EdgeType, k: Around, ghost g0: GraphState, ghost done: seq<LineId>, ghost next: seq<LineId>,
                  mDash: LineId)
    requires mv.Valid() && mv.State() == LinksFor(g0, c, uninit, k, done) && next == done + [mDash]
    modifies mv`insts, mv`graphEdges
    ensures mv.Valid() && mv.State() == LinksFor(g0, c, uninit, k, next)
  {
    ghost var h := mv.State();
    LinkLine(mv, c, uninit, k, mDash);
    LinksForNext(g0, c, uninit, k, done, next, mDash, h, mv.State());
  }

  /** The loop over MDash. */
  method LinkLines(mv: Graph, c: Pass, uninit: EdgeType, k: Around, ms: seq<LineId>)
    requires mv.Valid()
    modifies mv`insts, mv`graphEdges
    ensures mv.Valid() && mv.State() == LinksFor(old(mv.State()), c, uninit, k, ms)
  {
    ghost var g0 := mv.State();
    var j := 0;
    while j < |ms|
      invariant 0 <= j <= |ms| && mv.Valid()
      invariant mv.State() == LinksFor(g0, c, uninit, k, ms[..j])
    {
      TakeNext(ms, j);
      LinkStep(mv, c, uninit, k, g0, ms[..j], ms[..j + 1], ms[j]);
      j := j + 1;
    }
    assert ms[..|ms|] == ms;
  }

  /** The body of the loop over T. */
  method LinkNeighbour(mv: Graph, c: Pass, uninit: EdgeType, N: seq<LineId>, n: LineId, t: LineId)
    requires mv.Valid()
    modifies mv`insts, mv`graphEdges
    ensures mv.Valid() && mv.State() == ForNeighbour(old(mv.State()), c, uninit, N, n, t)
  {
    if t in N && FileOf(mv.State(), n) == c.diff.fileName {
      var found := FindMatchedLine(c.icfg, mv.State(), n, c.diff);
      if found.Some? {
        var nDash := found.value;
        var predDash := PredLines(c.icfg, nDash);
        var succDash := SuccLines(c.icfg, nDash);
        LinkLines(mv, c, uninit, Around(n, nDash, predDash, succDash), predDash + succDash);
      }
    }
  }

  method NeighbourStep(mv: Graph, c: Pass, uninit: EdgeType, N: seq<LineId>, n: LineId, ghost g0: GraphState, ghost done: seq<LineId>,
                       ghost next: seq<LineId>, t: LineId)
    requires mv.Valid() && mv.State() == ForNeighbours(g0, c, uninit, N, n, done) && next == done + [t]
    modifies mv`insts, mv`graphEdges
    ensures mv.Valid() && mv.State() == ForNeighbours(g0, c, uninit, N, n, next)
  {
    ghost var h := mv.State();
    LinkNeighbour(mv, c, uninit, N, n, t);
    ForNeighboursNext(g0, c, uninit, N, n, done, next, t, h, mv.State());
  }

  /** The loop over T. */
  method LinkNeighbours(mv: Graph, c: Pass, uninit: EdgeType, N: seq<LineId>, n: LineId, ts: seq<LineId>)
    requires mv.Valid()
    modifies mv`insts, mv`graphEdges
    ensures mv.Valid() && mv.State() == ForNeighbours(old(mv.State()), c, uninit, N, n, ts)
  {
    ghost var g0 := mv.State();
    var j := 0;
    while j < |ts|
      invariant 0 <= j <= |ts| && mv.Valid()
      invariant mv.State() == ForNeighbours(g0, c, uninit, N, n, ts[..j])
    {
      TakeNext(ts, j);
      NeighbourStep(mv, c, uninit, N, n, g0, ts[..j], ts[..j + 1], ts[j]);
      j := j + 1;
    }
    assert ts[..|ts|] == ts;
  }

  /** The body of the loop over a function's lines. */
  method LinkSurvivor(mv: Graph, c: Pass, uninit: EdgeType, N: seq<LineId>, n: LineId)
    requires mv.Valid()
    modifies mv`insts, mv`graphEdges
    ensures mv.Valid() && mv.State() == ForLine(old(mv.State()), c, uninit, N, n)
  {
    if n !in N {
      var pred := PredLines(mv.State(), n);
      var succ := SuccLines(mv.State(), n);
      LinkNeighbours(mv, c, uninit, N, n, pred + succ);
    }
  }

  method SurvivorStep(mv: Graph, c: Pass, uninit: EdgeType, N: seq<LineId>, ghost g0: GraphState, ghost done: seq<LineId>,
                      ghost next: seq<LineId>, n: LineId)
    requires mv.Valid() && mv.State() == ForLines(g0, c, uninit, N, done) && next == done + [n]
    modifies mv`insts, mv`graphEdges
    ensures mv.Valid() && mv.State() == ForLines(g0, c, uninit, N, next)
  {
    ghost var h := mv.State();
    LinkSurvivor(mv, c, uninit, N, n);
    ForLinesNext(g0, c, uninit, N, done, next, n, h, mv.State());
  }

  /** The loop over a function's lines. */
  method LinkSurvivors(mv: Graph, c: Pass, uninit: EdgeType, N: seq<LineId>, ns: seq<LineId>)
    requires mv.Valid()
    modifies mv`insts, mv`graphEdges
    ensures mv.Valid() && mv.State() == ForLines(old(mv.State()), c, uninit, N, ns)
  {
    ghost var g0 := mv.State();
    var j := 0;
    while j < |ns|
      invariant 0 <= j <= |ns| && mv.Valid()
      invariant mv.State() == ForLines(g0, c, uninit, N, ns[..j])
    {
      TakeNext(ns, j);
      SurvivorStep(mv, c, uninit, N, g0, ns[..j], ns[..j + 1], ns[j]);
      j := j + 1;
    }
    assert ns[..|ns|] == ns;
  }

  /** The body of the loop over the MVICFG's functions. */
  method LinkFunction(mv: Graph, c: Pass, uninit: EdgeType, N: seq<LineId>, f: FuncId)
    requires mv.Valid()
    modifies mv`insts, mv`graphEdges
    ensures mv.Valid() && mv.State() == ForFunction(old(mv.State()), c, uninit, N, f)
  {
    var func := FuncOf(mv.State(), f);
    if func.file == c.diff.fileName {
      LinkSurvivors(mv, c, uninit, N, func.lines);
    }
  }

  method FunctionStep(mv: Graph, c: Pass, uninit: EdgeType, N: seq<LineId>, ghost g0: GraphState, ghost done: seq<FuncId>,
                      ghost next: seq<FuncId>, f: FuncId)
    requires mv.Valid() && mv.State() == ForFunctions(g0, c, uninit, N, done) && next == done + [f]
    modifies mv`insts, mv`graphEdges
    ensures mv.Valid() && mv.State() == ForFunctions(g0, c, uninit, N, next)
  {
    ghost var h := mv.State();
    LinkFunction(mv, c, uninit, N, f);
    ForFunctionsNext(g0, c, uninit, N, done, next, f, h, mv.State());
  }

  /** The second loop of deleteFromMVICFG. */
  method LinkFunctions(mv: Graph, c: Pass, uninit: EdgeType, N: seq<LineId>)
    requires mv.Valid()
    modifies mv`insts, mv`graphEdges
    ensures mv.Valid() && mv.State() == ForFunctions(old(mv.State()), c, uninit, N, old(mv.functions))
  {
    ghost var g0 := mv.State();
    var fs := mv.functions;
    var j := 0;
    while j < |fs|
      invariant 0 <= j <= |fs| && mv.Valid()
      invariant mv.State() == ForFunctions(g0, c, uninit, N, fs[..j])
    {
      TakeNext(fs, j);
      FunctionStep(mv, c, uninit, N, g0, fs[..j], fs[..j + 1], fs[j]);
      j := j + 1;
    }
    assert fs[..|fs|] == fs;
  }

  lemma DeletedIs(g: GraphState, c: Pass, uninit: EdgeType, h: GraphState, N: seq<LineId>, r: GraphState)
    requires h == MarkAll(g, c, c.diff.deletedLines) && N == MarkedLines(g, c, c.diff.deletedLines)
    requires r == ForFunctions(h, c, uninit, N, h.functions)
    ensures r == Deleted(g, c, uninit)
  {
  }

  /** deleteFromMVICFG: merges the lines `diff` deletes into the MVICFG, for
    * the ICFG of the new version; returns the marked lines N. `uninit` is
    * the edge type the source leaves uninitialised (see LinkingFor). */
  method DeleteFromMVICFG(mv: Graph, icfg: GraphState, diff: MappingState, version: nat, uninit: EdgeType) returns (N: seq<LineId>)
    requires mv.Valid()
    modifies mv`lines, mv`insts, mv`graphEdges
    ensures mv.Valid() && mv.State() == Deleted(old(mv.State()), Pass(icfg, diff, version), uninit)
    ensures N == MarkedLines(old(mv.State()), Pass(icfg, diff, version), diff.deletedLines)
    ensures forall l | l in N ::
      InFileFunction(old(mv.State()), old(mv.State()).functions, diff.fileName, None, l) &&
      NumberOf(old(mv.State()), l, old(mv.State()).version) as int in diff.deletedLines
  {
    ghost var g := mv.State();
    N := MarkDeletedLines(mv, Pass(icfg, diff, version));
    ghost var h := mv.State();
    LinkFunctions(mv, Pass(icfg, diff, version), uninit, N);
    DeletedIs(g, Pass(icfg, diff, version), uninit, h, N, mv.State());
  }
}
