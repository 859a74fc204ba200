// getEdgesForAddedLines: once a version is merged, every ICFG edge of the
// instructions of its added lines is carried into the MVICFG, when both
// ends of the edge have a counterpart there and no edge of that type joins
// them yet.
module MvicfgAddedEdges {
  import opened Common
  import opened GraphEdge
  import opened GraphInstruction
  import opened Graphs
  import opened MvicfgLookup
  import opened MvicfgWire

  // ---- Lookups read no edges -------------------------------------------------

  /** `g` and `h` agree on everything an instruction search reads: the
    * functions, the lines, and each instruction's label, LLVM instruction
    * and line. */
  predicate SameLookups(g: GraphState, h: GraphState)
  {
    h.version == g.version && h.functions == g.functions && h.funcs == g.funcs && h.lines == g.lines &&
    |h.insts| == |g.insts| &&
    forall i | 0 <= i < |g.insts| ::
      h.insts[i].labelText == g.insts[i].labelText && h.insts[i].ptr == g.insts[i].ptr && h.insts[i].line == g.insts[i].line
  }

  lemma RewiredLooksSame(g: GraphState, h: GraphState, v: nat)
    requires Rewired(g, h, v)
    ensures SameLookups(g, h)
  {
    assert h.version == g.version && h.functions == g.functions && h.funcs == g.funcs && h.lines == g.lines;
    forall i | 0 <= i < |g.insts|
      ensures h.insts[i].labelText == g.insts[i].labelText && h.insts[i].ptr == g.insts[i].ptr && h.insts[i].line == g.insts[i].line
    {
      assert h.insts[i].(edges := g.insts[i].edges) == g.insts[i];
    }
  }

  lemma InstSame(g: GraphState, h: GraphState, i: InstId, v: nat)
    requires SameLookups(g, h)
    ensures InstOf(g, i).ptr == InstOf(h, i).ptr && InstNumber(g, i, v) == InstNumber(h, i, v)
  {
  }

  lemma MatchesSame(g: GraphState, h: GraphState, i: InstId, w: Wanted)
    requires SameLookups(g, h)
    ensures Matches(g, i, w) == Matches(h, i, w)
  {
  }

  lemma {:induction false} FindInInstsSame(g: GraphState, h: GraphState, ins: seq<InstId>, w: Wanted)
    requires SameLookups(g, h)
    ensures FindInInsts(g, ins, w) == FindInInsts(h, ins, w)
    decreases |ins|
  {
    if ins != [] {
      MatchesSame(g, h, ins[0], w);
      FindInInstsSame(g, h, ins[1..], w);
    }
  }

  lemma {:induction false} FindInLinesSame(g: GraphState, h: GraphState, ls: seq<LineId>, w: Wanted)
    requires SameLookups(g, h)
    ensures FindInLines(g, ls, w) == FindInLines(h, ls, w)
    decreases |ls|
  {
    if ls != [] {
      FindInInstsSame(g, h, LineOf(g, ls[0]).instructions, w);
      FindInLinesSame(g, h, ls[1..], w);
    }
  }

  lemma {:induction false} FindInFuncsSame(g: GraphState, h: GraphState, fs: seq<FuncId>, name: Option<string>, w: Wanted)
    requires SameLookups(g, h)
    ensures FindInFuncs(g, fs, name, w) == FindInFuncs(h, fs, name, w)
    decreases |fs|
  {
    if fs != [] {
      FindInLinesSame(g, h, FuncOf(g, fs[0]).lines, w);
      FindInFuncsSame(g, h, fs[1..], name, w);
    }
  }

  /** getMatchedInstructionFromGraph gives the same answer on two graphs that
    * differ only in their edges, whichever of the two roles they play. */
  lemma MatchedSame(g: GraphState, h: GraphState, other: GraphState, inst: InstId)
    requires SameLookups(g, h)
    ensures MatchedInstruction(g, other, inst) == MatchedInstruction(h, other, inst)
    ensures MatchedInstruction(other, g, inst) == MatchedInstruction(other, h, inst)
  {
    FindInFuncsSame(g, h, g.functions, None, MatchKey(g, other, inst));
    InstSame(g, h, inst, other.version);
    assert MatchKey(other, g, inst) == MatchKey(other, h, inst);
  }

  /** A search of a well-formed graph's functions finds an instruction of
    * the graph. */
  lemma MatchedInGraph(target: GraphState, src: GraphState, inst: InstId)
    requires WellFormed(target) && MatchedInstruction(target, src, inst).Some?
    ensures MatchedInstruction(target, src, inst).value < |target.insts|
  {
    MatchedInstructionFinds(target, src, inst);
    var x := MatchedInstruction(target, src, inst).value;
    var k, l :| 0 <= k < |target.functions| && l in FuncOf(target, target.functions[k]).lines && x in LineOf(target, l).instructions;
    var f := target.functions[k];
    assert f < |target.funcs|;
    assert l < |target.lines|;
  }

  // ---- The pass, as functions of the graph value -----------------------------

  /** The MVICFG instructions matching the two ends of ICFG edge `e`, when
    * both have a match, with the edge's type. */
  function Ends(g: GraphState, icfg: GraphState, e: EdgeId): Option<Wiring>
  {
    var d := EdgeOf(icfg, e);
    match MatchedInstruction(g, icfg, d.from)
    case None => None
    case Some(from) =>
      match MatchedInstruction(g, icfg, d.to)
      case None => None
      case Some(to) => Some(Wiring(from, to, d.edgeType))
  }

  /** The body of the loop over edgeDash: a new edge of the ICFG's version
    * unless getEdge finds one of the same type. */
  function CopyEdge(g: GraphState, icfg: GraphState, e: EdgeId): GraphState
  {
    match Ends(g, icfg, e)
    case None => g
    case Some(w) =>
      if w.from < |g.insts| && w.to < |g.insts| && GetEdge(g, w.from, w.to, w.kind).None? then
        WithEdge(g, w.from, w.to, NewEdge(w.from, w.to, w.kind, icfg.version))
      else g
  }

  /** The first `n` passes of the loop over an ICFG instruction's edges. */
  function CopyEdgesUpTo(g: GraphState, icfg: GraphState, es: seq<EdgeId>, n: nat): GraphState
    requires n <= |es|
  {
    if n == 0 then g else CopyEdge(CopyEdgesUpTo(g, icfg, es, n - 1), icfg, es[n - 1])
  }

  /** The body of the loop over a line's instructions: nothing when the
    * instruction has no match in the ICFG; otherwise the loop over the
    * match's edges. */
  function InstEdges(g: GraphState, icfg: GraphState, inst: InstId): GraphState
  {
    var es := MatchEdges(icfg, g, inst);
    CopyEdgesUpTo(g, icfg, es, |es|)
  }

  /** The edges of the ICFG match of MVICFG instruction `inst`; none when
    * it has no match. */
  function MatchEdges(icfg: GraphState, g: GraphState, inst: InstId): seq<EdgeId>
  {
    match MatchedInstruction(icfg, g, inst)
    case None => []
    case Some(d) => InstOf(icfg, d).edges
  }

  function InstsUpTo(g: GraphState, icfg: GraphState, ins: seq<InstId>, n: nat): GraphState
    requires n <= |ins|
  {
    if n == 0 then g else InstEdges(InstsUpTo(g, icfg, ins, n - 1), icfg, ins[n - 1])
  }

  /** The body of the loop over the added lines. */
  function LineEdges(g: GraphState, icfg: GraphState, l: LineId): GraphState
  {
    var ins := LineOf(g, l).instructions;
    InstsUpTo(g, icfg, ins, |ins|)
  }

  function LinesUpTo(g: GraphState, icfg: GraphState, ls: seq<LineId>, n: nat): GraphState
    requires n <= |ls|
  {
    if n == 0 then g else LineEdges(LinesUpTo(g, icfg, ls, n - 1), icfg, ls[n - 1])
  }

  /** getEdgesForAddedLines as a whole. */
  function AddedLineEdges(g: GraphState, icfg: GraphState, added: seq<LineId>): GraphState
  {
    LinesUpTo(g, icfg, added, |added|)
  }

  // ---- What the pass does ----------------------------------------------------

  /** An edge of type `w.kind` from `w.from` to `w.to` is in from's list:
    * getEdge for that type finds one. */
  predicate Joined(g: GraphState, w: Wiring)
  {
    exists e | e in InstOf(g, w.from).edges :: EdgeFits(g, e, w.from, w.to, w.kind)
  }

  /** `r` is the well-formed graph `g` with edges of version `v` appended,
    * and is well-formed. */
  predicate Grows(g: GraphState, r: GraphState, v: nat)
  {
    WellFormed(g) && Appends(g, r, v) && WellFormed(r)
  }

  lemma GrowsRefl(g: GraphState, v: nat)
    requires WellFormed(g)
    ensures Grows(g, g, v)
  {
    AppendsRefl(g, v);
  }

  lemma GrowsTrans(a: GraphState, b: GraphState, c: GraphState, v: nat)
    requires Grows(a, b, v) && Grows(b, c, v)
    ensures Grows(a, c, v)
  {
    AppendsTrans(a, b, c, v);
  }

  lemma GrowsLooksSame(g: GraphState, h: GraphState, v: nat)
    requires Grows(g, h, v)
    ensures SameLookups(g, h)
  {
    RewiredLooksSame(g, h, v);
  }

  /** An edge step keeps every join. */
  lemma JoinedKept(g: GraphState, h: GraphState, w: Wiring, v: nat)
    requires WellFormed(g) && Rewired(g, h, v) && Joined(g, w)
    ensures Joined(h, w)
  {
    var e :| e in InstOf(g, w.from).edges && EdgeFits(g, e, w.from, w.to, w.kind);
    assert w.from < |g.insts|;
    assert e < |g.edges|;
    assert Extends(g.edges[e], h.edges[e]);
    assert e in InstOf(h, w.from).edges;
    assert EdgeFits(h, e, w.from, w.to, w.kind);
  }

  /** Carrying one ICFG edge over only appends an edge, and afterwards the
    * two matches of its ends are joined by an edge of its type. */
  lemma CopyEdgeShape(g: GraphState, icfg: GraphState, e: EdgeId, r: GraphState)
    requires WellFormed(g) && r == CopyEdge(g, icfg, e)
    ensures Grows(g, r, icfg.version)
    ensures Ends(g, icfg, e).Some? ==> Joined(r, Ends(g, icfg, e).value)
  {
    match Ends(g, icfg, e)
    case None =>
      GrowsRefl(g, icfg.version);
    case Some(w) =>
      var d := EdgeOf(icfg, e);
      MatchedInGraph(g, icfg, d.from);
      MatchedInGraph(g, icfg, d.to);
      match GetEdge(g, w.from, w.to, w.kind)
      case Some(x) =>
        GrowsRefl(g, icfg.version);
        assert EdgeFits(g, x, w.from, w.to, w.kind);
      case None =>
        AddedEdgeRewired(g, w.from, w.to, w.kind, icfg.version);
        AddEdgeAppends(g, w.from, w.to, NewEdge(w.from, w.to, w.kind, icfg.version), w.from);
        assert |g.edges| in InstOf(r, w.from).edges;
        assert EdgeFits(r, |g.edges|, w.from, w.to, w.kind);
    RewiredWellFormed(g, r, icfg.version);
  }

  /** The edge added is one of the ICFG's version and the ICFG edge's type,
    * and none is added when getEdge finds one of that type. */
  lemma CopyEdgeEffect(g: GraphState, icfg: GraphState, e: EdgeId)
    requires WellFormed(g)
    ensures var r := CopyEdge(g, icfg, e);
      (Ends(g, icfg, e).None? ==> r == g) &&
      (Ends(g, icfg, e).Some? ==>
         var w := Ends(g, icfg, e).value;
         (GetEdge(g, w.from, w.to, w.kind).Some? ==> r == g) &&
         (GetEdge(g, w.from, w.to, w.kind).None? ==> r.edges == g.edges + [Edge(w.from, w.to, w.kind, [icfg.version])]))
  {
    match Ends(g, icfg, e)
    case None =>
    case Some(w) =>
      MatchedInGraph(g, icfg, EdgeOf(icfg, e).from);
      MatchedInGraph(g, icfg, EdgeOf(icfg, e).to);
  }

  /** Every ICFG edge among the first `n` of `es` whose ends match in `g`
    * (the lookups read no edges, so any graph of the pass will do) joins
    * its matches in `r`. */
  predicate CoversEdges(g: GraphState, icfg: GraphState, es: seq<EdgeId>, n: nat, r: GraphState)
    requires n <= |es|
  {
    forall k | 0 <= k < n :: Ends(g, icfg, es[k]).Some? ==> Joined(r, Ends(g, icfg, es[k]).value)
  }

  lemma CoversEdgesKept(g: GraphState, icfg: GraphState, es: seq<EdgeId>, n: nat, h: GraphState, r: GraphState, v: nat)
    requires n <= |es| && Grows(h, r, v) && CoversEdges(g, icfg, es, n, h)
    ensures CoversEdges(g, icfg, es, n, r)
  {
    forall k | 0 <= k < n && Ends(g, icfg, es[k]).Some?
      ensures Joined(r, Ends(g, icfg, es[k]).value)
    {
      JoinedKept(h, r, Ends(g, icfg, es[k]).value, v);
    }
  }

  lemma EndsSame(g: GraphState, h: GraphState, icfg: GraphState, e: EdgeId)
    requires SameLookups(g, h)
    ensures Ends(g, icfg, e) == Ends(h, icfg, e)
  {
    MatchedSame(g, h, icfg, EdgeOf(icfg, e).from);
    MatchedSame(g, h, icfg, EdgeOf(icfg, e).to);
  }

  lemma SameLookupsTrans(a: GraphState, b: GraphState, c: GraphState)
    requires SameLookups(a, b) && SameLookups(b, c)
    ensures SameLookups(a, c)
  {
  }

  /** The loop over an instruction's ICFG edges only appends edges, keeps
    * the graph well-formed, and joins the matches of every edge it walks. */
  lemma {:induction false} CopyEdgesUpToShape(g: GraphState, icfg: GraphState, es: seq<EdgeId>, n: nat)
    requires WellFormed(g) && n <= |es|
    ensures var r := CopyEdgesUpTo(g, icfg, es, n);
      Grows(g, r, icfg.version) && CoversEdges(g, icfg, es, n, r)
  {
    if n == 0 {
      GrowsRefl(g, icfg.version);
    } else {
      CopyEdgesUpToShape(g, icfg, es, n - 1);
      CopyEdgesNext(g, icfg, es, n, CopyEdgesUpTo(g, icfg, es, n - 1), CopyEdgesUpTo(g, icfg, es, n));
    }
  }

  lemma CopyEdgesNext(g: GraphState, icfg: GraphState, es: seq<EdgeId>, n: nat, h: GraphState, r: GraphState)
    requires 0 < n <= |es| && Grows(g, h, icfg.version) && CoversEdges(g, icfg, es, n - 1, h)
    requires r == CopyEdge(h, icfg, es[n - 1])
    ensures Grows(g, r, icfg.version) && CoversEdges(g, icfg, es, n, r)
  {
    CopyEdgeShape(h, icfg, es[n - 1], r);
    GrowsTrans(g, h, r, icfg.version);
    CoversEdgesKept(g, icfg, es, n - 1, h, r, icfg.version);
    GrowsLooksSame(g, h, icfg.version);
    EndsSame(g, h, icfg, es[n - 1]);
    CoversEdgesStep(g, icfg, es, n, r);
  }

  lemma CoversEdgesStep(g: GraphState, icfg: GraphState, es: seq<EdgeId>, n: nat, r: GraphState)
    requires 0 < n <= |es| && CoversEdges(g, icfg, es, n - 1, r)
    requires Ends(g, icfg, es[n - 1]).Some? ==> Joined(r, Ends(g, icfg, es[n - 1]).value)
    ensures CoversEdges(g, icfg, es, n, r)
  {
  }

  /** Every ICFG edge of the ICFG match of MVICFG instruction `inst` whose
    * two ends match in `g` joins its matches in `r`. */
  predicate CoversInst(g: GraphState, icfg: GraphState, inst: InstId, r: GraphState)
  {
    forall e | e in MatchEdges(icfg, g, inst) :: Ends(g, icfg, e).Some? ==> Joined(r, Ends(g, icfg, e).value)
  }

  lemma CoversInstKept(g: GraphState, icfg: GraphState, inst: InstId, h: GraphState, r: GraphState, v: nat)
    requires Grows(h, r, v) && CoversInst(g, icfg, inst, h)
    ensures CoversInst(g, icfg, inst, r)
  {
    forall e | e in MatchEdges(icfg, g, inst) && Ends(g, icfg, e).Some?
      ensures Joined(r, Ends(g, icfg, e).value)
    {
      JoinedKept(h, r, Ends(g, icfg, e).value, v);
    }
  }

  lemma CoversInstSame(g: GraphState, h: GraphState, icfg: GraphState, inst: InstId, r: GraphState)
    requires SameLookups(g, h) && CoversInst(h, icfg, inst, r)
    ensures CoversInst(g, icfg, inst, r)
  {
    MatchedSame(g, h, icfg, inst);
    assert MatchEdges(icfg, g, inst) == MatchEdges(icfg, h, inst);
    forall e | e in MatchEdges(icfg, g, inst)
      ensures Ends(g, icfg, e) == Ends(h, icfg, e)
    {
      EndsSame(g, h, icfg, e);
    }
  }

  lemma InstEdgesShape(g: GraphState, icfg: GraphState, inst: InstId, r: GraphState)
    requires WellFormed(g) && r == InstEdges(g, icfg, inst)
    ensures Grows(g, r, icfg.version) && CoversInst(g, icfg, inst, r)
  {
    var es := MatchEdges(icfg, g, inst);
    CopyEdgesUpToShape(g, icfg, es, |es|);
    forall e | e in es && Ends(g, icfg, e).Some?
      ensures Joined(r, Ends(g, icfg, e).value)
    {
      var k :| 0 <= k < |es| && es[k] == e;
    }
  }

  predicate CoversInsts(g: GraphState, icfg: GraphState, ins: seq<InstId>, n: nat, r: GraphState)
    requires n <= |ins|
  {
    forall k | 0 <= k < n :: CoversInst(g, icfg, ins[k], r)
  }

  lemma CoversInstsKept(g: GraphState, icfg: GraphState, ins: seq<InstId>, n: nat, h: GraphState, r: GraphState, v: nat)
    requires n <= |ins| && Grows(h, r, v) && CoversInsts(g, icfg, ins, n, h)
    ensures CoversInsts(g, icfg, ins, n, r)
  {
    forall k | 0 <= k < n
      ensures CoversInst(g, icfg, ins[k], r)
    {
      CoversInstKept(g, icfg, ins[k], h, r, v);
    }
  }

  lemma CoversInstsStep(g: GraphState, icfg: GraphState, ins: seq<InstId>, n: nat, r: GraphState)
    requires 0 < n <= |ins| && CoversInsts(g, icfg, ins, n - 1, r) && CoversInst(g, icfg, ins[n - 1], r)
    ensures CoversInsts(g, icfg, ins, n, r)
  {
    forall k | 0 <= k < n
      ensures CoversInst(g, icfg, ins[k], r)
    {
      if k == n - 1 {
        assert ins[k] == ins[n - 1];
      }
    }
  }

  lemma {:induction false} InstsUpToShape(g: GraphState, icfg: GraphState, ins: seq<InstId>, n: nat)
    requires WellFormed(g) && n <= |ins|
    ensures var r := InstsUpTo(g, icfg, ins, n);
      Grows(g, r, icfg.version) && CoversInsts(g, icfg, ins, n, r)
  {
    if n == 0 {
      GrowsRefl(g, icfg.version);
    } else {
      var h := InstsUpTo(g, icfg, ins, n - 1);
      var r := InstsUpTo(g, icfg, ins, n);
      InstsUpToShape(g, icfg, ins, n - 1);
      InstEdgesShape(h, icfg, ins[n - 1], r);
      GrowsTrans(g, h, r, icfg.version);
      CoversInstsKept(g, icfg, ins, n - 1, h, r, icfg.version);
      GrowsLooksSame(g, h, icfg.version);
      CoversInstSame(g, h, icfg, ins[n - 1], r);
      CoversInstsStep(g, icfg, ins, n, r);
    }
  }

  /** Every instruction of line `l` (as `g` has it) is covered in `r`. */
  predicate CoversLine(g: GraphState, icfg: GraphState, l: LineId, r: GraphState)
  {
    forall inst | inst in LineOf(g, l).instructions :: CoversInst(g, icfg, inst, r)
  }

  lemma CoversLineKept(g: GraphState, icfg: GraphState, l: LineId, h: GraphState, r: GraphState, v: nat)
    requires Grows(h, r, v) && CoversLine(g, icfg, l, h)
    ensures CoversLine(g, icfg, l, r)
  {
    forall inst | inst in LineOf(g, l).instructions
      ensures CoversInst(g, icfg, inst, r)
    {
      CoversInstKept(g, icfg, inst, h, r, v);
    }
  }

  lemma CoversLineSame(g: GraphState, h: GraphState, icfg: GraphState, l: LineId, r: GraphState)
    requires SameLookups(g, h) && CoversLine(h, icfg, l, r)
    ensures CoversLine(g, icfg, l, r)
  {
    assert LineOf(h, l) == LineOf(g, l);
    forall inst | inst in LineOf(g, l).instructions
      ensures CoversInst(g, icfg, inst, r)
    {
      CoversInstSame(g, h, icfg, inst, r);
    }
  }

  lemma LineEdgesShape(g: GraphState, icfg: GraphState, l: LineId, r: GraphState)
    requires WellFormed(g) && r == LineEdges(g, icfg, l)
    ensures Grows(g, r, icfg.version) && CoversLine(g, icfg, l, r)
  {
    var ins := LineOf(g, l).instructions;
    InstsUpToShape(g, icfg, ins, |ins|);
    forall inst | inst in ins
      ensures CoversInst(g, icfg, inst, r)
    {
      var k :| 0 <= k < |ins| && ins[k] == inst;
    }
  }

  predicate CoversLines(g: GraphState, icfg: GraphState, ls: seq<LineId>, n: nat, r: GraphState)
    requires n <= |ls|
  {
    forall k | 0 <= k < n :: CoversLine(g, icfg, ls[k], r)
  }

  lemma CoversLinesKept(g: GraphState, icfg: GraphState, ls: seq<LineId>, n: nat, h: GraphState, r: GraphState, v: nat)
    requires n <= |ls| && Grows(h, r, v) && CoversLines(g, icfg, ls, n, h)
    ensures CoversLines(g, icfg, ls, n, r)
  {
    forall k | 0 <= k < n
      ensures CoversLine(g, icfg, ls[k], r)
    {
      CoversLineKept(g, icfg, ls[k], h, r, v);
    }
  }

  lemma CoversLinesStep(g: GraphState, icfg: GraphState, ls: seq<LineId>, n: nat, r: GraphState)
    requires 0 < n <= |ls| && CoversLines(g, icfg, ls, n - 1, r) && CoversLine(g, icfg, ls[n - 1], r)
    ensures CoversLines(g, icfg, ls, n, r)
  {
  }

  lemma {:induction false} LinesUpToShape(g: GraphState, icfg: GraphState, ls: seq<LineId>, n: nat)
    requires WellFormed(g) && n <= |ls|
    ensures var r := LinesUpTo(g, icfg, ls, n);
      Grows(g, r, icfg.version) && CoversLines(g, icfg, ls, n, r)
  {
    if n == 0 {
      GrowsRefl(g, icfg.version);
    } else {
      LinesUpToShape(g, icfg, ls, n - 1);
      LinesNext(g, icfg, ls, n, LinesUpTo(g, icfg, ls, n - 1), LinesUpTo(g, icfg, ls, n));
    }
  }

  lemma LinesNext(g: GraphState, icfg: GraphState, ls: seq<LineId>, n: nat, h: GraphState, r: GraphState)
    requires WellFormed(g) && 0 < n <= |ls| && Grows(g, h, icfg.version) && CoversLines(g, icfg, ls, n - 1, h)
    requires r == LineEdges(h, icfg, ls[n - 1])
    ensures Grows(g, r, icfg.version) && CoversLines(g, icfg, ls, n, r)
  {
    LineEdgesShape(h, icfg, ls[n - 1], r);
    GrowsTrans(g, h, r, icfg.version);
    CoversLinesKept(g, icfg, ls, n - 1, h, r, icfg.version);
    GrowsLooksSame(g, h, icfg.version);
    CoversLineSame(g, h, icfg, ls[n - 1], r);
    CoversLinesStep(g, icfg, ls, n, r);
  }

  /** getEdgesForAddedLines only appends edges, all of the ICFG's version,
    * keeps the MVICFG well-formed, and leaves every ICFG edge of (the ICFG
    * match of) an instruction of an added line, whose two ends match MVICFG
    * instructions, present between those matches with its type. */
  lemma AddedLineEdgesShape(g: GraphState, icfg: GraphState, added: seq<LineId>)
    requires WellFormed(g)
    ensures var r := AddedLineEdges(g, icfg, added);
      Appends(g, r, icfg.version) && WellFormed(r) &&
      forall l | l in added :: CoversLine(g, icfg, l, r)
  {
    var r := AddedLineEdges(g, icfg, added);
    LinesUpToShape(g, icfg, added, |added|);
    forall l | l in added
      ensures CoversLine(g, icfg, l, r)
    {
      var k :| 0 <= k < |added| && added[k] == l;
    }
  }

  // ---- getEdgesForAddedLines on the MVICFG object ----------------------------

  /** The body of the loop over edgeDash. */
  method CopyIcfgEdge(mv: Graph, icfg: GraphState, e: EdgeId)
    requires mv.Valid()
    modifies mv`insts, mv`graphEdges
    ensures mv.Valid() && mv.State() == CopyEdge(old(mv.State()), icfg, e)
  {
    var d := EdgeOf(icfg, e);
    var from := MatchedInstruction(mv.State(), icfg, d.from);
    if from.Some? {
      var to := MatchedInstruction(mv.State(), icfg, d.to);
      if to.Some? {
        if from.value < |mv.insts| && to.value < |mv.insts| && GetEdge(mv.State(), from.value, to.value, d.edgeType).None? {
          mv.AddEdge(from.value, to.value, NewEdge(from.value, to.value, d.edgeType, icfg.version));
        }
      }
    }
  }

  /** The body of the loop over a line's instructions. */
  method CopyInstEdges(mv: Graph, icfg: GraphState, inst: InstId)
    requires mv.Valid()
    modifies mv`insts, mv`graphEdges
    ensures mv.Valid() && mv.State() == InstEdges(old(mv.State()), icfg, inst)
  {
    ghost var g0 := mv.State();
    var lineDash := MatchedInstruction(icfg, mv.State(), inst);
    if lineDash.Some? {
      var es := InstOf(icfg, lineDash.value).edges;
      var j := 0;
      while j < |es|
        invariant 0 <= j <= |es| && mv.Valid()
        invariant mv.State() == CopyEdgesUpTo(g0, icfg, es, j)
      {
        CopyIcfgEdge(mv, icfg, es[j]);
        j := j + 1;
      }
    }
    assert lineDash.None? ==> MatchEdges(icfg, g0, inst) == [];
  }

  /** The body of the loop over the added lines. */
  method CopyLineEdges(mv: Graph, icfg: GraphState, l: LineId)
    requires mv.Valid()
    modifies mv`insts, mv`graphEdges
    ensures mv.Valid() && mv.State() == LineEdges(old(mv.State()), icfg, l)
  {
    ghost var g0 := mv.State();
    var ins := LineOf(mv.State(), l).instructions;
    var j := 0;
    while j < |ins|
      invariant 0 <= j <= |ins| && mv.Valid()
      invariant mv.State() == InstsUpTo(g0, icfg, ins, j)
    {
      CopyInstEdges(mv, icfg, ins[j]);
      j := j + 1;
    }
  }

  /** getEdgesForAddedLines */
  method GetEdgesForAddedLines(mv: Graph, icfg: GraphState, added: seq<LineId>)
    requires mv.Valid()
    modifies mv`insts, mv`graphEdges
    ensures mv.Valid() && mv.State() == AddedLineEdges(old(mv.State()), icfg, added)
  {
    ghost var g0 := mv.State();
    var k := 0;
    while k < |added|
      invariant 0 <= k <= |added| && mv.Valid()
      invariant mv.State() == LinesUpTo(g0, icfg, added, k)
    {
      CopyLineEdges(mv, icfg, added[k]);
      k := k + 1;
    }
  }
}
