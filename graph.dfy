// Graph: one version's interprocedural control-flow graph, or the merged
// multi-version graph. Functions, lines, instructions and edges live in
// arenas owned by the graph; a pointer between them is an arena index.
module Graphs {
  import opened Common
  import opened GraphEdge
  import opened GraphInstruction
  import opened GraphLine
  import opened GraphFunction

  /** graphEntryID: the line number of every virtual entry node. */
  const ENTRY_ID: nat := UINT_MAX - 1

  /** graphExitID: the line number of every virtual exit node. */
  const EXIT_ID: nat := UINT_MAX - 2

  /** The library functions the constructor white-lists, in push order
    * (the list has repeats). */
  const WHITE_LIST: seq<string> := [
    "__isoc99_scanf", "printf", "malloc", "strlen", "strcpy", "strcmp", "free", "getpwnam",
    "__ctype_b_loc", "tolower", "setpwent", "getpwent", "strchr", "strcasecmp", "perror",
    "toupper", "malloc", "strlen", "strcpy", "strcmp", "free", "getpwnam", "__ctype_b_loc",
    "tolower", "setpwent", "getpwent", "strchr", "strcasecmp", "perror", "snprintf", "toupper"]

  /** The value of a graph: its counters and its four arenas. `functions`
    * is graphFunctions, the list of registered functions; `funcs` holds every
    * Graph_Function allocated for the graph, registered or not. */
  datatype GraphState = GraphState(
    graphID: nat,
    version: nat,
    entryID: nat,
    exitID: nat,
    functions: seq<FuncId>,
    funcs: seq<Function>,
    lines: seq<Line>,
    insts: seq<Instruction>,
    edges: seq<Edge>)

  // ---- Following a pointer ------------------------------------------------
  // An id outside its arena reads as a default record; a well-formed graph
  // has no such ids.

  function FuncOf(g: GraphState, f: FuncId): Function
  {
    if f < |g.funcs| then g.funcs[f] else NewFunction(0)
  }

  function LineOf(g: GraphState, l: LineId): Line
  {
    if l < |g.lines| then g.lines[l] else NewLine(0)
  }

  function InstOf(g: GraphState, i: InstId): Instruction
  {
    if i < |g.insts| then g.insts[i] else DefaultInstruction()
  }

  function EdgeOf(g: GraphState, e: EdgeId): Edge
  {
    if e < |g.edges| then g.edges[e] else Edge(0, 0, Any, [])
  }

  /** line->getGraphFunction()->getFunctionFile(), "" for a line that is in
    * no function. */
  function FileOf(g: GraphState, l: LineId): string
  {
    match LineOf(g, l).func
    case Some(f) => FuncOf(g, f).file
    case None => ""
  }

  /** line->getGraphFunction()->getFunctionName(), "" for a line that is in
    * no function. */
  function FuncNameOf(g: GraphState, l: LineId): string
  {
    match LineOf(g, l).func
    case Some(f) => FuncOf(g, f).name
    case None => ""
  }

  /** line->getLineNumber(v) */
  function NumberOf(g: GraphState, l: LineId, v: nat): nat
  {
    LineOf(g, l).LineNumber(v)
  }

  /** The opcode of the instruction is Br. */
  predicate IsBr(g: GraphState, i: InstId)
  {
    InstOf(g, i).ptr.Some? && InstOf(g, i).ptr.value.isBr
  }

  // ---- Well-formedness: every stored id points into its arena -------------

  predicate FunctionsOk(g: GraphState)
  {
    IdsBelow(g.functions, |g.funcs|)
  }

  predicate FuncsOk(g: GraphState)
  {
    forall f | 0 <= f < |g.funcs| :: IdsBelow(g.funcs[f].lines, |g.lines|)
  }

  predicate LinesOk(g: GraphState)
  {
    forall l | 0 <= l < |g.lines| ::
      IdsBelow(g.lines[l].instructions, |g.insts|) && OptBelow(g.lines[l].func, |g.funcs|)
  }

  predicate InstsOk(g: GraphState)
  {
    forall i | 0 <= i < |g.insts| ::
      IdsBelow(g.insts[i].edges, |g.edges|) && OptBelow(g.insts[i].line, |g.lines|)
  }

  predicate EdgesOk(g: GraphState)
  {
    forall e | 0 <= e < |g.edges| :: g.edges[e].from < |g.insts| && g.edges[e].to < |g.insts|
  }

  predicate WellFormed(g: GraphState)
  {
    g.graphID < UINT_RANGE && g.entryID == ENTRY_ID && g.exitID == EXIT_ID &&
    FunctionsOk(g) && FuncsOk(g) && LinesOk(g) && InstsOk(g) && EdgesOk(g)
  }

  // ---- The primitive updates, as functions of the graph value -------------

  /** getNextID: the counter is a C++ `unsigned`, so it wraps after 2^32 - 1. */
  function NextId(id: nat): nat
  {
    (id + 1) % UINT_RANGE
  }

  function WithNextID(g: GraphState): GraphState
  {
    g.(graphID := NextId(g.graphID))
  }

  /** pushGraphEdges */
  function WithGraphEdge(g: GraphState, e: Edge): GraphState
  {
    g.(edges := g.edges + [e])
  }

  /** pushGraphFunction: the function's graph pointer is set and the function
    * is appended to graphFunctions. */
  function WithRegistered(g: GraphState, f: FuncId): GraphState
    requires f < |g.funcs|
  {
    g.(funcs := g.funcs[f := g.funcs[f].(inGraph := true)], functions := g.functions + [f])
  }

  /** Edge id `e` appended to instruction `i`'s edge list. */
  function PushEdgeAt(insts: seq<Instruction>, i: InstId, e: EdgeId): seq<Instruction>
  {
    if i < |insts| then insts[i := insts[i].PushEdge(e)] else insts
  }

  /** addEdge: the new edge's id is appended to the from-instruction's list,
    * then to the to-instruction's list, then the edge to graphEdges. */
  function WithEdge(g: GraphState, from: InstId, to: InstId, e: Edge): GraphState
  {
    g.(insts := PushEdgeAt(PushEdgeAt(g.insts, from, |g.edges|), to, |g.edges|), edges := g.edges + [e])
  }

  /** pushEdgeVersions on the edge with id `e`. */
  function WithVersionPushed(g: GraphState, e: EdgeId, v: nat): GraphState
    requires e < |g.edges|
  {
    g.(edges := g.edges[e := g.edges[e].PushVersion(v)])
  }

  /** new Graph_Line(ver) */
  function WithNewLine(g: GraphState, ver: nat): GraphState
  {
    g.(lines := g.lines + [NewLine(ver)])
  }

  /** setLineNumber */
  function WithLineNumber(g: GraphState, l: LineId, v: nat, n: nat): GraphState
    requires l < |g.lines|
  {
    g.(lines := g.lines[l := g.lines[l].WithLineNumber(v, n)])
  }

  /** pushLineInstruction: the instruction's line pointer is set and the
    * instruction appended to the line. */
  function WithLineInstruction(g: GraphState, l: LineId, i: InstId): GraphState
    requires l < |g.lines| && i < |g.insts|
  {
    g.(insts := g.insts[i := g.insts[i].(line := Some(l))], lines := g.lines[l := g.lines[l].PushInstruction(i)])
  }

  /** new Graph_Instruction() */
  function WithNewInstruction(g: GraphState): GraphState
  {
    g.(insts := g.insts + [DefaultInstruction()])
  }

  /** setInstructionID */
  function WithInstructionID(g: GraphState, i: InstId, id: nat): GraphState
    requires i < |g.insts|
  {
    g.(insts := g.insts[i := g.insts[i].(id := id)])
  }

  /** setInstructionLabel */
  function WithInstructionLabel(g: GraphState, i: InstId, s: string): GraphState
    requires i < |g.insts|
  {
    g.(insts := g.insts[i := g.insts[i].(labelText := s)])
  }

  /** setInstructionPtr */
  function WithInstructionPtr(g: GraphState, i: InstId, p: Option<LlvmInst>): GraphState
    requires i < |g.insts|
  {
    g.(insts := g.insts[i := g.insts[i].(ptr := p)])
  }

  /** insertInstructionVisitedQueries */
  function WithVisitedQuery(g: GraphState, i: InstId, q: nat): GraphState
    requires i < |g.insts|
  {
    g.(insts := g.insts[i := g.insts[i].InsertVisitedQuery(q)])
  }

  /** new Graph_Function(id) */
  function WithNewFunction(g: GraphState, id: nat): GraphState
  {
    g.(funcs := g.funcs + [NewFunction(id)])
  }

  /** setFunctionName */
  function WithFunctionName(g: GraphState, f: FuncId, s: string): GraphState
    requires f < |g.funcs|
  {
    g.(funcs := g.funcs[f := g.funcs[f].(name := s)])
  }

  /** setFunctionFile */
  function WithFunctionFile(g: GraphState, f: FuncId, s: string): GraphState
    requires f < |g.funcs|
  {
    g.(funcs := g.funcs[f := g.funcs[f].(file := s)])
  }

  /** pushFunctionLines: the line's function pointer is set and the line
    * appended to the function. */
  function WithFunctionLine(g: GraphState, f: FuncId, l: LineId): GraphState
    requires f < |g.funcs| && l < |g.lines|
  {
    g.(lines := g.lines[l := g.lines[l].(func := Some(f))], funcs := g.funcs[f := g.funcs[f].PushLine(l)])
  }

  /** pushFrontFunctionLines: as pushFunctionLines, at the front. */
  function WithFrontFunctionLine(g: GraphState, f: FuncId, l: LineId): GraphState
    requires f < |g.funcs| && l < |g.lines|
  {
    g.(lines := g.lines[l := g.lines[l].(func := Some(f))], funcs := g.funcs[f := g.funcs[f].PushFrontLine(l)])
  }

  // ---- What the primitive updates mean -----------------------------------

  /** Pre-incrementing the counter from 0 yields 1, 2, 3, ... so the first
    * 2^32 - 1 ids handed out are pairwise distinct. */
  function IdAfter(calls: nat): nat
  {
    if calls == 0 then 0 else NextId(IdAfter(calls - 1))
  }

  lemma {:induction false} IdAfterCalls(calls: nat)
    requires calls <= UINT_MAX
    ensures IdAfter(calls) == calls
  {
    if calls > 0 {
      IdAfterCalls(calls - 1);
    }
  }

  lemma IdsUnique(j: nat, k: nat)
    requires 1 <= j < k <= UINT_MAX
    ensures IdAfter(j) != IdAfter(k) && IdAfter(j) != 0
  {
    IdAfterCalls(j);
    IdAfterCalls(k);
  }

  /** addEdge appends the edge's id at the back of both endpoints' edge lists
    * (twice for a self-loop) and the edge at the back of graphEdges; nothing
    * else changes. */
  lemma AddEdgeAppends(g: GraphState, from: InstId, to: InstId, e: Edge, i: InstId)
    requires from < |g.insts| && to < |g.insts|
    ensures WithEdge(g, from, to, e).edges == g.edges + [e]
    ensures from != to ==> InstOf(WithEdge(g, from, to, e), from).edges == InstOf(g, from).edges + [|g.edges|]
    ensures from != to ==> InstOf(WithEdge(g, from, to, e), to).edges == InstOf(g, to).edges + [|g.edges|]
    ensures from == to ==> InstOf(WithEdge(g, from, to, e), from).edges == InstOf(g, from).edges + [|g.edges|, |g.edges|]
    ensures i != from && i != to ==> InstOf(WithEdge(g, from, to, e), i) == InstOf(g, i)
    ensures InstOf(WithEdge(g, from, to, e), i).(edges := InstOf(g, i).edges) == InstOf(g, i)
    ensures |WithEdge(g, from, to, e).insts| == |g.insts|
    ensures WithEdge(g, from, to, e).(insts := g.insts, edges := g.edges) == g
  {
    if from == to {
      assert InstOf(g, from).edges + [|g.edges|] + [|g.edges|] == InstOf(g, from).edges + [|g.edges|, |g.edges|];
    }
  }

  lemma WithEdgeWellFormed(g: GraphState, from: InstId, to: InstId, e: Edge)
    requires WellFormed(g)
    requires from < |g.insts| && to < |g.insts| && e.from < |g.insts| && e.to < |g.insts|
    ensures WellFormed(WithEdge(g, from, to, e))
  {
    var r := WithEdge(g, from, to, e);
    forall i | 0 <= i < |r.insts|
      ensures IdsBelow(r.insts[i].edges, |r.edges|) && OptBelow(r.insts[i].line, |r.lines|)
    {
      AddEdgeAppends(g, from, to, e, i);
      assert InstOf(r, i) == r.insts[i] && InstOf(g, i) == g.insts[i];
    }
  }

  /** pushEdgeVersions changes one edge's version list and nothing else. */
  lemma VersionPushedGrows(g: GraphState, e: EdgeId, v: nat)
    requires e < |g.edges|
    ensures EdgesGrow(g.edges, WithVersionPushed(g, e, v).edges)
    ensures |WithVersionPushed(g, e, v).edges| == |g.edges|
    ensures IsPartOfGraph(WithVersionPushed(g, e, v).edges[e], v)
    ensures WithVersionPushed(g, e, v).(edges := g.edges) == g
  {
  }

  // A well-formed graph stays well-formed under every primitive update whose
  // ids point into the arenas.

  lemma NextIDWellFormed(g: GraphState)
    requires WellFormed(g)
    ensures WellFormed(WithNextID(g))
  {
  }

  lemma NewLineWellFormed(g: GraphState, ver: nat)
    requires WellFormed(g)
    ensures WellFormed(WithNewLine(g, ver))
  {
  }

  lemma NewInstructionWellFormed(g: GraphState)
    requires WellFormed(g)
    ensures WellFormed(WithNewInstruction(g))
  {
  }

  lemma NewFunctionWellFormed(g: GraphState, id: nat)
    requires WellFormed(g)
    ensures WellFormed(WithNewFunction(g, id))
  {
  }

  lemma VersionPushedWellFormed(g: GraphState, e: EdgeId, v: nat)
    requires WellFormed(g) && e < |g.edges|
    ensures WellFormed(WithVersionPushed(g, e, v))
  {
  }

  lemma LineNumberWellFormed(g: GraphState, l: LineId, v: nat, n: nat)
    requires WellFormed(g) && l < |g.lines|
    ensures WellFormed(WithLineNumber(g, l, v, n))
  {
  }

  lemma LineInstructionWellFormed(g: GraphState, l: LineId, i: InstId)
    requires WellFormed(g) && l < |g.lines| && i < |g.insts|
    ensures WellFormed(WithLineInstruction(g, l, i))
  {
  }

  lemma FunctionLineWellFormed(g: GraphState, f: FuncId, l: LineId)
    requires WellFormed(g) && f < |g.funcs| && l < |g.lines|
    ensures WellFormed(WithFunctionLine(g, f, l)) && WellFormed(WithFrontFunctionLine(g, f, l))
  {
  }

  lemma RegisteredWellFormed(g: GraphState, f: FuncId)
    requires WellFormed(g) && f < |g.funcs|
    ensures WellFormed(WithRegistered(g, f))
  {
  }

  // ---- addSeqEdges --------------------------------------------------------

  /** Several addEdge calls, in order. */
  function WithEdges(g: GraphState, es: seq<Edge>): GraphState
    decreases |es|
  {
    if es == [] then g
    else
      var e := es[|es| - 1];
      WithEdge(WithEdges(g, es[..|es| - 1]), e.from, e.to, e)
  }

  /** addEdge calls append their edges to graphEdges, leave every
    * instruction as it was apart from its edge list, and touch nothing else. */
  lemma {:induction false} WithEdgesKeeps(g: GraphState, es: seq<Edge>, i: InstId)
    ensures WithEdges(g, es).edges == g.edges + es
    ensures WithEdges(g, es).(insts := g.insts, edges := g.edges) == g
    ensures |WithEdges(g, es).insts| == |g.insts|
    ensures InstOf(WithEdges(g, es), i).(edges := InstOf(g, i).edges) == InstOf(g, i)
    decreases |es|
  {
    if es != [] {
      var e := es[|es| - 1];
      var h := WithEdges(g, es[..|es| - 1]);
      WithEdgesKeeps(g, es[..|es| - 1], i);
      assert es[..|es| - 1] + [e] == es;
      if e.from < |h.insts| && e.to < |h.insts| {
        AddEdgeAppends(h, e.from, e.to, e, i);
      }
    }
  }

  /** The edges addSeqEdges adds for the first `k` positions of the line's
    * instruction list: a SEQUENTIAL edge of version `ver` from position j to
    * position j + 1, unless the instruction at j is a Br. */
  function SeqEdgesUpTo(g: GraphState, ins: seq<InstId>, k: nat, ver: nat): seq<Edge>
    requires k <= |ins|
  {
    if k == 0 then []
    else
      var added := if k < |ins| && !IsBr(g, ins[k - 1]) then [NewEdge(ins[k - 1], ins[k], Sequential, ver)] else [];
      SeqEdgesUpTo(g, ins, k - 1, ver) + added
  }

  function SeqEdges(g: GraphState, ins: seq<InstId>, ver: nat): seq<Edge>
  {
    SeqEdgesUpTo(g, ins, |ins|, ver)
  }

  /** An edge is added exactly for each consecutive pair whose first
    * instruction is not a Br, so a line of n instructions gets at most n - 1
    * edges. */
  lemma {:induction false} SeqEdgesUpToAre(g: GraphState, ins: seq<InstId>, k: nat, ver: nat)
    requires k <= |ins|
    ensures |SeqEdgesUpTo(g, ins, k, ver)| <= k
    ensures |ins| > 0 ==> |SeqEdgesUpTo(g, ins, k, ver)| <= |ins| - 1
    ensures forall e :: e in SeqEdgesUpTo(g, ins, k, ver) <==>
      exists j :: 0 <= j < k && j + 1 < |ins| && !IsBr(g, ins[j]) && e == NewEdge(ins[j], ins[j + 1], Sequential, ver)
  {
    if k > 0 {
      SeqEdgesUpToAre(g, ins, k - 1, ver);
      var s := SeqEdgesUpTo(g, ins, k - 1, ver);
      var here := k < |ins| && !IsBr(g, ins[k - 1]);
      assert SeqEdgesUpTo(g, ins, k, ver) == s + (if here then [NewEdge(ins[k - 1], ins[k], Sequential, ver)] else []);
      forall e ensures e in SeqEdgesUpTo(g, ins, k, ver) <==>
        exists j :: 0 <= j < k && j + 1 < |ins| && !IsBr(g, ins[j]) && e == NewEdge(ins[j], ins[j + 1], Sequential, ver)
      {
        if exists j :: 0 <= j < k && j + 1 < |ins| && !IsBr(g, ins[j]) && e == NewEdge(ins[j], ins[j + 1], Sequential, ver) {
          var j :| 0 <= j < k && j + 1 < |ins| && !IsBr(g, ins[j]) && e == NewEdge(ins[j], ins[j + 1], Sequential, ver);
          if j < k - 1 {
            assert e in s;
          } else {
            assert here;
          }
        }
        if e in SeqEdgesUpTo(g, ins, k, ver) && e !in s {
          assert here && e == NewEdge(ins[k - 1], ins[k], Sequential, ver);
        }
      }
    }
  }

  lemma SeqEdgesAre(g: GraphState, ins: seq<InstId>, ver: nat)
    ensures |ins| > 0 ==> |SeqEdges(g, ins, ver)| <= |ins| - 1
    ensures forall e :: e in SeqEdges(g, ins, ver) <==>
      exists j :: 0 <= j && j + 1 < |ins| && !IsBr(g, ins[j]) && e == NewEdge(ins[j], ins[j + 1], Sequential, ver)
  {
    SeqEdgesUpToAre(g, ins, |ins|, ver);
  }

  /** One step of addSeqEdges: the Br test reads the same pointer as in the
    * graph before the call, and the edge for position k is added or not. */
  lemma SeqEdgesStep(g0: GraphState, ins: seq<InstId>, k: nat, ver: nat, h: GraphState)
    requires k < |ins| && h == WithEdges(g0, SeqEdgesUpTo(g0, ins, k, ver))
    ensures |h.insts| == |g0.insts| && IsBr(h, ins[k]) == IsBr(g0, ins[k])
    ensures k + 1 < |ins| && !IsBr(g0, ins[k]) ==>
      WithEdges(g0, SeqEdgesUpTo(g0, ins, k + 1, ver)) == WithEdge(h, ins[k], ins[k + 1], NewEdge(ins[k], ins[k + 1], Sequential, ver))
    ensures !(k + 1 < |ins| && !IsBr(g0, ins[k])) ==> WithEdges(g0, SeqEdgesUpTo(g0, ins, k + 1, ver)) == h
  {
    var done := SeqEdgesUpTo(g0, ins, k, ver);
    WithEdgesKeeps(g0, done, ins[k]);
    if k + 1 < |ins| && !IsBr(g0, ins[k]) {
      var e := NewEdge(ins[k], ins[k + 1], Sequential, ver);
      assert SeqEdgesUpTo(g0, ins, k + 1, ver) == done + [e];
      assert (done + [e])[..|done + [e]| - 1] == done;
    } else {
      assert SeqEdgesUpTo(g0, ins, k + 1, ver) == done + [];
      assert done + [] == done;
    }
  }

  // ---- addVirtualNodes ----------------------------------------------------

  /** list.front() and list.back(); the model reads 0 for an empty list. */
  function Front(s: seq<nat>): nat
  {
    if s == [] then 0 else s[0]
  }

  function Back(s: seq<nat>): nat
  {
    if s == [] then 0 else s[|s| - 1]
  }

  /** The function's first and last lines exist and have instructions, so
    * addVirtualNodes can attach its edges. */
  predicate CanAddVirtualNodes(g: GraphState, f: FuncId)
  {
    f < |g.funcs| && g.funcs[f].lines != [] &&
    LineOf(g, Front(g.funcs[f].lines)).instructions != [] &&
    LineOf(g, Back(g.funcs[f].lines)).instructions != []
  }

  /** A virtual node: a fresh line numbered `number` at the graph's version,
    * holding one fresh instruction with the next id, label `text` and no LLVM
    * instruction. */
  function WithVirtualNode(g: GraphState, number: nat, text: string): GraphState
  {
    var l := |g.lines|;
    var i := |g.insts|;
    var g1 := WithLineNumber(WithNewLine(g, g.version), l, g.version, number);
    var g2 := WithNextID(g1);
    var g3 := WithInstructionLabel(WithInstructionID(WithNewInstruction(g2), i, g2.graphID), i, text);
    WithLineInstruction(WithInstructionPtr(g3, i, None), l, i)
  }

  /** A virtual node adds one line and one instruction, pointing at each
    * other, and advances the id counter; the rest of the graph is kept. */
  lemma VirtualNodeFacts(g: GraphState, number: nat, text: string)
    ensures var r := WithVirtualNode(g, number, text);
      var l, i := |g.lines|, |g.insts|;
      r.lines == g.lines + [Line(map[g.version := number], [i], None, g.version)] &&
      r.insts == g.insts + [Instruction(NextId(g.graphID), text, None, [], Some(l), {})] &&
      r == g.(graphID := NextId(g.graphID), lines := r.lines, insts := r.insts)
  {
    var l, i := |g.lines|, |g.insts|;
    assert MapInsert(map[], g.version, number) == map[g.version := number];
    var g1 := WithLineNumber(WithNewLine(g, g.version), l, g.version, number);
    assert g1.lines == g.lines + [Line(map[g.version := number], [], None, g.version)];
    var g2 := WithNextID(g1);
    var g3 := WithInstructionLabel(WithInstructionID(WithNewInstruction(g2), i, g2.graphID), i, text);
    assert g3.insts == g.insts + [Instruction(NextId(g.graphID), text, None, [], None, {})];
    assert g3.lines == g1.lines && |g3.insts| == i + 1;
    var r := WithLineInstruction(WithInstructionPtr(g3, i, None), l, i);
    assert g1.lines[l].PushInstruction(i) == Line(map[g.version := number], [i], None, g.version);
    assert r.lines == g.lines + [Line(map[g.version := number], [i], None, g.version)];
    assert r.insts == g.insts + [Instruction(NextId(g.graphID), text, None, [], Some(l), {})];
  }

  /** addVirtualNodes: the entry node's line goes to the front of the function
    * with a VIRTUAL edge to the old first instruction; the exit node's line
    * goes to the back with a VIRTUAL edge from the old last instruction. */
  function VirtualNodesAdded(g: GraphState, f: FuncId): GraphState
    requires f < |g.funcs|
  {
    var name := g.funcs[f].name;
    var el, ei := |g.lines|, |g.insts|;
    var g1 := WithVirtualNode(g, g.entryID, "Entry::" + name);
    var to := Front(LineOf(g1, Front(g1.funcs[f].lines)).instructions);
    var g2 := WithFrontFunctionLine(g1, f, el);
    var g3 := WithEdge(g2, ei, to, NewEdge(ei, to, Virtual, g.version));
    var xl, xi := |g3.lines|, |g3.insts|;
    var g4 := WithVirtualNode(g3, g.exitID, "Exit::" + name);
    var from := Back(LineOf(g4, Back(g4.funcs[f].lines)).instructions);
    var g5 := WithFunctionLine(g4, f, xl);
    WithEdge(g5, from, xi, NewEdge(from, xi, Virtual, g.version))
  }

  /** The function's lines become entry line, old lines, exit line; the entry
    * line is numbered graphEntryID and the exit line graphExitID at the
    * graph's version; each holds one instruction with no LLVM instruction,
    * labelled "Entry::" or "Exit::" and the function name, with the next two
    * ids; and the two VIRTUAL edges are appended to graphEdges. */
  lemma VirtualNodesShape(g: GraphState, f: FuncId)
    requires WellFormed(g) && CanAddVirtualNodes(g, f)
    ensures var r := VirtualNodesAdded(g, f);
      var el, ei := |g.lines|, |g.insts|;
      var first, last := Front(g.funcs[f].lines), Back(g.funcs[f].lines);
      |r.lines| == el + 2 && |r.insts| == ei + 2 &&
      r.funcs[f].lines == [el] + g.funcs[f].lines + [el + 1] &&
      r.funcs[f].name == g.funcs[f].name && r.funcs[f].file == g.funcs[f].file &&
      r.lines[el].LineNumber(g.version) == ENTRY_ID && r.lines[el + 1].LineNumber(g.version) == EXIT_ID &&
      r.lines[el].instructions == [ei] && r.lines[el + 1].instructions == [ei + 1] &&
      r.lines[el].func == Some(f) && r.lines[el + 1].func == Some(f) &&
      r.insts[ei].ptr.None? && r.insts[ei].labelText == "Entry::" + g.funcs[f].name &&
      r.insts[ei + 1].ptr.None? && r.insts[ei + 1].labelText == "Exit::" + g.funcs[f].name &&
      r.insts[ei].id == NextId(g.graphID) && r.insts[ei + 1].id == NextId(NextId(g.graphID)) &&
      r.graphID == NextId(NextId(g.graphID)) &&
      r.edges == g.edges + [NewEdge(ei, Front(g.lines[first].instructions), Virtual, g.version),
                            NewEdge(Back(g.lines[last].instructions), ei + 1, Virtual, g.version)]
  {
    var name := g.funcs[f].name;
    var el, ei := |g.lines|, |g.insts|;
    var g1 := WithVirtualNode(g, g.entryID, "Entry::" + name);
    VirtualNodeFacts(g, g.entryID, "Entry::" + name);
    var to := Front(LineOf(g1, Front(g1.funcs[f].lines)).instructions);
    var g2 := WithFrontFunctionLine(g1, f, el);
    var g3 := WithEdge(g2, ei, to, NewEdge(ei, to, Virtual, g.version));
    AddEdgeAppends(g2, ei, to, NewEdge(ei, to, Virtual, g.version), ei);
    VirtualNodeFacts(g3, g.exitID, "Exit::" + name);
  }

  // ---- findVirtualEntry / findVirtualExit / findMatchedInstruction --------

  /** What an instruction search looks for: a label containing a tag, a
    * given LLVM instruction pointer (NULL matching the virtual nodes), or an
    * instruction whose line has number `n` at version `v`. */
  datatype Wanted = LabelHas(tag: string) | PtrIs(ptr: Option<LlvmInst>) | NumberedAs(n: nat, v: nat)

  /** inst->getGraphLine()->getLineNumber(v); an instruction in no line reads
    * as numbered 0. */
  function InstNumber(g: GraphState, i: InstId, v: nat): nat
  {
    match InstOf(g, i).line
    case Some(l) => NumberOf(g, l, v)
    case None => 0
  }

  predicate Matches(g: GraphState, i: InstId, w: Wanted)
  {
    match w
    case LabelHas(tag) => Contains(InstOf(g, i).labelText, tag)
    case PtrIs(p) => InstOf(g, i).ptr == p
    case NumberedAs(n, v) => InstNumber(g, i, v) == n
  }

  /** The first wanted instruction of the lines `ls`, in order. */
  function FindInInsts(g: GraphState, ins: seq<InstId>, w: Wanted): Option<InstId>
  {
    if ins == [] then None
    else if Matches(g, ins[0], w) then Some(ins[0])
    else FindInInsts(g, ins[1..], w)
  }

  function FindInLines(g: GraphState, ls: seq<LineId>, w: Wanted): Option<InstId>
  {
    if ls == [] then None
    else match FindInInsts(g, LineOf(g, ls[0]).instructions, w)
      case Some(i) => Some(i)
      case None => FindInLines(g, ls[1..], w)
  }

  /** The search of a line finds a wanted instruction of it, and fails only
    * when it has none. */
  lemma {:induction false} FindInInstsCorrect(g: GraphState, ins: seq<InstId>, w: Wanted)
    ensures var r := FindInInsts(g, ins, w);
      (r.Some? ==> r.value in ins && Matches(g, r.value, w)) &&
      (r.None? ==> forall i | i in ins :: !Matches(g, i, w))
    decreases |ins|
  {
    if ins != [] && !Matches(g, ins[0], w) {
      FindInInstsCorrect(g, ins[1..], w);
      assert forall i | i in ins :: i == ins[0] || i in ins[1..];
    }
  }

  /** The search of lines finds a wanted instruction of one of them, and
    * fails only when they have none. */
  lemma {:induction false} FindInLinesCorrect(g: GraphState, ls: seq<LineId>, w: Wanted)
    ensures var r := FindInLines(g, ls, w);
      (r.Some? ==> exists l | l in ls :: r.value in LineOf(g, l).instructions && Matches(g, r.value, w)) &&
      (r.None? ==> forall l, i | l in ls && i in LineOf(g, l).instructions :: !Matches(g, i, w))
    decreases |ls|
  {
    if ls != [] {
      FindInInstsCorrect(g, LineOf(g, ls[0]).instructions, w);
      FindInLinesCorrect(g, ls[1..], w);
      var r := FindInLines(g, ls, w);
      if r.Some? {
        if FindInInsts(g, LineOf(g, ls[0]).instructions, w).Some? {
          assert ls[0] in ls;
        } else {
          var l :| l in ls[1..] && r.value in LineOf(g, l).instructions && Matches(g, r.value, w);
          assert l in ls;
        }
      } else {
        assert forall l | l in ls :: l == ls[0] || l in ls[1..];
      }
    }
  }

  /** The search over the registered functions `fs` (only those named `name`,
    * when a name is given). */
  function FindInFuncs(g: GraphState, fs: seq<FuncId>, name: Option<string>, w: Wanted): (r: Option<InstId>)
  {
    if fs == [] then None
    else if name.Some? && FuncOf(g, fs[0]).name != name.value then FindInFuncs(g, fs[1..], name, w)
    else match FindInLines(g, FuncOf(g, fs[0]).lines, w)
      case Some(i) => Some(i)
      case None => FindInFuncs(g, fs[1..], name, w)
  }

  /** The instruction is in a line of a registered function (named `name`,
    * when a name is given). */
  predicate InFunctions(g: GraphState, fs: seq<FuncId>, name: Option<string>, i: InstId)
  {
    exists k, l | 0 <= k < |fs| && l in FuncOf(g, fs[k]).lines ::
      (name.Some? ==> FuncOf(g, fs[k]).name == name.value) && i in LineOf(g, l).instructions
  }

  /** A search result is a wanted instruction of a function with the given
    * name, and the search fails only when there is none. */
  lemma FindInFuncsCorrect(g: GraphState, fs: seq<FuncId>, name: Option<string>, w: Wanted)
    ensures var r := FindInFuncs(g, fs, name, w);
      (r.Some? ==> InFunctions(g, fs, name, r.value) && Matches(g, r.value, w)) &&
      (r.None? ==> forall i | InFunctions(g, fs, name, i) :: !Matches(g, i, w))
  {
    FindInFuncsFound(g, fs, name, w);
    FindInFuncsMissing(g, fs, name, w);
  }

  lemma {:induction false} FindInFuncsFound(g: GraphState, fs: seq<FuncId>, name: Option<string>, w: Wanted)
    ensures var r := FindInFuncs(g, fs, name, w);
      r.Some? ==> InFunctions(g, fs, name, r.value) && Matches(g, r.value, w)
    decreases |fs|
  {
    if fs != [] {
      var r := FindInFuncs(g, fs, name, w);
      var here := !(name.Some? && FuncOf(g, fs[0]).name != name.value);
      if here && FindInLines(g, FuncOf(g, fs[0]).lines, w).Some? {
        FindInLinesCorrect(g, FuncOf(g, fs[0]).lines, w);
        var l :| l in FuncOf(g, fs[0]).lines && r.value in LineOf(g, l).instructions;
        assert InFunctions(g, fs, name, r.value);
      } else {
        FindInFuncsFound(g, fs[1..], name, w);
        if r.Some? {
          var i := r.value;
          var k, l :| 0 <= k < |fs[1..]| && l in FuncOf(g, fs[1..][k]).lines &&
            (name.Some? ==> FuncOf(g, fs[1..][k]).name == name.value) && i in LineOf(g, l).instructions;
          assert fs[1..][k] == fs[k + 1];
        }
      }
    }
  }

  lemma {:induction false} FindInFuncsMissing(g: GraphState, fs: seq<FuncId>, name: Option<string>, w: Wanted)
    ensures FindInFuncs(g, fs, name, w).None? ==> forall i | InFunctions(g, fs, name, i) :: !Matches(g, i, w)
    decreases |fs|
  {
    if fs != [] && FindInFuncs(g, fs, name, w).None? {
      FindInFuncsMissing(g, fs[1..], name, w);
      FindInLinesCorrect(g, FuncOf(g, fs[0]).lines, w);
      forall i | InFunctions(g, fs, name, i) ensures !Matches(g, i, w) {
        var k, l :| 0 <= k < |fs| && l in FuncOf(g, fs[k]).lines &&
          (name.Some? ==> FuncOf(g, fs[k]).name == name.value) && i in LineOf(g, l).instructions;
        if k > 0 {
          assert fs[1..][k - 1] == fs[k];
          assert InFunctions(g, fs[1..], name, i);
        }
      }
    }
  }

  /** findVirtualEntry */
  function VirtualEntry(g: GraphState, name: string): Option<InstId>
  {
    FindInFuncs(g, g.functions, Some(name), LabelHas("Entry::"))
  }

  /** findVirtualExit */
  function VirtualExit(g: GraphState, name: string): Option<InstId>
  {
    FindInFuncs(g, g.functions, Some(name), LabelHas("Exit::"))
  }

  /** One of the two sentinel line numbers of the virtual nodes. */
  predicate IsVirtualNumber(g: GraphState, n: nat)
  {
    n == g.entryID || n == g.exitID
  }

  // ---- countNodes ---------------------------------------------------------

  function LineSizes(g: GraphState, ls: seq<LineId>): nat
    decreases |ls|
  {
    if ls == [] then 0 else LineSizes(g, ls[..|ls| - 1]) + |LineOf(g, ls[|ls| - 1]).instructions|
  }

  function FunctionSizes(g: GraphState, fs: seq<FuncId>): nat
    decreases |fs|
  {
    if fs == [] then 0 else FunctionSizes(g, fs[..|fs| - 1]) + LineSizes(g, FuncOf(g, fs[|fs| - 1]).lines)
  }

  /** Every instruction of every line of the functions `fs`, in order. */
  function AllInstructions(g: GraphState, fs: seq<FuncId>): seq<InstId>
    decreases |fs|
  {
    if fs == [] then [] else LineInstructions(g, FuncOf(g, fs[0]).lines) + AllInstructions(g, fs[1..])
  }

  function LineInstructions(g: GraphState, ls: seq<LineId>): seq<InstId>
    decreases |ls|
  {
    if ls == [] then [] else LineOf(g, ls[0]).instructions + LineInstructions(g, ls[1..])
  }

  lemma {:induction false} LineSizesCount(g: GraphState, ls: seq<LineId>)
    ensures LineSizes(g, ls) == |LineInstructions(g, ls)|
    decreases |ls|
  {
    if ls != [] {
      LineSizesCount(g, ls[..|ls| - 1]);
      LineInstructionsSplit(g, ls[..|ls| - 1], [ls[|ls| - 1]]);
      assert ls[..|ls| - 1] + [ls[|ls| - 1]] == ls;
      assert LineInstructions(g, [ls[|ls| - 1]]) == LineOf(g, ls[|ls| - 1]).instructions + LineInstructions(g, []);
    }
  }

  lemma {:induction false} LineInstructionsSplit(g: GraphState, a: seq<LineId>, b: seq<LineId>)
    ensures LineInstructions(g, a + b) == LineInstructions(g, a) + LineInstructions(g, b)
    decreases |a|
  {
    if a == [] {
      assert a + b == b;
    } else {
      assert (a + b)[1..] == a[1..] + b;
      LineInstructionsSplit(g, a[1..], b);
    }
  }

  lemma {:induction false} AllInstructionsSplit(g: GraphState, a: seq<FuncId>, b: seq<FuncId>)
    ensures AllInstructions(g, a + b) == AllInstructions(g, a) + AllInstructions(g, b)
    decreases |a|
  {
    if a == [] {
      assert a + b == b;
    } else {
      assert (a + b)[1..] == a[1..] + b;
      AllInstructionsSplit(g, a[1..], b);
    }
  }

  /** countNodes is the number of instructions reachable through the
    * registered functions and their lines. */
  lemma {:induction false} FunctionSizesCount(g: GraphState, fs: seq<FuncId>)
    ensures FunctionSizes(g, fs) == |AllInstructions(g, fs)|
    decreases |fs|
  {
    if fs != [] {
      var f := fs[|fs| - 1];
      FunctionSizesCount(g, fs[..|fs| - 1]);
      LineSizesCount(g, FuncOf(g, f).lines);
      AllInstructionsSplit(g, fs[..|fs| - 1], [f]);
      assert fs[..|fs| - 1] + [f] == fs;
      assert AllInstructions(g, [f]) == LineInstructions(g, FuncOf(g, f).lines) + AllInstructions(g, []);
    }
  }

  /** The two inner loops of the instruction search. */
  method SearchLines(g: GraphState, ls: seq<LineId>, w: Wanted) returns (r: Option<InstId>)
    ensures r == FindInLines(g, ls, w)
  {
    var j := 0;
    while j < |ls|
      invariant j <= |ls|
      invariant FindInLines(g, ls[j..], w) == FindInLines(g, ls, w)
    {
      assert ls[j..][1..] == ls[j + 1..];
      r := SearchInstructions(g, LineOf(g, ls[j]).instructions, w);
      if r.Some? {
        return;
      }
      j := j + 1;
    }
    return None;
  }

  method SearchInstructions(g: GraphState, ins: seq<InstId>, w: Wanted) returns (r: Option<InstId>)
    ensures r == FindInInsts(g, ins, w)
  {
    var m := 0;
    while m < |ins|
      invariant m <= |ins|
      invariant FindInInsts(g, ins[m..], w) == FindInInsts(g, ins, w)
    {
      assert ins[m..][1..] == ins[m + 1..];
      if Matches(g, ins[m], w) {
        return Some(ins[m]);
      }
      m := m + 1;
    }
    return None;
  }

  // ---- The graph object ---------------------------------------------------

  class Graph {
    var graphID: nat
    var graphVersion: nat
    const graphEntryID: nat
    const graphExitID: nat
    const whiteList: seq<string>
    var functions: seq<FuncId>
    var funcs: seq<Function>
    var lines: seq<Line>
    var insts: seq<Instruction>
    var graphEdges: seq<Edge>

    function State(): GraphState
      reads this
    {
      GraphState(graphID, graphVersion, graphEntryID, graphExitID, functions, funcs, lines, insts, graphEdges)
    }

    ghost predicate Valid()
      reads this
    {
      WellFormed(State())
    }

    /** Graph(ver): id counter 0, the two sentinels, nothing allocated. */
    constructor (ver: nat)
      ensures Valid() && whiteList == WHITE_LIST
      ensures State() == GraphState(0, ver, UINT_MAX - 1, UINT_MAX - 2, [], [], [], [], [])
    {
      graphID := 0;
      graphVersion := ver;
      graphEntryID := ENTRY_ID;
      graphExitID := EXIT_ID;
      whiteList := WHITE_LIST;
      functions := [];
      funcs := [];
      lines := [];
      insts := [];
      graphEdges := [];
    }

    /** getNextID: pre-increments the counter. */
    method GetNextID() returns (id: nat)
      requires Valid()
      modifies this`graphID
      ensures Valid() && State() == WithNextID(old(State())) && id == graphID
      ensures old(graphID) < UINT_MAX ==> id == old(graphID) + 1
    {
      graphID := (graphID + 1) % UINT_RANGE;
      id := graphID;
    }

    function GetGraphVersion(): nat
      reads this
    {
      graphVersion
    }

    method SetGraphVersion(ver: nat)
      requires Valid()
      modifies this`graphVersion
      ensures Valid() && State() == old(State()).(version := ver) && GetGraphVersion() == ver
    {
      graphVersion := ver;
    }

    /** pushGraphEdges */
    method PushGraphEdges(e: Edge)
      requires Valid() && e.from < |insts| && e.to < |insts|
      modifies this`graphEdges
      ensures Valid() && State() == WithGraphEdge(old(State()), e)
    {
      graphEdges := graphEdges + [e];
    }

    /** pushGraphFunction */
    method PushGraphFunction(f: FuncId)
      requires Valid() && f < |funcs|
      modifies this`funcs, this`functions
      ensures Valid() && State() == WithRegistered(old(State()), f)
    {
      RegisteredWellFormed(State(), f);
      funcs := funcs[f := funcs[f].(inGraph := true)];
      functions := functions + [f];
    }

    /** addEdge */
    method AddEdge(from: InstId, to: InstId, e: Edge)
      requires Valid() && from < |insts| && to < |insts| && e.from < |insts| && e.to < |insts|
      modifies this`insts, this`graphEdges
      ensures Valid() && State() == WithEdge(old(State()), from, to, e)
    {
      WithEdgeWellFormed(State(), from, to, e);
      var id := |graphEdges|;
      insts := PushEdgeAt(insts, from, id);
      insts := PushEdgeAt(insts, to, id);
      graphEdges := graphEdges + [e];
    }

    /** pushEdgeVersions on a graph edge */
    method PushEdgeVersions(e: EdgeId, v: nat)
      requires Valid() && e < |graphEdges|
      modifies this`graphEdges
      ensures Valid() && State() == WithVersionPushed(old(State()), e, v)
    {
      VersionPushedWellFormed(State(), e, v);
      graphEdges := graphEdges[e := graphEdges[e].PushVersion(v)];
    }

    /** new Graph_Line(ver) */
    method NewGraphLine(ver: nat) returns (l: LineId)
      requires Valid()
      modifies this`lines
      ensures Valid() && State() == WithNewLine(old(State()), ver) && l == |old(lines)|
    {
      NewLineWellFormed(State(), ver);
      l := |lines|;
      lines := lines + [NewLine(ver)];
    }

    /** Graph_Line::setLineNumber */
    method SetLineNumber(l: LineId, v: nat, n: nat)
      requires Valid() && l < |lines|
      modifies this`lines
      ensures Valid() && State() == WithLineNumber(old(State()), l, v, n)
    {
      LineNumberWellFormed(State(), l, v, n);
      lines := lines[l := lines[l].WithLineNumber(v, n)];
    }

    /** Graph_Line::pushLineInstruction */
    method PushLineInstruction(l: LineId, i: InstId)
      requires Valid() && l < |lines| && i < |insts|
      modifies this`lines, this`insts
      ensures Valid() && State() == WithLineInstruction(old(State()), l, i)
    {
      LineInstructionWellFormed(State(), l, i);
      insts := insts[i := insts[i].(line := Some(l))];
      lines := lines[l := lines[l].PushInstruction(i)];
    }

    /** new Graph_Instruction() */
    method NewGraphInstruction() returns (i: InstId)
      requires Valid()
      modifies this`insts
      ensures Valid() && State() == WithNewInstruction(old(State())) && i == |old(insts)|
    {
      NewInstructionWellFormed(State());
      i := |insts|;
      insts := insts + [DefaultInstruction()];
    }

    /** Graph_Instruction::setInstructionID */
    method SetInstructionID(i: InstId, id: nat)
      requires Valid() && i < |insts|
      modifies this`insts
      ensures Valid() && State() == WithInstructionID(old(State()), i, id)
    {
      insts := insts[i := insts[i].(id := id)];
    }

    /** Graph_Instruction::setInstructionLabel */
    method SetInstructionLabel(i: InstId, s: string)
      requires Valid() && i < |insts|
      modifies this`insts
      ensures Valid() && State() == WithInstructionLabel(old(State()), i, s)
    {
      insts := insts[i := insts[i].(labelText := s)];
    }

    /** Graph_Instruction::setInstructionPtr */
    method SetInstructionPtr(i: InstId, p: Option<LlvmInst>)
      requires Valid() && i < |insts|
      modifies this`insts
      ensures Valid() && State() == WithInstructionPtr(old(State()), i, p)
    {
      insts := insts[i := insts[i].(ptr := p)];
    }

    /** Graph_Instruction::insertInstructionVisitedQueries */
    method InsertInstructionVisitedQueries(i: InstId, q: nat)
      requires Valid() && i < |insts|
      modifies this`insts
      ensures Valid() && State() == WithVisitedQuery(old(State()), i, q)
    {
      insts := insts[i := insts[i].InsertVisitedQuery(q)];
    }

    /** new Graph_Function(id) */
    method NewGraphFunction(id: nat) returns (f: FuncId)
      requires Valid()
      modifies this`funcs
      ensures Valid() && State() == WithNewFunction(old(State()), id) && f == |old(funcs)|
    {
      NewFunctionWellFormed(State(), id);
      f := |funcs|;
      funcs := funcs + [NewFunction(id)];
    }

    /** Graph_Function::setFunctionName */
    method SetFunctionName(f: FuncId, s: string)
      requires Valid() && f < |funcs|
      modifies this`funcs
      ensures Valid() && State() == WithFunctionName(old(State()), f, s)
    {
      funcs := funcs[f := funcs[f].(name := s)];
    }

    /** Graph_Function::setFunctionFile */
    method SetFunctionFile(f: FuncId, s: string)
      requires Valid() && f < |funcs|
      modifies this`funcs
      ensures Valid() && State() == WithFunctionFile(old(State()), f, s)
    {
      funcs := funcs[f := funcs[f].(file := s)];
    }

    /** Graph_Function::pushFunctionLines */
    method PushFunctionLines(f: FuncId, l: LineId)
      requires Valid() && f < |funcs| && l < |lines|
      modifies this`funcs, this`lines
      ensures Valid() && State() == WithFunctionLine(old(State()), f, l)
    {
      FunctionLineWellFormed(State(), f, l);
      lines := lines[l := lines[l].(func := Some(f))];
      funcs := funcs[f := funcs[f].PushLine(l)];
    }

    /** Graph_Function::pushFrontFunctionLines */
    method PushFrontFunctionLines(f: FuncId, l: LineId)
      requires Valid() && f < |funcs| && l < |lines|
      modifies this`funcs, this`lines
      ensures Valid() && State() == WithFrontFunctionLine(old(State()), f, l)
    {
      FunctionLineWellFormed(State(), f, l);
      lines := lines[l := lines[l].(func := Some(f))];
      funcs := funcs[f := funcs[f].PushFrontLine(l)];
    }

    /** addSeqEdges: the instruction list is copied first; positions whose
      * instruction is a Br are skipped. */
    method AddSeqEdges(l: LineId)
      requires Valid() && l < |lines|
      modifies this`insts, this`graphEdges
      ensures Valid()
      ensures State() == WithEdges(old(State()), SeqEdges(old(State()), old(lines[l].instructions), graphVersion))
    {
      ghost var g0 := State();
      var ins := lines[l].instructions;
      assert IdsBelow(ins, |insts|);
      for k := 0 to |ins|
        invariant Valid() && |insts| == |g0.insts|
        invariant State() == WithEdges(g0, SeqEdgesUpTo(g0, ins, k, graphVersion))
      {
        AddSeqEdgeAt(g0, ins, k);
      }
    }

    /** One iteration of addSeqEdges. */
    method AddSeqEdgeAt(ghost g0: GraphState, ins: seq<InstId>, k: nat)
      requires Valid() && k < |ins| && IdsBelow(ins, |insts|)
      requires State() == WithEdges(g0, SeqEdgesUpTo(g0, ins, k, graphVersion))
      modifies this`insts, this`graphEdges
      ensures Valid() && |insts| == |old(insts)|
      ensures State() == WithEdges(g0, SeqEdgesUpTo(g0, ins, k + 1, graphVersion))
    {
      SeqEdgesStep(g0, ins, k, graphVersion, State());
      var p := insts[ins[k]].ptr;
      if !(p.Some? && p.value.isBr) && k + 1 < |ins| {
        AddEdge(ins[k], ins[k + 1], NewEdge(ins[k], ins[k + 1], Sequential, graphVersion));
      }
    }

    /** A virtual node's line and instruction (the first half of each part
      * of addVirtualNodes). */
    method AddVirtualNode(number: nat, text: string) returns (l: LineId, i: InstId)
      requires Valid()
      modifies this`graphID, this`lines, this`insts
      ensures Valid() && State() == WithVirtualNode(old(State()), number, text)
      ensures l == |old(lines)| && i == |old(insts)|
    {
      l := NewGraphLine(graphVersion);
      SetLineNumber(l, graphVersion, number);
      var id := GetNextID();
      i := NewGraphInstruction();
      SetInstructionID(i, id);
      SetInstructionLabel(i, text);
      SetInstructionPtr(i, None);
      PushLineInstruction(l, i);
    }

    /** addVirtualNodes */
    method AddVirtualNodes(f: FuncId)
      requires Valid() && CanAddVirtualNodes(State(), f)
      modifies this`graphID, this`funcs, this`lines, this`insts, this`graphEdges
      ensures Valid() && State() == VirtualNodesAdded(old(State()), f)
    {
      var name := funcs[f].name;
      var entryLine, entryNode := AddVirtualNode(graphEntryID, "Entry::" + name);
      assert IdsBelow(funcs[f].lines, |lines|);
      assert IdsBelow(lines[Front(funcs[f].lines)].instructions, |insts|);
      var to := Front(lines[Front(funcs[f].lines)].instructions);
      PushFrontFunctionLines(f, entryLine);
      AddEdge(entryNode, to, NewEdge(entryNode, to, Virtual, graphVersion));
      var exitLine, exitNode := AddVirtualNode(graphExitID, "Exit::" + name);
      assert IdsBelow(funcs[f].lines, |lines|);
      assert IdsBelow(lines[Back(funcs[f].lines)].instructions, |insts|);
      var from := Back(lines[Back(funcs[f].lines)].instructions);
      PushFunctionLines(f, exitLine);
      AddEdge(from, exitNode, NewEdge(from, exitNode, Virtual, graphVersion));
    }

    /** The nested search of findVirtualEntry, findVirtualExit and
      * findMatchedInstruction, with its early returns. */
    method FindInstruction(name: Option<string>, w: Wanted) returns (r: Option<InstId>)
      ensures r == FindInFuncs(State(), functions, name, w)
    {
      var g := State();
      var k := 0;
      while k < |functions|
        invariant k <= |functions|
        invariant FindInFuncs(g, functions[k..], name, w) == FindInFuncs(g, functions, name, w)
      {
        assert functions[k..][1..] == functions[k + 1..];
        var fn := FuncOf(g, functions[k]);
        if name.None? || fn.name == name.value {
          r := SearchLines(g, fn.lines, w);
          if r.Some? {
            return;
          }
        }
        k := k + 1;
      }
      return None;
    }

    /** findVirtualEntry */
    method FindVirtualEntry(name: string) returns (r: Option<InstId>)
      ensures r == VirtualEntry(State(), name)
    {
      r := FindInstruction(Some(name), LabelHas("Entry::"));
    }

    /** findVirtualExit */
    method FindVirtualExit(name: string) returns (r: Option<InstId>)
      ensures r == VirtualExit(State(), name)
    {
      r := FindInstruction(Some(name), LabelHas("Exit::"));
    }

    /** findMatchedInstruction: the first instruction of any registered
      * function whose LLVM pointer is `p`. */
    method FindMatchedInstruction(p: Option<LlvmInst>) returns (r: Option<InstId>)
      ensures r == FindInFuncs(State(), functions, None, PtrIs(p))
    {
      r := FindInstruction(None, PtrIs(p));
    }

    /** countNodes */
    method CountNodes() returns (count: nat)
      ensures count == FunctionSizes(State(), functions)
    {
      count := 0;
      for k := 0 to |functions|
        invariant count == FunctionSizes(State(), functions[..k])
      {
        assert functions[..k + 1][..k] == functions[..k];
        var ls := FuncOf(State(), functions[k]).lines;
        ghost var before := count;
        for j := 0 to |ls|
          invariant count == before + LineSizes(State(), ls[..j])
        {
          assert ls[..j + 1][..j] == ls[..j];
          count := count + |LineOf(State(), ls[j]).instructions|;
        }
        assert ls[..|ls|] == ls;
      }
      assert functions[..|functions|] == functions;
    }

    /** isVirtualNodeLineNumber */
    function IsVirtualNodeLineNumber(n: nat): (r: bool)
      reads this
      requires Valid()
      ensures r <==> n == UINT_MAX - 1 || n == UINT_MAX - 2
    {
      IsVirtualNumber(State(), n)
    }

    /** countEdges */
    function CountEdges(): (r: nat)
      reads this
      ensures r == |State().edges|
    {
      |graphEdges|
    }
  }
}
