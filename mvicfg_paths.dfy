// dfsPath and reportPaths: counting the paths through newly added
// instructions of the MVICFG. A depth-first walk from each new instruction
// that has an incoming edge follows the edges leaving it; an edge ends a
// path (counts one) when its target is not a new instruction or has been
// visited, and otherwise the walk continues from the target.
module MvicfgPaths {
  import opened Common
  import opened GraphEdge
  import opened GraphInstruction
  import opened GraphLine
  import opened Graphs
  import opened MvicfgLookup

  /** Edge `e` leaves instruction `i`: its source has i's instructionID. */
  predicate LeadingOut(g: GraphState, i: InstId, e: EdgeId)
  {
    InstOf(g, EdgeOf(g, e).from).id == InstOf(g, i).id
  }

  /** Edge `e` enters instruction `i`: its target has i's instructionID. */
  predicate LeadingIn(g: GraphState, i: InstId, e: EdgeId)
  {
    InstOf(g, EdgeOf(g, e).to).id == InstOf(g, i).id
  }

  /** The instruction a walk along `e` reaches: getMatchedInstructionFromGraph
    * of its target. */
  function Next(g: GraphState, e: EdgeId): Option<InstId>
  {
    MatchedInstruction(g, g, EdgeOf(g, e).to)
  }

  /** Edge `e` ends a path: what it reaches is not a new instruction (or
    * there is nothing to reach), or has been visited. */
  predicate EndsPath(g: GraphState, news: set<InstId>, visited: set<InstId>, e: EdgeId)
  {
    match Next(g, e)
    case None => true
    case Some(t) => t !in news || t in visited
  }

  /** dfsPath from `i` with the set `visited`: the number of paths counted
    * and the visited set it leaves. Only new instructions join the set,
    * besides `i` itself, which joins it before anything is explored. */
  function Dfs(g: GraphState, news: set<InstId>, i: InstId, visited: set<InstId>): (r: (int, set<InstId>))
    ensures visited + {i} <= r.1 && r.1 <= visited + {i} + news && r.0 >= 0
    decreases news - (visited + {i}), 1
  {
    DfsEdges(g, news, i, InstOf(g, i).edges, 0, visited + {i})
  }

  /** The loop of dfsPath over i's edges from the `k`-th on. */
  function DfsEdges(g: GraphState, news: set<InstId>, i: InstId, es: seq<EdgeId>, k: nat, visited: set<InstId>): (r: (int, set<InstId>))
    requires k <= |es|
    ensures visited <= r.1 && r.1 <= visited + news && r.0 >= 0
    decreases news - visited, 0, |es| - k
  {
    if k == |es| then (0, visited)
    else
      var step :=
        if !LeadingOut(g, i, es[k]) then (0, visited)
        else match Next(g, es[k])
          case None => (1, visited)
          case Some(t) => if t !in news || t in visited then (1, visited) else Dfs(g, news, t, visited);
      var rest := DfsEdges(g, news, i, es, k + 1, step.1);
      (step.0 + rest.0, rest.1)
  }

  /** The number of edges from the `k`-th on that leave `i`. */
  function OutCount(g: GraphState, i: InstId, es: seq<EdgeId>, k: nat): nat
    requires k <= |es|
    decreases |es| - k
  {
    if k == |es| then 0 else (if LeadingOut(g, i, es[k]) then 1 else 0) + OutCount(g, i, es, k + 1)
  }

  /** The number of edges from the `k`-th on that leave `i` for an
    * instruction that is not new. */
  function ExitCount(g: GraphState, news: set<InstId>, i: InstId, es: seq<EdgeId>, k: nat): nat
    requires k <= |es|
    decreases |es| - k
  {
    if k == |es| then 0
    else (if LeadingOut(g, i, es[k]) && (Next(g, es[k]).None? || Next(g, es[k]).value !in news) then 1 else 0) + ExitCount(g, news, i, es, k + 1)
  }

  /** Every edge leaving for an instruction outside the new ones ends a
    * path, so it counts one whatever the walk does elsewhere. */
  lemma {:induction false} DfsEdgesCountsExits(g: GraphState, news: set<InstId>, i: InstId, es: seq<EdgeId>, k: nat, visited: set<InstId>)
    requires k <= |es|
    ensures DfsEdges(g, news, i, es, k, visited).0 >= ExitCount(g, news, i, es, k)
    decreases |es| - k
  {
    if k < |es| {
      var step :=
        if !LeadingOut(g, i, es[k]) then (0, visited)
        else match Next(g, es[k])
          case None => (1, visited)
          case Some(t) => if t !in news || t in visited then (1, visited) else Dfs(g, news, t, visited);
      DfsEdgesCountsExits(g, news, i, es, k + 1, step.1);
    }
  }

  /** dfsPath counts at least one path per edge from `i` to an instruction
    * that is not new. */
  lemma DfsCountsExits(g: GraphState, news: set<InstId>, i: InstId, visited: set<InstId>)
    ensures Dfs(g, news, i, visited).0 >= ExitCount(g, news, i, InstOf(g, i).edges, 0)
  {
    DfsEdgesCountsExits(g, news, i, InstOf(g, i).edges, 0, visited + {i});
  }

  lemma {:induction false} DfsEdgesAllVisited(g: GraphState, news: set<InstId>, i: InstId, es: seq<EdgeId>, k: nat, visited: set<InstId>)
    requires k <= |es| && news <= visited
    ensures DfsEdges(g, news, i, es, k, visited) == (OutCount(g, i, es, k), visited)
    decreases |es| - k
  {
    if k < |es| {
      DfsEdgesAllVisited(g, news, i, es, k + 1, visited);
    }
  }

  /** Once every new instruction is visited, dfsPath does not recurse: each
    * edge leaving `i` counts exactly one path. */
  lemma DfsAllVisited(g: GraphState, news: set<InstId>, i: InstId, visited: set<InstId>)
    requires news <= visited
    ensures Dfs(g, news, i, visited) == (OutCount(g, i, InstOf(g, i).edges, 0), visited + {i})
  {
    DfsEdgesAllVisited(g, news, i, InstOf(g, i).edges, 0, visited + {i});
  }

  // ---- reportPaths -----------------------------------------------------------

  /** The matches in `g` of the instructions `ins` of graph `src`. */
  function MatchesOf(g: GraphState, src: GraphState, ins: seq<InstId>): (r: seq<Option<InstId>>)
    ensures |r| == |ins|
  {
    seq(|ins|, p requires 0 <= p < |ins| => MatchedInstruction(g, src, ins[p]))
  }

  /** Inserting the found matches among `os[..n]`; a missing match adds
    * nothing. */
  function FoundUpTo(os: seq<Option<InstId>>, n: nat): set<InstId>
    requires n <= |os|
  {
    if n == 0 then {}
    else FoundUpTo(os, n - 1) + (match os[n - 1] case Some(m) => {m} case None => {})
  }

  /** The matches of the instructions of each line of `ls`. */
  function LineMatches(g: GraphState, src: GraphState, ls: seq<LineId>): (r: seq<seq<Option<InstId>>>)
    ensures |r| == |ls|
  {
    seq(|ls|, j requires 0 <= j < |ls| => MatchesOf(g, src, LineOf(src, ls[j]).instructions))
  }

  /** The first loop of reportPaths over the lines `oss[..n]`. */
  function FoundIn(oss: seq<seq<Option<InstId>>>, n: nat): set<InstId>
    requires n <= |oss|
  {
    if n == 0 then {} else FoundIn(oss, n - 1) + FoundUpTo(oss[n - 1], |oss[n - 1]|)
  }

  function NewInstructions(g: GraphState, src: GraphState, ls: seq<LineId>): set<InstId>
  {
    FoundIn(LineMatches(g, src, ls), |ls|)
  }

  lemma {:induction false} FoundUpToAre(os: seq<Option<InstId>>, n: nat, x: InstId)
    requires n <= |os|
    ensures x in FoundUpTo(os, n) <==> exists p | 0 <= p < n :: os[p] == Some(x)
  {
    if n > 0 {
      FoundUpToAre(os, n - 1, x);
      if x in FoundUpTo(os, n - 1) {
        var p :| 0 <= p < n - 1 && os[p] == Some(x);
        assert 0 <= p < n;
      }
    }
  }

  lemma {:induction false} FoundInAre(oss: seq<seq<Option<InstId>>>, n: nat, x: InstId)
    requires n <= |oss|
    ensures x in FoundIn(oss, n) <==> exists j, p | 0 <= j < n && 0 <= p < |oss[j]| :: oss[j][p] == Some(x)
  {
    if n > 0 {
      FoundInAre(oss, n - 1, x);
      FoundUpToAre(oss[n - 1], |oss[n - 1]|, x);
      if x in FoundIn(oss, n - 1) {
        var j, p :| 0 <= j < n - 1 && 0 <= p < |oss[j]| && oss[j][p] == Some(x);
        assert 0 <= j < n;
      }
      if x in FoundUpTo(oss[n - 1], |oss[n - 1]|) {
        var p :| 0 <= p < |oss[n - 1]| && oss[n - 1][p] == Some(x);
        assert 0 <= n - 1 < n;
      }
    }
  }

  /** An instruction is new exactly when it is the match of an instruction
    * of one of the lines. */
  lemma NewInstructionsAre(g: GraphState, src: GraphState, ls: seq<LineId>, x: InstId)
    ensures x in NewInstructions(g, src, ls) <==>
      exists j, p | 0 <= j < |ls| && 0 <= p < |LineOf(src, ls[j]).instructions| :: MatchedInstruction(g, src, LineOf(src, ls[j]).instructions[p]) == Some(x)
  {
    var oss := LineMatches(g, src, ls);
    FoundInAre(oss, |ls|, x);
    if x in NewInstructions(g, src, ls) {
      var j, p :| 0 <= j < |ls| && 0 <= p < |oss[j]| && oss[j][p] == Some(x);
      assert oss[j][p] == MatchedInstruction(g, src, LineOf(src, ls[j]).instructions[p]);
    }
    if exists j, p | 0 <= j < |ls| && 0 <= p < |LineOf(src, ls[j]).instructions| :: MatchedInstruction(g, src, LineOf(src, ls[j]).instructions[p]) == Some(x) {
      var j, p :| 0 <= j < |ls| && 0 <= p < |LineOf(src, ls[j]).instructions| && MatchedInstruction(g, src, LineOf(src, ls[j]).instructions[p]) == Some(x);
      assert oss[j][p] == Some(x);
    }
  }

  /** Some edge of `i` enters it (the find_if of reportPaths). */
  predicate HasEdgeIn(g: GraphState, i: InstId)
  {
    exists e | e in InstOf(g, i).edges :: LeadingIn(g, i, e)
  }

  /** The second loop of reportPaths over `order[k..]`: a walk starts from each
    * instruction not yet visited that has an edge into it. */
  function ReportFrom(g: GraphState, news: set<InstId>, order: seq<InstId>, k: nat, visited: set<InstId>): (r: (int, set<InstId>))
    requires k <= |order|
    ensures visited <= r.1 && r.0 >= 0
    decreases |order| - k
  {
    if k == |order| then (0, visited)
    else
      var i := order[k];
      var step := if i in visited || !HasEdgeIn(g, i) then (0, visited) else Dfs(g, news, i, visited);
      var rest := ReportFrom(g, news, order, k + 1, step.1);
      (step.0 + rest.0, rest.1)
  }

  /** reportPaths: std::set visits the new instructions in ascending order. */
  function Report(g: GraphState, src: GraphState, ls: seq<LineId>): (int, set<InstId>)
  {
    var news := NewInstructions(g, src, ls);
    ReportFrom(g, news, AscendingIds(news), 0, {})
  }

  /** Every instruction of `order[k..]` with an edge into it is visited by
    * the end, and when they are all new only new instructions are. */
  lemma {:induction false} ReportFromVisits(g: GraphState, news: set<InstId>, order: seq<InstId>, k: nat, visited: set<InstId>)
    requires k <= |order|
    ensures var r := ReportFrom(g, news, order, k, visited);
      (forall j | k <= j < |order| && HasEdgeIn(g, order[j]) :: order[j] in r.1) &&
      ((forall j | k <= j < |order| :: order[j] in news) ==> r.1 <= visited + news)
    decreases |order| - k
  {
    if k < |order| {
      var i := order[k];
      var step := if i in visited || !HasEdgeIn(g, i) then (0, visited) else Dfs(g, news, i, visited);
      ReportFromVisits(g, news, order, k + 1, step.1);
    }
  }

  /** reportPaths walks from every new instruction with an edge into it,
    * visits nothing but new instructions and counts no negative number. */
  lemma ReportVisits(g: GraphState, src: GraphState, ls: seq<LineId>)
    ensures var news := NewInstructions(g, src, ls); var r := Report(g, src, ls);
      r.0 >= 0 && r.1 <= news && forall i | i in news && HasEdgeIn(g, i) :: i in r.1
  {
    var news := NewInstructions(g, src, ls);
    var order := AscendingIds(news);
    ReportFromVisits(g, news, order, 0, {});
    forall i | i in news && HasEdgeIn(g, i)
      ensures i in Report(g, src, ls).1
    {
      var j :| 0 <= j < |order| && order[j] == i;
    }
  }

  // ---- The methods -----------------------------------------------------------

  /** getMatchedInstructionFromGraph */
  method GetMatchedInstructionFromGraph(mv: Graph, src: GraphState, inst: InstId) returns (r: Option<InstId>)
    ensures r == MatchedInstruction(mv.State(), src, inst)
  {
    r := mv.FindInstruction(None, MatchKey(mv.State(), src, inst));
  }

  /** dfsPath: `visited` is passed in and handed back, as the reference
    * parameter of the source is. */
  method DfsPath(mv: Graph, instruction: InstId, visited: set<InstId>, newInstructions: set<InstId>) returns (pathCount: int, visitedOut: set<InstId>)
    ensures (pathCount, visitedOut) == Dfs(mv.State(), newInstructions, instruction, visited)
    decreases newInstructions - (visited + {instruction}), 1
  {
    ghost var g := mv.State();
    visitedOut := visited + {instruction};
    pathCount := 0;
    var es := InstOf(mv.State(), instruction).edges;
    var k := 0;
    while k < |es|
      invariant 0 <= k <= |es| && visited + {instruction} <= visitedOut
      invariant Dfs(g, newInstructions, instruction, visited) ==
        (pathCount + DfsEdges(g, newInstructions, instruction, es, k, visitedOut).0, DfsEdges(g, newInstructions, instruction, es, k, visitedOut).1)
    {
      var edge := es[k];
      if LeadingOut(mv.State(), instruction, edge) {
        var to := GetMatchedInstructionFromGraph(mv, mv.State(), EdgeOf(mv.State(), edge).to);
        if to.None? || to.value !in newInstructions {
          pathCount := pathCount + 1;
        } else if to.value in visitedOut {
          pathCount := pathCount + 1;
        } else {
          var c, v := DfsPath(mv, to.value, visitedOut, newInstructions);
          pathCount := pathCount + c;
          visitedOut := v;
        }
      }
      k := k + 1;
    }
  }

  /** The inner loop of the first loop of reportPaths, over the
    * instructions of one line. */
  method InsertMatches(mv: Graph, src: GraphState, ins: seq<InstId>, acc: set<InstId>) returns (r: set<InstId>)
    ensures r == acc + FoundUpTo(MatchesOf(mv.State(), src, ins), |ins|)
  {
    ghost var g := mv.State();
    ghost var os := MatchesOf(g, src, ins);
    r := acc;
    var p := 0;
    while p < |ins|
      invariant 0 <= p <= |ins| && r == acc + FoundUpTo(os, p)
    {
      var matched := GetMatchedInstructionFromGraph(mv, src, ins[p]);
      assert matched == os[p];
      if matched.Some? {
        r := r + {matched.value};
      }
      p := p + 1;
    }
  }

  /** The first loop of reportPaths. */
  method CollectNewInstructions(mv: Graph, src: GraphState, lines: seq<LineId>) returns (newInstructions: set<InstId>)
    ensures newInstructions == NewInstructions(mv.State(), src, lines)
  {
    ghost var g := mv.State();
    ghost var oss := LineMatches(g, src, lines);
    newInstructions := {};
    var j := 0;
    while j < |lines|
      invariant 0 <= j <= |lines| && newInstructions == FoundIn(oss, j)
    {
      newInstructions := InsertMatches(mv, src, LineOf(src, lines[j]).instructions, newInstructions);
      assert oss[j] == MatchesOf(g, src, LineOf(src, lines[j]).instructions);
      j := j + 1;
    }
  }

  /** reportPaths over lines of the graph `src`. */
  method ReportPaths(mv: Graph, src: GraphState, lines: seq<LineId>) returns (pathCount: int)
    ensures pathCount == Report(mv.State(), src, lines).0
  {
    ghost var g := mv.State();
    var newInstructions := CollectNewInstructions(mv, src, lines);
    var order := AscendingIds(newInstructions);
    var visited := {};
    pathCount := 0;
    var k := 0;
    while k < |order|
      invariant 0 <= k <= |order|
      invariant Report(g, src, lines).0 == pathCount + ReportFrom(g, newInstructions, order, k, visited).0
    {
      var instruction := order[k];
      if instruction !in visited {
        if HasEdgeIn(mv.State(), instruction) {
          var c, v := DfsPath(mv, instruction, visited, newInstructions);
          pathCount := pathCount + c;
          visited := v;
        }
      }
      k := k + 1;
    }
  }
}
