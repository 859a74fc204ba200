// Graph_Edge_Iterator (Graph_Edge_Iterator.cpp): a depth-first walk over the
// edges reachable from a function's virtual entry (not all of them: see
// StackedEdgeNeverYielded). The iterator holds the
// edge it is on, a stack of edges to come back to and the set of edges it
// has already yielded.
module GraphEdgeIterator {
  import opened Common
  import opened GraphEdge
  import opened GraphFunction
  import opened GraphInstruction
  import opened GraphLine
  import opened Graphs

  /** The iterator's fields: current_edge (None for nullptr, the finished
    * iterator), previous_edges (a std::stack, top at the end) and
    * visited_edges. */
  datatype IterState = IterState(current: Option<EdgeId>, previous: seq<EdgeId>, visited: set<EdgeId>)

  /** The stack left by pushing `s` from its last element to its first, so
    * that s[0] ends on top. */
  function Reversed(s: seq<EdgeId>): (r: seq<EdgeId>)
    ensures |r| == |s| && forall j | 0 <= j < |s| :: r[j] == s[|s| - 1 - j]
    decreases |s|
  {
    if s == [] then [] else Reversed(s[1..]) + [s[0]]
  }

  /** The constructor needs a first edge when the function has a virtual
    * entry: it calls top() on the stack it has just filled. */
  predicate StartOk(g: GraphState, name: string)
  {
    VirtualEntry(g, name).Some? ==> InstOf(g, VirtualEntry(g, name).value).edges != []
  }

  /** Graph_Edge_Iterator(graph, graph_function): finished when the function
    * has no virtual entry; otherwise on the entry's first edge (which is then
    * visited), with its other edges stacked so that they come back in order. */
  function Start(g: GraphState, name: string): (r: IterState)
    requires StartOk(g, name)
    ensures r.current.None? <==> VirtualEntry(g, name).None?
    ensures VirtualEntry(g, name).None? ==> r == IterState(None, [], {})
    ensures VirtualEntry(g, name).Some? ==>
      var es := InstOf(g, VirtualEntry(g, name).value).edges;
      r.current == Some(es[0]) && r.visited == {es[0]} && |r.previous| == |es| - 1 &&
      forall i | 1 <= i < |es| :: r.previous[|es| - 1 - i] == es[i]
  {
    match VirtualEntry(g, name)
    case None => IterState(None, [], {})
    case Some(entry) =>
      var es := InstOf(g, entry).edges;
      IterState(Some(es[0]), Reversed(es[1..]), {es[0]})
  }

  /** is_outgoing: edge `e` leaves the instruction that edge `cur` enters. */
  predicate Outgoing(g: GraphState, cur: EdgeId, e: EdgeId)
  {
    EdgeOf(g, cur).to == EdgeOf(g, e).from
  }

  /** `e` is an edge operator++ may move to from `cur`. */
  predicate Fresh(g: GraphState, cur: EdgeId, visited: set<EdgeId>, e: EdgeId)
  {
    Outgoing(g, cur, e) && e !in visited
  }

  /** The for loop over the filtered edges `es`: the first outgoing edge that
    * is not visited. */
  function FirstOutIn(g: GraphState, cur: EdgeId, es: seq<EdgeId>, visited: set<EdgeId>): Option<EdgeId>
    decreases |es|
  {
    if es == [] then None
    else if Fresh(g, cur, visited, es[0]) then Some(es[0])
    else FirstOutIn(g, cur, es[1..], visited)
  }

  /** The edges of the instruction that edge `cur` enters. */
  function TargetEdges(g: GraphState, cur: EdgeId): seq<EdgeId>
  {
    InstOf(g, EdgeOf(g, cur).to).edges
  }

  /** The search of one pass of operator++'s while loop. */
  function FirstOut(g: GraphState, cur: EdgeId, visited: set<EdgeId>): Option<EdgeId>
  {
    FirstOutIn(g, cur, TargetEdges(g, cur), visited)
  }

  /** Edge `cur` has an edge operator++ may move to. */
  predicate HasFresh(g: GraphState, cur: EdgeId, visited: set<EdgeId>)
  {
    exists e | e in TargetEdges(g, cur) :: Fresh(g, cur, visited, e)
  }

  /** The while loop of operator++ from edge `cur` with stack `prev`: the edge
    * found, with the stack it leaves (cur pushed), or None and an empty
    * stack. Without a fresh edge the loop backtracks to the top of the
    * stack. */
  function Seek(g: GraphState, cur: EdgeId, prev: seq<EdgeId>, visited: set<EdgeId>): (Option<EdgeId>, seq<EdgeId>)
    decreases |prev|
  {
    match FirstOut(g, cur, visited)
    case Some(e) => (Some(e), prev + [cur])
    case None =>
      if prev == [] then (None, [])
      else Seek(g, prev[|prev| - 1], prev[..|prev| - 1], visited)
  }

  /** operator++ */
  function Advance(g: GraphState, s: IterState): IterState
  {
    if s.current.None? then s
    else
      var (next, prev) := Seek(g, s.current.value, s.previous, s.visited);
      if next.None? then IterState(None, prev, s.visited) else IterState(next, prev, s.visited + {next.value})
  }

  // ---- What the search and the walk do -------------------------------------

  /** The search yields the first fresh edge of `es`, and nothing exactly
    * when `es` has none. */
  lemma {:induction false} FirstOutInCorrect(g: GraphState, cur: EdgeId, es: seq<EdgeId>, visited: set<EdgeId>)
    ensures var r := FirstOutIn(g, cur, es, visited);
      (r.Some? ==> exists k | 0 <= k < |es| :: es[k] == r.value && Fresh(g, cur, visited, es[k]) &&
                     forall j | 0 <= j < k :: !Fresh(g, cur, visited, es[j])) &&
      (r.None? <==> forall e | e in es :: !Fresh(g, cur, visited, e))
    decreases |es|
  {
    if es != [] {
      FirstOutInCorrect(g, cur, es[1..], visited);
      assert forall e | e in es :: e == es[0] || e in es[1..];
      var r := FirstOutIn(g, cur, es[1..], visited);
      if !Fresh(g, cur, visited, es[0]) && r.Some? {
        var k :| 0 <= k < |es[1..]| && es[1..][k] == r.value && Fresh(g, cur, visited, es[1..][k]) &&
                  forall j | 0 <= j < k :: !Fresh(g, cur, visited, es[1..][j]);
        assert es[k + 1] == r.value;
        forall j | 0 <= j < k + 1 ensures !Fresh(g, cur, visited, es[j]) {
          if j > 0 {
            assert es[j] == es[1..][j - 1];
          }
        }
      }
    }
  }

  /** One pass of the search moves to a fresh edge of `cur`, and finds none
    * exactly when `cur` has none. */
  lemma FirstOutCorrect(g: GraphState, cur: EdgeId, visited: set<EdgeId>)
    ensures var r := FirstOut(g, cur, visited);
      (r.Some? ==> r.value in TargetEdges(g, cur) && Fresh(g, cur, visited, r.value)) &&
      (r.None? <==> !HasFresh(g, cur, visited))
  {
    FirstOutInCorrect(g, cur, TargetEdges(g, cur), visited);
  }

  /** The while loop either stops on a fresh edge of `cur` or of an edge of
    * the stack, leaving a stack that is a prefix of the stack with cur
    * pushed and ends with the edge it left; or it empties the stack, and does
    * that exactly when neither cur nor any stacked edge has a fresh edge. */
  lemma {:induction false} SeekCorrect(g: GraphState, cur: EdgeId, prev: seq<EdgeId>, visited: set<EdgeId>)
    ensures var (next, rest) := Seek(g, cur, prev, visited);
      (next.Some? ==> rest != [] && rest <= prev + [cur] && next.value in TargetEdges(g, rest[|rest| - 1]) &&
                      Fresh(g, rest[|rest| - 1], visited, next.value)) &&
      (next.None? ==> rest == []) &&
      (next.None? <==> !HasFresh(g, cur, visited) && forall x | x in prev :: !HasFresh(g, x, visited))
    decreases |prev|
  {
    FirstOutCorrect(g, cur, visited);
    if FirstOut(g, cur, visited).None? && prev != [] {
      var top, below := prev[|prev| - 1], prev[..|prev| - 1];
      SeekCorrect(g, top, below, visited);
      assert prev == below + [top];
      assert forall x | x in prev :: x == top || x in below;
      var (next, rest) := Seek(g, top, below, visited);
      if next.Some? {
        assert rest <= below + [top] && below + [top] <= prev + [cur];
      }
    }
  }

  /** operator++ does nothing on a finished iterator. Otherwise it moves to
    * an edge that was not visited, leaving some edge of the stack or the
    * current edge, and adds exactly that edge to the visited set; it
    * finishes, with an empty stack and the visited set unchanged, exactly
    * when neither the current edge nor any stacked edge has an outgoing edge
    * left to visit. */
  lemma AdvanceCorrect(g: GraphState, s: IterState)
    ensures s.current.None? ==> Advance(g, s) == s
    ensures s.current.Some? ==>
      var r := Advance(g, s);
      (r.current.Some? ==>
         r.current.value !in s.visited && r.visited == s.visited + {r.current.value} &&
         exists x | x == s.current.value || x in s.previous :: Outgoing(g, x, r.current.value)) &&
      (r.current.None? ==> r.previous == [] && r.visited == s.visited) &&
      (r.current.None? <==> !HasFresh(g, s.current.value, s.visited) && forall x | x in s.previous :: !HasFresh(g, x, s.visited))
  {
    if s.current.Some? {
      var cur := s.current.value;
      SeekCorrect(g, cur, s.previous, s.visited);
      var (next, rest) := Seek(g, cur, s.previous, s.visited);
      if next.Some? {
        var x := rest[|rest| - 1];
        assert x in s.previous + [cur];
        assert Outgoing(g, x, next.value);
      }
    }
  }

  /** The current edge is always one the iterator has visited. */
  predicate OnVisited(s: IterState)
  {
    s.current.Some? ==> s.current.value in s.visited
  }

  lemma AdvanceOnVisited(g: GraphState, s: IterState)
    requires OnVisited(s)
    ensures OnVisited(Advance(g, s))
  {
    AdvanceCorrect(g, s);
  }

  /** `n` increments. */
  function Iterate(g: GraphState, s: IterState, n: nat): IterState
    decreases n
  {
    if n == 0 then s else Iterate(g, Advance(g, s), n - 1)
  }

  /** The edges `n` increments move to, in order. */
  function Yields(g: GraphState, s: IterState, n: nat): seq<EdgeId>
    decreases n
  {
    if n == 0 then []
    else
      var t := Advance(g, s);
      (if t.current.Some? then [t.current.value] else []) + Yields(g, t, n - 1)
  }

  /** Over any number of increments the visited set only grows, and the
    * edges moved to are all different, none of them visited before and all
    * of them visited after. */
  lemma {:induction false} YieldsFresh(g: GraphState, s: IterState, n: nat)
    ensures s.visited <= Iterate(g, s, n).visited
    ensures forall i | 0 <= i < |Yields(g, s, n)| ::
      Yields(g, s, n)[i] !in s.visited && Yields(g, s, n)[i] in Iterate(g, s, n).visited
    ensures forall i, j | 0 <= i < j < |Yields(g, s, n)| :: Yields(g, s, n)[i] != Yields(g, s, n)[j]
    decreases n
  {
    if n > 0 {
      var t := Advance(g, s);
      AdvanceCorrect(g, s);
      YieldsFresh(g, t, n - 1);
      var rest, ys, r := Yields(g, t, n - 1), Yields(g, s, n), Iterate(g, t, n - 1);
      assert Iterate(g, s, n) == r;
      assert s.visited <= t.visited;
      if t.current.Some? {
        var e := t.current.value;
        assert s.current.Some? && t.visited == s.visited + {e} && e !in s.visited;
        assert ys == [e] + rest;
        forall i | 1 <= i < |ys| ensures ys[i] == rest[i - 1] && ys[i] != e {
          assert rest[i - 1] !in t.visited;
        }
      } else {
        assert ys == rest;
      }
    }
  }

  /** The whole walk from the constructor: the first edge and the edges the
    * increments move to are all different. */
  lemma WalkDistinct(g: GraphState, name: string, n: nat)
    requires StartOk(g, name)
    ensures var s := Start(g, name); var ys := Yields(g, s, n);
      (s.current.Some? ==> s.current.value !in ys) &&
      (forall i, j | 0 <= i < j < |ys| :: ys[i] != ys[j])
  {
    YieldsFresh(g, Start(g, name), n);
  }

  // ---- An edge the walk never yields ---------------------------------------

  /** A graph with one function "f" whose virtual entry (instruction 0) has
    * two edges, 0 to instruction 1 and 1 to instruction 2; neither target
    * has an edge of its own, and no edge enters the entry. */
  function TwoBranches(): GraphState
  {
    GraphState(0, 1, UINT_MAX - 1, UINT_MAX - 2, [0],
      [Function(0, "f", "f.c", [0], true)],
      [Line(map[1 := UINT_MAX - 1], [0, 1, 2], Some(0), 1)],
      [Instruction(1, "Entry::f", None, [0, 1], Some(0), {}),
       Instruction(2, "", None, [0], Some(0), {}),
       Instruction(3, "", None, [1], Some(0), {})],
      [Edge(0, 1, Virtual, [1]), Edge(0, 2, Virtual, [1])])
  }

  /** A finished iterator stays finished and yields nothing. */
  lemma {:induction false} FinishedStays(g: GraphState, s: IterState, n: nat)
    requires s.current.None?
    ensures Iterate(g, s, n) == s && Yields(g, s, n) == []
    decreases n
  {
    if n > 0 {
      FinishedStays(g, s, n - 1);
    }
  }

  /** The walk does not reach every edge leaving the entry: the constructor
    * stacks edge 1 of TwoBranches, the first increment pops it back as the
    * current edge, finds nothing to leave it by and finishes, so edge 1 is
    * never yielded nor visited, however often the iterator is incremented. */
  lemma StackedEdgeNeverYielded(n: nat)
    ensures var g := TwoBranches();
      StartOk(g, "f") && VirtualEntry(g, "f") == Some(0) && EdgeOf(g, 1).from == 0 &&
      var s := Start(g, "f");
      s.current == Some(0) && s.previous == [1] &&
      Advance(g, s).current.None? && 1 !in Yields(g, s, n) && 1 !in Iterate(g, s, n).visited
  {
    var g := TwoBranches();
    assert OccursAt("Entry::f", "Entry::", 0);
    assert Contains("Entry::f", "Entry::");
    assert FindInInsts(g, [0, 1, 2], LabelHas("Entry::")) == Some(0);
    assert FindInLines(g, [0], LabelHas("Entry::")) == Some(0);
    assert VirtualEntry(g, "f") == Some(0);
    var s := Start(g, "f");
    assert s == IterState(Some(0), [1], {0});
    FirstOutCorrect(g, 0, {0});
    FirstOutCorrect(g, 1, {0});
    assert TargetEdges(g, 0) == [0] && TargetEdges(g, 1) == [1];
    assert FirstOut(g, 0, {0}).None? && FirstOut(g, 1, {0}).None?;
    assert Seek(g, 0, [1], {0}) == Seek(g, 1, [], {0});
    var t := Advance(g, s);
    assert t == IterState(None, [], {0});
    if n > 0 {
      FinishedStays(g, t, n - 1);
      assert Yields(g, s, n) == [] + Yields(g, t, n - 1);
      assert Iterate(g, s, n) == Iterate(g, t, n - 1);
    }
  }

  // ---- The iterator object -------------------------------------------------

  /** The for loop of operator++ over the edges of cur's target, with its
    * filter and its break. */
  method SearchOutgoing(g: GraphState, cur: EdgeId, visited: set<EdgeId>) returns (r: Option<EdgeId>)
    ensures r == FirstOut(g, cur, visited)
  {
    var edges := TargetEdges(g, cur);
    var j := 0;
    while j < |edges|
      invariant 0 <= j <= |edges| && FirstOutIn(g, cur, edges[j..], visited) == FirstOut(g, cur, visited)
    {
      assert edges[j..][1..] == edges[j + 1..];
      if Outgoing(g, cur, edges[j]) && edges[j] !in visited {
        return Some(edges[j]);
      }
      j := j + 1;
    }
    return None;
  }

  class EdgeIterator {
    const graph: Graph
    var currentEdge: Option<EdgeId>
    var previousEdges: seq<EdgeId>
    var visitedEdges: set<EdgeId>

    function State(): IterState
      reads this
    {
      IterState(currentEdge, previousEdges, visitedEdges)
    }

    /** Graph_Edge_Iterator(graph, graph_function) */
    constructor (graph: Graph, fn: Function)
      requires StartOk(graph.State(), fn.name)
      ensures this.graph == graph && State() == Start(graph.State(), fn.name)
    {
      var entry := graph.FindVirtualEntry(fn.name);
      var cur: Option<EdgeId> := None;
      var stack: seq<EdgeId> := [];
      var visited: set<EdgeId> := {};
      if entry.Some? {
        var outgoing := InstOf(graph.State(), entry.value).edges;
        var k := |outgoing|;
        while k > 0
          invariant 0 <= k <= |outgoing| && stack == Reversed(outgoing[k..])
        {
          assert outgoing[k - 1..][1..] == outgoing[k..];
          k := k - 1;
          stack := stack + [outgoing[k]];
        }
        assert outgoing[0..] == outgoing;
        cur := Some(stack[|stack| - 1]);
        stack := stack[..|stack| - 1];
        visited := {cur.value};
      }
      this.graph := graph;
      currentEdge := cur;
      previousEdges := stack;
      visitedEdges := visited;
    }

    /** operator++ */
    method Increment()
      modifies this
      ensures State() == Advance(graph.State(), old(State()))
    {
      if currentEdge.None? {
        return;
      }
      var g := graph.State();
      ghost var goal := Seek(g, currentEdge.value, previousEdges, visitedEdges);
      var next: Option<EdgeId> := None;
      while next.None?
        invariant visitedEdges == old(visitedEdges)
        invariant next.None? ==> currentEdge.Some? && Seek(g, currentEdge.value, previousEdges, visitedEdges) == goal
        invariant next.Some? ==> goal == (next, previousEdges)
        decreases if next.None? then |previousEdges| + 1 else 0
      {
        next := SearchOutgoing(g, currentEdge.value, visitedEdges);
        if next.Some? {
          previousEdges := previousEdges + [currentEdge.value];
        } else if previousEdges == [] {
          currentEdge := None;
          return;
        } else {
          currentEdge := Some(previousEdges[|previousEdges| - 1]);
          previousEdges := previousEdges[..|previousEdges| - 1];
        }
      }
      currentEdge := next;
      visitedEdges := visitedEdges + {next.value};
    }
  }
}
