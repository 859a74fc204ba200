// The edge steps shared by the merge passes of MVICFG.cpp (wire an edge or
// add a version to it, add an edge only when it is missing, add a version
// only when it is missing), and the relation all of them keep: the graph
// gains edges and edge versions, always the pass's own version, and nothing
// else changes.
module MvicfgWire {
  import opened Common
  import opened DiffMapping
  import opened GraphEdge
  import opened GraphInstruction
  import opened Graphs
  import opened MvicfgLookup

  /** What one merge pass works with: the ICFG of the new version, the
    * Diff_Mapping of one file and the version being merged. The ICFG is
    * only read by the passes. */
  datatype Pass = Pass(icfg: GraphState, diff: MappingState, version: nat)

  // ---- What an edge step may change ---------------------------------------

  /** How many versions edge `k` of `es` had; a new edge had none. */
  function BaseCount(es: seq<Edge>, k: nat): nat
  {
    if k < |es| then |es[k].versions| else 0
  }

  /** `es2` keeps every edge of `es` with its versions, and every version it
    * has beyond those (on old or on new edges) is `v`. */
  predicate AddsOnly(es: seq<Edge>, es2: seq<Edge>, v: nat)
  {
    EdgesGrow(es, es2) &&
    forall k, j | 0 <= k < |es2| && BaseCount(es, k) <= j < |es2[k].versions| :: es2[k].versions[j] == v
  }

  /** `h` is `g` with edges added, versions `v` pushed onto edges, and the ids
    * of the new edges appended to instructions' edge lists; functions,
    * lines, counters and every other field of the instructions are as in
    * `g`. The new edges join instructions of `g`, and edge lists hold edge
    * ids only. */
  predicate Rewired(g: GraphState, h: GraphState, v: nat)
  {
    h.(insts := g.insts, edges := g.edges) == g &&
    |h.insts| == |g.insts| &&
    (forall i | 0 <= i < |g.insts| :: h.insts[i].(edges := g.insts[i].edges) == g.insts[i] && g.insts[i].edges <= h.insts[i].edges) &&
    (forall i | 0 <= i < |h.insts| :: IdsBelow(h.insts[i].edges, |h.edges|)) &&
    (forall k | |g.edges| <= k < |h.edges| :: h.edges[k].from < |g.insts| && h.edges[k].to < |g.insts|) &&
    AddsOnly(g.edges, h.edges, v)
  }

  lemma RewiredRefl(g: GraphState, v: nat)
    requires WellFormed(g)
    ensures Rewired(g, g, v)
  {
  }

  lemma RewiredTrans(a: GraphState, b: GraphState, c: GraphState, v: nat)
    requires Rewired(a, b, v) && Rewired(b, c, v)
    ensures Rewired(a, c, v)
  {
    EdgesGrowTrans(a.edges, b.edges, c.edges);
    forall k, j | 0 <= k < |c.edges| && BaseCount(a.edges, k) <= j < |c.edges[k].versions|
      ensures c.edges[k].versions[j] == v
    {
      if k < |b.edges| && j < |b.edges[k].versions| {
        assert Extends(b.edges[k], c.edges[k]);
        assert c.edges[k].versions[j] == b.edges[k].versions[j];
      }
    }
    forall i | 0 <= i < |a.insts|
      ensures c.insts[i].(edges := a.insts[i].edges) == a.insts[i] && a.insts[i].edges <= c.insts[i].edges
    {
      assert c.insts[i].(edges := b.insts[i].edges) == b.insts[i];
    }
  }

  /** An edge step keeps a well-formed graph well-formed. */
  lemma RewiredWellFormed(g: GraphState, h: GraphState, v: nat)
    requires WellFormed(g) && Rewired(g, h, v)
    ensures WellFormed(h)
  {
    assert h.lines == g.lines && h.funcs == g.funcs && h.functions == g.functions;
    forall i | 0 <= i < |h.insts|
      ensures OptBelow(h.insts[i].line, |h.lines|)
    {
      assert h.insts[i].line == g.insts[i].line;
    }
    forall k | 0 <= k < |h.edges|
      ensures h.edges[k].from < |h.insts| && h.edges[k].to < |h.insts|
    {
      if k < |g.edges| {
        assert Extends(g.edges[k], h.edges[k]);
      }
    }
  }

  /** The version list of every edge holds `v` at most once. */
  predicate VersionOnce(es: seq<Edge>, v: nat)
  {
    forall k, i, j | 0 <= k < |es| && 0 <= i < j < |es[k].versions| :: es[k].versions[i] == v ==> es[k].versions[j] != v
  }

  // ---- The steps -------------------------------------------------------------

  /** An edge from `from` to `to` lies in from's edge list and belongs to
    * version `v`. */
  predicate Connected(g: GraphState, from: InstId, to: InstId, v: nat)
  {
    exists e | e in InstOf(g, from).edges :: EdgeOf(g, e).from == from && EdgeOf(g, e).to == to && IsPartOfGraph(EdgeOf(g, e), v)
  }

  /** An edge step keeps every connection the graph had, in every version. */
  lemma ConnectedKept(g: GraphState, h: GraphState, from: InstId, to: InstId, v: nat, w: nat)
    requires WellFormed(g) && Rewired(g, h, w) && Connected(g, from, to, v)
    ensures Connected(h, from, to, v)
  {
    var e :| e in InstOf(g, from).edges && EdgeOf(g, e).from == from && EdgeOf(g, e).to == to && IsPartOfGraph(EdgeOf(g, e), v);
    assert from < |g.insts|;
    assert Extends(g.edges[e], h.edges[e]);
    assert e in InstOf(h, from).edges;
  }

  /** An MVICFG line `n`, the ICFG line `nDash` it corresponds to, and
    * nDash's predecessor and successor lines in the ICFG, whose
    * concatenation the passes walk. */
  datatype Around = Around(n: LineId, nDash: LineId, pred: seq<LineId>, succ: seq<LineId>)

  /** What wiring one line asks for: an edge from instruction `from` to
    * instruction `to`, of type `kind` should it be new. */
  datatype Wiring = Wiring(from: InstId, to: InstId, kind: EdgeType)

  /** The wiring of addToMVICFG: when getEdge finds an edge of any type from
    * `from` to `to`, `v` is pushed onto it; otherwise a new edge of type `t`
    * and version `v` is added. An endpoint outside the graph (the source
    * would follow a dangling pointer) changes nothing. */
  function Wire(g: GraphState, from: InstId, to: InstId, v: nat, t: EdgeType): GraphState
  {
    if from < |g.insts| && to < |g.insts| then
      match GetEdge(g, from, to, Any)
      case Some(e) => if e < |g.edges| then WithVersionPushed(g, e, v) else g
      case None => WithEdge(g, from, to, NewEdge(from, to, t, v))
    else g
  }

  /** The wiring of deleteFromMVICFG: a new edge of type `t` and version `v`
    * only when getEdge finds none; an existing edge is left as it is. */
  function Link(g: GraphState, from: InstId, to: InstId, v: nat, t: EdgeType): GraphState
  {
    if from < |g.insts| && to < |g.insts| && GetEdge(g, from, to, Any).None? then WithEdge(g, from, to, NewEdge(from, to, t, v))
    else g
  }

  /** `if (!edge->isPartOfGraph(v)) edge->pushEdgeVersions(v)` on graph edge `e`. */
  function StampEdge(g: GraphState, e: EdgeId, v: nat): GraphState
  {
    if e < |g.edges| then g.(edges := g.edges[e := Stamp(g.edges[e], v)]) else g
  }

  /** The edge-type cascade of the merge passes: the type of the edge getEdge
    * finds from `fi` to `ti`, else that of the edge getInBetweenEdge finds
    * from line `a` to line `b`, else `fallback`. */
  function TypeFrom(g: GraphState, fi: InstId, ti: InstId, a: LineId, b: LineId, fallback: EdgeType): EdgeType
  {
    match GetEdge(g, fi, ti, Any)
    case Some(e) => EdgeOf(g, e).edgeType
    case None =>
      match GetInBetweenEdge(g, a, b)
      case Some(e) => EdgeOf(g, e).edgeType
      case None => fallback
  }

  // ---- What the steps do ---------------------------------------------------

  /** An edge from `fi` to `ti` of type `t` in fi's list. */
  predicate HasEdgeOfType(g: GraphState, fi: InstId, ti: InstId, t: EdgeType)
  {
    exists e | e in InstOf(g, fi).edges :: EdgeOf(g, e).from == fi && EdgeOf(g, e).to == ti && EdgeOf(g, e).edgeType == t
  }

  /** The type chosen is that of a direct edge when one exists, else that of
    * an edge between an instruction of `a` and one of `b`; the fallback only
    * when neither exists. */
  lemma TypeFromIs(g: GraphState, fi: InstId, ti: InstId, a: LineId, b: LineId, fallback: EdgeType)
    ensures var r := TypeFrom(g, fi, ti, a, b, fallback);
      var direct := exists e | e in InstOf(g, fi).edges :: EdgeFits(g, e, fi, ti, Any);
      var between := exists x, y | x in LineOf(g, a).instructions && y in LineOf(g, b).instructions :: GetEdge(g, x, y, Any).Some?;
      (direct ==> HasEdgeOfType(g, fi, ti, r)) &&
      (!direct && between ==> exists x, y | x in LineOf(g, a).instructions && y in LineOf(g, b).instructions :: HasEdgeOfType(g, x, y, r)) &&
      (!direct && !between ==> r == fallback)
  {
    var r := TypeFrom(g, fi, ti, a, b, fallback);
    InBetweenEdgeIs(g, a, b);
    match GetEdge(g, fi, ti, Any)
    case Some(e) =>
      assert HasEdgeOfType(g, fi, ti, r);
    case None =>
      match GetInBetweenEdge(g, a, b)
      case Some(e) =>
        var fis, tis := LineOf(g, a).instructions, LineOf(g, b).instructions;
        var k, y :| 0 <= k < |fis| && y in tis && e in InstOf(g, fis[k]).edges && EdgeOf(g, e).from == fis[k] && EdgeOf(g, e).to == y;
        assert HasEdgeOfType(g, fis[k], y, r);
      case None =>
  }

  /** Wire leaves an edge from `from` to `to` in version `v`: the one getEdge
    * found, with `v` pushed and every other edge as it was, or exactly one
    * new edge of type `t` when none existed. */
  lemma WireEffect(g: GraphState, from: InstId, to: InstId, v: nat, t: EdgeType)
    requires WellFormed(g) && from < |g.insts| && to < |g.insts|
    ensures var r := Wire(g, from, to, v, t);
      Connected(r, from, to, v) &&
      (GetEdge(g, from, to, Any).Some? ==>
         var e := GetEdge(g, from, to, Any).value;
         r.insts == g.insts && |r.edges| == |g.edges| && r.edges[e] == g.edges[e].PushVersion(v) &&
         forall k | 0 <= k < |g.edges| && k != e :: r.edges[k] == g.edges[k]) &&
      (GetEdge(g, from, to, Any).None? ==>
         (forall e | e in InstOf(g, from).edges :: !EdgeFits(g, e, from, to, Any)) &&
         r.edges == g.edges + [Edge(from, to, t, [v])] &&
         |g.edges| in InstOf(r, from).edges && |g.edges| in InstOf(r, to).edges)
  {
    var r := Wire(g, from, to, v, t);
    match GetEdge(g, from, to, Any)
    case Some(e) =>
      assert e in InstOf(r, from).edges && EdgeOf(r, e).from == from && EdgeOf(r, e).to == to;
    case None =>
      AddEdgeAppends(g, from, to, NewEdge(from, to, t, v), from);
      AddEdgeAppends(g, from, to, NewEdge(from, to, t, v), to);
      assert |g.edges| in InstOf(r, from).edges;
      assert EdgeOf(r, |g.edges|) == NewEdge(from, to, t, v);
  }

  /** After Link an edge from `from` to `to` exists; a new one (type `t`,
    * version `v`) exactly when none existed before. */
  lemma LinkEffect(g: GraphState, from: InstId, to: InstId, v: nat, t: EdgeType)
    requires WellFormed(g) && from < |g.insts| && to < |g.insts|
    ensures var r := Link(g, from, to, v, t);
      (exists e | e in InstOf(r, from).edges :: EdgeFits(r, e, from, to, Any)) &&
      (GetEdge(g, from, to, Any).Some? ==> r == g) &&
      (GetEdge(g, from, to, Any).None? ==> r.edges == g.edges + [Edge(from, to, t, [v])])
  {
    var r := Link(g, from, to, v, t);
    match GetEdge(g, from, to, Any)
    case Some(e) =>
      assert EdgeFits(r, e, from, to, Any);
    case None =>
      AddEdgeAppends(g, from, to, NewEdge(from, to, t, v), from);
      assert |g.edges| in InstOf(r, from).edges;
      assert EdgeFits(r, |g.edges|, from, to, Any);
  }

  /** `h` is `g` with new edges of version `v` and nothing else: every edge
    * `g` had is exactly as it was. */
  predicate Appends(g: GraphState, h: GraphState, v: nat)
  {
    Rewired(g, h, v) && forall k | 0 <= k < |g.edges| :: h.edges[k] == g.edges[k]
  }

  lemma AppendsRefl(g: GraphState, v: nat)
    requires WellFormed(g)
    ensures Appends(g, g, v)
  {
    RewiredRefl(g, v);
  }

  lemma AppendsTrans(a: GraphState, b: GraphState, c: GraphState, v: nat)
    requires Appends(a, b, v) && Appends(b, c, v)
    ensures Appends(a, c, v)
  {
    RewiredTrans(a, b, c, v);
  }

  /** Link never adds a version to an edge that exists. */
  lemma LinkAppends(g: GraphState, from: InstId, to: InstId, v: nat, t: EdgeType)
    requires WellFormed(g)
    ensures Appends(g, Link(g, from, to, v, t), v)
  {
    LinkRewired(g, from, to, v, t);
  }

  lemma WireRewired(g: GraphState, from: InstId, to: InstId, v: nat, t: EdgeType)
    requires WellFormed(g)
    ensures Rewired(g, Wire(g, from, to, v, t), v)
  {
    var r := Wire(g, from, to, v, t);
    if from < |g.insts| && to < |g.insts| {
      match GetEdge(g, from, to, Any)
      case Some(e) =>
        if e < |g.edges| {
          VersionPushedGrows(g, e, v);
        }
      case None =>
        AddedEdgeRewired(g, from, to, t, v);
    }
  }

  lemma AddedEdgeRewired(g: GraphState, from: InstId, to: InstId, t: EdgeType, v: nat)
    requires WellFormed(g) && from < |g.insts| && to < |g.insts|
    ensures Rewired(g, WithEdge(g, from, to, NewEdge(from, to, t, v)), v)
  {
    var e := NewEdge(from, to, t, v);
    var r := WithEdge(g, from, to, e);
    WithEdgeWellFormed(g, from, to, e);
    forall i | 0 <= i < |g.insts|
      ensures r.insts[i].(edges := g.insts[i].edges) == g.insts[i] && g.insts[i].edges <= r.insts[i].edges
    {
      AddEdgeAppends(g, from, to, e, i);
      assert InstOf(r, i) == r.insts[i] && InstOf(g, i) == g.insts[i];
    }
  }

  lemma LinkRewired(g: GraphState, from: InstId, to: InstId, v: nat, t: EdgeType)
    requires WellFormed(g)
    ensures Rewired(g, Link(g, from, to, v, t), v)
  {
    if from < |g.insts| && to < |g.insts| && GetEdge(g, from, to, Any).None? {
      AddedEdgeRewired(g, from, to, t, v);
    }
  }

  /** StampEdge adds nothing but `v`, adds no edge, and never makes `v`
    * appear twice in a version list. */
  lemma StampEdgeRewired(g: GraphState, e: EdgeId, v: nat)
    requires WellFormed(g)
    ensures var r := StampEdge(g, e, v);
      Rewired(g, r, v) && r.insts == g.insts && |r.edges| == |g.edges| &&
      (VersionOnce(g.edges, v) ==> VersionOnce(r.edges, v)) &&
      (e < |g.edges| ==> IsPartOfGraph(r.edges[e], v))
  {
    var r := StampEdge(g, e, v);
    if e < |g.edges| {
      if VersionOnce(g.edges, v) && !IsPartOfGraph(g.edges[e], v) {
        var vs := g.edges[e].versions;
        assert r.edges[e].versions == vs + [v];
        assert forall i | 0 <= i < |vs| :: (vs + [v])[i] == vs[i] && vs[i] != v;
        forall k, i, j | 0 <= k < |r.edges| && 0 <= i < j < |r.edges[k].versions| && r.edges[k].versions[i] == v
          ensures r.edges[k].versions[j] != v
        {
          if k == e {
            assert false;
          }
        }
      }
    }
  }

  /** `h` is `g` with versions `v` added to existing edges only: no edge is
    * added and no edge list changes, and an edge list free of duplicate
    * `v`s stays so. */
  predicate Restamps(g: GraphState, h: GraphState, v: nat)
  {
    Rewired(g, h, v) && h.insts == g.insts && |h.edges| == |g.edges| && (VersionOnce(g.edges, v) ==> VersionOnce(h.edges, v))
  }

  lemma RestampsRefl(g: GraphState, v: nat)
    requires WellFormed(g)
    ensures Restamps(g, g, v)
  {
    RewiredRefl(g, v);
  }

  lemma RestampsTrans(a: GraphState, b: GraphState, c: GraphState, v: nat)
    requires Restamps(a, b, v) && Restamps(b, c, v)
    ensures Restamps(a, c, v)
  {
    RewiredTrans(a, b, c, v);
  }

  /** Stamping an edge a second time changes nothing. */
  lemma StampEdgeIdempotent(g: GraphState, e: EdgeId, v: nat)
    ensures StampEdge(StampEdge(g, e, v), e, v) == StampEdge(g, e, v)
  {
    if e < |g.edges| {
      StampIdempotent(g.edges[e], v);
    }
  }

  // ---- The steps on the MVICFG object --------------------------------------

  method WireEdge(mv: Graph, from: InstId, to: InstId, v: nat, t: EdgeType)
    requires mv.Valid()
    modifies mv`insts, mv`graphEdges
    ensures mv.Valid() && mv.State() == Wire(old(mv.State()), from, to, v, t)
  {
    if from < |mv.insts| && to < |mv.insts| {
      match GetEdge(mv.State(), from, to, Any)
      case Some(e) =>
        if e < |mv.graphEdges| {
          mv.PushEdgeVersions(e, v);
        }
      case None =>
        mv.AddEdge(from, to, NewEdge(from, to, t, v));
    }
  }

  method LinkEdge(mv: Graph, from: InstId, to: InstId, v: nat, t: EdgeType)
    requires mv.Valid()
    modifies mv`insts, mv`graphEdges
    ensures mv.Valid() && mv.State() == Link(old(mv.State()), from, to, v, t)
  {
    if from < |mv.insts| && to < |mv.insts| && GetEdge(mv.State(), from, to, Any).None? {
      mv.AddEdge(from, to, NewEdge(from, to, t, v));
    }
  }

  method StampGraphEdge(mv: Graph, e: EdgeId, v: nat)
    requires mv.Valid()
    modifies mv`graphEdges
    ensures mv.Valid() && mv.State() == StampEdge(old(mv.State()), e, v)
  {
    if e < |mv.graphEdges| && !IsPartOfGraph(mv.graphEdges[e], v) {
      mv.PushEdgeVersions(e, v);
    }
  }
}
