// Graph_Edge: a directed edge between two instructions of one graph, its kind
// and the list of graph versions the edge is part of.
module GraphEdge {
  import opened Common

  /** Graph_Edge::edgeTypes */
  datatype EdgeType = Sequential | Branch | Call | ExternalCall | Virtual | MvicfgAdd | MvicfgDel | Any

  /** A Graph_Edge. No operation of the model changes an edge's endpoints or
    * type after construction; versions are only ever appended. */
  datatype Edge = Edge(from: InstId, to: InstId, edgeType: EdgeType, versions: seq<nat>)
  {
    /** pushEdgeVersions: appended at the back, without de-duplication. */
    function PushVersion(v: nat): Edge
    {
      this.(versions := versions + [v])
    }
  }

  /** Graph_Edge(from, to, type, ver) */
  function NewEdge(from: InstId, to: InstId, t: EdgeType, ver: nat): Edge
  {
    Edge(from, to, t, [ver])
  }

  /** The find_if of isPartOfGraph: a linear search of a version list. */
  function HasVersion(vs: seq<nat>, v: nat): (r: bool)
    ensures r <==> v in vs
  {
    if vs == [] then false else vs[0] == v || HasVersion(vs[1..], v)
  }

  /** isPartOfGraph */
  function IsPartOfGraph(e: Edge, v: nat): bool
  {
    HasVersion(e.versions, v)
  }

  /** A fresh edge is part of exactly the version it was built with. */
  lemma NewEdgeVersions(from: InstId, to: InstId, t: EdgeType, ver: nat, v: nat)
    ensures IsPartOfGraph(NewEdge(from, to, t, ver), v) <==> v == ver
    ensures NewEdge(from, to, t, ver).edgeType == t && |NewEdge(from, to, t, ver).versions| == 1
  {
  }

  /** `e2` is `e` with versions appended: same endpoints, same type, and the
    * old version list a prefix of the new one. */
  predicate Extends(e: Edge, e2: Edge)
  {
    e2.from == e.from && e2.to == e.to && e2.edgeType == e.edgeType && e.versions <= e2.versions
  }

  /** No edge is removed, and each one only gains versions. */
  predicate EdgesGrow(es: seq<Edge>, es2: seq<Edge>)
  {
    |es| <= |es2| && forall k | 0 <= k < |es| :: Extends(es[k], es2[k])
  }

  lemma EdgesGrowTrans(a: seq<Edge>, b: seq<Edge>, c: seq<Edge>)
    requires EdgesGrow(a, b) && EdgesGrow(b, c)
    ensures EdgesGrow(a, c)
  {
    forall k | 0 <= k < |a| ensures Extends(a[k], c[k]) {
      assert Extends(a[k], b[k]) && Extends(b[k], c[k]);
    }
  }

  /** Pushing a version keeps every version the edge had and adds `v`. */
  lemma PushVersionGrows(e: Edge, v: nat, w: nat)
    ensures Extends(e, e.PushVersion(v))
    ensures IsPartOfGraph(e.PushVersion(v), w) <==> IsPartOfGraph(e, w) || w == v
  {
  }

  /** The `if (!isPartOfGraph(V)) pushEdgeVersions(V)` step of the merge passes. */
  function Stamp(e: Edge, v: nat): (r: Edge)
    ensures Extends(e, r) && IsPartOfGraph(r, v)
    ensures IsPartOfGraph(e, v) ==> r == e
    ensures !IsPartOfGraph(e, v) ==> r.versions == e.versions + [v]
  {
    if IsPartOfGraph(e, v) then e else e.PushVersion(v)
  }

  /** Stamping twice is stamping once. */
  lemma StampIdempotent(e: Edge, v: nat)
    ensures Stamp(Stamp(e, v), v) == Stamp(e, v)
  {
  }

  // ---- getPrintableEdgeVersions ------------------------------------------

  predicate IsDigit(c: char)
  {
    '0' <= c <= '9'
  }

  /** std::to_string of an unsigned value. */
  function Decimal(n: nat): (r: string)
    ensures |r| >= 1 && forall i | 0 <= i < |r| :: IsDigit(r[i])
    decreases n
  {
    if n < 10 then ["0123456789"[n]] else Decimal(n / 10) + ["0123456789"[n % 10]]
  }

  /** "V" followed by the version number. */
  function Piece(v: nat): string
  {
    "V" + Decimal(v)
  }

  /** The printable form of a non-empty version list: its pieces joined by ','. */
  function Printable(vs: seq<nat>): string
    requires |vs| > 0
    decreases |vs|
  {
    if |vs| == 1 then Piece(vs[0]) else Printable(vs[..|vs| - 1]) + "," + Piece(vs[|vs| - 1])
  }

  /** Every piece followed by a ','. */
  function Pieces(vs: seq<nat>): string
    decreases |vs|
  {
    if vs == [] then "" else Pieces(vs[..|vs| - 1]) + Piece(vs[|vs| - 1]) + ","
  }

  lemma {:induction false} PiecesPrintable(vs: seq<nat>)
    requires |vs| > 0
    ensures Pieces(vs) == Printable(vs) + ","
    decreases |vs|
  {
    if |vs| == 1 {
      assert vs[..0] == [];
    } else {
      PiecesPrintable(vs[..|vs| - 1]);
    }
  }

  /** getPrintableEdgeVersions: "V<v>," for each version in order, then the
    * trailing ',' popped (which needs a non-empty list). */
  method PrintableEdgeVersions(e: Edge) returns (ver: string)
    requires |e.versions| > 0
    ensures ver == Printable(e.versions)
  {
    ver := "";
    for k := 0 to |e.versions|
      invariant ver == Pieces(e.versions[..k])
    {
      assert e.versions[..k + 1][..k] == e.versions[..k];
      ver := ver + ("V" + Decimal(e.versions[k]) + ",");
    }
    assert e.versions[..|e.versions|] == e.versions;
    PiecesPrintable(e.versions);
    ver := ver[..|ver| - 1];
  }

  /** The printable form names every version once: one 'V' per version, one
    * ',' between consecutive versions, and it ends with a digit rather than a
    * separator. */
  lemma {:induction false} PrintableShape(vs: seq<nat>)
    requires |vs| > 0
    ensures CountChar(Printable(vs), 'V') == |vs|
    ensures CountChar(Printable(vs), ',') == |vs| - 1
    ensures IsDigit(Printable(vs)[|Printable(vs)| - 1])
    decreases |vs|
  {
    var last := vs[|vs| - 1];
    var d := Decimal(last);
    assert CountChar(d, 'V') == 0 && CountChar(d, ',') == 0;
    CountCharAppend("V", d, 'V');
    CountCharAppend("V", d, ',');
    if |vs| > 1 {
      var init := vs[..|vs| - 1];
      PrintableShape(init);
      CountCharAppend(Printable(init), ",", 'V');
      CountCharAppend(Printable(init), ",", ',');
      CountCharAppend(Printable(init) + ",", Piece(last), 'V');
      CountCharAppend(Printable(init) + ",", Piece(last), ',');
    }
  }
}
