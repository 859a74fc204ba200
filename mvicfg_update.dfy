// updateMVICFGVersion: once a version is merged, every MVICFG line that
// was neither added nor deleted is given its number in the new version
// (through the diff's line map), and every edge whose two ends are present
// in the new version joins that version, unless it leaves an instruction
// from which an edge into an added line starts.
module MvicfgUpdate {
  import opened Common
  import opened DiffMapping
  import opened GraphEdge
  import opened GraphInstruction
  import opened GraphLine
  import opened GraphFunction
  import opened Graphs
  import opened MvicfgWire

  /** The file of the function holding the external node. */
  const EXTERNAL_FILE: string := "External_Node_File"

  /** The arguments of updateMVICFGVersion: the lines added and deleted by
    * the merge, the Diff_Mappings of all files and the new version. */
  datatype Update = Update(added: seq<LineId>, deleted: seq<LineId>, diffs: seq<MappingState>, version: nat)

  // ---- Renumbering the lines -------------------------------------------------

  /** std::find_if over diffMap: the first Diff_Mapping for `file`. */
  function FindDiff(diffs: seq<MappingState>, file: string): (r: Option<MappingState>)
    ensures r.Some? ==> exists k | 0 <= k < |diffs| :: diffs[k] == r.value && diffs[k].fileName == file &&
                          forall j | 0 <= j < k :: diffs[j].fileName != file
    ensures r.None? ==> forall k | 0 <= k < |diffs| :: diffs[k].fileName != file
    decreases |diffs|
  {
    if diffs == [] then None
    else if diffs[0].fileName == file then Some(diffs[0])
    else
      var r := FindDiff(diffs[1..], file);
      assert forall k | 1 <= k < |diffs| :: diffs[k] == diffs[1..][k - 1];
      r
  }

  /** The number line `l` of function `f` is to get in the new version, or
    * None when it is left as it is. In a file with a diff: an added or a
    * deleted line keeps none; a virtual node keeps its number; a line with
    * no number in the graph's version is skipped; any other is translated
    * by the line map, unless the map has no record for it (unsigned MAX).
    * In the external node's file, which has no diff, every line keeps its
    * number; in any other file without a diff nothing happens. */
  function Target(g: GraphState, u: Update, f: FuncId, l: LineId): Option<nat>
  {
    var prior := NumberOf(g, l, g.version);
    match FindDiff(u.diffs, FuncOf(g, f).file)
    case Some(d) =>
      if l in u.added || l in u.deleted then None
      else if IsVirtualNumber(g, prior) then Some(prior)
      else if prior == 0 then None
      else
        var n := ToUnsigned(AfterLineOf(d.lineMap, prior));
        if n != UINT_MAX then Some(n) else None
    case None =>
      if FuncOf(g, f).file == EXTERNAL_FILE then Some(prior) else None
  }

  /** setLineNumber on line `l`; a line outside the graph changes nothing. */
  function SetNumber(g: GraphState, l: LineId, v: nat, n: nat): GraphState
  {
    if l < |g.lines| then WithLineNumber(g, l, v, n) else g
  }

  /** The body of the loop over a function's lines. */
  function RenumberLine(g: GraphState, u: Update, f: FuncId, l: LineId): GraphState
  {
    match Target(g, u, f, l)
    case None => g
    case Some(n) => SetNumber(g, l, u.version, n)
  }

  function RenumberLinesUpTo(g: GraphState, u: Update, f: FuncId, ls: seq<LineId>, n: nat): GraphState
    requires n <= |ls|
  {
    if n == 0 then g else RenumberLine(RenumberLinesUpTo(g, u, f, ls, n - 1), u, f, ls[n - 1])
  }

  /** The body of the loop over the functions. */
  function RenumberFunction(g: GraphState, u: Update, f: FuncId): GraphState
  {
    var ls := FuncOf(g, f).lines;
    RenumberLinesUpTo(g, u, f, ls, |ls|)
  }

  function RenumberUpTo(g: GraphState, u: Update, fs: seq<FuncId>, n: nat): GraphState
    requires n <= |fs|
  {
    if n == 0 then g else RenumberFunction(RenumberUpTo(g, u, fs, n - 1), u, fs[n - 1])
  }

  /** The first loop of updateMVICFGVersion. */
  function Renumbered(g: GraphState, u: Update): GraphState
  {
    RenumberUpTo(g, u, g.functions, |g.functions|)
  }

  // ---- What renumbering does -------------------------------------------------

  /** Line `b` is line `a` with at most a number for version `v` added: no
    * number it had changes, and nothing but the numbers changes. */
  predicate Gains(a: Line, b: Line, v: nat)
  {
    b.(numbers := a.numbers) == a && a.numbers.Keys <= b.numbers.Keys && b.numbers.Keys <= a.numbers.Keys + {v} &&
    forall w | w in a.numbers :: b.numbers[w] == a.numbers[w]
  }

  /** `h` is `g` with lines given numbers for version `v` and nothing else;
    * the number each line has in g's own version reads the same. */
  predicate Renumbers(g: GraphState, h: GraphState, v: nat)
  {
    h.(lines := g.lines) == g && |h.lines| == |g.lines| &&
    forall l | 0 <= l < |g.lines| :: Gains(g.lines[l], h.lines[l], v) && h.lines[l].LineNumber(g.version) == g.lines[l].LineNumber(g.version)
  }

  lemma RenumbersRefl(g: GraphState, v: nat)
    ensures Renumbers(g, g, v)
  {
  }

  lemma RenumbersTrans(a: GraphState, b: GraphState, c: GraphState, v: nat)
    requires Renumbers(a, b, v) && Renumbers(b, c, v)
    ensures Renumbers(a, c, v)
  {
    forall l | 0 <= l < |a.lines|
      ensures Gains(a.lines[l], c.lines[l], v)
    {
      assert Gains(a.lines[l], b.lines[l], v) && Gains(b.lines[l], c.lines[l], v);
    }
  }

  /** The renumbering decisions read only the number each line has in g's
    * own version, the functions' files and the virtual-node numbers. */
  lemma TargetSame(g: GraphState, h: GraphState, u: Update, f: FuncId, l: LineId, v: nat)
    requires Renumbers(g, h, v)
    ensures Target(h, u, f, l) == Target(g, u, f, l)
  {
    assert h.funcs == g.funcs && h.version == g.version && h.entryID == g.entryID && h.exitID == g.exitID;
    assert NumberOf(h, l, g.version) == NumberOf(g, l, g.version);
  }

  /** One step gives line `l` the number chosen for it, if it had none in
    * the new version; the number it has in g's version reads the same. */
  lemma RenumberLineStep(g: GraphState, u: Update, f: FuncId, l: LineId)
    requires WellFormed(g)
    ensures var r := RenumberLine(g, u, f, l);
      Renumbers(g, r, u.version) &&
      (Target(g, u, f, l).Some? && l < |g.lines| ==>
         u.version in r.lines[l].numbers &&
         (u.version !in g.lines[l].numbers ==> r.lines[l].numbers[u.version] == Target(g, u, f, l).value)) &&
      (forall k | 0 <= k < |g.lines| && k != l :: r.lines[k] == g.lines[k])
  {
    match Target(g, u, f, l)
    case None =>
    case Some(n) =>
      if l < |g.lines| {
        var r := SetNumber(g, l, u.version, n);
        SetThenGet(g.lines[l], u.version, n, g.version);
        assert r.lines[l] == g.lines[l].WithLineNumber(u.version, n);
        if u.version == g.version && u.version !in g.lines[l].numbers {
          assert NumberOf(g, l, g.version) == 0;
          assert n == 0;
        }
      }
  }

  lemma RenumbersWellFormed(g: GraphState, h: GraphState, v: nat)
    requires WellFormed(g) && Renumbers(g, h, v)
    ensures WellFormed(h)
  {
    assert h.funcs == g.funcs && h.insts == g.insts && h.edges == g.edges && h.functions == g.functions;
    forall l | 0 <= l < |h.lines|
      ensures IdsBelow(h.lines[l].instructions, |h.insts|) && OptBelow(h.lines[l].func, |h.funcs|)
    {
      assert Gains(g.lines[l], h.lines[l], v);
      assert h.lines[l].instructions == g.lines[l].instructions && h.lines[l].func == g.lines[l].func;
    }
  }

  /** Each of the first `n` lines of `ls` that function `f` gives a number
    * (and that is a line of the graph) has a number in version `v` in `r`. */
  predicate NumberedLines(g: GraphState, u: Update, f: FuncId, ls: seq<LineId>, n: nat, r: GraphState)
    requires n <= |ls| && |r.lines| == |g.lines|
  {
    forall j | 0 <= j < n && ls[j] < |g.lines| && Target(g, u, f, ls[j]).Some? :: u.version in r.lines[ls[j]].numbers
  }

  /** Every number for version `v` a line of `r` has and had not in `g` is
    * the one chosen for it at one of the first `n` lines of `ls`. */
  predicate SoundLines(g: GraphState, u: Update, f: FuncId, ls: seq<LineId>, n: nat, r: GraphState)
    requires n <= |ls| && |r.lines| == |g.lines|
  {
    forall l | 0 <= l < |g.lines| && u.version in r.lines[l].numbers && u.version !in g.lines[l].numbers ::
      exists j | 0 <= j < n :: ls[j] == l && Target(g, u, f, l) == Some(r.lines[l].numbers[u.version])
  }

  lemma NumberedLinesStep(g: GraphState, u: Update, f: FuncId, ls: seq<LineId>, n: nat, h: GraphState, r: GraphState)
    requires 0 < n <= |ls| && Renumbers(g, h, u.version) && Renumbers(h, r, u.version)
    requires NumberedLines(g, u, f, ls, n - 1, h)
    requires ls[n - 1] < |g.lines| && Target(g, u, f, ls[n - 1]).Some? ==> u.version in r.lines[ls[n - 1]].numbers
    ensures NumberedLines(g, u, f, ls, n, r)
  {
    forall j | 0 <= j < n && ls[j] < |g.lines| && Target(g, u, f, ls[j]).Some?
      ensures u.version in r.lines[ls[j]].numbers
    {
      if j < n - 1 {
        assert Gains(h.lines[ls[j]], r.lines[ls[j]], u.version);
      }
    }
  }

  lemma SoundLinesStep(g: GraphState, u: Update, f: FuncId, ls: seq<LineId>, n: nat, h: GraphState, r: GraphState)
    requires 0 < n <= |ls| && Renumbers(g, h, u.version) && Renumbers(h, r, u.version)
    requires SoundLines(g, u, f, ls, n - 1, h)
    requires forall k | 0 <= k < |g.lines| && k != ls[n - 1] :: r.lines[k] == h.lines[k]
    requires ls[n - 1] < |g.lines| && u.version in r.lines[ls[n - 1]].numbers && u.version !in h.lines[ls[n - 1]].numbers ==>
               Target(g, u, f, ls[n - 1]) == Some(r.lines[ls[n - 1]].numbers[u.version])
    ensures SoundLines(g, u, f, ls, n, r)
  {
    forall l | 0 <= l < |g.lines| && u.version in r.lines[l].numbers && u.version !in g.lines[l].numbers
      ensures exists j | 0 <= j < n :: ls[j] == l && Target(g, u, f, l) == Some(r.lines[l].numbers[u.version])
    {
      assert Gains(h.lines[l], r.lines[l], u.version);
      if u.version in h.lines[l].numbers {
        var j :| 0 <= j < n - 1 && ls[j] == l && Target(g, u, f, l) == Some(h.lines[l].numbers[u.version]);
        assert r.lines[l].numbers[u.version] == h.lines[l].numbers[u.version];
      } else {
        assert l == ls[n - 1];
      }
    }
  }

  /** The loop over a function's lines only adds numbers for the new
    * version, gives one to every line it chooses a number for, and every
    * number it adds is the one chosen for that line. */
  lemma {:induction false} RenumberLinesShape(g: GraphState, u: Update, f: FuncId, ls: seq<LineId>, n: nat)
    requires WellFormed(g) && n <= |ls|
    ensures var r := RenumberLinesUpTo(g, u, f, ls, n);
      Renumbers(g, r, u.version) && NumberedLines(g, u, f, ls, n, r) && SoundLines(g, u, f, ls, n, r)
  {
    if n > 0 {
      var h := RenumberLinesUpTo(g, u, f, ls, n - 1);
      var r := RenumberLinesUpTo(g, u, f, ls, n);
      RenumberLinesShape(g, u, f, ls, n - 1);
      RenumbersWellFormed(g, h, u.version);
      RenumberLineStep(h, u, f, ls[n - 1]);
      TargetSame(g, h, u, f, ls[n - 1], u.version);
      RenumbersTrans(g, h, r, u.version);
      NumberedLinesStep(g, u, f, ls, n, h, r);
      SoundLinesStep(g, u, f, ls, n, h, r);
    }
  }

  /** Every line of the first `n` functions of `fs` that is given a number
    * has a number in version `v` in `r`. */
  predicate NumberedAll(g: GraphState, u: Update, fs: seq<FuncId>, n: nat, r: GraphState)
    requires n <= |fs| && |r.lines| == |g.lines|
  {
    forall k, l | 0 <= k < n && l in FuncOf(g, fs[k]).lines && l < |g.lines| && Target(g, u, fs[k], l).Some? ::
      u.version in r.lines[l].numbers
  }

  /** Every number for version `v` a line of `r` has and had not in `g` is
    * the one chosen for it in one of the first `n` functions of `fs`. */
  predicate SoundAll(g: GraphState, u: Update, fs: seq<FuncId>, n: nat, r: GraphState)
    requires n <= |fs| && |r.lines| == |g.lines|
  {
    forall l | 0 <= l < |g.lines| && u.version in r.lines[l].numbers && u.version !in g.lines[l].numbers ::
      exists k | 0 <= k < n :: l in FuncOf(g, fs[k]).lines && Target(g, u, fs[k], l) == Some(r.lines[l].numbers[u.version])
  }

  lemma NumberedAllStep(g: GraphState, u: Update, fs: seq<FuncId>, n: nat, h: GraphState, r: GraphState)
    requires 0 < n <= |fs| && Renumbers(g, h, u.version) && Renumbers(h, r, u.version)
    requires NumberedAll(g, u, fs, n - 1, h)
    requires NumberedLines(h, u, fs[n - 1], FuncOf(g, fs[n - 1]).lines, |FuncOf(g, fs[n - 1]).lines|, r)
    ensures NumberedAll(g, u, fs, n, r)
  {
    var ls := FuncOf(g, fs[n - 1]).lines;
    forall k, l | 0 <= k < n && l in FuncOf(g, fs[k]).lines && l < |g.lines| && Target(g, u, fs[k], l).Some?
      ensures u.version in r.lines[l].numbers
    {
      if k < n - 1 {
        assert Gains(h.lines[l], r.lines[l], u.version);
      } else {
        var j :| 0 <= j < |ls| && ls[j] == l;
        TargetSame(g, h, u, fs[k], l, u.version);
      }
    }
  }

  lemma SoundAllStep(g: GraphState, u: Update, fs: seq<FuncId>, n: nat, h: GraphState, r: GraphState)
    requires 0 < n <= |fs| && Renumbers(g, h, u.version) && Renumbers(h, r, u.version)
    requires SoundAll(g, u, fs, n - 1, h)
    requires SoundLines(h, u, fs[n - 1], FuncOf(g, fs[n - 1]).lines, |FuncOf(g, fs[n - 1]).lines|, r)
    ensures SoundAll(g, u, fs, n, r)
  {
    var ls := FuncOf(g, fs[n - 1]).lines;
    forall l | 0 <= l < |g.lines| && u.version in r.lines[l].numbers && u.version !in g.lines[l].numbers
      ensures exists k | 0 <= k < n :: l in FuncOf(g, fs[k]).lines && Target(g, u, fs[k], l) == Some(r.lines[l].numbers[u.version])
    {
      assert Gains(h.lines[l], r.lines[l], u.version);
      if u.version in h.lines[l].numbers {
        var k :| 0 <= k < n - 1 && l in FuncOf(g, fs[k]).lines && Target(g, u, fs[k], l) == Some(h.lines[l].numbers[u.version]);
        assert r.lines[l].numbers[u.version] == h.lines[l].numbers[u.version];
      } else {
        var j :| 0 <= j < |ls| && ls[j] == l && Target(h, u, fs[n - 1], l) == Some(r.lines[l].numbers[u.version]);
        TargetSame(g, h, u, fs[n - 1], l, u.version);
        assert l in FuncOf(g, fs[n - 1]).lines;
      }
    }
  }

  lemma {:induction false} RenumberUpToShape(g: GraphState, u: Update, fs: seq<FuncId>, n: nat)
    requires WellFormed(g) && n <= |fs|
    ensures var r := RenumberUpTo(g, u, fs, n);
      Renumbers(g, r, u.version) && NumberedAll(g, u, fs, n, r) && SoundAll(g, u, fs, n, r)
  {
    if n > 0 {
      var h := RenumberUpTo(g, u, fs, n - 1);
      var r := RenumberUpTo(g, u, fs, n);
      RenumberUpToShape(g, u, fs, n - 1);
      RenumbersWellFormed(g, h, u.version);
      var ls := FuncOf(h, fs[n - 1]).lines;
      assert ls == FuncOf(g, fs[n - 1]).lines;
      RenumberLinesShape(h, u, fs[n - 1], ls, |ls|);
      RenumbersTrans(g, h, r, u.version);
      NumberedAllStep(g, u, fs, n, h, r);
      SoundAllStep(g, u, fs, n, h, r);
    }
  }

  /** Renumbering a line that already has its number changes nothing. */
  lemma RenumberLineFixed(g: GraphState, h: GraphState, u: Update, f: FuncId, l: LineId)
    requires Renumbers(g, h, u.version) && NumberedAll(g, u, g.functions, |g.functions|, h)
    requires f in g.functions && l in FuncOf(g, f).lines
    ensures RenumberLine(h, u, f, l) == h
  {
    TargetSame(g, h, u, f, l, u.version);
    match Target(h, u, f, l)
    case None =>
    case Some(n) =>
      if l < |h.lines| {
        var k :| 0 <= k < |g.functions| && g.functions[k] == f;
        assert u.version in h.lines[l].numbers;
        assert h.lines[l].WithLineNumber(u.version, n) == h.lines[l];
        assert h.lines[l := h.lines[l]] == h.lines;
      }
  }

  lemma {:induction false} RenumberLinesFixed(g: GraphState, h: GraphState, u: Update, f: FuncId, ls: seq<LineId>, n: nat)
    requires Renumbers(g, h, u.version) && NumberedAll(g, u, g.functions, |g.functions|, h)
    requires f in g.functions && n <= |ls| && forall j | 0 <= j < n :: ls[j] in FuncOf(g, f).lines
    ensures RenumberLinesUpTo(h, u, f, ls, n) == h
  {
    if n > 0 {
      RenumberLinesFixed(g, h, u, f, ls, n - 1);
      RenumberLineFixed(g, h, u, f, ls[n - 1]);
    }
  }

  lemma {:induction false} RenumberUpToFixed(g: GraphState, h: GraphState, u: Update, fs: seq<FuncId>, n: nat)
    requires Renumbers(g, h, u.version) && NumberedAll(g, u, g.functions, |g.functions|, h)
    requires n <= |fs| && forall k | 0 <= k < n :: fs[k] in g.functions
    ensures RenumberUpTo(h, u, fs, n) == h
  {
    if n > 0 {
      RenumberUpToFixed(g, h, u, fs, n - 1);
      var ls := FuncOf(h, fs[n - 1]).lines;
      assert ls == FuncOf(g, fs[n - 1]).lines;
      RenumberLinesFixed(g, h, u, fs[n - 1], ls, |ls|);
    }
  }

  /** Renumbering is idempotent: a second run with the same arguments finds
    * every line it would number already numbered. */
  lemma RenumberedIdempotent(g: GraphState, u: Update)
    requires WellFormed(g)
    ensures Renumbered(Renumbered(g, u), u) == Renumbered(g, u)
  {
    var h := Renumbered(g, u);
    RenumberUpToShape(g, u, g.functions, |g.functions|);
    assert h.functions == g.functions;
    RenumberUpToFixed(g, h, u, h.functions, |h.functions|);
  }

  // ---- The instructions from which an edge into an added line starts --------

  /** Instruction `i` lies on an added line. */
  predicate InAdded(g: GraphState, added: seq<LineId>, i: InstId)
  {
    InstOf(g, i).line.Some? && InstOf(g, i).line.value in added
  }

  /** The second loop over the first `n` edges: mvicfgAddEdgesNodes. */
  function SourcesUpTo(g: GraphState, added: seq<LineId>, n: nat): seq<InstId>
    requires n <= |g.edges|
  {
    if n == 0 then []
    else
      var s := SourcesUpTo(g, added, n - 1);
      if InAdded(g, added, g.edges[n - 1].to) then s + [g.edges[n - 1].from] else s
  }

  function Sources(g: GraphState, added: seq<LineId>): seq<InstId>
  {
    SourcesUpTo(g, added, |g.edges|)
  }

  /** An instruction is collected exactly when some edge leaves it for an
    * instruction of an added line. */
  lemma {:induction false} SourcesUpToAre(g: GraphState, added: seq<LineId>, n: nat, x: InstId)
    requires n <= |g.edges|
    ensures x in SourcesUpTo(g, added, n) <==> exists k | 0 <= k < n :: g.edges[k].from == x && InAdded(g, added, g.edges[k].to)
  {
    if n > 0 {
      SourcesUpToAre(g, added, n - 1, x);
      if x in SourcesUpTo(g, added, n - 1) {
        var k :| 0 <= k < n - 1 && g.edges[k].from == x && InAdded(g, added, g.edges[k].to);
        assert 0 <= k < n;
      }
    }
  }

  // ---- Stamping the edges ----------------------------------------------------

  /** Edge `k` is to join version `v`: both its ends lie on lines numbered
    * in `v` and its source is not one of `S`. */
  predicate Active(g: GraphState, v: nat, S: seq<InstId>, k: EdgeId)
    requires k < |g.edges|
  {
    InstNumber(g, g.edges[k].from, v) != 0 && InstNumber(g, g.edges[k].to, v) != 0 && g.edges[k].from !in S
  }

  /** The body of the third loop. */
  function StampStep(g: GraphState, v: nat, S: seq<InstId>, k: EdgeId): GraphState
  {
    if k < |g.edges| && Active(g, v, S, k) then StampEdge(g, k, v) else g
  }

  function StampUpTo(g: GraphState, v: nat, S: seq<InstId>, n: nat): GraphState
  {
    if n == 0 then g else StampStep(StampUpTo(g, v, S, n - 1), v, S, n - 1)
  }

  function Stamped(g: GraphState, v: nat, S: seq<InstId>): GraphState
  {
    StampUpTo(g, v, S, |g.edges|)
  }

  /** updateMVICFGVersion as a whole. */
  function Updated(g: GraphState, u: Update): GraphState
  {
    var h := Renumbered(g, u);
    Stamped(h, u.version, Sources(h, u.added))
  }

  /** Each of the first `n` edges that is to join `v` is stamped and every
    * other edge is as in `g`. */
  predicate StampedAs(g: GraphState, v: nat, S: seq<InstId>, n: nat, r: GraphState)
    requires |r.edges| == |g.edges|
  {
    forall k | 0 <= k < |g.edges| :: r.edges[k] == (if k < n && Active(g, v, S, k) then Stamp(g.edges[k], v) else g.edges[k])
  }

  lemma StampStepAs(g: GraphState, v: nat, S: seq<InstId>, n: nat, h: GraphState, r: GraphState)
    requires 0 < n <= |g.edges| && h == g.(edges := h.edges) && |h.edges| == |g.edges| && StampedAs(g, v, S, n - 1, h)
    requires r == StampStep(h, v, S, n - 1)
    ensures r == g.(edges := r.edges) && |r.edges| == |g.edges| && StampedAs(g, v, S, n, r)
  {
    assert h.edges[n - 1] == g.edges[n - 1];
    assert Active(h, v, S, n - 1) == Active(g, v, S, n - 1);
  }

  /** Only the edges change, and each of the first `n` that is to join `v`
    * is stamped. */
  lemma {:induction false} StampUpToAs(g: GraphState, v: nat, S: seq<InstId>, n: nat)
    requires n <= |g.edges|
    ensures var r := StampUpTo(g, v, S, n);
      r == g.(edges := r.edges) && |r.edges| == |g.edges| && StampedAs(g, v, S, n, r)
  {
    if n > 0 {
      StampUpToAs(g, v, S, n - 1);
      StampStepAs(g, v, S, n, StampUpTo(g, v, S, n - 1), StampUpTo(g, v, S, n));
    }
  }

  lemma {:induction false} StampUpToRestamps(g: GraphState, v: nat, S: seq<InstId>, n: nat)
    requires WellFormed(g)
    ensures Restamps(g, StampUpTo(g, v, S, n), v)
  {
    if n == 0 {
      RestampsRefl(g, v);
    } else {
      var h := StampUpTo(g, v, S, n - 1);
      StampUpToRestamps(g, v, S, n - 1);
      RewiredWellFormed(g, h, v);
      if n - 1 < |h.edges| && Active(h, v, S, n - 1) {
        StampEdgeRewired(h, n - 1, v);
      } else {
        RestampsRefl(h, v);
      }
      RestampsTrans(g, h, StampUpTo(g, v, S, n), v);
    }
  }

  /** After the third loop an edge is part of version `v` exactly when it
    * was, or it is to join `v`; nothing else changes. */
  lemma StampedShape(g: GraphState, v: nat, S: seq<InstId>)
    requires WellFormed(g)
    ensures var r := Stamped(g, v, S);
      Restamps(g, r, v) && WellFormed(r) && r.lines == g.lines &&
      forall k | 0 <= k < |g.edges| :: (IsPartOfGraph(r.edges[k], v) <==> IsPartOfGraph(g.edges[k], v) || Active(g, v, S, k))
  {
    var r := Stamped(g, v, S);
    StampUpToAs(g, v, S, |g.edges|);
    StampUpToRestamps(g, v, S, |g.edges|);
    RewiredWellFormed(g, r, v);
  }

  /** An edge of a stamped graph is left as it is by a second stamping. */
  lemma StampedFixedAt(g: GraphState, v: nat, S: seq<InstId>, r: GraphState, k: EdgeId)
    requires r == g.(edges := r.edges) && |r.edges| == |g.edges| && StampedAs(g, v, S, |g.edges|, r)
    requires k < |r.edges|
    ensures (if Active(r, v, S, k) then Stamp(r.edges[k], v) else r.edges[k]) == r.edges[k]
  {
    assert Extends(g.edges[k], r.edges[k]);
    assert Active(r, v, S, k) == Active(g, v, S, k);
    StampIdempotent(g.edges[k], v);
  }

  /** Stamping is idempotent. */
  lemma StampedIdempotent(g: GraphState, v: nat, S: seq<InstId>)
    ensures Stamped(Stamped(g, v, S), v, S) == Stamped(g, v, S)
  {
    var r := Stamped(g, v, S);
    StampUpToAs(g, v, S, |g.edges|);
    var r2 := Stamped(r, v, S);
    StampUpToAs(r, v, S, |r.edges|);
    forall k | 0 <= k < |r.edges|
      ensures r2.edges[k] == r.edges[k]
    {
      StampedFixedAt(g, v, S, r, k);
    }
    assert r2.edges == r.edges;
  }

  // ---- The whole update ------------------------------------------------------

  /** updateMVICFGVersion: the lines only gain numbers for the new version;
    * every line listed in a registered function that is given a number has
    * one, and every number gained is one chosen for that line; no edge is
    * added, and an edge is part of the new version afterwards exactly when
    * it was, or both its ends lie on lines numbered in the new version and
    * no edge from its source enters an added line. */
  lemma UpdateShape(g: GraphState, u: Update)
    requires WellFormed(g)
    ensures var h := Renumbered(g, u);
      Renumbers(g, h, u.version) && NumberedAll(g, u, g.functions, |g.functions|, h) && SoundAll(g, u, g.functions, |g.functions|, h)
    ensures var h := Renumbered(g, u); var r := Updated(g, u);
      Restamps(h, r, u.version) && WellFormed(r) && r.lines == h.lines &&
      forall k | 0 <= k < |g.edges| ::
        (IsPartOfGraph(r.edges[k], u.version) <==> IsPartOfGraph(g.edges[k], u.version) || Active(h, u.version, Sources(h, u.added), k))
  {
    var h := Renumbered(g, u);
    RenumberUpToShape(g, u, g.functions, |g.functions|);
    RenumbersWellFormed(g, h, u.version);
    StampedShape(h, u.version, Sources(h, u.added));
  }

  /** A function whose file has no diff and is not the external node's is
    * left as it is (the source reports it on cerr). */
  lemma {:induction false} RenumberLinesUnmapped(g: GraphState, u: Update, f: FuncId, ls: seq<LineId>, n: nat)
    requires FindDiff(u.diffs, FuncOf(g, f).file).None? && FuncOf(g, f).file != EXTERNAL_FILE && n <= |ls|
    ensures RenumberLinesUpTo(g, u, f, ls, n) == g
  {
    if n > 0 {
      RenumberLinesUnmapped(g, u, f, ls, n - 1);
    }
  }

  // ---- The methods -----------------------------------------------------------

  /** std::find_if over diffMap. */
  method FindFileDiff(diffs: seq<MappingState>, file: string) returns (r: Option<MappingState>)
    ensures r == FindDiff(diffs, file)
  {
    var k := 0;
    while k < |diffs| && diffs[k].fileName != file
      invariant 0 <= k <= |diffs| && FindDiff(diffs[k..], file) == FindDiff(diffs, file)
    {
      assert diffs[k..][1..] == diffs[k + 1..];
      k := k + 1;
    }
    r := if k < |diffs| then Some(diffs[k]) else None;
  }

  /** Graph_Line::setLineNumber on line `l`. */
  method SetGraphLineNumber(mv: Graph, l: LineId, v: nat, n: nat)
    requires mv.Valid()
    modifies mv`lines
    ensures mv.Valid() && mv.State() == SetNumber(old(mv.State()), l, v, n)
  {
    if l < |mv.lines| {
      mv.SetLineNumber(l, v, n);
    }
  }

  /** One line of a function whose file has the diff `d`. */
  method RenumberMappedLine(mv: Graph, u: Update, f: FuncId, d: MappingState, l: LineId)
    requires mv.Valid() && FindDiff(u.diffs, FuncOf(mv.State(), f).file) == Some(d)
    modifies mv`lines
    ensures mv.Valid() && mv.State() == RenumberLine(old(mv.State()), u, f, l)
  {
    if l !in u.added && l !in u.deleted {
      var prior := NumberOf(mv.State(), l, mv.graphVersion);
      if !IsVirtualNumber(mv.State(), prior) {
        if prior != 0 {
          var n := ToUnsigned(AfterLineOf(d.lineMap, prior));
          if n != UINT_MAX {
            SetGraphLineNumber(mv, l, u.version, n);
          }
        }
      } else {
        SetGraphLineNumber(mv, l, u.version, prior);
      }
    }
  }

  /** One line of the external node's function: it keeps its number. */
  method KeepExternalLine(mv: Graph, u: Update, f: FuncId, l: LineId)
    requires mv.Valid() && FindDiff(u.diffs, FuncOf(mv.State(), f).file).None? && FuncOf(mv.State(), f).file == EXTERNAL_FILE
    modifies mv`lines
    ensures mv.Valid() && mv.State() == RenumberLine(old(mv.State()), u, f, l)
  {
    var prior := NumberOf(mv.State(), l, mv.graphVersion);
    SetGraphLineNumber(mv, l, u.version, prior);
  }

  /** The body of the loop over the graph's functions. */
  method RenumberGraphFunction(mv: Graph, u: Update, f: FuncId)
    requires mv.Valid()
    modifies mv`lines
    ensures mv.Valid() && mv.State() == RenumberFunction(old(mv.State()), u, f)
  {
    ghost var g0 := mv.State();
    var func := FuncOf(mv.State(), f);
    var ls := func.lines;
    var findDiff := FindFileDiff(u.diffs, func.file);
    if findDiff.Some? {
      var j := 0;
      while j < |ls|
        invariant 0 <= j <= |ls| && mv.Valid() && mv.State() == RenumberLinesUpTo(g0, u, f, ls, j)
        invariant mv.funcs == g0.funcs
      {
        RenumberMappedLine(mv, u, f, findDiff.value, ls[j]);
        j := j + 1;
      }
    } else if func.file == EXTERNAL_FILE {
      var j := 0;
      while j < |ls|
        invariant 0 <= j <= |ls| && mv.Valid() && mv.State() == RenumberLinesUpTo(g0, u, f, ls, j)
        invariant mv.funcs == g0.funcs
      {
        KeepExternalLine(mv, u, f, ls[j]);
        j := j + 1;
      }
    } else {
      RenumberLinesUnmapped(g0, u, f, ls, |ls|);
    }
  }

  /** The first loop of updateMVICFGVersion. */
  method RenumberGraph(mv: Graph, u: Update)
    requires mv.Valid()
    modifies mv`lines
    ensures mv.Valid() && mv.State() == Renumbered(old(mv.State()), u)
  {
    ghost var g0 := mv.State();
    var fs := mv.functions;
    var k := 0;
    while k < |fs|
      invariant 0 <= k <= |fs| && mv.Valid() && mv.State() == RenumberUpTo(g0, u, fs, k)
    {
      RenumberGraphFunction(mv, u, fs[k]);
      k := k + 1;
    }
  }

  /** The second loop: mvicfgAddEdgesNodes. */
  method CollectSources(mv: Graph, added: seq<LineId>) returns (s: seq<InstId>)
    requires mv.Valid()
    ensures s == Sources(mv.State(), added)
  {
    s := [];
    var k := 0;
    while k < |mv.graphEdges|
      invariant 0 <= k <= |mv.graphEdges| && s == SourcesUpTo(mv.State(), added, k)
    {
      var edge := mv.graphEdges[k];
      if InAdded(mv.State(), added, edge.to) {
        s := s + [edge.from];
      }
      k := k + 1;
    }
  }

  /** The body of the third loop, on edge `k`. */
  method StampIfActive(mv: Graph, v: nat, S: seq<InstId>, k: EdgeId)
    requires mv.Valid() && k < |mv.graphEdges|
    modifies mv`graphEdges
    ensures mv.Valid() && mv.State() == StampStep(old(mv.State()), v, S, k) && |mv.graphEdges| == old(|mv.graphEdges|)
  {
    var edge := mv.graphEdges[k];
    if InstNumber(mv.State(), edge.from, v) != 0 {
      if InstNumber(mv.State(), edge.to, v) != 0 {
        if edge.from !in S {
          StampGraphEdge(mv, k, v);
        }
      }
    }
  }

  /** The third loop: stamps every edge that is to join version `v`. */
  method StampActiveEdges(mv: Graph, v: nat, S: seq<InstId>)
    requires mv.Valid()
    modifies mv`graphEdges
    ensures mv.Valid() && mv.State() == Stamped(old(mv.State()), v, S)
  {
    ghost var g0 := mv.State();
    var n := |mv.graphEdges|;
    var k := 0;
    while k < n
      invariant 0 <= k <= n && mv.Valid() && mv.State() == StampUpTo(g0, v, S, k) && |mv.graphEdges| == n
    {
      StampIfActive(mv, v, S, k);
      k := k + 1;
    }
  }

  /** updateMVICFGVersion */
  method UpdateMVICFGVersion(mv: Graph, addedLines: seq<LineId>, deletedLines: seq<LineId>, diffMap: seq<MappingState>, version: nat)
    requires mv.Valid()
    modifies mv`lines, mv`graphEdges
    ensures mv.Valid() && mv.State() == Updated(old(mv.State()), Update(addedLines, deletedLines, diffMap, version))
  {
    var u := Update(addedLines, deletedLines, diffMap, version);
    RenumberGraph(mv, u);
    var s := CollectSources(mv, addedLines);
    StampActiveEdges(mv, version, s);
  }
}
