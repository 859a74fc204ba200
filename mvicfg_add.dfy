// addToMVICFG (MVICFG.cpp:429-577): every ICFG line carrying an added line
// number of the diff's file is copied into the MVICFG as a new line, and the
// copies are wired to the MVICFG lines that match their ICFG neighbours.
module MvicfgAdd {
  import opened Common
  import opened DiffMapping
  import opened GraphEdge
  import opened GraphInstruction
  import opened GraphLine
  import opened GraphFunction
  import opened Graphs
  import opened MvicfgLookup
  import opened MvicfgWire

  // ---- The counter ---------------------------------------------------------

  /** The counter after `n` more getNextID calls. */
  function Advance(id: nat, n: nat): nat
  {
    if n == 0 then id else NextId(Advance(id, n - 1))
  }

  lemma {:induction false} AdvanceAdd(id: nat, a: nat, b: nat)
    ensures Advance(Advance(id, a), b) == Advance(id, a + b)
  {
    if b > 0 {
      AdvanceAdd(id, a, b - 1);
    }
  }

  /** Without wrap-around the ids handed out are the next integers, so they
    * are fresh: larger than every id handed out before. */
  lemma {:induction false} AdvanceNoWrap(id: nat, n: nat)
    requires id + n <= UINT_MAX
    ensures Advance(id, n) == id + n
  {
    if n > 0 {
      AdvanceNoWrap(id, n - 1);
    }
  }

  /** `n` consecutive ids starting at `first`. */
  function Consecutive(first: nat, n: nat): (r: seq<nat>)
    ensures |r| == n
  {
    if n == 0 then [] else Consecutive(first, n - 1) + [first + n - 1]
  }

  /** The j-th of them is first + j. */
  lemma {:induction false} ConsecutiveIs(first: nat, n: nat)
    ensures forall j | 0 <= j < n :: Consecutive(first, n)[j] == first + j
  {
    if n > 0 {
      ConsecutiveIs(first, n - 1);
    }
  }

  // ---- Which ICFG lines are copied -----------------------------------------

  /** icfgN: for each added line number in order, the ICFG lines of the
    * diff's file that carry it. */
  function FoundLines(icfg: GraphState, nums: seq<int>, file: string): seq<LineId>
    decreases |nums|
  {
    if nums == [] then [] else FoundLines(icfg, nums[..|nums| - 1], file) + GraphLinesGivenLine(icfg, nums[|nums| - 1], file)
  }

  /** Every found line is a line of a registered ICFG function of the file
    * numbered with an added line number, and an added number that such a
    * line carries always yields lines. */
  lemma FoundLinesAre(icfg: GraphState, nums: seq<int>, file: string)
    ensures forall l | l in FoundLines(icfg, nums, file) ::
      InFileFunction(icfg, icfg.functions, file, None, l) && NumberOf(icfg, l, icfg.version) as int in nums
    ensures forall l | InFileFunction(icfg, icfg.functions, file, None, l) && NumberOf(icfg, l, icfg.version) as int in nums ::
      FoundLines(icfg, nums, file) != []
  {
    FoundLinesSound(icfg, nums, file);
    FoundLinesNonEmpty(icfg, nums, file);
  }

  lemma {:induction false} FoundLinesSound(icfg: GraphState, nums: seq<int>, file: string)
    ensures forall l | l in FoundLines(icfg, nums, file) ::
      InFileFunction(icfg, icfg.functions, file, None, l) && NumberOf(icfg, l, icfg.version) as int in nums
    decreases |nums|
  {
    if nums != [] {
      var init, x := nums[..|nums| - 1], nums[|nums| - 1];
      FoundLinesSound(icfg, init, file);
      GraphLinesGivenLineCorrect(icfg, x, file);
      assert forall y | y in init :: y in nums;
    }
  }

  lemma {:induction false} FoundLinesNonEmpty(icfg: GraphState, nums: seq<int>, file: string)
    ensures forall l | InFileFunction(icfg, icfg.functions, file, None, l) && NumberOf(icfg, l, icfg.version) as int in nums ::
      FoundLines(icfg, nums, file) != []
    decreases |nums|
  {
    if nums != [] {
      var init, x := nums[..|nums| - 1], nums[|nums| - 1];
      FoundLinesNonEmpty(icfg, init, file);
      GraphLinesGivenLineCorrect(icfg, x, file);
      forall l | InFileFunction(icfg, icfg.functions, file, None, l) && NumberOf(icfg, l, icfg.version) as int in nums
        ensures FoundLines(icfg, nums, file) != []
      {
        if NumberOf(icfg, l, icfg.version) as int != x {
          assert NumberOf(icfg, l, icfg.version) as int in init;
        }
      }
    }
  }

  // ---- Copying one line ------------------------------------------------------

  /** The first function of `fs` named `name`: the find_if over the MVICFG's
    * registered functions. */
  function FirstNamed(g: GraphState, fs: seq<FuncId>, name: string): Option<FuncId>
    decreases |fs|
  {
    if fs == [] then None
    else if FuncOf(g, fs[0]).name == name then Some(fs[0])
    else FirstNamed(g, fs[1..], name)
  }

  /** The find_if result: the first function of `fs` with the name, or none
    * has it. */
  lemma {:induction false} FirstNamedIs(g: GraphState, fs: seq<FuncId>, name: string)
    ensures var r := FirstNamed(g, fs, name);
      (r.Some? ==> exists k | 0 <= k < |fs| :: fs[k] == r.value && FuncOf(g, fs[k]).name == name &&
                     forall j | 0 <= j < k :: FuncOf(g, fs[j]).name != name) &&
      (r.None? ==> forall k | 0 <= k < |fs| :: FuncOf(g, fs[k]).name != name)
    decreases |fs|
  {
    if fs != [] && FuncOf(g, fs[0]).name != name {
      FirstNamedIs(g, fs[1..], name);
      assert forall k | 1 <= k < |fs| :: fs[k] == fs[1..][k - 1];
      var r := FirstNamed(g, fs, name);
      if r.Some? {
        var k :| 0 <= k < |fs[1..]| && fs[1..][k] == r.value && FuncOf(g, fs[1..][k]).name == name &&
                 forall j | 0 <= j < k :: FuncOf(g, fs[1..][j]).name != name;
        assert fs[k + 1] == r.value;
      }
    } else if fs != [] {
      assert fs[0] == FirstNamed(g, fs, name).value;
    }
  }

  /** The body of the inner instruction loop: a new instruction with the
    * ICFG instruction's label and LLVM instruction and the next id, pushed
    * onto line `l`. */
  function CopiedInstruction(g: GraphState, icfg: GraphState, src: InstId, l: LineId): GraphState
    requires l < |g.lines|
  {
    var id := NextId(g.graphID);
    g.(graphID := id,
       insts := g.insts + [Instruction(id, InstOf(icfg, src).labelText, InstOf(icfg, src).ptr, [], Some(l), {})],
       lines := g.lines[l := g.lines[l].PushInstruction(|g.insts|)])
  }

  /** The copies of `srcs`, in order, onto line `l`. */
  function CopiedInstructions(g: GraphState, icfg: GraphState, srcs: seq<InstId>, l: LineId): (r: GraphState)
    requires l < |g.lines|
    ensures |r.lines| == |g.lines| && |r.funcs| == |g.funcs|
    decreases |srcs|
  {
    if srcs == [] then g
    else CopiedInstruction(CopiedInstructions(g, icfg, srcs[..|srcs| - 1], l), icfg, srcs[|srcs| - 1], l)
  }

  /** The function a copy of ICFG line `a` goes into, and the graph after
    * finding it: the first registered function with the name of a's
    * function; when there is none, the source allocates a function, then
    * declares a second variable of the same name (MVICFG.cpp:454), which
    * shadows the first, allocates another function for it and names that
    * one. The line goes into the first, unnamed one; neither is registered. */
  function Target(g: GraphState, icfg: GraphState, a: LineId): (GraphState, FuncId)
  {
    match FirstNamed(g, g.functions, FuncNameOf(icfg, a))
    case Some(f) => (g, f)
    case None =>
      var outer := NextId(g.graphID);
      var inner := NextId(outer);
      (g.(graphID := inner, funcs := g.funcs + [NewFunction(outer), Function(inner, FuncNameOf(icfg, a), FileOf(icfg, a), [], false)]),
       |g.funcs|)
  }

  /** `new Graph_Line(ver)` followed by setLineNumber(v, 0) and
    * setLineNumber(ver, n). */
  function NumberedNewLine(g: GraphState, ver: nat, v: nat, n: nat): GraphState
  {
    var l := |g.lines|;
    WithLineNumber(WithLineNumber(WithNewLine(g, ver), l, v, 0), l, ver, n)
  }

  /** The body of the loop over the found lines: the copy of ICFG line `a`,
    * a new line of the ICFG's version numbered 0 at the MVICFG's version
    * and with a's number at the ICFG's version, holding copies of a's
    * instructions, pushed into the target function. */
  function CopyLine(g: GraphState, icfg: GraphState, a: LineId): (r: GraphState)
    ensures |r.lines| == |g.lines| + 1
  {
    var (g1, f) := Target(g, icfg, a);
    var l := |g1.lines|;
    var g2 := NumberedNewLine(g1, icfg.version, g.version, NumberOf(icfg, a, icfg.version));
    var g3 := CopiedInstructions(g2, icfg, LineOf(icfg, a).instructions, l);
    if f < |g3.funcs| then WithFunctionLine(g3, f, l) else g3
  }

  /** The first loop of addToMVICFG: one copy per found line, in order. */
  function CopyLines(g: GraphState, icfg: GraphState, found: seq<LineId>): (r: GraphState)
    ensures |r.lines| == |g.lines| + |found|
    decreases |found|
  {
    if found == [] then g else CopyLine(CopyLines(g, icfg, found[..|found| - 1]), icfg, found[|found| - 1])
  }

  // ---- What a copy is ----------------------------------------------------------

  /** Line `l` of `g` is a copy, made while the MVICFG had version `v`, of
    * ICFG line `a`: it has the ICFG's version, number 0 at `v` and a's number
    * at the ICFG's version (the first setLineNumber wins when the two
    * versions coincide), no other numbers, and as many instructions as `a`,
    * with the same labels and LLVM instructions, in the same order. */
  predicate CopyOf(g: GraphState, l: LineId, icfg: GraphState, a: LineId, v: nat)
  {
    var mine, theirs := LineOf(g, l).instructions, LineOf(icfg, a).instructions;
    LineOf(g, l).version == icfg.version &&
    LineOf(g, l).numbers.Keys == {v, icfg.version} &&
    NumberOf(g, l, v) == 0 &&
    (icfg.version != v ==> NumberOf(g, l, icfg.version) == NumberOf(icfg, a, icfg.version)) &&
    |mine| == |theirs| &&
    forall j | 0 <= j < |mine| ::
      InstOf(g, mine[j]).labelText == InstOf(icfg, theirs[j]).labelText &&
      InstOf(g, mine[j]).ptr == InstOf(icfg, theirs[j]).ptr &&
      InstOf(g, mine[j]).line == Some(l)
  }

  /** The instruction copies are appended to the arena and to line `l`, in
    * order, with the successive values of the counter as their ids; nothing
    * else changes. */
  lemma {:induction false} CopiedInstructionsShape(g: GraphState, icfg: GraphState, srcs: seq<InstId>, l: LineId)
    requires l < |g.lines|
    ensures var r := CopiedInstructions(g, icfg, srcs, l);
      |r.insts| == |g.insts| + |srcs| && r.insts[..|g.insts|] == g.insts &&
      (forall j | 0 <= j < |srcs| ::
         r.insts[|g.insts| + j] == Instruction(Advance(g.graphID, j + 1), InstOf(icfg, srcs[j]).labelText, InstOf(icfg, srcs[j]).ptr, [], Some(l), {})) &&
      r.lines == g.lines[l := g.lines[l].(instructions := g.lines[l].instructions + Consecutive(|g.insts|, |srcs|))] &&
      r.graphID == Advance(g.graphID, |srcs|) &&
      r.(graphID := g.graphID, insts := g.insts, lines := g.lines) == g
    decreases |srcs|
  {
    if srcs != [] {
      var init := srcs[..|srcs| - 1];
      CopiedInstructionsShape(g, icfg, init, l);
      var h := CopiedInstructions(g, icfg, init, l);
      var r := CopiedInstructions(g, icfg, srcs, l);
      assert r == CopiedInstruction(h, icfg, srcs[|srcs| - 1], l);
      assert r.insts == h.insts + [r.insts[|h.insts|]];
      forall j | 0 <= j < |srcs|
        ensures r.insts[|g.insts| + j] == Instruction(Advance(g.graphID, j + 1), InstOf(icfg, srcs[j]).labelText, InstOf(icfg, srcs[j]).ptr, [], Some(l), {})
      {
        if j < |init| {
          assert srcs[j] == init[j];
        }
      }
      assert Consecutive(|g.insts|, |srcs|) == Consecutive(|g.insts|, |init|) + [|h.insts|];
      var ins := g.lines[l].instructions + Consecutive(|g.insts|, |init|);
      assert h.lines[l].instructions == ins;
      assert r.lines[l] == g.lines[l].(instructions := ins + [|h.insts|]);
      assert ins + [|h.insts|] == g.lines[l].instructions + Consecutive(|g.insts|, |srcs|);
      assert r.graphID == NextId(h.graphID);
    } else {
      assert g.lines[l].instructions + Consecutive(|g.insts|, 0) == g.lines[l].instructions;
      assert g.lines[l := g.lines[l]] == g.lines;
    }
  }

  /** The new line has number 0 at `v` and `n` at `ver` (unless `ver` is
    * `v`: the first number set wins), no instructions and no function. */
  lemma NumberedNewLineIs(g: GraphState, ver: nat, v: nat, n: nat)
    ensures NumberedNewLine(g, ver, v, n) == g.(lines := g.lines + [Line(MapInsert(map[v := 0], ver, n), [], None, ver)])
  {
    var l := |g.lines|;
    var g1 := WithNewLine(g, ver);
    assert g1.lines[l].WithLineNumber(v, 0) == Line(map[v := 0], [], None, ver);
  }

  /** The function the copy goes into is registered and has a's function
    * name when one exists; otherwise it is the first of the two new
    * functions, unnamed, and the counter has moved on twice. */
  lemma TargetIs(g: GraphState, icfg: GraphState, a: LineId)
    requires WellFormed(g)
    ensures var (g1, f) := Target(g, icfg, a);
      WellFormed(g1) && f < |g1.funcs| && g1.lines == g.lines && g1.insts == g.insts && g1.edges == g.edges &&
      g1.functions == g.functions && g1.version == g.version && g1.funcs[..|g.funcs|] == g.funcs &&
      (FirstNamed(g, g.functions, FuncNameOf(icfg, a)).Some? ==>
         g1 == g && f in g.functions && FuncOf(g, f).name == FuncNameOf(icfg, a)) &&
      (FirstNamed(g, g.functions, FuncNameOf(icfg, a)).None? ==>
         f == |g.funcs| && f !in g.functions && |g1.funcs| == |g.funcs| + 2 &&
         g1.funcs[f] == NewFunction(NextId(g.graphID)) && g1.graphID == Advance(g.graphID, 2))
  {
    FirstNamedIs(g, g.functions, FuncNameOf(icfg, a));
    match FirstNamed(g, g.functions, FuncNameOf(icfg, a))
    case Some(f) =>
      assert Target(g, icfg, a) == (g, f);
      assert g.funcs[..|g.funcs|] == g.funcs;
    case None =>
      var (g1, f) := Target(g, icfg, a);
      assert forall k | 0 <= k < |g.functions| :: g.functions[k] < |g.funcs|;
      assert g1.funcs[..|g.funcs|] == g.funcs;
      assert Advance(g.graphID, 1) == NextId(g.graphID);
  }

  /** The new line and the graph's arenas after a copy. */
  lemma CopyLineShape(g: GraphState, icfg: GraphState, a: LineId)
    requires WellFormed(g)
    ensures var r := CopyLine(g, icfg, a);
      var (g1, f) := Target(g, icfg, a);
      var l, iv, n := |g.lines|, icfg.version, |LineOf(icfg, a).instructions|;
      r.lines == g.lines + [Line(MapInsert(map[g.version := 0], iv, NumberOf(icfg, a, iv)), Consecutive(|g.insts|, n), Some(f), iv)] &&
      |r.insts| == |g.insts| + n && r.insts[..|g.insts|] == g.insts &&
      (forall j | 0 <= j < n ::
         r.insts[|g.insts| + j] == Instruction(Advance(g1.graphID, j + 1), InstOf(icfg, LineOf(icfg, a).instructions[j]).labelText,
                                               InstOf(icfg, LineOf(icfg, a).instructions[j]).ptr, [], Some(l), {})) &&
      r.graphID == Advance(g1.graphID, n) &&
      f < |g1.funcs| && r.funcs == g1.funcs[f := g1.funcs[f].PushLine(l)] &&
      r.edges == g.edges && r.functions == g.functions && r.version == g.version &&
      r.entryID == g.entryID && r.exitID == g.exitID
  {
    TargetIs(g, icfg, a);
    var (g1, f) := Target(g, icfg, a);
    var l, v, iv := |g.lines|, g.version, icfg.version;
    var num := NumberOf(icfg, a, iv);
    NumberedNewLineIs(g1, iv, v, num);
    var g2 := NumberedNewLine(g1, iv, v, num);
    var srcs := LineOf(icfg, a).instructions;
    CopiedInstructionsShape(g2, icfg, srcs, l);
    var g3 := CopiedInstructions(g2, icfg, srcs, l);
    assert g3.lines == g.lines + [Line(MapInsert(map[v := 0], iv, num), [] + Consecutive(|g.insts|, |srcs|), None, iv)];
    assert [] + Consecutive(|g.insts|, |srcs|) == Consecutive(|g.insts|, |srcs|);
  }

  /** The new line is a copy of `a`. */
  lemma CopyLineCopies(g: GraphState, icfg: GraphState, a: LineId)
    requires WellFormed(g)
    ensures CopyOf(CopyLine(g, icfg, a), |g.lines|, icfg, a, g.version)
  {
    CopyLineShape(g, icfg, a);
    var r := CopyLine(g, icfg, a);
    var l, iv := |g.lines|, icfg.version;
    var m := MapInsert(map[g.version := 0], iv, NumberOf(icfg, a, iv));
    assert LineOf(r, l).numbers == m;
    assert m.Keys == {g.version, iv};
    var mine, theirs := LineOf(r, l).instructions, LineOf(icfg, a).instructions;
    ConsecutiveIs(|g.insts|, |theirs|);
    forall j | 0 <= j < |mine|
      ensures InstOf(r, mine[j]).labelText == InstOf(icfg, theirs[j]).labelText &&
              InstOf(r, mine[j]).ptr == InstOf(icfg, theirs[j]).ptr && InstOf(r, mine[j]).line == Some(l)
    {
      assert mine[j] == |g.insts| + j;
    }
  }

  /** A copy keeps the MVICFG well-formed. */
  lemma CopyLineWellFormed(g: GraphState, icfg: GraphState, a: LineId)
    requires WellFormed(g)
    ensures WellFormed(CopyLine(g, icfg, a))
  {
    TargetIs(g, icfg, a);
    CopyLineShape(g, icfg, a);
    var (g1, f) := Target(g, icfg, a);
    var r := CopyLine(g, icfg, a);
    var n := |LineOf(icfg, a).instructions|;
    assert r.graphID < UINT_RANGE by {
      if n == 0 {
        assert r.graphID == g1.graphID;
      }
    }
    forall i | |g1.insts| <= i < |r.insts|
      ensures r.insts[i].edges == [] && r.insts[i].line == Some(|g1.lines|)
    {
      var j := i - |g1.insts|;
      var src := InstOf(icfg, LineOf(icfg, a).instructions[j]);
      assert r.insts[|g.insts| + j] == Instruction(Advance(g1.graphID, j + 1), src.labelText, src.ptr, [], Some(|g.lines|), {});
    }
    AppendedLineWellFormed(g1, r, f, n);
  }

  /** Appending a line of `n` fresh instructions (without edges) to
    * function `f` keeps a well-formed graph well-formed. */
  lemma AppendedLineWellFormed(g: GraphState, r: GraphState, f: FuncId, n: nat)
    requires WellFormed(g) && f < |g.funcs| && r.graphID < UINT_RANGE
    requires |r.lines| == |g.lines| + 1 && r.lines[..|g.lines|] == g.lines
    requires r.lines[|g.lines|].instructions == Consecutive(|g.insts|, n) && r.lines[|g.lines|].func == Some(f)
    requires |r.insts| == |g.insts| + n && r.insts[..|g.insts|] == g.insts
    requires forall i | |g.insts| <= i < |r.insts| :: r.insts[i].edges == [] && r.insts[i].line == Some(|g.lines|)
    requires r.funcs == g.funcs[f := g.funcs[f].PushLine(|g.lines|)]
    requires r.edges == g.edges && r.functions == g.functions && r.entryID == g.entryID && r.exitID == g.exitID
    ensures WellFormed(r)
  {
    var l := |g.lines|;
    assert FunctionsOk(r) by {
      assert forall k | 0 <= k < |g.functions| :: g.functions[k] < |g.funcs|;
    }
    assert FuncsOk(r) by {
      forall k | 0 <= k < |r.funcs|
        ensures IdsBelow(r.funcs[k].lines, |r.lines|)
      {
        if k != f {
          assert r.funcs[k] == g.funcs[k];
        }
      }
    }
    assert LinesOk(r) by {
      forall m | 0 <= m < |r.lines|
        ensures IdsBelow(r.lines[m].instructions, |r.insts|) && OptBelow(r.lines[m].func, |r.funcs|)
      {
        if m < l {
          assert r.lines[m] == g.lines[m];
          assert IdsBelow(g.lines[m].instructions, |g.insts|) && OptBelow(g.lines[m].func, |g.funcs|);
        } else {
          ConsecutiveIs(|g.insts|, n);
        }
      }
    }
    assert InstsOk(r) by {
      forall i | 0 <= i < |r.insts|
        ensures IdsBelow(r.insts[i].edges, |r.edges|) && OptBelow(r.insts[i].line, |r.lines|)
      {
        if i < |g.insts| {
          assert r.insts[i] == g.insts[i];
          assert IdsBelow(g.insts[i].edges, |g.edges|) && OptBelow(g.insts[i].line, |g.lines|);
        }
      }
    }
    assert EdgesOk(r) by {
      forall e | 0 <= e < |r.edges| ensures r.edges[e].from < |r.insts| && r.edges[e].to < |r.insts| {
        assert r.edges[e] == g.edges[e];
      }
    }
  }

  /** A copy stays a copy while later steps only append lines and
    * instructions. */
  lemma CopyOfStable(h: GraphState, r: GraphState, l: LineId, icfg: GraphState, a: LineId, v: nat)
    requires WellFormed(h) && l < |h.lines| && CopyOf(h, l, icfg, a, v)
    requires |h.lines| <= |r.lines| && r.lines[..|h.lines|] == h.lines
    requires |h.insts| <= |r.insts| && r.insts[..|h.insts|] == h.insts
    ensures CopyOf(r, l, icfg, a, v)
  {
    assert LineOf(r, l) == LineOf(h, l);
    var mine := LineOf(h, l).instructions;
    forall j | 0 <= j < |mine| ensures InstOf(r, mine[j]) == InstOf(h, mine[j]) {
      assert mine[j] < |h.insts|;
    }
  }

  /** `r` is `g` with the lines of `found` copied after g's lines. */
  predicate CopiedAfter(g: GraphState, r: GraphState, icfg: GraphState, found: seq<LineId>)
  {
    WellFormed(r) && |r.lines| == |g.lines| + |found| && r.lines[..|g.lines|] == g.lines &&
    |g.insts| <= |r.insts| && r.insts[..|g.insts|] == g.insts &&
    r.edges == g.edges && r.functions == g.functions && r.version == g.version &&
    forall j | 0 <= j < |found| :: CopyOf(r, |g.lines| + j, icfg, found[j], g.version)
  }

  /** One copy, in the terms the first loop needs. */
  lemma CopyLineStep(h: GraphState, icfg: GraphState, a: LineId)
    requires WellFormed(h)
    ensures CopiedAfter(h, CopyLine(h, icfg, a), icfg, [a])
  {
    CopyLineShape(h, icfg, a);
    CopyLineCopies(h, icfg, a);
    CopyLineWellFormed(h, icfg, a);
    var r := CopyLine(h, icfg, a);
    assert r.lines[..|h.lines|] == h.lines;
  }

  /** Copying `init` and then `more` copies `init + more`. */
  lemma CopiedAfterTrans(g: GraphState, h: GraphState, r: GraphState, icfg: GraphState, init: seq<LineId>, more: seq<LineId>)
    requires WellFormed(g) && CopiedAfter(g, h, icfg, init) && CopiedAfter(h, r, icfg, more)
    ensures CopiedAfter(g, r, icfg, init + more)
  {
    var found := init + more;
    forall j | 0 <= j < |found| ensures CopyOf(r, |g.lines| + j, icfg, found[j], g.version) {
      if j < |init| {
        assert found[j] == init[j];
        CopyOfStable(h, r, |g.lines| + j, icfg, found[j], g.version);
      } else {
        assert found[j] == more[j - |init|];
        assert |g.lines| + j == |h.lines| + (j - |init|);
      }
    }
    assert r.lines[..|g.lines|] == h.lines[..|g.lines|];
    assert r.insts[..|g.insts|] == h.insts[..|g.insts|];
  }

  /** The first loop of addToMVICFG: the k-th found line is copied to line
    * |g.lines| + k; the lines and instructions there were are untouched, no
    * edge changes, no function is registered and the graph stays
    * well-formed. */
  lemma {:induction false} CopyLinesShape(g: GraphState, icfg: GraphState, found: seq<LineId>)
    requires WellFormed(g)
    ensures CopiedAfter(g, CopyLines(g, icfg, found), icfg, found)
    decreases |found|
  {
    if found != [] {
      var init := found[..|found| - 1];
      CopyLinesShape(g, icfg, init);
      var h := CopyLines(g, icfg, init);
      CopyLineStep(h, icfg, found[|found| - 1]);
      var r := CopyLine(h, icfg, found[|found| - 1]);
      SplitLast(found);
      CopiedAfterTrans(g, h, r, icfg, init, [found[|found| - 1]]);
    } else {
      assert g.lines[..|g.lines|] == g.lines && g.insts[..|g.insts|] == g.insts;
    }
  }

  /** The step of the loop over found lines, on named states. */
  lemma CopyLinesNext(g0: GraphState, icfg: GraphState, s: seq<LineId>, next: seq<LineId>, a: LineId, h: GraphState, r: GraphState)
    requires next == s + [a] && h == CopyLines(g0, icfg, s) && r == CopyLine(h, icfg, a)
    ensures r == CopyLines(g0, icfg, next)
  {
    assert next[..|s|] == s;
  }

  /** The first loop of addToMVICFG, added number by added number: the
    * ICFG lines of the file carrying each number are copied in turn. */
  function CopyAll(g: GraphState, icfg: GraphState, nums: seq<int>, file: string): (r: GraphState)
    ensures |r.lines| == |g.lines| + |FoundLines(icfg, nums, file)|
    decreases |nums|
  {
    if nums == [] then g
    else CopyLines(CopyAll(g, icfg, nums[..|nums| - 1], file), icfg, GraphLinesGivenLine(icfg, nums[|nums| - 1], file))
  }

  /** The step of the loop over added numbers, on named states. */
  lemma CopyAllNext(g0: GraphState, icfg: GraphState, ns: seq<int>, next: seq<int>, n: int, file: string, h: GraphState, r: GraphState)
    requires next == ns + [n]
    requires h == CopyAll(g0, icfg, ns, file) && r == CopyLines(h, icfg, GraphLinesGivenLine(icfg, n, file))
    ensures r == CopyAll(g0, icfg, next, file)
  {
    assert next[..|ns|] == ns;
  }

  /** The found lines of one more number. */
  lemma FoundLinesNext(icfg: GraphState, ns: seq<int>, next: seq<int>, n: int, file: string)
    requires next == ns + [n]
    ensures FoundLines(icfg, next, file) == FoundLines(icfg, ns, file) + GraphLinesGivenLine(icfg, n, file)
  {
    assert next[..|ns|] == ns;
  }

  /** The whole first loop: the found lines, in order, are copied after the
    * MVICFG's lines. */
  lemma {:induction false} CopyAllShape(g: GraphState, icfg: GraphState, nums: seq<int>, file: string)
    requires WellFormed(g)
    ensures CopiedAfter(g, CopyAll(g, icfg, nums, file), icfg, FoundLines(icfg, nums, file))
    decreases |nums|
  {
    if nums != [] {
      var init := nums[..|nums| - 1];
      var n := nums[|nums| - 1];
      SplitLast(nums);
      CopyAllShape(g, icfg, init, file);
      var h := CopyAll(g, icfg, init, file);
      var added := GraphLinesGivenLine(icfg, n, file);
      var r := CopyLines(h, icfg, added);
      CopyLinesShape(h, icfg, added);
      CopyAllNext(g, icfg, init, nums, n, file, h, r);
      FoundLinesNext(icfg, init, nums, n, file);
      CopiedAfterTrans(g, h, r, icfg, FoundLines(icfg, init, file), added);
    } else {
      assert g.lines[..|g.lines|] == g.lines && g.insts[..|g.insts|] == g.insts;
    }
  }

  // ---- The first loop, on the graph object ------------------------------------

  /** The inner instruction loop's body on the MVICFG. */
  method CopyInstruction(mv: Graph, icfg: GraphState, src: InstId, l: LineId)
    requires mv.Valid() && l < |mv.lines|
    modifies mv`graphID, mv`lines, mv`insts
    ensures mv.Valid() && mv.State() == CopiedInstruction(old(mv.State()), icfg, src, l)
  {
    var i := mv.NewGraphInstruction();
    mv.SetInstructionLabel(i, InstOf(icfg, src).labelText);
    var id := mv.GetNextID();
    mv.SetInstructionID(i, id);
    mv.SetInstructionPtr(i, InstOf(icfg, src).ptr);
    mv.PushLineInstruction(l, i);
  }

  /** The inner instruction loop: copies of `srcs`, in order, onto line `l`. */
  method CopyInstructions(mv: Graph, icfg: GraphState, srcs: seq<InstId>, l: LineId)
    requires mv.Valid() && l < |mv.lines|
    modifies mv`graphID, mv`lines, mv`insts
    ensures mv.Valid() && mv.State() == CopiedInstructions(old(mv.State()), icfg, srcs, l)
  {
    ghost var g0 := mv.State();
    var k := 0;
    while k < |srcs|
      invariant 0 <= k <= |srcs| && mv.Valid() && l < |mv.lines|
      invariant mv.State() == CopiedInstructions(g0, icfg, srcs[..k], l)
    {
      CopyInstruction(mv, icfg, srcs[k], l);
      assert srcs[..k + 1][..k] == srcs[..k];
      k := k + 1;
    }
    assert srcs[..|srcs|] == srcs;
  }

  /** The find_if over the MVICFG's functions, and the allocation when it
    * finds none. */
  method FindTarget(mv: Graph, icfg: GraphState, a: LineId) returns (f: FuncId)
    requires mv.Valid()
    modifies mv`graphID, mv`funcs
    ensures mv.Valid() && (mv.State(), f) == Target(old(mv.State()), icfg, a)
  {
    match FirstNamed(mv.State(), mv.functions, FuncNameOf(icfg, a))
    case Some(x) =>
      f := x;
    case None =>
      ghost var g := mv.State();
      var outer := mv.GetNextID();
      f := mv.NewGraphFunction(outer);
      var inner := mv.GetNextID();
      var shadow := mv.NewGraphFunction(inner);
      mv.SetFunctionName(shadow, FuncNameOf(icfg, a));
      mv.SetFunctionFile(shadow, FileOf(icfg, a));
      assert mv.funcs == g.funcs + [NewFunction(outer), Function(inner, FuncNameOf(icfg, a), FileOf(icfg, a), [], false)];
  }

  /** The body of the loop over the found lines: the copy of ICFG line `a`;
    * returns the new line. */
  method CopyLineInto(mv: Graph, icfg: GraphState, a: LineId) returns (l: LineId)
    requires mv.Valid()
    modifies mv`graphID, mv`funcs, mv`lines, mv`insts
    ensures mv.Valid() && mv.State() == CopyLine(old(mv.State()), icfg, a) && l == |old(mv.lines)|
  {
    var f := FindTarget(mv, icfg, a);
    l := mv.NewGraphLine(icfg.version);
    mv.SetLineNumber(l, mv.graphVersion, 0);
    mv.SetLineNumber(l, icfg.version, NumberOf(icfg, a, icfg.version));
    CopyInstructions(mv, icfg, LineOf(icfg, a).instructions, l);
    if f < |mv.funcs| {
      mv.PushFunctionLines(f, l);
    }
  }

  /** One pass of the loop over the ICFG lines carrying one added number. */
  method CopyGraphLine(mv: Graph, icfg: GraphState, ghost g0: GraphState, ghost done: seq<LineId>, ghost next: seq<LineId>, a: LineId)
    requires mv.Valid() && mv.State() == CopyLines(g0, icfg, done) && next == done + [a]
    modifies mv`graphID, mv`funcs, mv`lines, mv`insts
    ensures mv.Valid() && mv.State() == CopyLines(g0, icfg, next)
  {
    ghost var h := mv.State();
    var _ := CopyLineInto(mv, icfg, a);
    CopyLinesNext(g0, icfg, done, next, a, h, mv.State());
  }

  /** The loop over the ICFG lines carrying one added number. */
  method CopyGraphLines(mv: Graph, icfg: GraphState, added: seq<LineId>)
    requires mv.Valid()
    modifies mv`graphID, mv`funcs, mv`lines, mv`insts
    ensures mv.Valid() && mv.State() == CopyLines(old(mv.State()), icfg, added)
  {
    ghost var g0 := mv.State();
    var j := 0;
    while j < |added|
      invariant 0 <= j <= |added| && mv.Valid()
      invariant mv.State() == CopyLines(g0, icfg, added[..j])
    {
      TakeNext(added, j);
      CopyGraphLine(mv, icfg, g0, added[..j], added[..j + 1], added[j]);
      j := j + 1;
    }
    assert added[..|added|] == added;
  }

  /** One pass of the loop over the added numbers: the ICFG lines carrying
    * `n` are copied and appended to icfgN. */
  method CopyNumber(mv: Graph, icfg: GraphState, ghost g0: GraphState, ghost done: seq<int>, ghost next: seq<int>, n: int, file: string,
                    icfgN: seq<LineId>)
    returns (icfgN': seq<LineId>)
    requires mv.Valid() && mv.State() == CopyAll(g0, icfg, done, file) && next == done + [n] && icfgN == FoundLines(icfg, done, file)
    modifies mv`graphID, mv`funcs, mv`lines, mv`insts
    ensures mv.Valid() && mv.State() == CopyAll(g0, icfg, next, file) && icfgN' == FoundLines(icfg, next, file)
  {
    var added := GraphLinesGivenLine(icfg, n, file);
    ghost var h := mv.State();
    CopyGraphLines(mv, icfg, added);
    CopyAllNext(g0, icfg, done, next, n, file, h, mv.State());
    FoundLinesNext(icfg, done, next, n, file);
    icfgN' := icfgN + added;
  }

  /** The first loop of addToMVICFG: for each added number in order, the
    * ICFG lines of the diff's file carrying it are copied; returns the
    * lines they copy (icfgN) and the copies (N), which are the lines
    * appended to the MVICFG, in order. */
  method CopyAddedLines(mv: Graph, icfg: GraphState, nums: seq<int>, file: string) returns (N: seq<LineId>, icfgN: seq<LineId>)
    requires mv.Valid()
    modifies mv`graphID, mv`funcs, mv`lines, mv`insts
    ensures mv.Valid() && mv.State() == CopyAll(old(mv.State()), icfg, nums, file)
    ensures icfgN == FoundLines(icfg, nums, file) && N == Consecutive(|old(mv.lines)|, |icfgN|)
  {
    ghost var g0 := mv.State();
    var base := |mv.lines|;
    icfgN := [];
    var k := 0;
    while k < |nums|
      invariant 0 <= k <= |nums| && mv.Valid()
      invariant mv.State() == CopyAll(g0, icfg, nums[..k], file) && icfgN == FoundLines(icfg, nums[..k], file)
    {
      TakeNext(nums, k);
      icfgN := CopyNumber(mv, icfg, g0, nums[..k], nums[..k + 1], nums[k], file, icfgN);
      k := k + 1;
    }
    assert nums[..|nums|] == nums;
    N := Consecutive(base, |icfgN|);
  }

  // ---- The second loop: the edges of the added lines -------------------------

  /** The decision for one line `t` of T: none when t is itself a copied
    * ICFG line (in icfgN), lies outside the diff's file or has no matching
    * MVICFG line tDash. A predecessor is joined from tDash's last
    * instruction to n's first, with the type of the ICFG edge from t's last
    * instruction to nDash's first; a successor from n's last instruction to
    * tDash's first, with the type of the ICFG edge from nDash's last to t's
    * first. A line of both lists counts as a predecessor. */
  function WiringFor(g: GraphState, c: Pass, icfgN: seq<LineId>, a: Around, t: LineId): Option<Wiring>
  {
    if t in icfgN || FileOf(c.icfg, t) != c.diff.fileName then None
    else
      match FindMatchedLine(g, c.icfg, t, c.diff)
      case None => None
      case Some(tDash) =>
        var mine, theirs := LineOf(g, a.n).instructions, LineOf(g, tDash).instructions;
        var nDashs, ts := LineOf(c.icfg, a.nDash).instructions, LineOf(c.icfg, t).instructions;
        if t in a.pred then
          Some(Wiring(Back(theirs), Front(mine), TypeFrom(c.icfg, Back(ts), Front(nDashs), t, a.nDash, MvicfgAdd)))
        else if t in a.succ then
          Some(Wiring(Back(mine), Front(theirs), TypeFrom(c.icfg, Back(nDashs), Front(ts), a.nDash, t, MvicfgAdd)))
        else None
  }

  /** The body of the loop over T: the wiring chosen for `t`, if any. */
  function AddEdgeFor(g: GraphState, c: Pass, icfgN: seq<LineId>, a: Around, t: LineId): GraphState
  {
    match WiringFor(g, c, icfgN, a, t)
    case None => g
    case Some(w) => Wire(g, w.from, w.to, c.version, w.kind)
  }

  /** The loop over T, in order. */
  function AddEdgesFor(g: GraphState, c: Pass, icfgN: seq<LineId>, a: Around, ts: seq<LineId>): GraphState
    decreases |ts|
  {
    if ts == [] then g
    else AddEdgeFor(AddEdgesFor(g, c, icfgN, a, ts[..|ts| - 1]), c, icfgN, a, ts[|ts| - 1])
  }

  /** The body of the loop over N: a line of a function of the diff's file
    * that matches an ICFG line nDash is wired along nDash's predecessors,
    * then its successors. */
  function AddedNode(g: GraphState, c: Pass, icfgN: seq<LineId>, n: LineId): GraphState
  {
    if FileOf(g, n) != c.diff.fileName then g
    else
      match FindMatchedLine(c.icfg, g, n, c.diff)
      case None => g
      case Some(nDash) =>
        var a := Around(n, nDash, PredLines(c.icfg, nDash), SuccLines(c.icfg, nDash));
        AddEdgesFor(g, c, icfgN, a, a.pred + a.succ)
  }

  /** The loop over N, in order. */
  function AddedEdges(g: GraphState, c: Pass, icfgN: seq<LineId>, ns: seq<LineId>): GraphState
    decreases |ns|
  {
    if ns == [] then g
    else AddedNode(AddedEdges(g, c, icfgN, ns[..|ns| - 1]), c, icfgN, ns[|ns| - 1])
  }

  /** addToMVICFG as a whole: the copy of the added lines, then their edges. */
  function Added(g: GraphState, c: Pass): GraphState
  {
    var icfgN := FoundLines(c.icfg, c.diff.addedLines, c.diff.fileName);
    AddedEdges(CopyAll(g, c.icfg, c.diff.addedLines, c.diff.fileName), c, icfgN, Consecutive(|g.lines|, |icfgN|))
  }

  // ---- What the second loop does ---------------------------------------------

  /** One line of T at most wires one edge: after it the chosen connection
    * exists in the pass's version, an existing edge only gaining that
    * version and a missing one added with the chosen type; besides, only
    * edges change. */
  lemma AddEdgeForEffect(g: GraphState, c: Pass, icfgN: seq<LineId>, a: Around, t: LineId)
    requires WellFormed(g)
    ensures var r := AddEdgeFor(g, c, icfgN, a, t);
      Rewired(g, r, c.version) &&
      (WiringFor(g, c, icfgN, a, t).None? ==> r == g) &&
      (WiringFor(g, c, icfgN, a, t).Some? ==>
         var w := WiringFor(g, c, icfgN, a, t).value;
         w.from < |g.insts| && w.to < |g.insts| ==>
           Connected(r, w.from, w.to, c.version) &&
           (GetEdge(g, w.from, w.to, Any).None? ==> r.edges == g.edges + [Edge(w.from, w.to, w.kind, [c.version])]))
  {
    match WiringFor(g, c, icfgN, a, t)
    case None =>
      RewiredRefl(g, c.version);
    case Some(w) =>
      WireRewired(g, w.from, w.to, c.version, w.kind);
      if w.from < |g.insts| && w.to < |g.insts| {
        WireEffect(g, w.from, w.to, c.version, w.kind);
      }
  }

  lemma AddEdgesForNext(g0: GraphState, c: Pass, icfgN: seq<LineId>, a: Around, done: seq<LineId>, next: seq<LineId>, t: LineId,
                        h: GraphState, r: GraphState)
    requires next == done + [t] && h == AddEdgesFor(g0, c, icfgN, a, done) && r == AddEdgeFor(h, c, icfgN, a, t)
    ensures r == AddEdgesFor(g0, c, icfgN, a, next)
  {
    assert next[..|done|] == done;
  }

  lemma {:induction false} AddEdgesForRewired(g: GraphState, c: Pass, icfgN: seq<LineId>, a: Around, ts: seq<LineId>)
    requires WellFormed(g)
    ensures Rewired(g, AddEdgesFor(g, c, icfgN, a, ts), c.version)
    decreases |ts|
  {
    if ts == [] {
      RewiredRefl(g, c.version);
    } else {
      var init := ts[..|ts| - 1];
      var h := AddEdgesFor(g, c, icfgN, a, init);
      AddEdgesForRewired(g, c, icfgN, a, init);
      RewiredWellFormed(g, h, c.version);
      AddEdgeForEffect(h, c, icfgN, a, ts[|ts| - 1]);
      RewiredTrans(g, h, AddEdgeFor(h, c, icfgN, a, ts[|ts| - 1]), c.version);
    }
  }

  lemma AddedNodeRewired(g: GraphState, c: Pass, icfgN: seq<LineId>, n: LineId)
    requires WellFormed(g)
    ensures Rewired(g, AddedNode(g, c, icfgN, n), c.version)
  {
    if FileOf(g, n) != c.diff.fileName {
      RewiredRefl(g, c.version);
    } else {
      match FindMatchedLine(c.icfg, g, n, c.diff)
      case None =>
        RewiredRefl(g, c.version);
      case Some(nDash) =>
        var a := Around(n, nDash, PredLines(c.icfg, nDash), SuccLines(c.icfg, nDash));
        AddEdgesForRewired(g, c, icfgN, a, a.pred + a.succ);
    }
  }

  lemma AddedEdgesNext(g0: GraphState, c: Pass, icfgN: seq<LineId>, done: seq<LineId>, next: seq<LineId>, n: LineId,
                       h: GraphState, r: GraphState)
    requires next == done + [n] && h == AddedEdges(g0, c, icfgN, done) && r == AddedNode(h, c, icfgN, n)
    ensures r == AddedEdges(g0, c, icfgN, next)
  {
    assert next[..|done|] == done;
  }

  /** The second loop only adds edges and edge versions, all of the pass's
    * version, between instructions that exist. */
  lemma {:induction false} AddedEdgesRewired(g: GraphState, c: Pass, icfgN: seq<LineId>, ns: seq<LineId>)
    requires WellFormed(g)
    ensures Rewired(g, AddedEdges(g, c, icfgN, ns), c.version)
    decreases |ns|
  {
    if ns == [] {
      RewiredRefl(g, c.version);
    } else {
      var init := ns[..|ns| - 1];
      var h := AddedEdges(g, c, icfgN, init);
      AddedEdgesRewired(g, c, icfgN, init);
      RewiredWellFormed(g, h, c.version);
      AddedNodeRewired(h, c, icfgN, ns[|ns| - 1]);
      RewiredTrans(g, h, AddedNode(h, c, icfgN, ns[|ns| - 1]), c.version);
    }
  }

  /** Wiring edges does not disturb a copy: it reads only lines and the
    * instructions' other fields. */
  lemma CopyOfRewired(h: GraphState, r: GraphState, l: LineId, icfg: GraphState, a: LineId, v: nat, w: nat)
    requires Rewired(h, r, w) && CopyOf(h, l, icfg, a, v)
    ensures CopyOf(r, l, icfg, a, v)
  {
    assert r.lines == h.lines;
    var mine := LineOf(h, l).instructions;
    forall j | 0 <= j < |mine|
      ensures InstOf(r, mine[j]).(edges := InstOf(h, mine[j]).edges) == InstOf(h, mine[j])
    {
    }
  }

  lemma CopiesSurvive(g: GraphState, h: GraphState, r: GraphState, icfg: GraphState, found: seq<LineId>, w: nat)
    requires CopiedAfter(g, h, icfg, found) && Rewired(h, r, w)
    ensures forall j | 0 <= j < |found| :: CopyOf(r, |g.lines| + j, icfg, found[j], g.version)
  {
    forall j | 0 <= j < |found|
      ensures CopyOf(r, |g.lines| + j, icfg, found[j], g.version)
    {
      CopyOfRewired(h, r, |g.lines| + j, icfg, found[j], g.version, w);
    }
  }

  /** addToMVICFG: the MVICFG gains one new line per ICFG line carrying an
    * added number of the diff's file, each a copy of it (new version,
    * number 0 at the MVICFG's version, the ICFG's number at its own, copies
    * of its instructions); nothing it had before changes except edges, which
    * only gain the pass's version, and the new edges are the pass's
    * version's; the result is well-formed. */
  lemma AddedShape(g: GraphState, c: Pass)
    requires WellFormed(g)
    ensures var icfgN := FoundLines(c.icfg, c.diff.addedLines, c.diff.fileName);
      var h := CopyAll(g, c.icfg, c.diff.addedLines, c.diff.fileName);
      var r := Added(g, c);
      CopiedAfter(g, h, c.icfg, icfgN) && Rewired(h, r, c.version) && WellFormed(r) &&
      r.lines == h.lines && r.functions == h.functions &&
      forall j | 0 <= j < |icfgN| :: CopyOf(r, |g.lines| + j, c.icfg, icfgN[j], g.version)
  {
    var icfgN := FoundLines(c.icfg, c.diff.addedLines, c.diff.fileName);
    var h := CopyAll(g, c.icfg, c.diff.addedLines, c.diff.fileName);
    var r := Added(g, c);
    CopyAllShape(g, c.icfg, c.diff.addedLines, c.diff.fileName);
    AddedEdgesRewired(h, c, icfgN, Consecutive(|g.lines|, |icfgN|));
    RewiredWellFormed(h, r, c.version);
    CopiesSurvive(g, h, r, c.icfg, icfgN, c.version);
  }

  // ---- The second loop on the MVICFG object ----------------------------------

  /** The body of the loop over T. */
  method AddEdgeForLine(mv: Graph, c: Pass, icfgN: seq<LineId>, a: Around, t: LineId)
    requires mv.Valid()
    modifies mv`insts, mv`graphEdges
    ensures mv.Valid() && mv.State() == AddEdgeFor(old(mv.State()), c, icfgN, a, t)
  {
    if t !in icfgN && FileOf(c.icfg, t) == c.diff.fileName {
      var found := FindMatchedLine(mv.State(), c.icfg, t, c.diff);
      if found.Some? {
        var tDash := found.value;
        var mine, theirs := LineOf(mv.State(), a.n).instructions, LineOf(mv.State(), tDash).instructions;
        var nDashs, ts := LineOf(c.icfg, a.nDash).instructions, LineOf(c.icfg, t).instructions;
        if t in a.pred {
          WireEdge(mv, Back(theirs), Front(mine), c.version, TypeFrom(c.icfg, Back(ts), Front(nDashs), t, a.nDash, MvicfgAdd));
        } else if t in a.succ {
          WireEdge(mv, Back(mine), Front(theirs), c.version, TypeFrom(c.icfg, Back(nDashs), Front(ts), a.nDash, t, MvicfgAdd));
        }
      }
    }
  }

  method AddEdgeForStep(mv: Graph, c: Pass, icfgN: seq<LineId>, a: Around, ghost g0: GraphState, ghost done: seq<LineId>,
                        ghost next: seq<LineId>, t: LineId)
    requires mv.Valid() && mv.State() == AddEdgesFor(g0, c, icfgN, a, done) && next == done + [t]
    modifies mv`insts, mv`graphEdges
    ensures mv.Valid() && mv.State() == AddEdgesFor(g0, c, icfgN, a, next)
  {
    ghost var h := mv.State();
    AddEdgeForLine(mv, c, icfgN, a, t);
    AddEdgesForNext(g0, c, icfgN, a, done, next, t, h, mv.State());
  }

  /** The loop over T. */
  method AddEdgesForLines(mv: Graph, c: Pass, icfgN: seq<LineId>, a: Around, ts: seq<LineId>)
    requires mv.Valid()
    modifies mv`insts, mv`graphEdges
    ensures mv.Valid() && mv.State() == AddEdgesFor(old(mv.State()), c, icfgN, a, ts)
  {
    ghost var g0 := mv.State();
    var j := 0;
    while j < |ts|
      invariant 0 <= j <= |ts| && mv.Valid()
      invariant mv.State() == AddEdgesFor(g0, c, icfgN, a, ts[..j])
    {
      TakeNext(ts, j);
      AddEdgeForStep(mv, c, icfgN, a, g0, ts[..j], ts[..j + 1], ts[j]);
      j := j + 1;
    }
    assert ts[..|ts|] == ts;
  }

  /** The body of the loop over N. */
  method AddNodeEdges(mv: Graph, c: Pass, icfgN: seq<LineId>, n: LineId)
    requires mv.Valid()
    modifies mv`insts, mv`graphEdges
    ensures mv.Valid() && mv.State() == AddedNode(old(mv.State()), c, icfgN, n)
  {
    if FileOf(mv.State(), n) == c.diff.fileName {
      var found := FindMatchedLine(c.icfg, mv.State(), n, c.diff);
      if found.Some? {
        var nDash := found.value;
        var pred := PredLines(c.icfg, nDash);
        var succ := SuccLines(c.icfg, nDash);
        AddEdgesForLines(mv, c, icfgN, Around(n, nDash, pred, succ), pred + succ);
      }
    }
  }

  method AddNodeStep(mv: Graph, c: Pass, icfgN: seq<LineId>, ghost g0: GraphState, ghost done: seq<LineId>, ghost next: seq<LineId>,
                     n: LineId)
    requires mv.Valid() && mv.State() == AddedEdges(g0, c, icfgN, done) && next == done + [n]
    modifies mv`insts, mv`graphEdges
    ensures mv.Valid() && mv.State() == AddedEdges(g0, c, icfgN, next)
  {
    ghost var h := mv.State();
    AddNodeEdges(mv, c, icfgN, n);
    AddedEdgesNext(g0, c, icfgN, done, next, n, h, mv.State());
  }

  /** The second loop of addToMVICFG. */
  method AddEdgesForAdded(mv: Graph, c: Pass, icfgN: seq<LineId>, N: seq<LineId>)
    requires mv.Valid()
    modifies mv`insts, mv`graphEdges
    ensures mv.Valid() && mv.State() == AddedEdges(old(mv.State()), c, icfgN, N)
  {
    ghost var g0 := mv.State();
    var k := 0;
    while k < |N|
      invariant 0 <= k <= |N| && mv.Valid()
      invariant mv.State() == AddedEdges(g0, c, icfgN, N[..k])
    {
      TakeNext(N, k);
      AddNodeStep(mv, c, icfgN, g0, N[..k], N[..k + 1], N[k]);
      k := k + 1;
    }
    assert N[..|N|] == N;
  }

  lemma AddedIs(g: GraphState, c: Pass, h: GraphState, icfgN: seq<LineId>, N: seq<LineId>, r: GraphState)
    requires h == CopyAll(g, c.icfg, c.diff.addedLines, c.diff.fileName) && icfgN == FoundLines(c.icfg, c.diff.addedLines, c.diff.fileName)
    requires N == Consecutive(|g.lines|, |icfgN|) && r == AddedEdges(h, c, icfgN, N)
    ensures r == Added(g, c)
  {
  }

  /** addToMVICFG: merges the lines `diff` adds, as found in the ICFG of
    * version `version`, into the MVICFG; returns the new lines N. */
  method AddToMVICFG(mv: Graph, icfg: GraphState, diff: MappingState, version: nat) returns (N: seq<LineId>)
    requires mv.Valid()
    modifies mv`graphID, mv`funcs, mv`lines, mv`insts, mv`graphEdges
    ensures mv.Valid() && mv.State() == Added(old(mv.State()), Pass(icfg, diff, version))
    ensures N == Consecutive(|old(mv.lines)|, |FoundLines(icfg, diff.addedLines, diff.fileName)|)
  {
    ghost var g := mv.State();
    var icfgN;
    N, icfgN := CopyAddedLines(mv, icfg, diff.addedLines, diff.fileName);
    ghost var h := mv.State();
    AddEdgesForAdded(mv, Pass(icfg, diff, version), icfgN, N);
    AddedIs(g, Pass(icfg, diff, version), h, icfgN, N, mv.State());
  }
}
