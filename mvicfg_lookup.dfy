// The read-only lookups of the multi-version graph builder: finding lines by
// number, the lines around a line, the opcode string of a line, the
// correspondence between a line of one graph and a line of another, and the
// edge searches. All of them are functions of the graph values.
module MvicfgLookup {
  import opened Common
  import opened DiffMapping
  import opened GraphEdge
  import opened GraphInstruction
  import opened GraphLine
  import opened GraphFunction
  import opened Graphs

  // ---- Lines by number ----------------------------------------------------

  /** The lines of `ls` whose number at version `v` is `n`, in order. */
  function NumberedLines(g: GraphState, ls: seq<LineId>, v: nat, n: int): (r: seq<LineId>)
    ensures |r| <= |ls|
    ensures forall l :: l in r <==> l in ls && NumberOf(g, l, v) == n
    decreases |ls|
  {
    if ls == [] then []
    else (if NumberOf(g, ls[0], v) == n then [ls[0]] else []) + NumberedLines(g, ls[1..], v, n)
  }

  /** The matching lines one registered function contributes: none when its
    * file is not `fileName`. */
  function FileLines(g: GraphState, f: FuncId, lineNo: int, fileName: string): seq<LineId>
  {
    if FuncOf(g, f).file == fileName then NumberedLines(g, FuncOf(g, f).lines, g.version, lineNo) else []
  }

  function LinesGivenLineIn(g: GraphState, fs: seq<FuncId>, lineNo: int, fileName: string): seq<LineId>
    decreases |fs|
  {
    if fs == [] then []
    else if FileLines(g, fs[0], lineNo, fileName) != [] then FileLines(g, fs[0], lineNo, fileName)
    else LinesGivenLineIn(g, fs[1..], lineNo, fileName)
  }

  /** getGraphLinesGivenLine: the lines numbered `lineNo` (at the graph's own
    * version) of the first registered function of file `fileName` that has
    * any; a line cannot be spread over two functions. */
  function GraphLinesGivenLine(g: GraphState, lineNo: int, fileName: string): seq<LineId>
  {
    LinesGivenLineIn(g, g.functions, lineNo, fileName)
  }

  /** A line of a registered function of file `file` (and name `name`, when
    * one is given). */
  predicate InFileFunction(g: GraphState, fs: seq<FuncId>, file: string, name: Option<string>, l: LineId)
  {
    exists k | 0 <= k < |fs| ::
      FuncOf(g, fs[k]).file == file && (name.Some? ==> FuncOf(g, fs[k]).name == name.value) &&
      l in FuncOf(g, fs[k]).lines
  }

  /** The result is all the matching lines of the first function of the file
    * that has one, and it is empty exactly when no function of the file has
    * a line with that number. */
  lemma {:induction false} LinesGivenLineCorrect(g: GraphState, fs: seq<FuncId>, lineNo: int, fileName: string)
    ensures var r := LinesGivenLineIn(g, fs, lineNo, fileName);
      (r != [] ==> exists k | 0 <= k < |fs| ::
         r == FileLines(g, fs[k], lineNo, fileName) && forall j | 0 <= j < k :: FileLines(g, fs[j], lineNo, fileName) == []) &&
      (r == [] <==> forall l | InFileFunction(g, fs, fileName, None, l) :: NumberOf(g, l, g.version) != lineNo)
  {
    LinesGivenLineFirst(g, fs, lineNo, fileName);
    LinesGivenLineEmpty(g, fs, lineNo, fileName);
  }

  lemma {:induction false} LinesGivenLineFirst(g: GraphState, fs: seq<FuncId>, lineNo: int, fileName: string)
    ensures var r := LinesGivenLineIn(g, fs, lineNo, fileName);
      r != [] ==> exists k | 0 <= k < |fs| ::
        r == FileLines(g, fs[k], lineNo, fileName) && forall j | 0 <= j < k :: FileLines(g, fs[j], lineNo, fileName) == []
    decreases |fs|
  {
    if fs != [] {
      var r := LinesGivenLineIn(g, fs, lineNo, fileName);
      if FileLines(g, fs[0], lineNo, fileName) != [] {
        assert r == FileLines(g, fs[0], lineNo, fileName);
      } else {
        LinesGivenLineFirst(g, fs[1..], lineNo, fileName);
        var rest := LinesGivenLineIn(g, fs[1..], lineNo, fileName);
        if rest != [] {
          var k :| 0 <= k < |fs[1..]| && rest == FileLines(g, fs[1..][k], lineNo, fileName) &&
            forall j | 0 <= j < k :: FileLines(g, fs[1..][j], lineNo, fileName) == [];
          assert fs[1..][k] == fs[k + 1];
          forall j | 0 <= j < k + 1 ensures FileLines(g, fs[j], lineNo, fileName) == [] {
            if j > 0 {
              assert fs[1..][j - 1] == fs[j];
            }
          }
          assert r == FileLines(g, fs[k + 1], lineNo, fileName);
        }
      }
    }
  }

  lemma {:induction false} LinesGivenLineEmpty(g: GraphState, fs: seq<FuncId>, lineNo: int, fileName: string)
    ensures LinesGivenLineIn(g, fs, lineNo, fileName) == [] <==>
      forall l | InFileFunction(g, fs, fileName, None, l) :: NumberOf(g, l, g.version) != lineNo
    decreases |fs|
  {
    if fs != [] {
      if FileLines(g, fs[0], lineNo, fileName) != [] {
        var l := FileLines(g, fs[0], lineNo, fileName)[0];
        assert InFileFunction(g, fs, fileName, None, l);
      } else {
        LinesGivenLineEmpty(g, fs[1..], lineNo, fileName);
        forall l | InFileFunction(g, fs[1..], fileName, None, l) ensures InFileFunction(g, fs, fileName, None, l) {
          var k :| 0 <= k < |fs[1..]| && FuncOf(g, fs[1..][k]).file == fileName && l in FuncOf(g, fs[1..][k]).lines;
          assert fs[1..][k] == fs[k + 1];
        }
        forall l | InFileFunction(g, fs, fileName, None, l) && NumberOf(g, l, g.version) == lineNo
          ensures InFileFunction(g, fs[1..], fileName, None, l)
        {
          var k :| 0 <= k < |fs| && FuncOf(g, fs[k]).file == fileName && l in FuncOf(g, fs[k]).lines;
          if k == 0 {
            assert false;
          }
          assert fs[1..][k - 1] == fs[k];
        }
      }
    }
  }

  /** getGraphLinesGivenLine is empty exactly when no line of the file has the
    * number, and otherwise every line it returns has it. */
  lemma GraphLinesGivenLineCorrect(g: GraphState, lineNo: int, fileName: string)
    ensures var r := GraphLinesGivenLine(g, lineNo, fileName);
      (r == [] <==> forall l | InFileFunction(g, g.functions, fileName, None, l) :: NumberOf(g, l, g.version) != lineNo) &&
      (forall l | l in r :: InFileFunction(g, g.functions, fileName, None, l) && NumberOf(g, l, g.version) == lineNo)
  {
    LinesGivenLineCorrect(g, g.functions, lineNo, fileName);
    var r := GraphLinesGivenLine(g, lineNo, fileName);
    if r != [] {
      var k :| 0 <= k < |g.functions| && r == FileLines(g, g.functions[k], lineNo, fileName) &&
        forall j | 0 <= j < k :: FileLines(g, g.functions[j], lineNo, fileName) == [];
      forall l | l in r ensures InFileFunction(g, g.functions, fileName, None, l) && NumberOf(g, l, g.version) == lineNo {
        assert FuncOf(g, g.functions[k]).file == fileName;
      }
    }
  }

  // ---- getPredGivenGraphLine / getSuccGivenGraphLine -----------------------

  /** The line at the other end of edge `e`, seen from instruction `at`: the
    * from-instruction's line for an edge into `at` (when `into`), the
    * to-instruction's line for an edge out of `at` (otherwise). */
  function OtherEnd(g: GraphState, e: EdgeId, at: InstId, into: bool): Option<LineId>
  {
    if into then (if EdgeOf(g, e).to == at then InstOf(g, EdgeOf(g, e).from).line else None)
    else (if EdgeOf(g, e).from == at then InstOf(g, EdgeOf(g, e).to).line else None)
  }

  function OtherEnds(g: GraphState, es: seq<EdgeId>, at: InstId, into: bool): (r: seq<LineId>)
    ensures |r| <= |es|
    ensures forall x :: x in r <==> exists e | e in es :: OtherEnd(g, e, at, into) == Some(x)
    decreases |es|
  {
    if es == [] then []
    else
      var head := match OtherEnd(g, es[0], at, into) case Some(x) => [x] case None => [];
      var tail := OtherEnds(g, es[1..], at, into);
      assert forall e | e in es :: e == es[0] || e in es[1..];
      head + tail
  }

  /** getPredGivenGraphLine: for each edge of the line's first instruction
    * that leads into it, the line of the edge's source, in edge order. */
  function PredLines(g: GraphState, l: LineId): seq<LineId>
  {
    var ins := LineOf(g, l).instructions;
    if ins == [] then [] else OtherEnds(g, InstOf(g, ins[0]).edges, ins[0], true)
  }

  /** getSuccGivenGraphLine: for each edge of the line's last instruction
    * that leads out of it, the line of the edge's target, in edge order. */
  function SuccLines(g: GraphState, l: LineId): seq<LineId>
  {
    var ins := LineOf(g, l).instructions;
    if ins == [] then [] else OtherEnds(g, InstOf(g, ins[|ins| - 1]).edges, ins[|ins| - 1], false)
  }

  /** A predecessor is exactly the line of the source of an edge, listed at
    * the line's first instruction, that ends at that instruction. */
  lemma PredLinesAre(g: GraphState, l: LineId, x: LineId)
    requires LineOf(g, l).instructions != []
    ensures var front := LineOf(g, l).instructions[0];
      x in PredLines(g, l) <==>
      exists e | e in InstOf(g, front).edges :: EdgeOf(g, e).to == front && InstOf(g, EdgeOf(g, e).from).line == Some(x)
  {
    var front := LineOf(g, l).instructions[0];
    if x in PredLines(g, l) {
      var e :| e in InstOf(g, front).edges && OtherEnd(g, e, front, true) == Some(x);
      assert EdgeOf(g, e).to == front;
    }
    if exists e | e in InstOf(g, front).edges :: EdgeOf(g, e).to == front && InstOf(g, EdgeOf(g, e).from).line == Some(x) {
      var e :| e in InstOf(g, front).edges && EdgeOf(g, e).to == front && InstOf(g, EdgeOf(g, e).from).line == Some(x);
      assert OtherEnd(g, e, front, true) == Some(x);
    }
  }

  /** A successor is exactly the line of the target of an edge, listed at
    * the line's last instruction, that starts at that instruction. */
  lemma SuccLinesAre(g: GraphState, l: LineId, x: LineId)
    requires LineOf(g, l).instructions != []
    ensures var ins := LineOf(g, l).instructions; var back := ins[|ins| - 1];
      x in SuccLines(g, l) <==>
      exists e | e in InstOf(g, back).edges :: EdgeOf(g, e).from == back && InstOf(g, EdgeOf(g, e).to).line == Some(x)
  {
    var ins := LineOf(g, l).instructions;
    var back := ins[|ins| - 1];
    if x in SuccLines(g, l) {
      var e :| e in InstOf(g, back).edges && OtherEnd(g, e, back, false) == Some(x);
      assert EdgeOf(g, e).from == back;
    }
    if exists e | e in InstOf(g, back).edges :: EdgeOf(g, e).from == back && InstOf(g, EdgeOf(g, e).to).line == Some(x) {
      var e :| e in InstOf(g, back).edges && EdgeOf(g, e).from == back && InstOf(g, EdgeOf(g, e).to).line == Some(x);
      assert OtherEnd(g, e, back, false) == Some(x);
    }
  }

  // ---- getGraphLineInstructionsAsString -----------------------------------

  /** The opcode names of the instructions that have an LLVM instruction, in
    * order. */
  function Opcodes(g: GraphState, ins: seq<InstId>): (r: seq<string>)
    ensures |r| <= |ins|
    ensures r == [] <==> forall i | i in ins :: InstOf(g, i).ptr.None?
    ensures (forall i | i in ins && InstOf(g, i).ptr.Some? :: InstOf(g, i).ptr.value.opcodeName != "") ==>
              forall k | 0 <= k < |r| :: r[k] != ""
    decreases |ins|
  {
    if ins == [] then []
    else
      var head := match InstOf(g, ins[0]).ptr case Some(p) => [p.opcodeName] case None => [];
      var tail := Opcodes(g, ins[1..]);
      assert forall i | i in ins :: i == ins[0] || i in ins[1..];
      assert forall k | 0 <= k < |tail| :: (head + tail)[|head| + k] == tail[k];
      head + tail
  }

  /** Each name followed by one space, as the loop appends them. */
  function Spaced(names: seq<string>): string
    decreases |names|
  {
    if names == [] then "" else Spaced(names[..|names| - 1]) + names[|names| - 1] + " "
  }

  /** getGraphLineInstructionsAsString: the spaced names with the trailing
    * space popped. */
  function LineInstructionsAsString(g: GraphState, l: LineId): string
  {
    var s := Spaced(Opcodes(g, LineOf(g, l).instructions));
    if s != [] then s[..|s| - 1] else s
  }

  /** The names joined by single spaces. */
  function JoinSpaced(names: seq<string>): string
    decreases |names|
  {
    if names == [] then ""
    else if |names| == 1 then names[0]
    else JoinSpaced(names[..|names| - 1]) + " " + names[|names| - 1]
  }

  lemma {:induction false} SpacedIsJoin(names: seq<string>)
    requires names != []
    ensures Spaced(names) == JoinSpaced(names) + " "
    decreases |names|
  {
    var init := names[..|names| - 1];
    if |names| > 1 {
      SpacedIsJoin(init);
    } else {
      assert init == [];
    }
  }

  lemma {:induction false} JoinSpacedNonEmpty(names: seq<string>)
    requires names != [] && forall k | 0 <= k < |names| :: names[k] != ""
    ensures JoinSpaced(names) != ""
    decreases |names|
  {
  }

  /** The string of a line is its opcode names joined by single spaces; it is
    * empty when no instruction has an LLVM instruction, and (opcode names
    * being non-empty) only then. */
  lemma LineStringIsJoin(g: GraphState, l: LineId)
    ensures var ins := LineOf(g, l).instructions;
      LineInstructionsAsString(g, l) == JoinSpaced(Opcodes(g, ins)) &&
      ((forall i | i in ins :: InstOf(g, i).ptr.None?) ==> LineInstructionsAsString(g, l) == "") &&
      ((forall i | i in ins && InstOf(g, i).ptr.Some? :: InstOf(g, i).ptr.value.opcodeName != "") ==>
         (LineInstructionsAsString(g, l) == "" <==> forall i | i in ins :: InstOf(g, i).ptr.None?))
  {
    var names := Opcodes(g, LineOf(g, l).instructions);
    if names != [] {
      SpacedIsJoin(names);
      var s := Spaced(names);
      assert s[..|s| - 1] == JoinSpaced(names);
      if forall k | 0 <= k < |names| :: names[k] != "" {
        JoinSpacedNonEmpty(names);
      }
    }
  }

  // ---- resolveMatchedLinesWithNoExtactStringMatch -------------------------

  /** The characters boost::trim removes: the C locale's white space. */
  predicate IsSpace(c: char)
  {
    c == ' ' || c == '\t' || c == '\n' || c == '\r' || c == '\U{000B}' || c == '\U{000C}'
  }

  function TrimLeft(s: string): (r: string)
    ensures |r| <= |s| && r == s[|s| - |r|..]
    ensures r == [] || !IsSpace(r[0])
    ensures forall k | 0 <= k < |s| - |r| :: IsSpace(s[k])
    decreases |s|
  {
    if s != [] && IsSpace(s[0]) then TrimLeft(s[1..]) else s
  }

  function TrimRight(s: string): (r: string)
    ensures |r| <= |s| && r == s[..|r|]
    ensures r == [] || !IsSpace(r[|r| - 1])
    ensures forall k | |r| <= k < |s| :: IsSpace(s[k])
    decreases |s|
  {
    if s != [] && IsSpace(s[|s| - 1]) then TrimRight(s[..|s| - 1]) else s
  }

  /** boost::trim */
  function Trim(s: string): string
  {
    TrimRight(TrimLeft(s))
  }

  /** The number of opcodes left in candidate `l` once the first occurrence
    * of the query string `q` is erased and the rest trimmed: 0 for nothing
    * left, else one more than the spaces. */
  function Remaining(g: GraphState, l: LineId, q: string): nat
  {
    RemainingIn(LineInstructionsAsString(g, l), q)
  }

  /** The count for opcode string `s`. */
  function RemainingIn(s: string, q: string): nat
  {
    var rest := match Find(s, q) case Some(p) => Trim(s[..p] + s[p + |q|..]) case None => s;
    if rest == "" then 0 else 1 + CountChar(rest, ' ')
  }

  /** The count of each candidate, in order. */
  function Counts(g: GraphState, ms: seq<LineId>, q: string): (r: seq<nat>)
    ensures |r| == |ms| && forall j | 0 <= j < |ms| :: r[j] == Remaining(g, ms[j], q)
  {
    seq(|ms|, j requires 0 <= j < |ms| => Remaining(g, ms[j], q))
  }

  /** The loop of the resolver over the candidates `ms` with counts `cs`,
    * carrying the best count so far and its line. */
  function ResolveFrom(ms: seq<LineId>, cs: seq<nat>, best: Option<(LineId, nat)>): Option<LineId>
    requires |cs| == |ms|
    decreases |ms|
  {
    if ms == [] then (match best case Some(b) => Some(b.0) case None => None)
    else if best.None? || cs[0] < best.value.1 then ResolveFrom(ms[1..], cs[1..], Some((ms[0], cs[0])))
    else ResolveFrom(ms[1..], cs[1..], best)
  }

  /** resolveMatchedLinesWithNoExtactStringMatch */
  function ResolveMatched(g: GraphState, ms: seq<LineId>, q: string): Option<LineId>
  {
    ResolveFrom(ms, Counts(g, ms, q), None)
  }

  /** `cs[k]` is the smallest count, and every earlier count is larger. */
  predicate FirstFewest(cs: seq<nat>, k: int)
  {
    0 <= k < |cs| && (forall j | 0 <= j < |cs| :: cs[j] >= cs[k]) && (forall j | 0 <= j < k :: cs[j] > cs[k])
  }

  /** A best count no candidate beats is kept to the end. */
  lemma {:induction false} ResolveKeeps(ms: seq<LineId>, cs: seq<nat>, b: LineId, c: nat)
    requires |cs| == |ms| && forall j | 0 <= j < |cs| :: cs[j] >= c
    ensures ResolveFrom(ms, cs, Some((b, c))) == Some(b)
    decreases |ms|
  {
    if ms != [] {
      assert forall j | 0 <= j < |cs[1..]| :: cs[1..][j] == cs[j + 1];
      ResolveKeeps(ms[1..], cs[1..], b, c);
    }
  }

  lemma FirstFewestCons(cs: seq<nat>, k: int)
    requires cs != [] && FirstFewest(cs[1..], k) && cs[0] > cs[1..][k]
    ensures FirstFewest(cs, k + 1)
  {
    assert forall j | 1 <= j < |cs| :: cs[j] == cs[1..][j - 1];
  }

  /** When some count beats the best so far (or there is no best yet), the
    * loop ends on the first candidate with the fewest opcodes. */
  lemma {:induction false} ResolveFinds(ms: seq<LineId>, cs: seq<nat>, best: Option<(LineId, nat)>)
    requires |cs| == |ms|
    requires (best.None? && ms != []) || (best.Some? && exists j | 0 <= j < |cs| :: cs[j] < best.value.1)
    ensures exists k :: FirstFewest(cs, k) && ResolveFrom(ms, cs, best) == Some(ms[k]) &&
              (best.Some? ==> cs[k] < best.value.1)
    decreases |ms|
  {
    var tail, ct := ms[1..], cs[1..];
    assert forall j | 1 <= j < |cs| :: cs[j] == ct[j - 1];
    if best.None? || cs[0] < best.value.1 {
      if exists j | 0 <= j < |ct| :: ct[j] < cs[0] {
        ResolveFinds(tail, ct, Some((ms[0], cs[0])));
        var k :| FirstFewest(ct, k) && ResolveFrom(tail, ct, Some((ms[0], cs[0]))) == Some(tail[k]) && ct[k] < cs[0];
        FirstFewestCons(cs, k);
      } else {
        ResolveKeeps(tail, ct, ms[0], cs[0]);
        assert FirstFewest(cs, 0);
      }
    } else {
      var j :| 0 <= j < |cs| && cs[j] < best.value.1;
      assert j != 0 && ct[j - 1] == cs[j];
      ResolveFinds(tail, ct, best);
      var k :| FirstFewest(ct, k) && ResolveFrom(tail, ct, best) == Some(tail[k]) && ct[k] < best.value.1;
      FirstFewestCons(cs, k);
    }
  }

  /** The resolver picks the first candidate with the fewest remaining
    * opcodes (ties keep the earliest). For an empty list the source
    * dereferences NULL; the model answers None there. Its only caller passes
    * two or more candidates. */
  lemma ResolveMatchedPicks(g: GraphState, ms: seq<LineId>, q: string)
    ensures ResolveMatched(g, ms, q).None? <==> ms == []
    ensures ms != [] ==> exists k | 0 <= k < |ms| ::
      ResolveMatched(g, ms, q) == Some(ms[k]) && FirstFewest(Counts(g, ms, q), k)
  {
    if ms != [] {
      var cs := Counts(g, ms, q);
      ResolveFinds(ms, cs, None);
      var k :| FirstFewest(cs, k) && ResolveFrom(ms, cs, None) == Some(ms[k]);
      assert ResolveMatched(g, ms, q) == Some(ms[k]);
    }
  }

  // ---- findMatchedLine ----------------------------------------------------

  /** The number under which `t`, a line of matchFrom, is looked for in
    * matchTo; UINT_MAX when there is nothing to look for. Virtual nodes keep
    * their sentinel number; towards a later version a line numbered 0 uses
    * its own number at that version and others go through
    * getAfterLineNumber; towards an earlier version getBeforeLineNumber is
    * used and a deleted line (0) becomes UINT_MAX. */
  function TranslatedLine(matchTo: GraphState, matchFrom: GraphState, t: LineId, diff: MappingState): (r: nat)
    ensures IsVirtualNumber(matchFrom, NumberOf(matchFrom, t, matchFrom.version)) ==>
              r == NumberOf(matchFrom, t, matchFrom.version)
    ensures !IsVirtualNumber(matchFrom, NumberOf(matchFrom, t, matchFrom.version)) && matchTo.version <= matchFrom.version ==>
              r != 0 && (r == UINT_MAX || r == BeforeLineOf(diff.lineMap, NumberOf(matchFrom, t, matchFrom.version)) % UINT_RANGE)
  {
    var lineFrom := NumberOf(matchFrom, t, matchFrom.version);
    if IsVirtualNumber(matchFrom, lineFrom) then lineFrom
    else if matchTo.version > matchFrom.version then
      (if lineFrom == 0 then NumberOf(matchFrom, t, matchTo.version) else ToUnsigned(AfterLineOf(diff.lineMap, lineFrom)))
    else
      var before := ToUnsigned(BeforeLineOf(diff.lineMap, lineFrom));
      if before == 0 then UINT_MAX else before
  }

  /** The first line of `ls` whose opcode string is `s`. */
  function FirstWithString(g: GraphState, ls: seq<LineId>, s: string): (r: Option<LineId>)
    ensures r.Some? ==> r.value in ls
    decreases |ls|
  {
    if ls == [] then None
    else if LineInstructionsAsString(g, ls[0]) == s then Some(ls[0])
    else FirstWithString(g, ls[1..], s)
  }

  /** The line found is the first whose opcode string is `s`; none is found
    * only when no line has it. */
  lemma {:induction false} FirstWithStringFinds(g: GraphState, ls: seq<LineId>, s: string)
    ensures var r := FirstWithString(g, ls, s);
      (r.Some? ==> exists k | 0 <= k < |ls| :: ls[k] == r.value && LineInstructionsAsString(g, ls[k]) == s &&
                     forall j | 0 <= j < k :: LineInstructionsAsString(g, ls[j]) != s) &&
      (r.None? ==> forall k | 0 <= k < |ls| :: LineInstructionsAsString(g, ls[k]) != s)
    decreases |ls|
  {
    if ls != [] && LineInstructionsAsString(g, ls[0]) != s {
      var t := ls[1..];
      FirstWithStringFinds(g, t, s);
      var r := FirstWithString(g, t, s);
      assert FirstWithString(g, ls, s) == r;
      if r.Some? {
        var k :| 0 <= k < |t| && t[k] == r.value && LineInstructionsAsString(g, t[k]) == s &&
                  forall j | 0 <= j < k :: LineInstructionsAsString(g, t[j]) != s;
        assert ls[k + 1] == t[k];
        forall j | 0 <= j < k + 1 ensures LineInstructionsAsString(g, ls[j]) != s {
          if j > 0 {
            assert ls[j] == t[j - 1];
          }
        }
      } else {
        forall j | 0 <= j < |ls| ensures LineInstructionsAsString(g, ls[j]) != s {
          if j > 0 {
            assert ls[j] == t[j - 1];
          }
        }
      }
    }
  }

  /** The choice among the candidates of one function: the first whose
    * opcode string equals that of `t`, else the sole candidate, else the
    * heuristic pick. */
  function Pick(g: GraphState, cands: seq<LineId>, q: string): (r: Option<LineId>)
    ensures r.Some? ==> r.value in cands
    ensures cands != [] ==> r.Some?
    ensures (exists k | 0 <= k < |cands| :: LineInstructionsAsString(g, cands[k]) == q) ==>
              r == FirstWithString(g, cands, q) && LineInstructionsAsString(g, r.value) == q
    ensures (forall k | 0 <= k < |cands| :: LineInstructionsAsString(g, cands[k]) != q) && |cands| == 1 ==>
              r == Some(cands[0])
  {
    FirstWithStringFinds(g, cands, q);
    match FirstWithString(g, cands, q)
    case Some(l) => Some(l)
    case None =>
      if cands == [] then None
      else if |cands| == 1 then Some(cands[0])
      else
        ResolveMatchedPicks(g, cands, q);
        ResolveMatched(g, cands, q)
  }

  /** The candidates of registered function `f` for number `lineTo`: none
    * unless it has the given file and name. */
  function Candidates(g: GraphState, f: FuncId, file: string, name: string, lineTo: nat): seq<LineId>
  {
    if FuncOf(g, f).file == file && FuncOf(g, f).name == name then NumberedLines(g, FuncOf(g, f).lines, g.version, lineTo)
    else []
  }

  /** The loop over matchTo's functions: the first function with candidates
    * decides. */
  function PickIn(g: GraphState, fs: seq<FuncId>, file: string, name: string, lineTo: nat, q: string): (r: Option<LineId>)
    ensures r.Some? ==> InFileFunction(g, fs, file, Some(name), r.value) && NumberOf(g, r.value, g.version) == lineTo
    ensures r.None? <==> forall l | InFileFunction(g, fs, file, Some(name), l) :: NumberOf(g, l, g.version) != lineTo
    decreases |fs|
  {
    if fs == [] then None
    else
      var cands := Candidates(g, fs[0], file, name, lineTo);
      if cands != [] then
        var r := Pick(g, cands, q);
        assert InFileFunction(g, fs, file, Some(name), r.value);
        r
      else
        var r := PickIn(g, fs[1..], file, name, lineTo, q);
        assert forall l | InFileFunction(g, fs[1..], file, Some(name), l) :: InFileFunction(g, fs, file, Some(name), l) by {
          forall l | InFileFunction(g, fs[1..], file, Some(name), l) ensures InFileFunction(g, fs, file, Some(name), l) {
            var k :| 0 <= k < |fs[1..]| && FuncOf(g, fs[1..][k]).file == file && FuncOf(g, fs[1..][k]).name == name &&
              l in FuncOf(g, fs[1..][k]).lines;
            assert fs[1..][k] == fs[k + 1];
          }
        }
        assert forall l | InFileFunction(g, fs, file, Some(name), l) && NumberOf(g, l, g.version) == lineTo ::
          InFileFunction(g, fs[1..], file, Some(name), l) by {
          forall l | InFileFunction(g, fs, file, Some(name), l) && NumberOf(g, l, g.version) == lineTo
            ensures InFileFunction(g, fs[1..], file, Some(name), l) {
            var k :| 0 <= k < |fs| && FuncOf(g, fs[k]).file == file && FuncOf(g, fs[k]).name == name &&
              l in FuncOf(g, fs[k]).lines;
            assert k != 0;
            assert fs[1..][k - 1] == fs[k];
          }
        }
        r
  }

  /** findMatchedLine: the line of matchTo corresponding to line `t` of
    * matchFrom, through the diff of t's file. */
  function FindMatchedLine(matchTo: GraphState, matchFrom: GraphState, t: LineId, diff: MappingState): (r: Option<LineId>)
    ensures diff.fileName != FileOf(matchFrom, t) ==> r.None?
    ensures r.Some? ==>
      TranslatedLine(matchTo, matchFrom, t, diff) != UINT_MAX &&
      InFileFunction(matchTo, matchTo.functions, FileOf(matchFrom, t), Some(FuncNameOf(matchFrom, t)), r.value) &&
      NumberOf(matchTo, r.value, matchTo.version) == TranslatedLine(matchTo, matchFrom, t, diff)
    ensures r.None? && diff.fileName == FileOf(matchFrom, t) && TranslatedLine(matchTo, matchFrom, t, diff) != UINT_MAX ==>
      forall l | InFileFunction(matchTo, matchTo.functions, FileOf(matchFrom, t), Some(FuncNameOf(matchFrom, t)), l) ::
        NumberOf(matchTo, l, matchTo.version) != TranslatedLine(matchTo, matchFrom, t, diff)
  {
    if diff.fileName != FileOf(matchFrom, t) then None
    else
      var lineTo := TranslatedLine(matchTo, matchFrom, t, diff);
      if lineTo == UINT_MAX then None
      else PickIn(matchTo, matchTo.functions, FileOf(matchFrom, t), FuncNameOf(matchFrom, t), lineTo,
                  LineInstructionsAsString(matchFrom, t))
  }

  /** The position in `fs` of the first function with candidates, |fs| when
    * there is none. */
  function FirstWithCandidates(g: GraphState, fs: seq<FuncId>, file: string, name: string, lineTo: nat): (k: nat)
    ensures k <= |fs|
    ensures forall j | 0 <= j < k :: Candidates(g, fs[j], file, name, lineTo) == []
    ensures k < |fs| ==> Candidates(g, fs[k], file, name, lineTo) != []
    decreases |fs|
  {
    if fs == [] then 0
    else if Candidates(g, fs[0], file, name, lineTo) != [] then 0
    else
      var k := 1 + FirstWithCandidates(g, fs[1..], file, name, lineTo);
      assert forall j | 1 <= j < |fs| :: fs[j] == fs[1..][j - 1];
      k
  }

  /** The first function of t's file and name that has lines with the
    * translated number decides, with Pick: an exact opcode-string match
    * first, then a sole candidate, then the heuristic pick. */
  lemma {:induction false} PickInOrder(g: GraphState, fs: seq<FuncId>, file: string, name: string, lineTo: nat, q: string)
    ensures var k := FirstWithCandidates(g, fs, file, name, lineTo);
      PickIn(g, fs, file, name, lineTo, q) ==
        if k < |fs| then Pick(g, Candidates(g, fs[k], file, name, lineTo), q) else None
    decreases |fs|
  {
    if fs != [] && Candidates(g, fs[0], file, name, lineTo) == [] {
      var tail := fs[1..];
      PickInOrder(g, tail, file, name, lineTo, q);
      assert PickIn(g, fs, file, name, lineTo, q) == PickIn(g, tail, file, name, lineTo, q);
      var k := FirstWithCandidates(g, tail, file, name, lineTo);
      assert FirstWithCandidates(g, fs, file, name, lineTo) == k + 1;
      if k < |tail| {
        assert tail[k] == fs[k + 1];
      }
    }
  }

  // ---- getEdge / getInBetweenEdge -----------------------------------------

  /** Edge `e` goes from `from` to `to` and has type `t` (any type, for Any). */
  predicate EdgeFits(g: GraphState, e: EdgeId, from: InstId, to: InstId, t: EdgeType)
  {
    EdgeOf(g, e).from == from && EdgeOf(g, e).to == to && (t == EdgeOf(g, e).edgeType || t == Any)
  }

  function FirstFitting(g: GraphState, es: seq<EdgeId>, from: InstId, to: InstId, t: EdgeType): (r: Option<EdgeId>)
    ensures r.Some? ==> exists k | 0 <= k < |es| :: es[k] == r.value && EdgeFits(g, es[k], from, to, t) &&
                          forall j | 0 <= j < k :: !EdgeFits(g, es[j], from, to, t)
    ensures r.None? ==> forall k | 0 <= k < |es| :: !EdgeFits(g, es[k], from, to, t)
    decreases |es|
  {
    if es == [] then None
    else if EdgeFits(g, es[0], from, to, t) then Some(es[0])
    else
      var r := FirstFitting(g, es[1..], from, to, t);
      assert forall k | 1 <= k < |es| :: es[k] == es[1..][k - 1];
      r
  }

  /** getEdge: the first edge of the from-instruction's list that goes from
    * `from` to `to` with type `t` (or any type, for Any); NULL when none
    * does. */
  function GetEdge(g: GraphState, from: InstId, to: InstId, t: EdgeType): (r: Option<EdgeId>)
    ensures r.Some? ==> r.value in InstOf(g, from).edges && EdgeOf(g, r.value).from == from && EdgeOf(g, r.value).to == to &&
                          (t != Any ==> EdgeOf(g, r.value).edgeType == t)
    ensures r.None? ==> forall e | e in InstOf(g, from).edges :: !EdgeFits(g, e, from, to, t)
  {
    FirstFitting(g, InstOf(g, from).edges, from, to, t)
  }

  /** The first edge from `fi` to any of `tis`, trying `tis` in order. */
  function EdgeToAny(g: GraphState, fi: InstId, tis: seq<InstId>): Option<EdgeId>
    decreases |tis|
  {
    if tis == [] then None
    else match GetEdge(g, fi, tis[0], Any)
      case Some(e) => Some(e)
      case None => EdgeToAny(g, fi, tis[1..])
  }

  /** The loop over fromLine's instructions, from the last one backwards. */
  function InBetweenFrom(g: GraphState, fis: seq<InstId>, tis: seq<InstId>): Option<EdgeId>
    decreases |fis|
  {
    if fis == [] then None
    else match EdgeToAny(g, fis[|fis| - 1], tis)
      case Some(e) => Some(e)
      case None => InBetweenFrom(g, fis[..|fis| - 1], tis)
  }

  /** getInBetweenEdge */
  function GetInBetweenEdge(g: GraphState, fromLine: LineId, toLine: LineId): Option<EdgeId>
  {
    InBetweenFrom(g, LineOf(g, fromLine).instructions, LineOf(g, toLine).instructions)
  }

  lemma {:induction false} EdgeToAnyIs(g: GraphState, fi: InstId, tis: seq<InstId>)
    ensures var r := EdgeToAny(g, fi, tis);
      (r.Some? ==> exists ti | ti in tis :: GetEdge(g, fi, ti, Any) == r) &&
      (r.None? ==> forall ti | ti in tis :: GetEdge(g, fi, ti, Any).None?)
    decreases |tis|
  {
    if tis != [] && GetEdge(g, fi, tis[0], Any).None? {
      EdgeToAnyIs(g, fi, tis[1..]);
      assert forall ti | ti in tis :: ti == tis[0] || ti in tis[1..];
    }
  }

  lemma {:induction false} InBetweenFromIs(g: GraphState, fis: seq<InstId>, tis: seq<InstId>)
    ensures var r := InBetweenFrom(g, fis, tis);
      (r.Some? ==> exists k | 0 <= k < |fis| :: EdgeToAny(g, fis[k], tis) == r &&
                     forall j | k < j < |fis| :: EdgeToAny(g, fis[j], tis).None?) &&
      (r.None? ==> forall k | 0 <= k < |fis| :: EdgeToAny(g, fis[k], tis).None?)
    decreases |fis|
  {
    if fis != [] && EdgeToAny(g, fis[|fis| - 1], tis).None? {
      var init := fis[..|fis| - 1];
      InBetweenFromIs(g, init, tis);
      assert forall k | 0 <= k < |init| :: fis[k] == init[k];
    }
  }

  /** getInBetweenEdge returns an edge between an instruction of fromLine
    * and one of toLine, found from the latest instruction of fromLine that
    * has one; NULL exactly when there is none. */
  lemma InBetweenEdgeIs(g: GraphState, fromLine: LineId, toLine: LineId)
    ensures var r := GetInBetweenEdge(g, fromLine, toLine);
      var fis, tis := LineOf(g, fromLine).instructions, LineOf(g, toLine).instructions;
      (r.Some? ==> exists k, ti | 0 <= k < |fis| && ti in tis ::
         r.value in InstOf(g, fis[k]).edges && EdgeOf(g, r.value).from == fis[k] && EdgeOf(g, r.value).to == ti &&
         forall j | k < j < |fis| :: EdgeToAny(g, fis[j], tis).None?) &&
      (r.None? <==> forall fi, ti | fi in fis && ti in tis :: GetEdge(g, fi, ti, Any).None?)
  {
    var r := GetInBetweenEdge(g, fromLine, toLine);
    var fis, tis := LineOf(g, fromLine).instructions, LineOf(g, toLine).instructions;
    InBetweenFromIs(g, fis, tis);
    if r.Some? {
      var k :| 0 <= k < |fis| && EdgeToAny(g, fis[k], tis) == r && forall j | k < j < |fis| :: EdgeToAny(g, fis[j], tis).None?;
      EdgeToAnyIs(g, fis[k], tis);
      var ti :| ti in tis && GetEdge(g, fis[k], ti, Any) == r;
      var fi := fis[k];
      assert GetEdge(g, fi, ti, Any).Some?;
    } else {
      forall fi, ti | fi in fis && ti in tis ensures GetEdge(g, fi, ti, Any).None? {
        var k :| 0 <= k < |fis| && fis[k] == fi;
        EdgeToAnyIs(g, fis[k], tis);
      }
    }
  }

  // ---- getNewlyAdded ------------------------------------------------------

  /** The first line of `ls` numbered `n` at version `v`. */
  function FirstNumbered(g: GraphState, ls: seq<LineId>, v: nat, n: nat): (r: Option<LineId>)
    ensures r.Some? ==> r.value in ls && NumberOf(g, r.value, v) == n
    ensures r.None? ==> forall l | l in ls :: NumberOf(g, l, v) != n
    decreases |ls|
  {
    if ls == [] then None
    else if NumberOf(g, ls[0], v) == n then Some(ls[0])
    else FirstNumbered(g, ls[1..], v, n)
  }

  function FirstNumberedIn(g: GraphState, fs: seq<FuncId>, file: string, v: nat, n: nat): (r: Option<LineId>)
    ensures r.Some? ==> InFileFunction(g, fs, file, None, r.value) && NumberOf(g, r.value, v) == n
    ensures r.None? ==> forall l | InFileFunction(g, fs, file, None, l) :: NumberOf(g, l, v) != n
    decreases |fs|
  {
    if fs == [] then None
    else
      var here := if FuncOf(g, fs[0]).file == file then FirstNumbered(g, FuncOf(g, fs[0]).lines, v, n) else None;
      if here.Some? then
        assert InFileFunction(g, fs, file, None, here.value);
        here
      else
        var r := FirstNumberedIn(g, fs[1..], file, v, n);
        assert forall l | InFileFunction(g, fs[1..], file, None, l) :: InFileFunction(g, fs, file, None, l) by {
          forall l | InFileFunction(g, fs[1..], file, None, l) ensures InFileFunction(g, fs, file, None, l) {
            var k :| 0 <= k < |fs[1..]| && FuncOf(g, fs[1..][k]).file == file && l in FuncOf(g, fs[1..][k]).lines;
            assert fs[1..][k] == fs[k + 1];
          }
        }
        assert forall l | InFileFunction(g, fs, file, None, l) && NumberOf(g, l, v) == n :: InFileFunction(g, fs[1..], file, None, l) by {
          forall l | InFileFunction(g, fs, file, None, l) && NumberOf(g, l, v) == n ensures InFileFunction(g, fs[1..], file, None, l) {
            var k :| 0 <= k < |fs| && FuncOf(g, fs[k]).file == file && l in FuncOf(g, fs[k]).lines;
            assert k != 0;
            assert fs[1..][k - 1] == fs[k];
          }
        }
        r
  }

  /** getNewlyAdded: for a line of the ICFG whose number is an added line of
    * the diff, the first MVICFG line of the same file carrying that number
    * at the ICFG's version; NULL otherwise. */
  function GetNewlyAdded(mvicfg: GraphState, icfg: GraphState, newLine: LineId, diff: MappingState): (r: Option<LineId>)
    ensures var n := NumberOf(icfg, newLine, icfg.version);
      (r.Some? ==> n as int in diff.addedLines && InFileFunction(mvicfg, mvicfg.functions, FileOf(icfg, newLine), None, r.value) &&
                   NumberOf(mvicfg, r.value, icfg.version) == n) &&
      (r.None? ==> n as int !in diff.addedLines ||
                   forall l | InFileFunction(mvicfg, mvicfg.functions, FileOf(icfg, newLine), None, l) :: NumberOf(mvicfg, l, icfg.version) != n)
  {
    var n := NumberOf(icfg, newLine, icfg.version);
    if n as int in diff.addedLines then FirstNumberedIn(mvicfg, mvicfg.functions, FileOf(icfg, newLine), icfg.version, n)
    else None
  }

  // ---- getMatchedInstructionFromGraph -------------------------------------

  /** What instruction `inst` of graph `src` is looked for as in `target`: a
    * virtual node (no LLVM instruction) by its line number at target's
    * version, any other by its LLVM instruction. */
  function MatchKey(target: GraphState, src: GraphState, inst: InstId): Wanted
  {
    if InstOf(src, inst).ptr.None? then NumberedAs(InstNumber(src, inst, target.version), target.version)
    else PtrIs(InstOf(src, inst).ptr)
  }

  /** getMatchedInstructionFromGraph */
  function MatchedInstruction(target: GraphState, src: GraphState, inst: InstId): Option<InstId>
  {
    FindInFuncs(target, target.functions, None, MatchKey(target, src, inst))
  }

  /** The match is an instruction of a registered function of `target` with
    * the same LLVM instruction (for a virtual node, whose line has the same
    * number at target's version); there is none only when no instruction of
    * target's functions has it. */
  lemma MatchedInstructionFinds(target: GraphState, src: GraphState, inst: InstId)
    ensures var r := MatchedInstruction(target, src, inst); var i := InstOf(src, inst);
      (r.Some? ==> InFunctions(target, target.functions, None, r.value) &&
                   (i.ptr.Some? ==> InstOf(target, r.value).ptr == i.ptr) &&
                   (i.ptr.None? ==> InstNumber(target, r.value, target.version) == InstNumber(src, inst, target.version))) &&
      (r.None? ==> forall j | InFunctions(target, target.functions, None, j) :: !Matches(target, j, MatchKey(target, src, inst)))
  {
    FindInFuncsCorrect(target, target.functions, None, MatchKey(target, src, inst));
  }

  // ---- Lookups do not read edge versions -----------------------------------

  /** `h` is `g` with versions added to or removed from its edges: every
    * other field, and every edge's endpoints and type, are as in `g`. */
  predicate OnlyVersionsDiffer(g: GraphState, h: GraphState)
  {
    h.(edges := g.edges) == g && |h.edges| == |g.edges| &&
    forall k | 0 <= k < |g.edges| :: h.edges[k].(versions := g.edges[k].versions) == g.edges[k]
  }

  lemma {:induction false} NumberedLinesSame(g: GraphState, h: GraphState, ls: seq<LineId>, v: nat, n: int)
    requires OnlyVersionsDiffer(g, h)
    ensures NumberedLines(h, ls, v, n) == NumberedLines(g, ls, v, n)
    decreases |ls|
  {
    if ls != [] {
      NumberedLinesSame(g, h, ls[1..], v, n);
    }
  }

  lemma {:induction false} LinesGivenLineInSame(g: GraphState, h: GraphState, fs: seq<FuncId>, lineNo: int, fileName: string)
    requires OnlyVersionsDiffer(g, h)
    ensures LinesGivenLineIn(h, fs, lineNo, fileName) == LinesGivenLineIn(g, fs, lineNo, fileName)
    decreases |fs|
  {
    if fs != [] {
      NumberedLinesSame(g, h, FuncOf(g, fs[0]).lines, g.version, lineNo);
      LinesGivenLineInSame(g, h, fs[1..], lineNo, fileName);
    }
  }

  /** getGraphLinesGivenLine does not depend on edge versions. */
  lemma GraphLinesGivenLineSame(g: GraphState, h: GraphState, lineNo: int, fileName: string)
    requires OnlyVersionsDiffer(g, h)
    ensures GraphLinesGivenLine(h, lineNo, fileName) == GraphLinesGivenLine(g, lineNo, fileName)
  {
    LinesGivenLineInSame(g, h, g.functions, lineNo, fileName);
  }

  lemma {:induction false} OpcodesSame(g: GraphState, h: GraphState, ins: seq<InstId>)
    requires OnlyVersionsDiffer(g, h)
    ensures Opcodes(h, ins) == Opcodes(g, ins)
    decreases |ins|
  {
    if ins != [] {
      OpcodesSame(g, h, ins[1..]);
    }
  }

  lemma LineStringSame(g: GraphState, h: GraphState, l: LineId)
    requires OnlyVersionsDiffer(g, h)
    ensures LineInstructionsAsString(h, l) == LineInstructionsAsString(g, l)
  {
    OpcodesSame(g, h, LineOf(g, l).instructions);
  }

  lemma {:induction false} FirstWithStringSame(g: GraphState, h: GraphState, ls: seq<LineId>, s: string)
    requires OnlyVersionsDiffer(g, h)
    ensures FirstWithString(h, ls, s) == FirstWithString(g, ls, s)
    decreases |ls|
  {
    if ls != [] {
      LineStringSame(g, h, ls[0]);
      FirstWithStringSame(g, h, ls[1..], s);
    }
  }

  lemma RemainingSame(g: GraphState, h: GraphState, l: LineId, q: string)
    requires OnlyVersionsDiffer(g, h)
    ensures Remaining(h, l, q) == Remaining(g, l, q)
  {
    LineStringSame(g, h, l);
  }

  lemma ResolveMatchedSame(g: GraphState, h: GraphState, ms: seq<LineId>, q: string)
    requires OnlyVersionsDiffer(g, h)
    ensures ResolveMatched(h, ms, q) == ResolveMatched(g, ms, q)
  {
    forall j | 0 <= j < |ms|
      ensures Counts(h, ms, q)[j] == Counts(g, ms, q)[j]
    {
      RemainingSame(g, h, ms[j], q);
    }
    assert Counts(h, ms, q) == Counts(g, ms, q);
  }

  lemma PickSame(g: GraphState, h: GraphState, cands: seq<LineId>, q: string)
    requires OnlyVersionsDiffer(g, h)
    ensures Pick(h, cands, q) == Pick(g, cands, q)
  {
    FirstWithStringSame(g, h, cands, q);
    ResolveMatchedSame(g, h, cands, q);
  }

  lemma {:induction false} PickInSame(g: GraphState, h: GraphState, fs: seq<FuncId>, file: string, name: string, lineTo: nat, q: string)
    requires OnlyVersionsDiffer(g, h)
    ensures PickIn(h, fs, file, name, lineTo, q) == PickIn(g, fs, file, name, lineTo, q)
    decreases |fs|
  {
    if fs != [] {
      NumberedLinesSame(g, h, FuncOf(g, fs[0]).lines, g.version, lineTo);
      PickSame(g, h, Candidates(g, fs[0], file, name, lineTo), q);
      PickInSame(g, h, fs[1..], file, name, lineTo, q);
    }
  }

  /** findMatchedLine does not depend on the edge versions of matchTo. */
  lemma FindMatchedLineSame(g: GraphState, h: GraphState, matchFrom: GraphState, t: LineId, diff: MappingState)
    requires OnlyVersionsDiffer(g, h)
    ensures FindMatchedLine(h, matchFrom, t, diff) == FindMatchedLine(g, matchFrom, t, diff)
  {
    PickInSame(g, h, g.functions, FileOf(matchFrom, t), FuncNameOf(matchFrom, t),
               TranslatedLine(g, matchFrom, t, diff), LineInstructionsAsString(matchFrom, t));
  }

  lemma {:induction false} FirstFittingSame(g: GraphState, h: GraphState, es: seq<EdgeId>, from: InstId, to: InstId, t: EdgeType)
    requires OnlyVersionsDiffer(g, h)
    ensures FirstFitting(h, es, from, to, t) == FirstFitting(g, es, from, to, t)
    decreases |es|
  {
    if es != [] {
      if es[0] < |g.edges| {
        assert h.edges[es[0]].(versions := g.edges[es[0]].versions) == g.edges[es[0]];
      }
      FirstFittingSame(g, h, es[1..], from, to, t);
    }
  }

  /** getEdge does not depend on edge versions. */
  lemma GetEdgeSame(g: GraphState, h: GraphState, from: InstId, to: InstId, t: EdgeType)
    requires OnlyVersionsDiffer(g, h)
    ensures GetEdge(h, from, to, t) == GetEdge(g, from, to, t)
  {
    FirstFittingSame(g, h, InstOf(g, from).edges, from, to, t);
  }

  lemma {:induction false} EdgeToAnySame(g: GraphState, h: GraphState, fi: InstId, tis: seq<InstId>)
    requires OnlyVersionsDiffer(g, h)
    ensures EdgeToAny(h, fi, tis) == EdgeToAny(g, fi, tis)
    decreases |tis|
  {
    if tis != [] {
      GetEdgeSame(g, h, fi, tis[0], Any);
      EdgeToAnySame(g, h, fi, tis[1..]);
    }
  }

  lemma {:induction false} InBetweenFromSame(g: GraphState, h: GraphState, fis: seq<InstId>, tis: seq<InstId>)
    requires OnlyVersionsDiffer(g, h)
    ensures InBetweenFrom(h, fis, tis) == InBetweenFrom(g, fis, tis)
    decreases |fis|
  {
    if fis != [] {
      EdgeToAnySame(g, h, fis[|fis| - 1], tis);
      InBetweenFromSame(g, h, fis[..|fis| - 1], tis);
    }
  }

  /** getInBetweenEdge does not depend on edge versions. */
  lemma InBetweenEdgeSame(g: GraphState, h: GraphState, fromLine: LineId, toLine: LineId)
    requires OnlyVersionsDiffer(g, h)
    ensures GetInBetweenEdge(h, fromLine, toLine) == GetInBetweenEdge(g, fromLine, toLine)
  {
    InBetweenFromSame(g, h, LineOf(g, fromLine).instructions, LineOf(g, toLine).instructions);
  }
}
