// Graph_Line: one source line of a function, the line number it has in each
// graph version and the instructions compiled from it.
module GraphLine {
  import opened Common

  /** A Graph_Line. `func` is None until the line is pushed into a function;
    * `version` is the graph version that introduced the line. */
  datatype Line = Line(numbers: map<nat, nat>, instructions: seq<InstId>, func: Option<FuncId>, version: nat)
  {
    /** getLineNumber: the number recorded for `v`, zero when there is none. */
    function LineNumber(v: nat): (r: nat)
      ensures v in numbers ==> r == numbers[v]
      ensures v !in numbers ==> r == 0
    {
      if v in numbers then numbers[v] else 0
    }

    /** setLineNumber: a std::map insert, so the number first recorded for a
      * version is kept. */
    function WithLineNumber(v: nat, n: nat): Line
    {
      this.(numbers := MapInsert(numbers, v, n))
    }

    /** The push_back of pushLineInstruction (the back-pointer is set by the
      * graph). */
    function PushInstruction(i: InstId): (r: Line)
      ensures r.instructions == instructions + [i] && r.(instructions := instructions) == this
    {
      this.(instructions := instructions + [i])
    }

    /** isLineInstructionEmpty */
    predicate IsLineInstructionEmpty()
    {
      |instructions| == 0
    }
  }

  /** Graph_Line(Version) */
  function NewLine(ver: nat): (r: Line)
    ensures r.version == ver && r.func.None? && r.IsLineInstructionEmpty()
    ensures forall v :: r.LineNumber(v) == 0
  {
    Line(map[], [], None, ver)
  }

  /** Setting a number for `v` reads back as the first number ever set for
    * `v`, and leaves every other version's number as it was. */
  lemma SetThenGet(l: Line, v: nat, n: nat, w: nat)
    ensures l.WithLineNumber(v, n).LineNumber(v) == (if v in l.numbers then l.numbers[v] else n)
    ensures w != v ==> l.WithLineNumber(v, n).LineNumber(w) == l.LineNumber(w)
    ensures l.WithLineNumber(v, n).version == l.version
  {
  }

  /** A second setLineNumber for the same version changes nothing. */
  lemma SetTwice(l: Line, v: nat, n: nat, m: nat)
    ensures l.WithLineNumber(v, n).WithLineNumber(v, m) == l.WithLineNumber(v, n)
  {
    MapInsertTwice(l.numbers, v, n, m);
  }
}
