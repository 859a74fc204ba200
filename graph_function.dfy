// Graph_Function: one function of a graph and its lines, in program order.
module GraphFunction {
  import opened Common

  /** A Graph_Function. `inGraph` records whether setGraph has been called,
    * i.e. whether the function was registered with its graph. */
  datatype Function = Function(id: nat, name: string, file: string, lines: seq<LineId>, inGraph: bool)
  {
    /** isFunctionFileSet */
    predicate IsFunctionFileSet()
    {
      file != ""
    }

    /** isFunctionLinesEmpty */
    predicate IsFunctionLinesEmpty()
    {
      |lines| == 0
    }

    /** The push_back of pushFunctionLines. */
    function PushLine(l: LineId): (r: Function)
      ensures r.lines == lines + [l] && r.(lines := lines) == this
    {
      this.(lines := lines + [l])
    }

    /** The push_front of pushFrontFunctionLines. */
    function PushFrontLine(l: LineId): (r: Function)
      ensures r.lines == [l] + lines && r.(lines := lines) == this
    {
      this.(lines := [l] + lines)
    }
  }

  /** Graph_Function(id): no name, no file, no lines, not in a graph. */
  function NewFunction(id: nat): (r: Function)
    ensures r.id == id && !r.IsFunctionFileSet() && r.IsFunctionLinesEmpty() && !r.inGraph
  {
    Function(id, "", "", [], false)
  }
}
