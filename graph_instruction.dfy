// Graph_Instruction: one LLVM instruction (or a virtual entry/exit node) of a
// graph, the edges that touch it and the line that holds it.
module GraphInstruction {
  import opened Common

  /** What the model keeps of an llvm::Instruction: its identity (the pointer
    * value), getOpcodeName() and whether its opcode is Br. */
  datatype LlvmInst = LlvmInst(handle: nat, opcodeName: string, isBr: bool)

  /** A Graph_Instruction. `ptr` is None for a virtual node; `line` is None
    * until the instruction is pushed into a line. Queries are identified by
    * number. */
  datatype Instruction = Instruction(
    id: nat,
    labelText: string,
    ptr: Option<LlvmInst>,
    edges: seq<EdgeId>,
    line: Option<LineId>,
    visitedQueries: set<nat>)
  {
    /** pushEdgeInstruction */
    function PushEdge(e: EdgeId): (r: Instruction)
      ensures r.edges == edges + [e]
      ensures r.(edges := edges) == this
    {
      this.(edges := edges + [e])
    }

    /** insertInstructionVisitedQueries: a set insertion. */
    function InsertVisitedQuery(q: nat): (r: Instruction)
      ensures r.visitedQueries == visitedQueries + {q}
      ensures r.(visitedQueries := visitedQueries) == this
    {
      this.(visitedQueries := visitedQueries + {q})
    }
  }

  /** Graph_Instruction(): ID zero, no LLVM instruction, no line. */
  function DefaultInstruction(): (r: Instruction)
    ensures r.id == 0 && r.ptr.None? && r.line.None? && r.edges == [] && r.visitedQueries == {}
  {
    Instruction(0, "", None, [], None, {})
  }

  /** Recording a query twice is recording it once. */
  lemma InsertVisitedQueryIdempotent(i: Instruction, q: nat)
    ensures i.InsertVisitedQuery(q).InsertVisitedQuery(q) == i.InsertVisitedQuery(q)
  {
  }
}
