# Hydrogen MVICFG builder: a Dafny model

Hydrogen merges the interprocedural control-flow graphs (ICFGs) of successive
versions of a C program into a single multi-version graph, the MVICFG. Every
edge of the MVICFG records the versions it belongs to. Every line records its
line number in each version. This project models the core of that builder and
proves what it promises.

- **The line diff.** `Diff_Util` runs the O(NP) shortest-edit-script search of
  Wu, Manber and Myers and records the edit script. `Diff_Ses` collects the
  script, with the optional "deletes first" arrangement. Modules `DiffSes`,
  `DiffSearch` and `DiffUtil`. The recorded script is proved to be a correct
  edit script. For two identical files, the search ends in round 0, because
  the snake from the origin runs to (N, N). compose then records only Common
  entries, so `onlyCopy` stays as it was and `isChange()` stays false. Below
  the record cap the converse holds as well: a script of Common entries only
  comes from identical files (`DiffSes.UnchangedScriptIdentical`).
- **The mapping.** `Diff_Mapping` projects a script into added lines, deleted
  lines, the matched-lines map and the two line-number lookups. Module
  `DiffMapping`.
- **The graph.** `Graph`, `Graph_Function`, `Graph_Line`,
  `Graph_Instruction` and `Graph_Edge` become an arena: one `Graph` class
  owns sequences of function, line, instruction and edge records, and a
  pointer between them is an index into those sequences. Modules `Graphs`,
  `GraphFunction`, `GraphLine`, `GraphInstruction` and `GraphEdge`.
- **The merge passes of `MVICFG.cpp`.**
  - The read-only lookups: lines by number, predecessor and successor lines,
    opcode strings, `findMatchedLine` with its heuristic resolver, `getEdge`,
    `getInBetweenEdge`, `getNewlyAdded` and `getMatchedInstructionFromGraph`.
    Module `MvicfgLookup`.
  - The edge steps they share. Module `MvicfgWire`.
  - One module per pass: `addToMVICFG`, `getEdgesForAddedLines`,
    `deleteFromMVICFG`, `matchedInMVICFG` and `updateMVICFGVersion`.
  - The path count of `dfsPath` and `reportPaths`. Module `MvicfgPaths`.
- **The edge iterator.** The depth-first edge iterator of
  `Graph_Edge_Iterator.cpp`. Module `GraphEdgeIterator`.

## How the model is built

- **Objects that change become classes.** The graph, the diff engine, the
  edit-script containers, the mapping and the edge iterator are classes. Each
  method's `ensures` gives the new state as a function of the old
  (`mv.State() == Added(old(mv.State()), …)`).
- **Lookups are functions.** They are functions of the graph's value,
  `GraphState`.
- **Loops.** The loops that change state are `while` or `for` loops in
  methods. These are the merge passes, the diff search and its recording,
  the mapping's construction, and the graph's builders and counters. Each
  loop body of a merge pass is a method of its own. The loop's specification
  is a fold over the loop's list (`CopyLines`, `LinksFor`, `StampsUpTo`, …).
  Lemmas about the folds give the properties of each pass: `AddedShape`,
  `DeletedShape`, `MatchedShape`, `UpdateShape`, `AddedLineEdgesShape`,
  and the idempotence lemmas.
- **Read-only search loops are recursive functions.** The searches of
  MVICFG.cpp:219-427 change nothing. They are `getGraphLinesGivenLine`,
  `getPredecessorLines`, `getSuccessorLines`,
  `getGraphLineInstructionsAsString`, `resolveMatchedLine`,
  `findMatchedLine`, `getEdge`, `getInBetweenEdge` and `getNewlyAdded`. In
  module `MvicfgLookup` they are recursive functions over `GraphState`, so
  that the passes' specifications can call them.
- **Unsigned values.** `unsigned` is modelled explicitly. Line numbers pass
  through `ToUnsigned` where the source converts a `long long`. The sentinels
  are UINT_MAX − 1 (virtual entry) and UINT_MAX − 2 (virtual exit).
- **Iteration over pointers.** The source iterates `std::set` and `std::map`
  keyed by pointers. The model uses ascending arena index for that order
  (`AscendingIds`). The real order depends on the allocator; the model fixes
  one order that is consistent with it.
- **Diagnostics.** Messages on `std::cerr` and the verbose output on
  `std::cout` are diagnostics and are not modelled. The branches they sit in
  are.

### Behaviour of the code worth knowing

- **Line lookups.** `getAfterLineNumber` and `getBeforeLineNumber` return the
  partner index of the first record whose own index matches, whatever its
  type (Diff_Mapping.cpp:80-96). So a deleted or added line maps to 0, not to
  the not-found value (`DeletedLineMapsToZero`, `AddedLineMapsToZero`).
- **Exact opcode-string match.** `findMatchedLine` returns the first
  candidate whose opcode string equals the query (MVICFG.cpp:351-357), even
  when later candidates match as well (`FirstWithStringFinds`).
- **The heuristic resolver.** It erases the first occurrence of the query
  string in each candidate, found by `std::string::find`
  (MVICFG.cpp:287-291). It keeps a candidate only when its count is strictly
  below the best so far (MVICFG.cpp:302-305), so ties keep the earliest
  (`ResolveMatchedPicks`).
- **The coordinate cap.** When the diff search reaches its record cap
  (Diff_Util.cpp:61), it ends without any error
  (`DiffSearch.CapNeedsLargeInput`). The work restarts on the unconsumed
  suffixes (Diff_Util.cpp:166-179), so the line numbers recorded after a
  restart count from 1 again (`DiffUtil.DiffUtil.Compose`).
- **Functions created by the add pass.** A function that addToMVICFG creates
  is never named or registered: the declaration at MVICFG.cpp:455 shadows the
  one at :452 (`MvicfgAdd.TargetIs`).
- **Edges the iterator skips.** The constructor stacks the entry's edges
  after the first (Graph_Edge_Iterator.cpp:23-28). operator++ pops them back
  as `current_edge` when it backtracks (:64-65) and searches from their
  targets, but never yields them nor marks them visited. So when no edge
  enters the entry, its second and later edges are never yielded
  (`GraphEdgeIterator.StackedEdgeNeverYielded`).
- **Merge points.** When `dfsPath` follows an edge into an instruction it has
  already visited, it adds one to the path count and goes no further
  (MVICFG.cpp:45-49). So a merge point adds one path per incoming edge
  (`MvicfgPaths.DfsEdgesCountsExits`).
- **The delete fallback.** In deleteFromMVICFG's successor branch,
  `foundEdge` starts `true` (MVICFG.cpp:744). So the MVICFG_DEL fallback
  cannot be reached, and the edge type is left uninitialised there. The model
  takes that value as a parameter, `uninit`, of `Deleted` and
  `DeleteFromMVICFG`, and proves every property for all of its values.

## Model

| member | source | states |
|---|---|---|
| `Common.ToUnsigned` | MVICFG.cpp:334-338 | the conversion of a `long long` line number to `unsigned` lands in 0..2^32-1, keeps values already in range and sends -1 to unsigned MAX |
| `Common.Find` | MVICFG.cpp:287-291 | `std::string::find`: a position where the needle occurs, no earlier such position, and None exactly when it occurs nowhere |
| `Common.MapInsert` | Diff_Mapping.cpp:29 | `std::map::insert`: the key's existing value wins, otherwise the pair is added; every other key is untouched |
| `Common.MapInsertTwice` | Graph_Line.cpp:11-13 | inserting a key that is already present changes nothing |
| `Common.CountChar` | MVICFG.cpp:293-301 | the occurrence count of a character is at most the length, and zero exactly when the character does not occur |
| `Common.CountCharAppend` | Graph_Edge.cpp:11-13 | counts add up over concatenation |
| `Common.Ascending` | MVICFG.cpp:789 | the iteration order of a `std::set<int>` / the keys of a `std::map`: every element once, strictly increasing |
| `Common.AscendingIds` | MVICFG.cpp:73-90 | the iteration order of a map keyed by pointer (pointers being arena ids): every key once, strictly increasing |
| `Common.MinOf` | MVICFG.cpp:302-305 | the least element of a non-empty set is in the set and below every element |
| `DiffSes.Iota` | Diff_Util.cpp:124-159 | the line numbers 1..n, position i holding i + 1 |
| `DiffSes.BeforeIdxsAppend` | Diff_Util.cpp:8-42 | the old-file line numbers of a concatenation are those of the parts, in order |
| `DiffSes.AfterIdxsAppend` | Diff_Util.cpp:8-42 | the new-file line numbers of a concatenation are those of the parts, in order |
| `DiffSes.UnchangedScriptIdentical` | Diff_Util.hpp:165-168 | a complete edit script without an Add or a Delete exists only between identical files, so `isChange()` is false only for them |
| `DiffSes.ScriptUpToExtend` | Diff_Util.cpp:127-158 | appending one correct entry that consumes the next old and/or new line extends an edit script of two prefixes to one of the longer prefixes |
| `DiffSes.Sequence.constructor` | Diff_Util.hpp:105 | a `Diff_Sequence` starts empty |
| `DiffSes.Sequence.AddSequence` | Diff_Util.hpp:120 | appends exactly one line at the back |
| `DiffSes.ArrangeShape` | Diff_Util.cpp:14-41 | with deletes first, the pending runs hold only Deletes and only Adds, and the settled part is empty or ends with a Common |
| `DiffSes.ArrangePermutes` | Diff_Util.cpp:14-41 | moving deletes first only permutes the recorded entries (same multiset) |
| `DiffSes.ArrangeKeepsSides` | Diff_Util.cpp:14-41 | moving deletes first keeps the order in which old-file lines and new-file lines are consumed |
| `DiffSes.ArrangeSides` | Diff_Util.cpp:14-41 | for every recorded log, the settled, delete and add runs together consume the old-file and new-file lines exactly as the log does |
| `DiffSes.ArrangeInsert` | Diff_Util.cpp:14-41 | one recorded entry: a Delete goes in at the insertion point `nextDeleteIdx`; any other entry goes at the back, and a Common moves the insertion point to the end |
| `DiffSes.ArrangeKeepsScript` | Diff_Util.cpp:14-41 | an edit script of two files is still an edit script of the same files once its deletes are moved first |
| `DiffSes.Ses.constructor` | Diff_Util.hpp:139 | `Diff_Ses(moveDel)`: empty script and log, all "only" flags set, insertion point 0 |
| `DiffSes.Ses.IsOnlyOneOperation` | Diff_Util.hpp:164 | true exactly when every entry recorded so far is of one and the same kind |
| `DiffSes.Ses.IsChange` | Diff_Util.hpp:169 | true exactly when some entry recorded so far is an Add or a Delete |
| `DiffSes.Ses.AddSequence` | Diff_Util.cpp:8-42 | records the entry in the log; plain mode appends it; with deletes first a Delete is inserted at `nextDeleteIdx` (which moves past it), a Common is appended and moves the insertion point to the end, an Add is appended; the "only" flags follow the log |
| `DiffSearch.MulMono` | Diff_Util.cpp:61 | products of naturals grow with their factors (the record-cap argument) |
| `DiffSearch.FrontierGrow` | Diff_Util.cpp:109-114 | recording a snake's end point in the slot of diagonal k keeps every other slot and adds that slot to the reached range |
| `DiffSearch.CoordsGrow` | Diff_Util.cpp:109-114 | a new record that links to an earlier one by one edit plus a snake keeps every record well linked |
| `DiffSearch.SnakeLink` | Diff_Util.cpp:99-116 | the point `snake` records continues the record it links back to (the one above when `above > below`, else the one below) |
| `DiffSearch.MonoXSorted` | Diff_Util.cpp:54-56 | in the forward loop, x never decreases from one reached diagonal to a later one |
| `DiffSearch.MonoYSorted` | Diff_Util.cpp:57-59 | in the backward loop, y never increases from one reached diagonal to a later one |
| `DiffSearch.TerminalProgress` | Diff_Util.cpp:52-61 | after round p the terminal diagonal has reached x >= p and y <= N |
| `DiffSearch.NextRound` | Diff_Util.cpp:52-61 | a round that did not reach (M, N) can be followed by round p + 1, and p + 1 <= M |
| `DiffSearch.AreaIs` | Diff_Util.cpp:52-61 | rounds 0..p-1 record p * (delta + p) points in all |
| `DiffSearch.CapNeedsLargeInput` | Diff_Util.cpp:61 | a search still short of (M, N) has recorded at most M * N points, so the record cap is only reached when M * N >= MAX_CORDINATES_SIZE |
| `DiffSearch.FirstRound` | Diff_Util.cpp:45-50 | fp and path filled with -1 and no records are the state round 0 starts from |
| `DiffSearch.RestartMoves` | Diff_Util.cpp:164-180 | a round with more than one record ended away from the origin, so a restart consumes at least one line |
| `DiffSearch.ForwardStart` | Diff_Util.cpp:54-56 | every diagonal of the forward loop can be snaked: its neighbour slots are in range and its start continues a record |
| `DiffSearch.ForwardStep` | Diff_Util.cpp:54-56 | one diagonal of the forward loop keeps the loop's invariant for the next diagonal |
| `DiffSearch.BackwardStart` | Diff_Util.cpp:57-59 | every diagonal of the backward loop can be snaked |
| `DiffSearch.BackwardStep` | Diff_Util.cpp:57-59 | one diagonal of the backward loop keeps the loop's invariant for the next diagonal |
| `DiffSearch.FinalStart` | Diff_Util.cpp:60 | the terminal diagonal can be snaked after both loops |
| `DiffSearch.FinalStep` | Diff_Util.cpp:60 | snaking the terminal diagonal ends the round |
| `DiffSearch.FinalSame` | Diff_Util.cpp:60 | on identical sequences the snake of round 0 on the terminal diagonal, which cannot slide further, ends at (N, N) |
| `DiffSearch.NotSame` | Diff_Util.cpp:61 | a round that leaves the terminal diagonal short of N means the sequences differ |
| `DiffUtil.SingleSegment` | Diff_Util.cpp:164-165 | a script recorded in a single pass is a complete edit script of the two files |
| `DiffUtil.SegmentsAppend` | Diff_Util.cpp:166-179 | the script of the suffixes after the last restart adds one more segment to the segmented script |
| `DiffUtil.SegmentsExtend` | Diff_Util.cpp:75-80 | one more pass of compose extends the log by the next segment |
| `DiffUtil.DiffUtil.constructor` | Diff_Util.hpp:203 | `Diff_Util(a, b)`: stores the pair (the shorter first), deletes are not moved first, the script is empty |
| `DiffUtil.DiffUtil.Init` | Diff_Util.cpp:84-97 | the shorter sequence ends in A, a tie swaps too, and `swapped` says which happened; sizes, delta and offset follow |
| `DiffUtil.DiffUtil.Snake` | Diff_Util.cpp:99-116 | slides from max(above, below) on diagonal k over matching lines only, stops at a mismatch or the edge, records the end point with its back link and returns its y |
| `DiffUtil.DiffUtil.SnakeAt` | Diff_Util.cpp:55 | `fp[k + offset] = snake(k, fp[k - 1 + offset] + 1, fp[k + 1 + offset])` records the furthest point of diagonal k, where the snake cannot slide further |
| `DiffUtil.DiffUtil.ForwardLoop` | Diff_Util.cpp:54-56 | diagonals -p up to delta - 1 are snaked in order |
| `DiffUtil.DiffUtil.BackwardLoop` | Diff_Util.cpp:57-59 | diagonals delta + p down to delta + 1 are snaked in order |
| `DiffUtil.DiffUtil.Round` | Diff_Util.cpp:53-60 | one round reaches every diagonal -p..delta+p; round 0 on identical sequences reaches (N, N) |
| `DiffUtil.DiffUtil.ONP` | Diff_Util.cpp:51-61 | the rounds stop when the terminal diagonal reaches N or the record cap is hit; on identical sequences they stop after round 0 at (N, N) |
| `DiffUtil.DiffUtil.ReadPath` | Diff_Util.cpp:63-72 | following the back links from the terminal point yields a chain of snakes from the origin to that point, a single snake when only one point was recorded |
| `DiffUtil.DiffUtil.RecordLineOfB` | Diff_Util.cpp:128-136 | one line of B becomes an Add (a Delete when the files were swapped) and the recorded entries stay a script |
| `DiffUtil.DiffUtil.RecordLineOfA` | Diff_Util.cpp:137-145 | one line of A becomes a Delete (an Add when swapped) and the recorded entries stay a script |
| `DiffUtil.DiffUtil.RecordMatch` | Diff_Util.cpp:146-158 | a matching pair becomes one appended Common entry with both line numbers and the recorded entries stay a script |
| `DiffUtil.DiffUtil.RecordLeg` | Diff_Util.cpp:127-159 | the inner loop records exactly the entries from one path point to the next; the snake from the origin records only Common entries |
| `DiffUtil.DiffUtil.Restart` | Diff_Util.cpp:166-179 | A and B become the unconsumed suffixes, sizes follow, fp is reallocated and fp and path are filled with -1 |
| `DiffUtil.DiffUtil.RecordPath` | Diff_Util.cpp:124-162 | the entries recorded along a path form a script of the first x lines of A and y lines of B, in the orientation of the caller's files; a path of one snake records only Common entries |
| `DiffUtil.DiffUtil.RecordSequence` | Diff_Util.cpp:118-182 | records the path; returns true exactly when it reached the end of both sequences, and otherwise leaves only the unconsumed suffixes, ready for a new search |
| `DiffUtil.DiffUtil.FindPath` | Diff_Util.cpp:51-72 | the search yields a path ending on the terminal diagonal; a path short of (M, N) needs M * N >= MAX_CORDINATES_SIZE; on identical sequences the path is the single snake to (M, M) |
| `DiffUtil.DiffUtil.SearchAndRecord` | Diff_Util.cpp:51-80 | one pass from the ONP label appends a script of the first i and j lines; complete exactly when both files are consumed, otherwise the suffixes remain; identical files complete in one pass with Common entries only |
| `DiffUtil.DiffUtil.Allocate` | Diff_Util.cpp:45-50 | fp and path are allocated fresh and filled with -1 |
| `DiffUtil.DiffUtil.Compose` | Diff_Util.cpp:44-82 | the entries compose appends are a segmented script of the two files (segments numbered from 1 after each restart), and a complete edit script whenever M * N < MAX_CORDINATES_SIZE; on identical files every entry is Common and `onlyCopy` is unchanged; below the cap, the entries are all Common exactly when the files are identical |
| `DiffUtil.LegEnter` | Diff_Util.cpp:127-158 | each step recordSequence takes stays in the grid, and a diagonal step is over a pair of matching lines |
| `DiffUtil.RecordStep` | Diff_Util.cpp:127-158 | one recorded entry extends the script by the line or lines it consumes |
| `DiffMapping.Infos` | Diff_Mapping.cpp:11-32 | one position record per entry, in order, each equal to the entry's own |
| `DiffMapping.AddedIn` | Diff_Mapping.cpp:13-18 | addedLines holds exactly the after-lines of the Add entries |
| `DiffMapping.DeletedIn` | Diff_Mapping.cpp:19-24 | deletedLines holds exactly the before-lines of the Delete entries |
| `DiffMapping.MatchedKeeps` | Diff_Mapping.cpp:25-30 | a key already in matchedLines is never overwritten |
| `DiffMapping.MatchedDomain` | Diff_Mapping.cpp:25-30 | the keys of matchedLines are the old keys and the before-lines of the Common entries, and nothing else |
| `DiffMapping.MatchedFirst` | Diff_Mapping.cpp:25-30 | a new key maps to the after-line of the first Common entry that carries it |
| `DiffMapping.AfterLineOf` | Diff_Mapping.cpp:80-87 | the after-line of the first record whose before-line matches, whatever its type; unsigned MAX when none does |
| `DiffMapping.BeforeLineOf` | Diff_Mapping.cpp:89-96 | the before-line of the first record whose after-line matches, whatever its type; unsigned MAX when none does |
| `DiffMapping.CommonRoundTrip` | Diff_Mapping.cpp:80-96 | for a Common record whose line numbers occur in no other record, the two lookups are inverse to each other |
| `DiffMapping.BeforeRank` | Diff_Util.cpp:139-156 | a before-side entry names the old-file line after those consumed by the entries ahead of it |
| `DiffMapping.AfterRank` | Diff_Util.cpp:130-155 | an after-side entry names the new-file line after those consumed by the entries ahead of it |
| `DiffMapping.BeforeUnique` | Diff_Util.cpp:139-156 | in a script, the old-file line of a before-side entry is at least 1 and occurs in no other entry |
| `DiffMapping.AfterUnique` | Diff_Util.cpp:130-155 | in a script, the new-file line of an after-side entry is at least 1 and occurs in no other entry |
| `DiffMapping.DeletedLineMapsToZero` | Diff_Mapping.cpp:80-87 | a deleted line maps to after-line 0, not to the not-found value |
| `DiffMapping.AddedLineMapsToZero` | Diff_Mapping.cpp:89-96 | an added line maps to before-line 0, not to the not-found value |
| `DiffMapping.CommonLineRoundTrip` | Diff_Mapping.cpp:80-96 | in a script, a common line maps to its partner and back |
| `DiffMapping.OutsideBeforeNotFound` | Diff_Mapping.cpp:80-87 | a line number outside the old file maps to unsigned MAX |
| `DiffMapping.OutsideAfterNotFound` | Diff_Mapping.cpp:89-96 | a line number outside the new file maps to unsigned MAX |
| `DiffMapping.AfterIdxsIn` | Diff_Util.cpp:127-158 | the new-file lines a log consumes are exactly the after-lines of its after-side entries |
| `DiffMapping.BeforeIdxsIn` | Diff_Util.cpp:127-158 | the old-file lines a log consumes are exactly the before-lines of its before-side entries |
| `DiffMapping.AddedOfScript` | Diff_Mapping.cpp:13-18 | for a script, addedLines are exactly the new-file lines 1..j that no Common entry matches |
| `DiffMapping.DeletedOfScript` | Diff_Mapping.cpp:19-24 | for a script, deletedLines are exactly the old-file lines 1..i that no Common entry matches |
| `DiffMapping.MatchedOfScript` | Diff_Mapping.cpp:25-30 | every Common entry of a script is in matchedLines with its own after-line |
| `DiffMapping.DiffMapping.constructor` | Diff_Mapping.hpp:24 | a mapping for the named file starts with no records and no lines |
| `DiffMapping.DiffMapping.PutMapping` | Diff_Mapping.cpp:9-34 | appends one record per entry; appends Add after-lines and Delete before-lines in order; inserts the Common pairs into matchedLines without overwriting |
| `DiffMapping.DiffMapping.GetAfterLineNumber` | Diff_Mapping.cpp:80-87 | the linear scan returns AfterLineOf of lineMap |
| `DiffMapping.DiffMapping.GetBeforeLineNumber` | Diff_Mapping.cpp:89-96 | the linear scan returns BeforeLineOf of lineMap |
| `GraphEdge.HasVersion` | Graph_Edge.cpp:19-20 | the `find_if` over the version list succeeds exactly when the version is in it |
| `GraphEdge.NewEdgeVersions` | Graph_Edge.hpp:34 | a new edge has the given type, a single version, and is part of exactly that version |
| `GraphEdge.PushVersionGrows` | Graph_Edge.hpp:61 | pushing a version keeps endpoints, type and old versions, and makes the edge part of exactly the old versions plus the new one |
| `GraphEdge.Stamp` | MVICFG.cpp:955-957 | `if (!isPartOfGraph(V)) pushEdgeVersions(V)`: afterwards the edge is part of V; an edge already in V is unchanged; otherwise V is appended |
| `GraphEdge.StampIdempotent` | MVICFG.cpp:955-957 | stamping twice with the same version is stamping once |
| `GraphEdge.EdgesGrowTrans` | MVICFG.cpp:950-968 | "edges only gain versions" composes across passes |
| `GraphEdge.Decimal` | Graph_Edge.cpp:12 | `std::to_string` of an unsigned value is a non-empty run of digits |
| `GraphEdge.PiecesPrintable` | Graph_Edge.cpp:11-14 | the loop's string with its last ',' popped is the comma-joined list |
| `GraphEdge.PrintableEdgeVersions` | Graph_Edge.cpp:9-16 | the result is "V<v>" for each version in order, joined by ',' (needs a non-empty version list) |
| `GraphEdge.PrintableShape` | Graph_Edge.cpp:9-16 | the printable form has one 'V' per version, one ',' fewer than versions, and ends in a digit |
| `GraphFunction.PushLine` | Graph_Function.cpp:10-13 | the line is appended at the back; nothing else about the function changes |
| `GraphFunction.PushFrontLine` | Graph_Function.cpp:15-18 | the line is put at the front; nothing else about the function changes |
| `GraphFunction.NewFunction` | Graph_Function.hpp:24 | a new function has its id, no file, no lines and no graph |
| `GraphInstruction.PushEdge` | Graph_Instruction.hpp:52 | the edge is appended; nothing else about the instruction changes |
| `GraphInstruction.InsertVisitedQuery` | Graph_Instruction.hpp:93 | the query is added to the set; nothing else changes |
| `GraphInstruction.DefaultInstruction` | Graph_Instruction.hpp:27 | ID zero, no LLVM instruction, no line, no edges, no queries |
| `GraphInstruction.InsertVisitedQueryIdempotent` | Graph_Instruction.hpp:93 | recording a query twice is recording it once |
| `GraphLine.LineNumber` | Graph_Line.cpp:20-26 | the number recorded for the version, zero when there is none |
| `GraphLine.PushInstruction` | Graph_Line.cpp:15-18 | the instruction is appended; nothing else about the line changes |
| `GraphLine.NewLine` | Graph_Line.hpp:24 | a new line carries its version, no function, no instructions, and reads 0 for every version |
| `GraphLine.SetThenGet` | Graph_Line.cpp:11-13 | after setLineNumber the version reads back the first number ever set for it; other versions are unchanged |
| `GraphLine.SetTwice` | Graph_Line.cpp:11-13 | a second setLineNumber for the same version changes nothing |
| `Graphs.IdAfterCalls` | Graph.hpp:81 | pre-incrementing the id counter from 0 hands out 1, 2, 3, ... up to unsigned MAX |
| `Graphs.IdsUnique` | Graph.hpp:81 | the first 2^32 - 1 ids handed out are pairwise distinct and never 0 |
| `Graphs.AddEdgeAppends` | Graph.cpp:17-21 | addEdge appends the edge to graphEdges and its id to the back of both endpoints' edge lists (twice for a self-loop); every other instruction and everything else is unchanged |
| `Graphs.WithEdgeWellFormed` | Graph.cpp:17-21 | addEdge between existing instructions keeps every arena reference in range |
| `Graphs.VersionPushedGrows` | Graph_Edge.hpp:61 | pushEdgeVersions changes one edge's version list, which afterwards holds the version, and nothing else |
| `Graphs.WithEdgesKeeps` | Graph.cpp:17-21 | a run of addEdge calls appends its edges to graphEdges and leaves every instruction as it was apart from its edge list |
| `Graphs.SeqEdgesUpToAre` | Graph.cpp:23-39 | an edge is added exactly for each consecutive pair whose first instruction is not a Br, SEQUENTIAL and of the graph's version, so a line of n instructions gets at most n - 1 edges |
| `Graphs.SeqEdgesAre` | Graph.cpp:23-39 | the same for the whole instruction list |
| `Graphs.VirtualNodeFacts` | Graph.cpp:199-207 | a virtual node is a fresh line and a fresh instruction pointing at each other, with the next id; the rest of the graph is kept |
| `Graphs.VirtualNodesShape` | Graph.cpp:198-224 | the function's lines become entry line, old lines, exit line; the entry and exit lines carry graphEntryID / graphExitID at the graph's version and one pointer-less instruction labelled "Entry::"/"Exit::" + name; two VIRTUAL edges link them to the old first and last instructions |
| `Graphs.FindInInstsCorrect` | Graph.cpp:41-52 | the search of a line's instructions finds a wanted instruction of it, and fails only when there is none |
| `Graphs.FindInLinesCorrect` | Graph.cpp:41-52 | the search of a function's lines finds a wanted instruction of one of them, and fails only when there is none |
| `Graphs.FindInFuncsCorrect` | Graph.cpp:54-82 | the search over the registered functions (only those with the given name, when one is given) yields a wanted instruction of such a function, and fails only when there is none |
| `Graphs.FindInFuncsFound` | Graph.cpp:54-67 | a found instruction is wanted and in a function with the given name |
| `Graphs.FindInFuncsMissing` | Graph.cpp:54-67 | a failed search means no such function has a wanted instruction |
| `Graphs.LineSizesCount` | Graph.cpp:347-355 | summing the lines' sizes counts their instructions |
| `Graphs.LineInstructionsSplit` | Graph.cpp:349-353 | the instructions of a concatenation of line lists are those of the parts |
| `Graphs.AllInstructionsSplit` | Graph.cpp:348-354 | the instructions of a concatenation of function lists are those of the parts |
| `Graphs.FunctionSizesCount` | Graph.cpp:347-355 | countNodes is the number of instructions in the lines of the registered functions |
| `Graphs.SearchLines` | Graph.cpp:43-51 | the two inner loops of the search return the first wanted instruction of the lines |
| `Graphs.SearchInstructions` | Graph.cpp:45-50 | the innermost loop returns the first wanted instruction of the line |
| `Graphs.Graph.constructor` | Graph.hpp:34-71 | id counter 0, the given version, entry id unsigned MAX - 1, exit id unsigned MAX - 2, the white list in push order, nothing allocated |
| `Graphs.Graph.GetNextID` | Graph.hpp:81 | pre-increments the counter (wrapping at 2^32) and returns the new value |
| `Graphs.Graph.SetGraphVersion` | Graph.hpp:91 | only the version changes, and reads back |
| `Graphs.Graph.PushGraphEdges` | Graph.hpp:96 | appends the edge to graphEdges |
| `Graphs.Graph.PushGraphFunction` | Graph.cpp:12-15 | sets the function's graph and appends it to graphFunctions |
| `Graphs.Graph.AddEdge` | Graph.cpp:17-21 | the edge id goes to the from-instruction, then the to-instruction, then the edge to graphEdges |
| `Graphs.Graph.PushEdgeVersions` | Graph_Edge.hpp:61 | the version is appended to one edge |
| `Graphs.Graph.NewGraphLine` | Graph_Line.hpp:24 | a new empty line of the given version, at the next id |
| `Graphs.Graph.SetLineNumber` | Graph_Line.cpp:11-13 | a map insert on one line's numbers |
| `Graphs.Graph.PushLineInstruction` | Graph_Line.cpp:15-18 | the instruction's line is set and the instruction is appended to the line |
| `Graphs.Graph.NewGraphInstruction` | Graph_Instruction.hpp:27 | a new default instruction, at the next id |
| `Graphs.Graph.SetInstructionID` | Graph_Instruction.hpp:37 | sets one instruction's ID |
| `Graphs.Graph.SetInstructionLabel` | Graph_Instruction.hpp:42 | sets one instruction's label |
| `Graphs.Graph.SetInstructionPtr` | Graph_Instruction.hpp:47 | sets one instruction's LLVM pointer |
| `Graphs.Graph.InsertInstructionVisitedQueries` | Graph_Instruction.hpp:93 | adds a query to one instruction's visited set |
| `Graphs.Graph.NewGraphFunction` | Graph_Function.hpp:24 | a new function with the given id, at the next id |
| `Graphs.Graph.SetFunctionName` | Graph_Function.hpp:34 | sets one function's name |
| `Graphs.Graph.SetFunctionFile` | Graph_Function.hpp:39 | sets one function's file |
| `Graphs.Graph.PushFunctionLines` | Graph_Function.cpp:10-13 | the line's function is set and the line is appended to the function |
| `Graphs.Graph.PushFrontFunctionLines` | Graph_Function.cpp:15-18 | the line's function is set and the line is put at the front of the function |
| `Graphs.Graph.AddSeqEdges` | Graph.cpp:23-39 | the graph afterwards is the graph with the SEQUENTIAL edges of SeqEdges added, in order |
| `Graphs.Graph.AddSeqEdgeAt` | Graph.cpp:25-38 | one iteration adds the edge for one position or skips it |
| `Graphs.Graph.AddVirtualNode` | Graph.cpp:199-207 | creates a virtual node's line and instruction |
| `Graphs.Graph.AddVirtualNodes` | Graph.cpp:198-224 | the graph afterwards is VirtualNodesAdded (see VirtualNodesShape) |
| `Graphs.Graph.FindInstruction` | Graph.cpp:41-82 | the nested loops with early returns compute FindInFuncs over graphFunctions |
| `Graphs.Graph.FindVirtualEntry` | Graph.cpp:54-67 | the first instruction labelled with "Entry::" in a function of that name |
| `Graphs.Graph.FindVirtualExit` | Graph.cpp:69-82 | the first instruction labelled with "Exit::" in a function of that name |
| `Graphs.Graph.FindMatchedInstruction` | Graph.cpp:41-52 | the first instruction of any registered function whose LLVM pointer is the given one |
| `Graphs.Graph.CountNodes` | Graph.cpp:347-355 | the loop's count equals FunctionSizes (see FunctionSizesCount) |
| `Graphs.Graph.IsVirtualNodeLineNumber` | Graph.cpp:340-345 | true exactly for graphEntryID and graphExitID |
| `Graphs.Graph.CountEdges` | Graph.cpp:357-359 | the number of graph edges |
| `MvicfgLookup.NumberedLines` | MVICFG.cpp:225-230 | the lines of a function whose number at the version is lineNo: no more than the function has, and exactly those |
| `MvicfgLookup.LinesGivenLineCorrect` | MVICFG.cpp:219-239 | the result is all the matching lines of the first function of the file that has one, and is empty exactly when no function of the file has a line with that number |
| `MvicfgLookup.LinesGivenLineFirst` | MVICFG.cpp:232-235 | a non-empty result is the whole contribution of the first function of the file that contributes |
| `MvicfgLookup.LinesGivenLineEmpty` | MVICFG.cpp:219-239 | the result is empty exactly when no line of any function of the file carries the number |
| `MvicfgLookup.GraphLinesGivenLineCorrect` | MVICFG.cpp:219-239 | over graphFunctions: empty exactly when no line of the file has the number, and every line returned has it and lies in a function of the file |
| `MvicfgLookup.GraphLinesGivenLineSame` | MVICFG.cpp:219-239 | getGraphLinesGivenLine does not depend on edge versions |
| `MvicfgLookup.OtherEnds` | MVICFG.cpp:241-263 | the lines at the other ends of the selected edges: at most one per edge, and exactly those |
| `MvicfgLookup.PredLinesAre` | MVICFG.cpp:241-251 | a predecessor is exactly the line of the source of an edge, listed at the line's first instruction, that ends at that instruction |
| `MvicfgLookup.SuccLinesAre` | MVICFG.cpp:253-263 | a successor is exactly the line of the target of an edge, listed at the line's last instruction, that starts at that instruction |
| `MvicfgLookup.Opcodes` | MVICFG.cpp:268-273 | the opcode names of the instructions that have an LLVM instruction: empty exactly when none has one |
| `MvicfgLookup.SpacedIsJoin` | MVICFG.cpp:271-276 | appending "name " for each name and popping the last character joins the names by single spaces |
| `MvicfgLookup.JoinSpacedNonEmpty` | MVICFG.cpp:274-276 | joining non-empty names gives a non-empty string |
| `MvicfgLookup.LineStringIsJoin` | MVICFG.cpp:265-278 | a line's string is its opcode names joined by single spaces; it is empty when no instruction has an LLVM instruction, and (opcode names being non-empty) only then |
| `MvicfgLookup.TrimLeft` | MVICFG.cpp:290 | the leading white space removed and nothing else: a suffix that starts with a non-space |
| `MvicfgLookup.TrimRight` | MVICFG.cpp:290 | the trailing white space removed and nothing else: a prefix that ends with a non-space |
| `MvicfgLookup.Counts` | MVICFG.cpp:284-301 | one count of remaining opcodes per candidate, in order |
| `MvicfgLookup.ResolveKeeps` | MVICFG.cpp:302-305 | a best count that no later candidate beats is kept to the end (a tie does not replace it) |
| `MvicfgLookup.ResolveFinds` | MVICFG.cpp:284-306 | when some count beats the best so far, the loop ends on the first candidate with the fewest opcodes |
| `MvicfgLookup.ResolveMatchedPicks` | MVICFG.cpp:280-311 | for a non-empty list, the resolver picks the first candidate with the fewest remaining opcodes (ties keep the earliest); findMatchedLine only calls it with two or more candidates (MVICFG.cpp:365-369) |
| `MvicfgLookup.TranslatedLine` | MVICFG.cpp:321-345 | a virtual node keeps its sentinel number; towards an earlier version the number goes through getBeforeLineNumber and a deleted line (0) becomes unsigned MAX |
| `MvicfgLookup.FirstWithString` | MVICFG.cpp:351-357 | a line found is one of the candidates |
| `MvicfgLookup.FirstWithStringFinds` | MVICFG.cpp:351-357 | the line found is the first whose opcode string equals the query, and none is found only when no line has it |
| `MvicfgLookup.Pick` | MVICFG.cpp:351-372 | among a function's candidates: an exact opcode-string match first; a sole candidate otherwise; the heuristic pick otherwise; never NULL for a non-empty list |
| `MvicfgLookup.PickIn` | MVICFG.cpp:347-375 | a line found lies in a function of t's file and name and has the translated number; NULL exactly when no such line exists |
| `MvicfgLookup.FindMatchedLine` | MVICFG.cpp:313-378 | NULL for a diff of another file; a line found lies in a function of t's file and name of matchTo and carries the translated number; NULL otherwise only when no such line exists |
| `MvicfgLookup.FindMatchedLineSame` | MVICFG.cpp:313-378 | findMatchedLine reads line numbers, functions and opcode strings of matchTo, never its edge versions |
| `MvicfgLookup.FirstWithCandidates` | MVICFG.cpp:347-375 | the position of the first function with candidates: all earlier ones have none |
| `MvicfgLookup.PickInOrder` | MVICFG.cpp:347-375 | the first function of t's file and name with lines of the translated number decides, by Pick |
| `MvicfgLookup.FirstFitting` | MVICFG.cpp:381-391 | the first edge of the list that fits, and none before it fits |
| `MvicfgLookup.GetEdge` | MVICFG.cpp:380-393 | an edge found is in the from-instruction's list, goes from `from` to `to` and has the type unless ANY was asked for; NULL only when no edge of that list fits |
| `MvicfgLookup.EdgeToAnyIs` | MVICFG.cpp:400-405 | the first toLine instruction with an edge from the given instruction gives the result; none only when no such edge exists |
| `MvicfgLookup.InBetweenFromIs` | MVICFG.cpp:397-406 | the latest fromLine instruction that has an edge to toLine gives the result |
| `MvicfgLookup.GetEdgeSame` | MVICFG.cpp:380-393 | getEdge reads only endpoints and types, so its answer does not depend on edge versions |
| `MvicfgLookup.InBetweenEdgeSame` | MVICFG.cpp:395-408 | getInBetweenEdge does not depend on edge versions |
| `MvicfgLookup.InBetweenEdgeIs` | MVICFG.cpp:395-408 | getInBetweenEdge returns an edge between an instruction of fromLine and one of toLine, found from the latest instruction of fromLine that has one; NULL exactly when there is none |
| `MvicfgLookup.FirstNumbered` | MVICFG.cpp:418-422 | the first line with the number at the version; none only when no line has it |
| `MvicfgLookup.FirstNumberedIn` | MVICFG.cpp:415-424 | over the functions of the file: a line found has the number; none only when no line of the file has it |
| `MvicfgLookup.GetNewlyAdded` | MVICFG.cpp:410-427 | for an ICFG line whose number is an added line, the first MVICFG line of the same file carrying that number at the ICFG's version; NULL when the number is not added or no such line exists |
| `MvicfgLookup.MatchedInstructionFinds` | MVICFG.cpp:579-601 | the match is an instruction of a registered function of the target with the same LLVM instruction (a virtual node: whose line has the same number at the target's version); none only when no instruction of the target's functions has it |
| `MvicfgWire.RewiredRefl` | MVICFG.cpp:429-577 | a pass that wires nothing leaves a rewired graph (the relation every merge pass keeps is reflexive) |
| `MvicfgWire.RewiredTrans` | MVICFG.cpp:429-577 | wiring steps compose: adding edges and versions after adding edges and versions is again such a step |
| `MvicfgWire.RewiredWellFormed` | MVICFG.cpp:505-531 | adding edges between existing instructions and pushing versions keeps the graph well-formed |
| `MvicfgWire.ConnectedKept` | MVICFG.cpp:505-531 | an edge step never removes a connection or a version from an edge |
| `MvicfgWire.TypeFromIs` | MVICFG.cpp:508-527 | a new edge takes the type of the direct ICFG edge when there is one, else that of an edge between the two ICFG lines, else the fallback (MVICFG_ADD or MVICFG_DEL) |
| `MvicfgWire.WireEffect` | MVICFG.cpp:505-531 | addToMVICFG's wiring: an edge getEdge finds gains the version and nothing else changes; otherwise exactly one new edge of the type and version, listed at both ends |
| `MvicfgWire.LinkEffect` | MVICFG.cpp:704-729 | deleteFromMVICFG's wiring: an existing edge leaves the graph unchanged; otherwise exactly one new edge of the type and version is appended |
| `MvicfgWire.LinkAppends` | MVICFG.cpp:704-729 | deleteFromMVICFG's wiring never adds a version to an edge that exists |
| `MvicfgWire.AppendsTrans` | MVICFG.cpp:636-781 | appending edges composes over the steps of a pass |
| `MvicfgWire.WireRewired` | MVICFG.cpp:505-531 | addToMVICFG's wiring is an edge step of its version |
| `MvicfgWire.AddedEdgeRewired` | MVICFG.cpp:528-529 | adding one new edge between existing instructions is an edge step of its version |
| `MvicfgWire.LinkRewired` | MVICFG.cpp:704-729 | deleteFromMVICFG's wiring is an edge step of its version |
| `MvicfgWire.StampEdgeRewired` | MVICFG.cpp:853-855 | stamping an edge adds only the version, adds no edge, leaves the edge part of the version and never lists the version twice |
| `MvicfgWire.RestampsTrans` | MVICFG.cpp:894-969 | restamping composes over the steps of a pass |
| `MvicfgWire.StampEdgeIdempotent` | MVICFG.cpp:853-855 | stamping the same edge twice is stamping it once |
| `MvicfgWire.WireEdge` | MVICFG.cpp:505-531 | the wiring on the MVICFG object: its new state is Wire of the old one, and it stays valid |
| `MvicfgWire.LinkEdge` | MVICFG.cpp:704-729 | the delete pass's wiring on the MVICFG object: its new state is Link of the old one |
| `MvicfgWire.StampGraphEdge` | MVICFG.cpp:853-855 | the stamp on the MVICFG object: its new state is StampEdge of the old one |
| `MvicfgAdd.AdvanceAdd` | Graph.hpp:81 | n calls of getNextID and then m more make n + m calls |
| `MvicfgAdd.AdvanceNoWrap` | Graph.hpp:81 | without wrap-around the ids handed out are the next integers |
| `MvicfgAdd.Consecutive` | MVICFG.cpp:462-473 | the ids of n new arena entries: n of them |
| `MvicfgAdd.ConsecutiveIs` | MVICFG.cpp:462-473 | the j-th new entry is at first + j |
| `MvicfgAdd.FoundLinesAre` | MVICFG.cpp:435-442 | icfgN holds only ICFG lines of the diff's file numbered with an added line, and an added number that some such line carries is never skipped |
| `MvicfgAdd.FoundLinesSound` | MVICFG.cpp:435-442 | every found line lies in a function of the file and carries an added number |
| `MvicfgAdd.FoundLinesNonEmpty` | MVICFG.cpp:435-442 | a line of the file carrying an added number makes icfgN non-empty |
| `MvicfgAdd.FirstNamedIs` | MVICFG.cpp:446-450 | the find_if: the first registered function with the name, or none has the name |
| `MvicfgAdd.CopiedInstructions` | MVICFG.cpp:465-471 | copying instructions onto a line adds no line and no function |
| `MvicfgAdd.CopyLine` | MVICFG.cpp:443-474 | each added line copy appends exactly one line |
| `MvicfgAdd.CopyLines` | MVICFG.cpp:443-475 | one new line per found line |
| `MvicfgAdd.CopiedInstructionsShape` | MVICFG.cpp:465-471 | the copies are appended to the arena and to the line in order, with the label, the LLVM instruction and successive getNextID values; nothing else changes |
| `MvicfgAdd.NumberedNewLineIs` | MVICFG.cpp:462-464 | the new line has number 0 at the MVICFG's version and the ICFG number at the ICFG's version (the first set number wins when they coincide) |
| `MvicfgAdd.TargetIs` | MVICFG.cpp:444-460 | the target function is the registered one of the same name when it exists; otherwise an unregistered, unnamed function, after two getNextID calls (the shadowing declaration at :455) |
| `MvicfgAdd.CopyLineShape` | MVICFG.cpp:443-474 | the exact new state after one line copy: the new line, its instructions, the counter and the target function; edges and registrations unchanged |
| `MvicfgAdd.CopyLineCopies` | MVICFG.cpp:443-474 | the new line is a copy of the ICFG line |
| `MvicfgAdd.CopyLineWellFormed` | MVICFG.cpp:443-474 | a copy keeps the MVICFG well-formed |
| `MvicfgAdd.AppendedLineWellFormed` | MVICFG.cpp:462-472 | appending a line of fresh edge-less instructions to a function keeps the graph well-formed |
| `MvicfgAdd.CopyOfStable` | MVICFG.cpp:435-476 | later copies, which only append, do not disturb an earlier copy |
| `MvicfgAdd.CopiedAfterTrans` | MVICFG.cpp:435-476 | copying one batch of lines after another copies both, in order |
| `MvicfgAdd.CopyLinesShape` | MVICFG.cpp:443-475 | the k-th found line is copied to the k-th new line; old lines and instructions untouched, no edge changed, no function registered, well-formed |
| `MvicfgAdd.CopyAll` | MVICFG.cpp:435-476 | the first loop appends exactly one line per found line |
| `MvicfgAdd.FoundLinesNext` | MVICFG.cpp:435-437 | icfgN grows by the lines of each added number in turn |
| `MvicfgAdd.CopyAllShape` | MVICFG.cpp:435-476 | the whole first loop: the found lines, in order, are copied after the MVICFG's lines |
| `MvicfgAdd.CopyInstruction` | MVICFG.cpp:466-470 | one instruction copy on the MVICFG object |
| `MvicfgAdd.CopyInstructions` | MVICFG.cpp:465-471 | the instruction loop on the MVICFG object: new state is CopiedInstructions of the old |
| `MvicfgAdd.FindTarget` | MVICFG.cpp:444-460 | the find_if or allocation on the MVICFG object: new state and function are Target of the old state |
| `MvicfgAdd.CopyLineInto` | MVICFG.cpp:443-474 | one line copy on the MVICFG object; returns the new line's id |
| `MvicfgAdd.CopyGraphLines` | MVICFG.cpp:443-475 | the loop over one number's ICFG lines on the MVICFG object |
| `MvicfgAdd.CopyNumber` | MVICFG.cpp:436-475 | one pass over an added number: copies and the grown icfgN |
| `MvicfgAdd.CopyAddedLines` | MVICFG.cpp:435-476 | the first loop on the MVICFG object: new state is CopyAll of the old; returns icfgN and N, the lines appended in order |
| `MvicfgAdd.AddEdgeForEffect` | MVICFG.cpp:491-571 | one element of T wires at most one edge: when a wiring is chosen the connection exists in the version, and a missing edge is added with the chosen type; a skipped t changes nothing |
| `MvicfgAdd.AddEdgesForRewired` | MVICFG.cpp:491-572 | the loop over T only adds edges and versions of the pass's version |
| `MvicfgAdd.AddedNodeRewired` | MVICFG.cpp:477-573 | wiring one added line only adds edges and versions of the pass's version |
| `MvicfgAdd.AddedEdgesRewired` | MVICFG.cpp:477-574 | the second loop only adds edges and versions of the pass's version, between instructions that exist |
| `MvicfgAdd.CopyOfRewired` | MVICFG.cpp:477-574 | wiring edges does not disturb a copied line |
| `MvicfgAdd.CopiesSurvive` | MVICFG.cpp:477-574 | every copy made by the first loop is still a copy after the second |
| `MvicfgAdd.AddedShape` | MVICFG.cpp:429-577 | addToMVICFG: one new line per ICFG line carrying an added number, each a copy of it; lines and registrations otherwise unchanged; edges only gain the version; the graph stays well-formed |
| `MvicfgAdd.AddEdgeForLine` | MVICFG.cpp:492-571 | one element of T on the MVICFG object |
| `MvicfgAdd.AddEdgesForLines` | MVICFG.cpp:491-572 | the loop over T on the MVICFG object |
| `MvicfgAdd.AddNodeEdges` | MVICFG.cpp:478-573 | wiring one added line on the MVICFG object |
| `MvicfgAdd.AddEdgesForAdded` | MVICFG.cpp:477-574 | the second loop on the MVICFG object |
| `MvicfgAdd.AddedIs` | MVICFG.cpp:429-577 | the two loops together are addToMVICFG |
| `MvicfgAdd.AddToMVICFG` | MVICFG.cpp:429-577 | addToMVICFG on the MVICFG object: new state is Added of the old, and N is the appended lines in order |
| `MvicfgAddedEdges.RewiredLooksSame` | MVICFG.cpp:579-601 | adding edges and versions changes nothing that an instruction search reads |
| `MvicfgAddedEdges.InstSame` | MVICFG.cpp:585-595 | two such graphs agree on an instruction's LLVM instruction and line number |
| `MvicfgAddedEdges.MatchesSame` | MVICFG.cpp:585-595 | they agree on whether an instruction matches |
| `MvicfgAddedEdges.FindInInstsSame` | MVICFG.cpp:585-595 | they agree on the search over a line's instructions |
| `MvicfgAddedEdges.FindInLinesSame` | MVICFG.cpp:583-597 | they agree on the search over a function's lines |
| `MvicfgAddedEdges.FindInFuncsSame` | MVICFG.cpp:581-599 | they agree on the search over the functions |
| `MvicfgAddedEdges.MatchedSame` | MVICFG.cpp:579-601 | getMatchedInstructionFromGraph returns the same match on graphs that differ only in edges, as target or as source |
| `MvicfgAddedEdges.MatchedInGraph` | MVICFG.cpp:579-601 | a match found in a well-formed graph is an instruction of that graph |
| `MvicfgAddedEdges.GrowsTrans` | MVICFG.cpp:605-633 | appending edges composes over the loop's steps |
| `MvicfgAddedEdges.GrowsLooksSame` | MVICFG.cpp:615-621 | appending edges changes none of the later instruction searches |
| `MvicfgAddedEdges.JoinedKept` | MVICFG.cpp:626-630 | a join of two instructions by an edge of a type survives later edge steps |
| `MvicfgAddedEdges.CopyEdgeShape` | MVICFG.cpp:613-631 | carrying one ICFG edge over only appends edges, and afterwards the matches of its two ends are joined by an edge of its type |
| `MvicfgAddedEdges.CopyEdgeEffect` | MVICFG.cpp:613-631 | an edge with an unmatched end is skipped; otherwise a new edge of the ICFG's version and the ICFG edge's type is added exactly when getEdge finds none of that type |
| `MvicfgAddedEdges.CoversEdgesKept` | MVICFG.cpp:613-631 | joins made for earlier ICFG edges survive later appends |
| `MvicfgAddedEdges.CopyEdgesUpToShape` | MVICFG.cpp:613-631 | the loop over an instruction's ICFG edges only appends, stays well-formed and joins the matches of every edge it walked |
| `MvicfgAddedEdges.InstEdgesShape` | MVICFG.cpp:606-632 | an MVICFG instruction without an ICFG match changes nothing; otherwise all its match's edges are covered |
| `MvicfgAddedEdges.InstsUpToShape` | MVICFG.cpp:606-632 | the loop over a line's instructions covers every instruction walked |
| `MvicfgAddedEdges.LineEdgesShape` | MVICFG.cpp:605-633 | one added line: all its instructions are covered |
| `MvicfgAddedEdges.LinesUpToShape` | MVICFG.cpp:605-633 | the loop over the added lines covers every line walked |
| `MvicfgAddedEdges.AddedLineEdgesShape` | MVICFG.cpp:603-634 | getEdgesForAddedLines only appends edges of the ICFG's version, stays well-formed, and leaves every ICFG edge at an added line's instructions whose ends both match present between the matches with its type |
| `MvicfgAddedEdges.CopyIcfgEdge` | MVICFG.cpp:613-631 | one ICFG edge on the MVICFG object: new state is CopyEdge of the old |
| `MvicfgAddedEdges.CopyInstEdges` | MVICFG.cpp:606-632 | one instruction on the MVICFG object |
| `MvicfgAddedEdges.CopyLineEdges` | MVICFG.cpp:605-633 | one added line on the MVICFG object |
| `MvicfgAddedEdges.GetEdgesForAddedLines` | MVICFG.cpp:603-634 | getEdgesForAddedLines on the MVICFG object: new state is AddedLineEdges of the old |
| `MvicfgDelete.MarkLineStep` | MVICFG.cpp:651 | setLineNumber(ICFG version, 0) on one line marks exactly that line |
| `MvicfgDelete.MarksTrans` | MVICFG.cpp:641-655 | marking one batch of lines after another marks both |
| `MvicfgDelete.MarkLinesShape` | MVICFG.cpp:649-654 | the loop over the lines found for one deleted number marks exactly those lines |
| `MvicfgDelete.MarkAllShape` | MVICFG.cpp:641-655 | the first loop marks exactly the lines it collects in N, and changes nothing else |
| `MvicfgDelete.MarksWellFormed` | MVICFG.cpp:641-655 | marking changes only line numbers, so the MVICFG stays well-formed |
| `MvicfgDelete.MarkedReads` | MVICFG.cpp:651 | a marked line reads 0 at the new version unless it already had a number there (setLineNumber is a map insert); its other numbers are unchanged |
| `MvicfgDelete.MarksKeepNumbers` | MVICFG.cpp:651 | marking changes no line's number at any version: setLineNumber only writes 0 where no number is recorded, and a missing number reads 0 |
| `MvicfgDelete.MarksKeepLookup` | MVICFG.cpp:643 | a getGraphLinesGivenLine lookup in the graph marked so far gives the same lines as in the unmarked graph |
| `MvicfgDelete.MarkedLinesFound` | MVICFG.cpp:641-655 | N is, number by number, the lines getGraphLinesGivenLine finds in the unmarked MVICFG for the deleted numbers: the collection the add pass makes for added numbers |
| `MvicfgDelete.MarkedLinesAre` | MVICFG.cpp:641-655 | N holds only lines of registered MVICFG functions of the diff's file whose number at the MVICFG's version is a deleted line; a deleted number that such a line carries always yields lines |
| `MvicfgDelete.MarkAllNext` | MVICFG.cpp:641-655 | N grows by the lines found for each deleted number in turn, each looked up in the graph as marked so far |
| `MvicfgDelete.LinkForEffect` | MVICFG.cpp:687-766 | one line of MDash at most links one pair: afterwards an edge joins the chosen instructions; it is new, of the chosen type and version, exactly when none joined them before; an existing edge is left alone |
| `MvicfgDelete.LinksForAppends` | MVICFG.cpp:687-766 | the loop over MDash only appends edges of the pass's version |
| `MvicfgDelete.ForNeighbourAppends` | MVICFG.cpp:669-773 | one element of T only appends edges of the pass's version |
| `MvicfgDelete.ForNeighboursAppends` | MVICFG.cpp:668-774 | the loop over T only appends edges of the pass's version |
| `MvicfgDelete.ForLineAppends` | MVICFG.cpp:660-775 | one line of a function only appends edges of the pass's version |
| `MvicfgDelete.ForLinesAppends` | MVICFG.cpp:659-776 | the loop over a function's lines only appends edges of the pass's version |
| `MvicfgDelete.ForFunctionAppends` | MVICFG.cpp:657-777 | one function (skipped outside the diff's file) only appends edges of the pass's version |
| `MvicfgDelete.ForFunctionsAppends` | MVICFG.cpp:656-778 | the second loop only adds edges of the pass's version between existing instructions; every edge the graph had stays exactly as it was |
| `MvicfgDelete.DeletedShape` | MVICFG.cpp:636-781 | deleteFromMVICFG: N holds only lines of the diff's file carrying a deleted number at the MVICFG's version, and is non-empty when such a line exists; the lines of N are marked deleted at the new version and nothing else about lines changes; then only new edges of the pass's version appear; the result is well-formed |
| `MvicfgDelete.MarkGraphLines` | MVICFG.cpp:649-654 | the marking loop on the MVICFG object: new state is MarkLines of the old |
| `MvicfgDelete.MarkNumber` | MVICFG.cpp:642-654 | one deleted number on the MVICFG object: marks and the grown N |
| `MvicfgDelete.MarkDeletedLines` | MVICFG.cpp:641-655 | the first loop on the MVICFG object: new state is MarkAll of the old; returns N, which holds only lines of the diff's file carrying a deleted number |
| `MvicfgDelete.LinkLine` | MVICFG.cpp:688-765 | one line of MDash on the MVICFG object: new state is LinkFor of the old |
| `MvicfgDelete.LinkMatched` | MVICFG.cpp:695-760 | the link once the MVICFG line m is known |
| `MvicfgDelete.LinkLines` | MVICFG.cpp:687-766 | the loop over MDash on the MVICFG object |
| `MvicfgDelete.LinkNeighbour` | MVICFG.cpp:669-773 | one element of T on the MVICFG object |
| `MvicfgDelete.LinkNeighbours` | MVICFG.cpp:668-774 | the loop over T on the MVICFG object |
| `MvicfgDelete.LinkSurvivor` | MVICFG.cpp:660-775 | one line of a function on the MVICFG object |
| `MvicfgDelete.LinkSurvivors` | MVICFG.cpp:659-776 | the loop over a function's lines on the MVICFG object |
| `MvicfgDelete.LinkFunction` | MVICFG.cpp:657-777 | one function on the MVICFG object |
| `MvicfgDelete.LinkFunctions` | MVICFG.cpp:656-778 | the second loop on the MVICFG object, over the functions registered at its start |
| `MvicfgDelete.DeletedIs` | MVICFG.cpp:636-781 | the two loops together are deleteFromMVICFG |
| `MvicfgDelete.DeleteFromMVICFG` | MVICFG.cpp:636-781 | deleteFromMVICFG on the MVICFG object: new state is Deleted of the old; N is MarkedLines and holds only lines of the diff's file carrying a deleted number at the MVICFG's version |
| `MvicfgMatched.Entries` | MVICFG.cpp:784-791 | the std::map's entries in ascending key order: one per key, each with its value |
| `MvicfgMatched.EntriesCover` | MVICFG.cpp:789 | every matched pair of the diff is visited by the loop |
| `MvicfgMatched.LineLists` | MVICFG.cpp:792-797 | one pair of line lists per entry |
| `MvicfgMatched.ZipOk` | MVICFG.cpp:809-813 | walking two equally long line lists side by side keeps mvicfgM and the map's keys the same lines, and pairs only lines at the same place in one entry's lists |
| `MvicfgMatched.PairsUpToOk` | MVICFG.cpp:789-815 | the first loop keeps mvicfgM and the map's keys the same lines, and every recorded pair comes from one entry's lists of equal length |
| `MvicfgMatched.StampForEffect` | MVICFG.cpp:824-888 | one neighbour stamps at most one edge, which then is part of the version; no edge is added and no other edge changes |
| `MvicfgMatched.StampsUpToRestamps` | MVICFG.cpp:824-889 | the loop over T only gives existing edges the version |
| `MvicfgMatched.StampedPairsRestamps` | MVICFG.cpp:816-890 | the second loop adds no edge and changes no edge list; it only gives existing edges the version, never twice |
| `MvicfgMatched.MatchedShape` | MVICFG.cpp:783-892 | matchedInMVICFG: every recorded pair comes from one diff entry, mvicfgM and the map hold the same ICFG lines; no edge or line is added, edges only gain the version, and the graph stays well-formed; an edge is in the version afterwards exactly when it was before or some ICFG line of the map has a predecessor or successor whose match the pass joins to the line's partner by that edge (`MatchedHit`); see also `MatchedEdges` and `MatchedIdempotent` |
| `MvicfgMatched.RestampsOnlyVersions` | MVICFG.cpp:816-890 | stamping changes nothing but edge versions: lines, functions, instructions, and every edge's endpoints and type stay as they were |
| `MvicfgMatched.StampTargetSame` | MVICFG.cpp:825-888 | the edge a neighbour leads to (findMatchedLine, then getEdge, then getInBetweenEdge) is the same at every step of the pass, since none of them reads edge versions |
| `MvicfgMatched.StampsUpToAs` | MVICFG.cpp:824-889 | the loop over T leaves each edge as it was, or stamps it once with the version exactly when some neighbour in T leads to it |
| `MvicfgMatched.StampedPairsAs` | MVICFG.cpp:816-890 | the loop over the pairs leaves each edge as it was, or stamps it once with the version exactly when a neighbour of some walked ICFG line leads to it |
| `MvicfgMatched.MatchedEdges` | MVICFG.cpp:816-890 | after matchedInMVICFG, every edge is the old edge, with the version pushed exactly when the pass expects it (`MatchedHit`) and the edge lacked it; no edge is added |
| `MvicfgMatched.MatchedIdempotent` | MVICFG.cpp:853-880 | running matchedInMVICFG a second time with the same diff and version changes nothing: the same pairs are found and every edge it expects already has the version |
| `MvicfgMatched.MatchedOnlyVersions` | MVICFG.cpp:783-892 | matchedInMVICFG changes nothing but edge versions, keeps the graph well-formed, and on its own result finds the same pairs again |
| `MvicfgMatched.ZipLines` | MVICFG.cpp:809-813 | the side-by-side loop: its result is Zip over the whole lists |
| `MvicfgMatched.CollectEntry` | MVICFG.cpp:790-814 | the body of the first loop on one entry, with its skips for a missing line and mismatched counts |
| `MvicfgMatched.CollectNext` | MVICFG.cpp:789-815 | one more entry of the first loop |
| `MvicfgMatched.CollectFrom` | MVICFG.cpp:789-815 | the first loop over a list of entries |
| `MvicfgMatched.CollectMatched` | MVICFG.cpp:784-815 | the first loop over the diff's matched lines: its result is MatchedPairs |
| `MvicfgMatched.StampNeighbour` | MVICFG.cpp:825-888 | one element of T on the MVICFG object: new state is StampFor of the old |
| `MvicfgMatched.StampPair` | MVICFG.cpp:817-889 | the loop over T for one pair on the MVICFG object |
| `MvicfgMatched.StampPairs` | MVICFG.cpp:816-890 | the second loop on the MVICFG object, in ascending order of the ICFG lines |
| `MvicfgMatched.MatchedInMVICFG` | MVICFG.cpp:783-892 | matchedInMVICFG on the MVICFG object: new state is Matched of the old; returns matchedGraphLines |
| `MvicfgPaths.Dfs` | MVICFG.cpp:18-57 | dfsPath puts the instruction into visited before exploring, adds only new instructions besides it, and counts no negative number of paths |
| `MvicfgPaths.DfsEdges` | MVICFG.cpp:31-54 | the loop over the instruction's edges only grows visited, with new instructions only |
| `MvicfgPaths.DfsEdgesCountsExits` | MVICFG.cpp:31-54 | every edge leaving for an instruction that is not new counts one path, whatever the rest of the walk does |
| `MvicfgPaths.DfsCountsExits` | MVICFG.cpp:18-57 | dfsPath counts at least one path per edge leaving the instruction for an old instruction |
| `MvicfgPaths.DfsEdgesAllVisited` | MVICFG.cpp:31-54 | with every new instruction visited the loop counts exactly the edges leaving the instruction and visits nothing more |
| `MvicfgPaths.DfsAllVisited` | MVICFG.cpp:18-57 | once every new instruction is visited dfsPath does not recurse: it counts one path per outgoing edge |
| `MvicfgPaths.MatchesOf` | MVICFG.cpp:65-68 | one match per instruction of the line |
| `MvicfgPaths.LineMatches` | MVICFG.cpp:64-69 | one list of matches per line |
| `MvicfgPaths.FoundUpToAre` | MVICFG.cpp:65-68 | an instruction is inserted exactly when it is the match of one of the instructions walked |
| `MvicfgPaths.FoundInAre` | MVICFG.cpp:64-69 | an instruction is collected exactly when it is the match of an instruction of one of the lines walked |
| `MvicfgPaths.NewInstructionsAre` | MVICFG.cpp:64-69 | newInstructions holds exactly the matches of the instructions of the given lines |
| `MvicfgPaths.ReportFrom` | MVICFG.cpp:73-90 | the loop of reportPaths only grows visited and counts no negative number |
| `MvicfgPaths.ReportFromVisits` | MVICFG.cpp:73-90 | every instruction walked that has an edge into it is visited by the end; when all are new only new instructions are visited |
| `MvicfgPaths.ReportVisits` | MVICFG.cpp:59-93 | reportPaths walks from every new instruction with an edge into it, visits nothing but new instructions and returns a count of at least 0 |
| `MvicfgPaths.GetMatchedInstructionFromGraph` | MVICFG.cpp:579-601 | the search on the MVICFG object returns MatchedInstruction of its state |
| `MvicfgPaths.DfsPath` | MVICFG.cpp:18-57 | dfsPath on the MVICFG object with visited passed in and handed back: its count and visited set are Dfs's |
| `MvicfgPaths.InsertMatches` | MVICFG.cpp:65-68 | the inner loop inserts the found matches of a line's instructions |
| `MvicfgPaths.CollectNewInstructions` | MVICFG.cpp:64-69 | the first loop of reportPaths: its set is NewInstructions |
| `MvicfgPaths.ReportPaths` | MVICFG.cpp:59-93 | reportPaths on the MVICFG object: the count Report gives |
| `MvicfgUpdate.FindDiff` | MVICFG.cpp:898-899 | the find_if over diffMap: the first Diff_Mapping of the file, or none has the file |
| `MvicfgUpdate.RenumbersTrans` | MVICFG.cpp:897-938 | renumbering steps compose |
| `MvicfgUpdate.TargetSame` | MVICFG.cpp:906-923 | the number chosen for a line reads only what renumbering leaves unchanged |
| `MvicfgUpdate.RenumberLineStep` | MVICFG.cpp:901-925 | one line gets the number chosen for it at the new version unless it had one (setLineNumber is a map insert); other lines unchanged |
| `MvicfgUpdate.RenumbersWellFormed` | MVICFG.cpp:897-938 | renumbering keeps the graph well-formed |
| `MvicfgUpdate.NumberedLinesStep` | MVICFG.cpp:901-925 | the loop over a function's lines keeps every earlier chosen line numbered |
| `MvicfgUpdate.SoundLinesStep` | MVICFG.cpp:901-925 | the loop over a function's lines adds only chosen numbers |
| `MvicfgUpdate.RenumberLinesShape` | MVICFG.cpp:900-935 | the loop over a function's lines only adds numbers for the new version, numbers every line it chooses a number for, and every added number is the chosen one |
| `MvicfgUpdate.NumberedAllStep` | MVICFG.cpp:897-938 | the loop over functions keeps earlier functions' lines numbered |
| `MvicfgUpdate.SoundAllStep` | MVICFG.cpp:897-938 | the loop over functions adds only chosen numbers |
| `MvicfgUpdate.RenumberUpToShape` | MVICFG.cpp:897-938 | the first loop: only numbers for the new version are added, every chosen line is numbered, each with its chosen number |
| `MvicfgUpdate.RenumberLineFixed` | MVICFG.cpp:906-923 | renumbering a line that already has its number changes nothing |
| `MvicfgUpdate.RenumberLinesFixed` | MVICFG.cpp:901-925 | a renumbered function's lines are left as they are by a second pass |
| `MvicfgUpdate.RenumberUpToFixed` | MVICFG.cpp:897-938 | a renumbered graph's functions are left as they are by a second pass |
| `MvicfgUpdate.RenumberedIdempotent` | MVICFG.cpp:897-938 | the renumbering loop is idempotent |
| `MvicfgUpdate.SourcesUpToAre` | MVICFG.cpp:940-949 | an instruction is collected into mvicfgAddEdgesNodes exactly when some edge leaves it for an instruction of an added line |
| `MvicfgUpdate.StampStepAs` | MVICFG.cpp:950-968 | one edge of the third loop is stamped exactly when it is to join the version |
| `MvicfgUpdate.StampUpToAs` | MVICFG.cpp:950-968 | the third loop changes only edges, and stamps each walked edge that is to join the version |
| `MvicfgUpdate.StampUpToRestamps` | MVICFG.cpp:950-968 | the third loop adds versions to existing edges only, never twice |
| `MvicfgUpdate.StampedShape` | MVICFG.cpp:950-968 | after the third loop an edge is part of the version exactly when it was, or both its ends lie on lines numbered in the version and its source is not collected; lines unchanged; well-formed |
| `MvicfgUpdate.StampedFixedAt` | MVICFG.cpp:962-964 | a stamped edge is left as it is by stamping again |
| `MvicfgUpdate.StampedIdempotent` | MVICFG.cpp:950-968 | the third loop is idempotent |
| `MvicfgUpdate.UpdateShape` | MVICFG.cpp:894-969 | updateMVICFGVersion: lines only gain numbers for the new version, each chosen line has one and each gained number is chosen; no edge is added; an edge is in the new version exactly when it was or it is to join it |
| `MvicfgUpdate.RenumberLinesUnmapped` | MVICFG.cpp:926-937 | a function whose file has no diff and is not the external node's is left as it is |
| `MvicfgUpdate.FindFileDiff` | MVICFG.cpp:898-899 | the find_if as a loop: its result is FindDiff |
| `MvicfgUpdate.SetGraphLineNumber` | Graph_Line.cpp:11-13 | setLineNumber on the MVICFG object: a map insert, so a number already set at the version is kept |
| `MvicfgUpdate.RenumberMappedLine` | MVICFG.cpp:902-924 | one line of a file with a diff on the MVICFG object |
| `MvicfgUpdate.KeepExternalLine` | MVICFG.cpp:929-933 | one line of the external node's function keeps its number in the new version |
| `MvicfgUpdate.RenumberGraphFunction` | MVICFG.cpp:898-937 | one function on the MVICFG object: new state is RenumberFunction of the old |
| `MvicfgUpdate.RenumberGraph` | MVICFG.cpp:897-938 | the first loop on the MVICFG object: new state is Renumbered of the old |
| `MvicfgUpdate.CollectSources` | MVICFG.cpp:940-949 | the second loop: mvicfgAddEdgesNodes as Sources gives it |
| `MvicfgUpdate.StampIfActive` | MVICFG.cpp:951-967 | one edge of the third loop on the MVICFG object |
| `MvicfgUpdate.StampActiveEdges` | MVICFG.cpp:950-968 | the third loop on the MVICFG object: new state is Stamped of the old |
| `MvicfgUpdate.UpdateMVICFGVersion` | MVICFG.cpp:894-969 | updateMVICFGVersion on the MVICFG object: new state is Updated of the old |
| `GraphEdgeIterator.Reversed` | Graph_Edge_Iterator.cpp:23-25 | pushing the entry's edges in reverse order leaves them on the stack with the first on top |
| `GraphEdgeIterator.Start` | Graph_Edge_Iterator.cpp:14-30 | the constructor: finished (no current edge, empty stack) exactly when the function has no virtual entry; otherwise the entry's first edge is current and visited, and the others are stacked with the second on top |
| `GraphEdgeIterator.FirstOutInCorrect` | Graph_Edge_Iterator.cpp:46-53 | the search finds the first outgoing unvisited edge of the list, and none exactly when there is no such edge |
| `GraphEdgeIterator.FirstOutCorrect` | Graph_Edge_Iterator.cpp:46-53 | the same over the edges of the current edge's target |
| `GraphEdgeIterator.SeekCorrect` | Graph_Edge_Iterator.cpp:43-68 | the search loop yields a fresh outgoing edge of the edge on top of the new stack, which is a prefix of the old stack plus the current edge; it finishes with an empty stack exactly when neither the current edge nor any stacked one has a fresh outgoing edge |
| `GraphEdgeIterator.AdvanceCorrect` | Graph_Edge_Iterator.cpp:32-74 | a finished iterator is left alone; a step yields an unvisited edge leaving the current or a stacked edge and adds exactly it to visited, or finishes with an empty stack exactly when nothing fresh remains |
| `GraphEdgeIterator.AdvanceOnVisited` | Graph_Edge_Iterator.cpp:32-74 | the current edge is always a visited one |
| `GraphEdgeIterator.YieldsFresh` | Graph_Edge_Iterator.cpp:32-74 | over any number of steps the edges yielded were unvisited, end up visited, and are pairwise distinct |
| `GraphEdgeIterator.WalkDistinct` | Graph_Edge_Iterator.cpp:14-74 | a walk from the constructor never yields an edge twice, nor the first edge again |
| `GraphEdgeIterator.FinishedStays` | Graph_Edge_Iterator.cpp:35-36 | a finished iterator stays finished under any number of increments and yields nothing |
| `GraphEdgeIterator.StackedEdgeNeverYielded` | Graph_Edge_Iterator.cpp:23-66 | for an entry with two outgoing edges whose targets have no edges, the second edge is stacked by the constructor, popped back as current_edge by the first increment, which then finishes; that edge is never yielded nor visited |
| `GraphEdgeIterator.SearchOutgoing` | Graph_Edge_Iterator.cpp:46-53 | the filtered loop over the target's edges: its result is FirstOut |
| `GraphEdgeIterator.EdgeIterator.constructor` | Graph_Edge_Iterator.cpp:14-30 | the constructor's state is Start of the graph and the function's name |
| `GraphEdgeIterator.EdgeIterator.Increment` | Graph_Edge_Iterator.cpp:32-74 | operator++: the new state is Advance of the old |

## Left out

- **LLVM extraction.** `buildICFG`, `getLocationInfo`, `addBranchEdges` and
  `addFunctionCallEdges` need the LLVM module, so the ICFG of a version is an
  input (`Pass.icfg`). An `llvm::Instruction*` is an optional record: an
  opaque handle, the opcode name and an is-branch flag.
- **File reading and the driver.** `generateLineMapping`'s file reading, the
  `Module` and `Get_Input` classes, `Hydrogen.cpp` and the Python scripts do
  input and orchestration only. The calls `generateLineMapping` makes into
  `Diff_Util` and `Diff_Mapping` are modelled as those classes' methods.
- **Output.** `printGraph`, the `Diff_Mapping` print functions, `std::cerr`
  and the verbose `std::cout` output are output only. The heuristic
  resolver's warning when more than two opcodes remain is a message only.
- **Never defined.** `calculateAddedPaths` and `calculateDeletedPaths` are
  declared in MVICFG.hpp but never defined.
- **The iterator header.** Graph_Edge_Iterator.hpp declares a class whose name
  and constructor do not match Graph_Edge_Iterator.cpp. The model follows the
  .cpp.
- **`operator*`.** Graph_Edge_Iterator.cpp:76 only reads `current_edge`,
  which is the `currentEdge` field of `EdgeIterator`.
- **The default `Graph_Edge()` constructor.** It makes edges with null
  endpoints, and the core never uses it. Edge endpoints are arena indices.
- **The `SES_TYPE` values.** -1/0/1 are an enumeration `SesType`.
  `elemInfo::operator==` is datatype equality. `Diff_Compare::impl` is
  string equality.
- **Arguments passed by value.** The source passes the ICFG, the mapping and
  the lists by value or by pointer without changing them. The model passes
  them as values; the MVICFG is the only object the passes change.
- **`getEdgesForAddedLines`' unused parameters.** It never reads `diffMap` or
  `Version`: the edges it adds carry the ICFG's version. The model leaves both
  out.
- **Undefined behaviour.** The model gives a defined result where the code's
  result is undefined:
  - `GraphEdgeIterator.Start` requires `StartOk`: a virtual entry with no
    edges makes the constructor call `top()` on an empty stack
    (Graph_Edge_Iterator.cpp:27);
  - an endpoint outside the graph (a dangling pointer in C++) leaves the graph
    unchanged (`Wire`, `Link`, `MarkLine`, `SetNumber`);
  - `front()` or `back()` of an empty instruction list reads a fixed value;
  - in `reportPaths`, an instruction without a match adds nothing to
    `newInstructions`, and an edge whose target has no match ends a path.
    The source would insert and later follow a NULL pointer;
  - `MvicfgLookup.ResolveMatched` answers None for an empty candidate list.
    There the source leaves `tmp` NULL and `minDiff` at INT_MAX, so the
    check at MVICFG.cpp:307 passes and :308 dereferences NULL. No call
    reaches this, because findMatchedLine passes two or more candidates
    (MVICFG.cpp:365-369).
- MvicfgPaths.DfsPath: the `int` path counter is unbounded. The model does not
  wrap it at 2^31.
- MvicfgPaths.ReportPaths: the same unbounded `int` counter.
- Graphs.Graph.CountNodes: the count is an unbounded `nat`. The source adds
  the `size()` of every line into an `int`, which can overflow; signed
  overflow is undefined in C++, so the model gives the exact count.
- Graphs.Graph.CountEdges: the result is the exact `size()` of the edge list
  as a `nat`. The conversion of that `size_t` to `int` is not modelled, and
  neither is its truncation above 2^31 - 1.
- DiffUtil.DiffUtil.Compose: the script is proved to be a correct edit
  script, but not a shortest one. The O(NP) optimality of the search is not
  stated, and only the identical-file case of it is proved. Once the record
  cap makes compose restart, the script is in general not minimal, since
  each restart commits to the path found so far.
- Common.ToUnsigned: the argument is any integer, not only a 64-bit
  `long long`. It is reduced modulo 2^32, as the conversion to `unsigned`
  does.
- MvicfgPaths.ReportVisits: states which instructions the walk visits, not
  the exact count, which is stated only by `Report` itself.
- MvicfgPaths.DfsCountsExits: a lower bound on the count, one per edge to an
  old instruction; the exact count is stated only by `Dfs` itself.
- GraphEdgeIterator.WalkDistinct: no edge is yielded twice. Yielding every
  edge reachable from the entry is not stated, and it does not hold for this
  code: see "Edges the iterator skips" above and `StackedEdgeNeverYielded`.
- GraphEdgeIterator.AdvanceCorrect: the walk ends exactly when no fresh
  outgoing edge remains for the current edge or any stacked edge. Reaching
  everything reachable is not stated, and does not hold (`StackedEdgeNeverYielded`).
- MvicfgLookup.LineStringIsJoin: the string is empty only when no
  instruction has an LLVM instruction, on the hypothesis that opcode names are
  non-empty. LLVM guarantees that; the model does not.
- **The external node.** The external-node setup (Graph.cpp:126-137) is part
  of `addFunctionCallEdges` and is not modelled. Its function file
  `"External_Node_File"` appears only where updateMVICFGVersion tests for it.
