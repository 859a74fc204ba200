// Diff_Mapping: the per-file projection of an edit script into the lines
// that were added, the lines that were deleted and the before -> after
// correspondence of the common lines, together with the two line-number
// lookups the graph merge uses.
module DiffMapping {
  import opened Common
  import opened DiffSes

  /** The position records of the entries, in order. */
  function Infos(s: seq<SesElem>): (r: seq<ElemInfo>)
    ensures |r| == |s| && forall k | 0 <= k < |s| :: r[k] == s[k].info
  {
    seq(|s|, k requires 0 <= k < |s| => s[k].info)
  }

  /** The after-line numbers of the Add entries, in order. */
  function Added(s: seq<SesElem>): seq<int>
    decreases |s|
  {
    if s == [] then []
    else Added(s[..|s| - 1]) + (if s[|s| - 1].info.sesType == Add then [s[|s| - 1].info.afterIdx] else [])
  }

  /** The before-line numbers of the Delete entries, in order. */
  function Deleted(s: seq<SesElem>): seq<int>
    decreases |s|
  {
    if s == [] then []
    else Deleted(s[..|s| - 1]) + (if s[|s| - 1].info.sesType == Delete then [s[|s| - 1].info.beforeIdx] else [])
  }

  /** `m` after std::map::insert of (beforeIdx, afterIdx) for every Common
    * entry of `s`, in order: a key already present keeps its value. */
  function Matched(m: map<int, int>, s: seq<SesElem>): map<int, int>
    decreases |s|
  {
    if s == [] then m
    else
      var m' := Matched(m, s[..|s| - 1]);
      var e := s[|s| - 1].info;
      if e.sesType == Common then MapInsert(m', e.beforeIdx, e.afterIdx) else m'
  }

  /** `s[k]` is a Common entry for the before-line `key`. */
  predicate CommonAt(s: seq<SesElem>, k: int, key: int)
  {
    0 <= k < |s| && s[k].info.sesType == Common && s[k].info.beforeIdx == key
  }

  /** getAfterLineNumber: the afterIdx of the first record whose beforeIdx is
    * `c`, whatever its type; unsigned MAX when there is none. */
  function AfterLineOf(lm: seq<ElemInfo>, c: int): (r: int)
    ensures (forall k | 0 <= k < |lm| :: lm[k].beforeIdx != c) ==> r == UINT_MAX
    ensures forall k | 0 <= k < |lm| && lm[k].beforeIdx == c ::
              (forall k' | 0 <= k' < k :: lm[k'].beforeIdx != c) ==> r == lm[k].afterIdx
    decreases |lm|
  {
    if lm == [] then UINT_MAX
    else if lm[0].beforeIdx == c then lm[0].afterIdx
    else
      var r := AfterLineOf(lm[1..], c);
      assert forall k | 1 <= k < |lm| :: lm[k] == lm[1..][k - 1];
      r
  }

  /** getBeforeLineNumber: the beforeIdx of the first record whose afterIdx is
    * `c`, whatever its type; unsigned MAX when there is none. */
  function BeforeLineOf(lm: seq<ElemInfo>, c: int): (r: int)
    ensures (forall k | 0 <= k < |lm| :: lm[k].afterIdx != c) ==> r == UINT_MAX
    ensures forall k | 0 <= k < |lm| && lm[k].afterIdx == c ::
              (forall k' | 0 <= k' < k :: lm[k'].afterIdx != c) ==> r == lm[k].beforeIdx
    decreases |lm|
  {
    if lm == [] then UINT_MAX
    else if lm[0].afterIdx == c then lm[0].beforeIdx
    else
      var r := BeforeLineOf(lm[1..], c);
      assert forall k | 1 <= k < |lm| :: lm[k] == lm[1..][k - 1];
      r
  }

  /** addedLines holds exactly the after-lines of the Add entries. */
  lemma {:induction false} AddedIn(s: seq<SesElem>, x: int)
    ensures x in Added(s) <==> exists k | 0 <= k < |s| :: s[k].info.sesType == Add && s[k].info.afterIdx == x
    decreases |s|
  {
    if s != [] {
      var s' := s[..|s| - 1];
      AddedIn(s', x);
      assert forall k | 0 <= k < |s'| :: s'[k] == s[k];
    }
  }

  /** deletedLines holds exactly the before-lines of the Delete entries. */
  lemma {:induction false} DeletedIn(s: seq<SesElem>, x: int)
    ensures x in Deleted(s) <==> exists k | 0 <= k < |s| :: s[k].info.sesType == Delete && s[k].info.beforeIdx == x
    decreases |s|
  {
    if s != [] {
      var s' := s[..|s| - 1];
      DeletedIn(s', x);
      assert forall k | 0 <= k < |s'| :: s'[k] == s[k];
    }
  }

  /** A key that is already in the map is never overwritten. */
  lemma {:induction false} MatchedKeeps(m: map<int, int>, s: seq<SesElem>, key: int)
    requires key in m
    ensures key in Matched(m, s) && Matched(m, s)[key] == m[key]
    decreases |s|
  {
    if s != [] {
      MatchedKeeps(m, s[..|s| - 1], key);
    }
  }

  /** The keys of matchedLines: the old keys and the before-lines of the Common entries. */
  lemma {:induction false} MatchedDomain(m: map<int, int>, s: seq<SesElem>, key: int)
    ensures key in Matched(m, s) <==> key in m || exists k :: CommonAt(s, k, key)
    decreases |s|
  {
    if s != [] {
      var s' := s[..|s| - 1];
      MatchedDomain(m, s', key);
      assert forall k :: CommonAt(s', k, key) <==> k < |s'| && CommonAt(s, k, key);
      if exists k :: CommonAt(s, k, key) {
        var k :| CommonAt(s, k, key);
        if k < |s'| {
          assert CommonAt(s', k, key);
        }
      }
      if s[|s| - 1].info.sesType == Common && s[|s| - 1].info.beforeIdx == key {
        assert CommonAt(s, |s| - 1, key);
      }
    }
  }

  /** A new key maps to the after-line of the FIRST Common entry carrying it. */
  lemma {:induction false} MatchedFirst(m: map<int, int>, s: seq<SesElem>, key: int, k: int)
    requires key !in m && CommonAt(s, k, key)
    requires forall k' | 0 <= k' < k :: !CommonAt(s, k', key)
    ensures key in Matched(m, s) && Matched(m, s)[key] == s[k].info.afterIdx
    decreases |s|
  {
    var s' := s[..|s| - 1];
    assert forall k' :: CommonAt(s', k', key) <==> k' < |s'| && CommonAt(s, k', key);
    if k < |s'| {
      assert CommonAt(s', k, key);
      MatchedFirst(m, s', key, k);
    } else {
      assert forall k' :: !CommonAt(s', k', key);
      MatchedDomain(m, s', key);
    }
  }

  /** For a Common record whose two line numbers occur in no other record,
    * the two lookups are inverse to each other. */
  lemma CommonRoundTrip(lm: seq<ElemInfo>, k: int)
    requires 0 <= k < |lm| && lm[k].sesType == Common
    requires forall k' | 0 <= k' < |lm| && k' != k :: lm[k'].beforeIdx != lm[k].beforeIdx
    requires forall k' | 0 <= k' < |lm| && k' != k :: lm[k'].afterIdx != lm[k].afterIdx
    ensures AfterLineOf(lm, lm[k].beforeIdx) == lm[k].afterIdx
    ensures BeforeLineOf(lm, AfterLineOf(lm, lm[k].beforeIdx)) == lm[k].beforeIdx
  {
  }

  // ---- Facts about complete scripts -------------------------------------

  /** The before-side entry `s[k]` names the next old-file line after those
    * consumed by the entries ahead of it. */
  lemma BeforeRank(s: seq<SesElem>, a: seq<string>, b: seq<string>, i: nat, j: nat, k: int)
    requires ScriptUpTo(s, a, b, i, j) && 0 <= k < |s| && OnBeforeSide(s[k].info.sesType)
    ensures s[k].info.beforeIdx == |BeforeIdxs(s[..k])| + 1
  {
    assert s == s[..k] + [s[k]] + s[k + 1..];
    BeforeIdxsAppend(s[..k] + [s[k]], s[k + 1..]);
    BeforeIdxsAppend(s[..k], [s[k]]);
    assert [s[k]][..0] == [];
    assert BeforeIdxs(s)[|BeforeIdxs(s[..k])|] == s[k].info.beforeIdx;
  }

  lemma AfterRank(s: seq<SesElem>, a: seq<string>, b: seq<string>, i: nat, j: nat, k: int)
    requires ScriptUpTo(s, a, b, i, j) && 0 <= k < |s| && OnAfterSide(s[k].info.sesType)
    ensures s[k].info.afterIdx == |AfterIdxs(s[..k])| + 1
  {
    assert s == s[..k] + [s[k]] + s[k + 1..];
    AfterIdxsAppend(s[..k] + [s[k]], s[k + 1..]);
    AfterIdxsAppend(s[..k], [s[k]]);
    assert [s[k]][..0] == [];
    assert AfterIdxs(s)[|AfterIdxs(s[..k])|] == s[k].info.afterIdx;
  }

  /** In a script, the before-line named by a before-side entry occurs in no
    * other entry (the others carry another line or 0). */
  lemma BeforeUnique(s: seq<SesElem>, a: seq<string>, b: seq<string>, i: nat, j: nat, k: int)
    requires ScriptUpTo(s, a, b, i, j) && 0 <= k < |s| && OnBeforeSide(s[k].info.sesType)
    ensures s[k].info.beforeIdx >= 1
    ensures forall k' | 0 <= k' < |s| && k' != k :: s[k'].info.beforeIdx != s[k].info.beforeIdx
  {
    assert EntryIn(s[k], a, b, i, j);
    forall k' | 0 <= k' < |s| && k' != k
      ensures s[k'].info.beforeIdx != s[k].info.beforeIdx
    {
      assert EntryIn(s[k'], a, b, i, j);
      if OnBeforeSide(s[k'].info.sesType) {
        var lo, hi := if k < k' then k else k', if k < k' then k' else k;
        BeforeRank(s, a, b, i, j, lo);
        BeforeRank(s, a, b, i, j, hi);
        assert s[..hi] == s[..lo] + [s[lo]] + s[lo + 1..hi];
        BeforeIdxsAppend(s[..lo] + [s[lo]], s[lo + 1..hi]);
        BeforeIdxsAppend(s[..lo], [s[lo]]);
        assert [s[lo]][..0] == [];
      }
    }
  }

  lemma AfterUnique(s: seq<SesElem>, a: seq<string>, b: seq<string>, i: nat, j: nat, k: int)
    requires ScriptUpTo(s, a, b, i, j) && 0 <= k < |s| && OnAfterSide(s[k].info.sesType)
    ensures s[k].info.afterIdx >= 1
    ensures forall k' | 0 <= k' < |s| && k' != k :: s[k'].info.afterIdx != s[k].info.afterIdx
  {
    assert EntryIn(s[k], a, b, i, j);
    forall k' | 0 <= k' < |s| && k' != k
      ensures s[k'].info.afterIdx != s[k].info.afterIdx
    {
      assert EntryIn(s[k'], a, b, i, j);
      if OnAfterSide(s[k'].info.sesType) {
        var lo, hi := if k < k' then k else k', if k < k' then k' else k;
        AfterRank(s, a, b, i, j, lo);
        AfterRank(s, a, b, i, j, hi);
        assert s[..hi] == s[..lo] + [s[lo]] + s[lo + 1..hi];
        AfterIdxsAppend(s[..lo] + [s[lo]], s[lo + 1..hi]);
        AfterIdxsAppend(s[..lo], [s[lo]]);
        assert [s[lo]][..0] == [];
      }
    }
  }

  /** A deleted line maps to after-line 0, not to the not-found value. */
  lemma DeletedLineMapsToZero(s: seq<SesElem>, a: seq<string>, b: seq<string>, i: nat, j: nat, k: int)
    requires ScriptUpTo(s, a, b, i, j) && 0 <= k < |s| && s[k].info.sesType == Delete
    ensures AfterLineOf(Infos(s), s[k].info.beforeIdx) == 0
  {
    BeforeUnique(s, a, b, i, j, k);
    assert EntryIn(s[k], a, b, i, j);
  }

  /** An added line maps to before-line 0, not to the not-found value. */
  lemma AddedLineMapsToZero(s: seq<SesElem>, a: seq<string>, b: seq<string>, i: nat, j: nat, k: int)
    requires ScriptUpTo(s, a, b, i, j) && 0 <= k < |s| && s[k].info.sesType == Add
    ensures BeforeLineOf(Infos(s), s[k].info.afterIdx) == 0
  {
    AfterUnique(s, a, b, i, j, k);
    assert EntryIn(s[k], a, b, i, j);
  }

  /** A common line maps to its partner and back. */
  lemma CommonLineRoundTrip(s: seq<SesElem>, a: seq<string>, b: seq<string>, i: nat, j: nat, k: int)
    requires ScriptUpTo(s, a, b, i, j) && 0 <= k < |s| && s[k].info.sesType == Common
    ensures AfterLineOf(Infos(s), s[k].info.beforeIdx) == s[k].info.afterIdx
    ensures BeforeLineOf(Infos(s), s[k].info.afterIdx) == s[k].info.beforeIdx
  {
    BeforeUnique(s, a, b, i, j, k);
    AfterUnique(s, a, b, i, j, k);
    CommonRoundTrip(Infos(s), k);
  }

  /** A line number outside the old file is not found. */
  lemma OutsideBeforeNotFound(s: seq<SesElem>, a: seq<string>, b: seq<string>, i: nat, j: nat, c: int)
    requires ScriptUpTo(s, a, b, i, j) && (c < 0 || c > i)
    ensures AfterLineOf(Infos(s), c) == UINT_MAX
  {
    forall k | 0 <= k < |s| ensures s[k].info.beforeIdx != c {
      assert EntryIn(s[k], a, b, i, j);
    }
  }

  /** A line number outside the new file is not found. */
  lemma OutsideAfterNotFound(s: seq<SesElem>, a: seq<string>, b: seq<string>, i: nat, j: nat, c: int)
    requires ScriptUpTo(s, a, b, i, j) && (c < 0 || c > j)
    ensures BeforeLineOf(Infos(s), c) == UINT_MAX
  {
    forall k | 0 <= k < |s| ensures s[k].info.afterIdx != c {
      assert EntryIn(s[k], a, b, i, j);
    }
  }

  lemma {:induction false} AfterIdxsIn(s: seq<SesElem>, x: int)
    ensures x in AfterIdxs(s) <==> exists k | 0 <= k < |s| :: OnAfterSide(s[k].info.sesType) && s[k].info.afterIdx == x
    decreases |s|
  {
    if s != [] {
      var s' := s[..|s| - 1];
      AfterIdxsIn(s', x);
      assert forall k | 0 <= k < |s'| :: s'[k] == s[k];
    }
  }

  lemma {:induction false} BeforeIdxsIn(s: seq<SesElem>, x: int)
    ensures x in BeforeIdxs(s) <==> exists k | 0 <= k < |s| :: OnBeforeSide(s[k].info.sesType) && s[k].info.beforeIdx == x
    decreases |s|
  {
    if s != [] {
      var s' := s[..|s| - 1];
      BeforeIdxsIn(s', x);
      assert forall k | 0 <= k < |s'| :: s'[k] == s[k];
    }
  }

  /** In a script, addedLines are exactly the new-file lines that no Common
    * entry matches. */
  lemma AddedOfScript(s: seq<SesElem>, a: seq<string>, b: seq<string>, i: nat, j: nat, x: int)
    requires ScriptUpTo(s, a, b, i, j)
    ensures x in Added(s) <==> 1 <= x <= j && forall k | 0 <= k < |s| && s[k].info.sesType == Common :: s[k].info.afterIdx != x
  {
    AddedIn(s, x);
    AfterIdxsIn(s, x);
    if x in Added(s) {
      var k0 :| 0 <= k0 < |s| && s[k0].info.sesType == Add && s[k0].info.afterIdx == x;
      assert EntryIn(s[k0], a, b, i, j);
      AfterUnique(s, a, b, i, j, k0);
    } else if 1 <= x <= j {
      assert Iota(j)[x - 1] == x;
    }
  }

  /** In a script, deletedLines are exactly the old-file lines that no Common
    * entry matches. */
  lemma DeletedOfScript(s: seq<SesElem>, a: seq<string>, b: seq<string>, i: nat, j: nat, x: int)
    requires ScriptUpTo(s, a, b, i, j)
    ensures x in Deleted(s) <==> 1 <= x <= i && forall k | 0 <= k < |s| && s[k].info.sesType == Common :: s[k].info.beforeIdx != x
  {
    DeletedIn(s, x);
    BeforeIdxsIn(s, x);
    if x in Deleted(s) {
      var k0 :| 0 <= k0 < |s| && s[k0].info.sesType == Delete && s[k0].info.beforeIdx == x;
      assert EntryIn(s[k0], a, b, i, j);
      BeforeUnique(s, a, b, i, j, k0);
    } else if 1 <= x <= i {
      assert Iota(i)[x - 1] == x;
    }
  }

  /** Every Common entry of a script is in matchedLines with its own after-line. */
  lemma MatchedOfScript(s: seq<SesElem>, a: seq<string>, b: seq<string>, i: nat, j: nat, k: int)
    requires ScriptUpTo(s, a, b, i, j) && 0 <= k < |s| && s[k].info.sesType == Common
    ensures s[k].info.beforeIdx in Matched(map[], s)
    ensures Matched(map[], s)[s[k].info.beforeIdx] == s[k].info.afterIdx
  {
    BeforeUnique(s, a, b, i, j, k);
    MatchedFirst(map[], s, s[k].info.beforeIdx, k);
  }

  /** A copy of a Diff_Mapping, as the graph merge receives it (by value). */
  datatype MappingState = MappingState(fileName: string, lineMap: seq<ElemInfo>, addedLines: seq<int>,
                                       deletedLines: seq<int>, matchedLines: map<int, int>)

  /** Diff_Mapping: the mapping of one file's edit script. */
  class DiffMapping {
    const fileName: string
    var lineMap: seq<ElemInfo>
    var addedLines: seq<int>
    var deletedLines: seq<int>
    /** keyed by before-line, mapping to the after-line */
    var matchedLines: map<int, int>

    constructor (name: string)
      ensures fileName == name
      ensures lineMap == [] && addedLines == [] && deletedLines == [] && matchedLines == map[]
    {
      fileName := name;
      lineMap, addedLines, deletedLines, matchedLines := [], [], [], map[];
    }

    function Snapshot(): MappingState
      reads this
    {
      MappingState(fileName, lineMap, addedLines, deletedLines, matchedLines)
    }

    function GetMapping(): seq<ElemInfo>
      reads this
    {
      lineMap
    }

    function GetFileName(): string
    {
      fileName
    }

    function GetAddedLines(): seq<int>
      reads this
    {
      addedLines
    }

    function GetDeletedLines(): seq<int>
      reads this
    {
      deletedLines
    }

    function GetMatchedLines(): map<int, int>
      reads this
    {
      matchedLines
    }

    /** putMapping: one record per entry; Adds and Deletes listed in order;
      * Commons inserted into matchedLines without overwriting. */
    method PutMapping(seqVector: seq<SesElem>)
      modifies this
      ensures lineMap == old(lineMap) + Infos(seqVector)
      ensures addedLines == old(addedLines) + Added(seqVector)
      ensures deletedLines == old(deletedLines) + Deleted(seqVector)
      ensures matchedLines == Matched(old(matchedLines), seqVector)
    {
      ghost var m0 := matchedLines;
      for i := 0 to |seqVector|
        invariant lineMap == old(lineMap) + Infos(seqVector[..i])
        invariant addedLines == old(addedLines) + Added(seqVector[..i])
        invariant deletedLines == old(deletedLines) + Deleted(seqVector[..i])
        invariant matchedLines == Matched(m0, seqVector[..i])
      {
        var iter := seqVector[i];
        assert seqVector[..i + 1][..i] == seqVector[..i];
        assert Infos(seqVector[..i + 1]) == Infos(seqVector[..i]) + [iter.info];
        var info: ElemInfo;
        match iter.info.sesType {
          case Add =>
            info := ElemInfo(iter.info.beforeIdx, iter.info.afterIdx, Add);
            addedLines := addedLines + [iter.info.afterIdx];
          case Delete =>
            info := ElemInfo(iter.info.beforeIdx, iter.info.afterIdx, Delete);
            deletedLines := deletedLines + [iter.info.beforeIdx];
          case Common =>
            info := ElemInfo(iter.info.beforeIdx, iter.info.afterIdx, Common);
            matchedLines := MapInsert(matchedLines, iter.info.beforeIdx, iter.info.afterIdx);
        }
        assert info == iter.info;
        lineMap := lineMap + [info];
      }
      assert seqVector[..|seqVector|] == seqVector;
    }

    /** getAfterLineNumber: a linear scan of lineMap. */
    method GetAfterLineNumber(currLine: int) returns (r: int)
      ensures r == AfterLineOf(lineMap, currLine)
    {
      var i := 0;
      while i < |lineMap|
        invariant 0 <= i <= |lineMap|
        invariant AfterLineOf(lineMap[i..], currLine) == AfterLineOf(lineMap, currLine)
      {
        if lineMap[i].beforeIdx == currLine {
          return lineMap[i].afterIdx;
        }
        assert lineMap[i..][1..] == lineMap[i + 1..];
        i := i + 1;
      }
      return UINT_MAX;
    }

    /** getBeforeLineNumber: a linear scan of lineMap. */
    method GetBeforeLineNumber(currLine: int) returns (r: int)
      ensures r == BeforeLineOf(lineMap, currLine)
    {
      var i := 0;
      while i < |lineMap|
        invariant 0 <= i <= |lineMap|
        invariant BeforeLineOf(lineMap[i..], currLine) == BeforeLineOf(lineMap, currLine)
      {
        if lineMap[i].afterIdx == currLine {
          return lineMap[i].beforeIdx;
        }
        assert lineMap[i..][1..] == lineMap[i + 1..];
        i := i + 1;
      }
      return UINT_MAX;
    }
  }
}
