// The edit-script vocabulary of the diff engine: the three edit kinds, the
// (before, after) index pair that each script entry carries, the plain
// sequence container and the shortest-edit-script container with its
// "deletes first" rearrangement.
module DiffSes {

  /** SES_TYPE: the kind of one edit-script entry. */
  datatype SesType = Delete | Common | Add
  {
    /** The enum's numeric value: SES_DELETE = -1, SES_COMMON = 0, SES_ADD = 1. */
    function Code(): int
    {
      match this
      case Delete => -1
      case Common => 0
      case Add => 1
    }
  }

  /** `elemInfo`: 1-based line numbers in the old (before) and new (after)
    * file, 0 for the side an entry does not occupy. Datatype equality is the
    * structure's operator== (both indices and the type). */
  datatype ElemInfo = ElemInfo(beforeIdx: int, afterIdx: int, sesType: SesType)

  /** `sesElem`: a line of text together with its position information. */
  datatype SesElem = SesElem(elem: string, info: ElemInfo)

  /** Entries that consume a line of the old file. */
  predicate OnBeforeSide(t: SesType)
  {
    t == Delete || t == Common
  }

  /** Entries that consume a line of the new file. */
  predicate OnAfterSide(t: SesType)
  {
    t == Add || t == Common
  }

  /** The before-indices of the entries that consume a line of the old file, in order. */
  function BeforeIdxs(s: seq<SesElem>): seq<int>
    decreases |s|
  {
    if s == [] then []
    else BeforeIdxs(s[..|s| - 1]) + (if OnBeforeSide(s[|s| - 1].info.sesType) then [s[|s| - 1].info.beforeIdx] else [])
  }

  /** The after-indices of the entries that consume a line of the new file, in order. */
  function AfterIdxs(s: seq<SesElem>): seq<int>
    decreases |s|
  {
    if s == [] then []
    else AfterIdxs(s[..|s| - 1]) + (if OnAfterSide(s[|s| - 1].info.sesType) then [s[|s| - 1].info.afterIdx] else [])
  }

  /** The line numbers 1, 2, ..., n. */
  function Iota(n: nat): (r: seq<int>)
    ensures |r| == n && forall i | 0 <= i < n :: r[i] == i + 1
  {
    seq(n, i => i + 1)
  }

  /** One entry is a correct edit of the first `i` lines of `a` into the first
    * `j` lines of `b`: its indices lie in range, the side it does not occupy
    * is 0, it carries the line it names, and a Common entry pairs equal lines. */
  predicate EntryIn(e: SesElem, a: seq<string>, b: seq<string>, i: nat, j: nat)
  {
    i <= |a| && j <= |b| &&
    match e.info.sesType
    case Delete =>
      e.info.afterIdx == 0 && 1 <= e.info.beforeIdx <= i && e.elem == a[e.info.beforeIdx - 1]
    case Add =>
      e.info.beforeIdx == 0 && 1 <= e.info.afterIdx <= j && e.elem == b[e.info.afterIdx - 1]
    case Common =>
      1 <= e.info.beforeIdx <= i && 1 <= e.info.afterIdx <= j &&
      e.elem == a[e.info.beforeIdx - 1] && a[e.info.beforeIdx - 1] == b[e.info.afterIdx - 1]
  }

  /** `s` is an edit script turning a[..i] into b[..j]: every entry is correct,
    * the old-file lines are consumed exactly once each in order 1..i, and the
    * new-file lines exactly once each in order 1..j. */
  predicate ScriptUpTo(s: seq<SesElem>, a: seq<string>, b: seq<string>, i: nat, j: nat)
  {
    i <= |a| && j <= |b| &&
    (forall k | 0 <= k < |s| :: EntryIn(s[k], a, b, i, j)) &&
    BeforeIdxs(s) == Iota(i) && AfterIdxs(s) == Iota(j)
  }

  /** `s` is a complete edit script from `a` to `b`. */
  predicate Script(s: seq<SesElem>, a: seq<string>, b: seq<string>)
  {
    ScriptUpTo(s, a, b, |a|, |b|)
  }

  lemma {:induction false} BeforeIdxsAppend(s: seq<SesElem>, t: seq<SesElem>)
    ensures BeforeIdxs(s + t) == BeforeIdxs(s) + BeforeIdxs(t)
    decreases |t|
  {
    if t == [] {
      assert s + t == s;
    } else {
      var t' := t[..|t| - 1];
      assert (s + t)[..|s + t| - 1] == s + t';
      BeforeIdxsAppend(s, t');
    }
  }

  lemma {:induction false} AfterIdxsAppend(s: seq<SesElem>, t: seq<SesElem>)
    ensures AfterIdxs(s + t) == AfterIdxs(s) + AfterIdxs(t)
    decreases |t|
  {
    if t == [] {
      assert s + t == s;
    } else {
      var t' := t[..|t| - 1];
      assert (s + t)[..|s + t| - 1] == s + t';
      AfterIdxsAppend(s, t');
    }
  }

  /** In a script of Common entries only, every entry consumes one line of
    * each file: the index lists are the entries' own indices. */
  lemma {:induction false} CommonIdxs(s: seq<SesElem>)
    requires AllOfType(s, Common)
    ensures |BeforeIdxs(s)| == |s| && |AfterIdxs(s)| == |s|
    ensures forall k | 0 <= k < |s| :: BeforeIdxs(s)[k] == s[k].info.beforeIdx && AfterIdxs(s)[k] == s[k].info.afterIdx
    decreases |s|
  {
    if s != [] {
      var s' := s[..|s| - 1];
      assert AllOfType(s', Common) by {
        forall k | 0 <= k < |s'| ensures s'[k].info.sesType == Common {
          assert s'[k] == s[k];
        }
      }
      CommonIdxs(s');
    }
  }

  /** A complete script without an Add or a Delete exists only between
    * identical files. */
  lemma UnchangedScriptIdentical(s: seq<SesElem>, a: seq<string>, b: seq<string>)
    requires Script(s, a, b) && AllOfType(s, Common)
    ensures a == b
  {
    CommonIdxs(s);
    assert |a| == |BeforeIdxs(s)| == |s| == |AfterIdxs(s)| == |b|;
    forall k | 0 <= k < |a| ensures a[k] == b[k] {
      assert BeforeIdxs(s)[k] == Iota(|a|)[k] == k + 1;
      assert AfterIdxs(s)[k] == Iota(|b|)[k] == k + 1;
      assert EntryIn(s[k], a, b, |a|, |b|);
    }
  }

  /** Appending one entry to a script of a[..i] / b[..j] that consumes the
    * next line(s) gives a script of the longer prefixes. */
  lemma ScriptUpToExtend(s: seq<SesElem>, a: seq<string>, b: seq<string>, i: nat, j: nat, e: SesElem, i': nat, j': nat)
    requires ScriptUpTo(s, a, b, i, j)
    requires i <= i' <= |a| && j <= j' <= |b|
    requires EntryIn(e, a, b, i', j')
    requires OnBeforeSide(e.info.sesType) ==> e.info.beforeIdx == i + 1 == i'
    requires !OnBeforeSide(e.info.sesType) ==> i' == i
    requires OnAfterSide(e.info.sesType) ==> e.info.afterIdx == j + 1 == j'
    requires !OnAfterSide(e.info.sesType) ==> j' == j
    ensures ScriptUpTo(s + [e], a, b, i', j')
  {
    BeforeIdxsAppend(s, [e]);
    AfterIdxsAppend(s, [e]);
    assert [e][..0] == [];
    assert Iota(i) + (if OnBeforeSide(e.info.sesType) then [e.info.beforeIdx] else []) == Iota(i');
    assert Iota(j) + (if OnAfterSide(e.info.sesType) then [e.info.afterIdx] else []) == Iota(j');
    forall k | 0 <= k < |s + [e]| ensures EntryIn((s + [e])[k], a, b, i', j') {
      if k < |s| {
        assert EntryIn(s[k], a, b, i, j);
      }
    }
  }

  /** Diff_Sequence: a plain growing list of lines. */
  class Sequence {
    var sequence: seq<string>

    constructor ()
      ensures sequence == []
    {
      sequence := [];
    }

    /** getSequence */
    function GetSequence(): seq<string>
      reads this
    {
      sequence
    }

    /** addSequence: appends one line at the back. */
    method AddSequence(e: string)
      modifies this
      ensures sequence == old(sequence) + [e]
    {
      sequence := sequence + [e];
    }
  }

  /** With deletes moved first, the entries recorded so far are kept as three
    * runs: `settled` (everything up to and including the last Common), then the
    * Deletes recorded since that Common, then the Adds recorded since it. */
  datatype Layout = Layout(settled: seq<SesElem>, deletes: seq<SesElem>, adds: seq<SesElem>)
  {
    function Flat(): seq<SesElem>
    {
      settled + deletes + adds
    }
  }

  /** The arrangement a deletes-first script gives to the entries `calls`,
    * recorded in that order. */
  function Arrange(calls: seq<SesElem>): Layout
    decreases |calls|
  {
    if calls == [] then Layout([], [], [])
    else
      var l := Arrange(calls[..|calls| - 1]);
      var x := calls[|calls| - 1];
      match x.info.sesType
      case Delete => l.(deletes := l.deletes + [x])
      case Common => Layout(l.Flat() + [x], [], [])
      case Add => l.(adds := l.adds + [x])
  }

  predicate AllOfType(s: seq<SesElem>, t: SesType)
  {
    forall i | 0 <= i < |s| :: s[i].info.sesType == t
  }

  /** The shape of the arrangement: the pending runs hold only Deletes and
    * only Adds, and the settled part is empty or ends with a Common. */
  lemma {:induction false} ArrangeShape(calls: seq<SesElem>)
    ensures AllOfType(Arrange(calls).deletes, Delete)
    ensures AllOfType(Arrange(calls).adds, Add)
    ensures Arrange(calls).settled == [] || Arrange(calls).settled[|Arrange(calls).settled| - 1].info.sesType == Common
    decreases |calls|
  {
    if calls != [] {
      ArrangeShape(calls[..|calls| - 1]);
    }
  }

  /** Moving deletes first only permutes the recorded entries. */
  lemma {:induction false} ArrangePermutes(calls: seq<SesElem>)
    ensures multiset(Arrange(calls).Flat()) == multiset(calls)
    decreases |calls|
  {
    if calls != [] {
      var c := calls[..|calls| - 1];
      ArrangePermutes(c);
      assert calls == c + [calls[|calls| - 1]];
    }
  }

  /** Moving deletes first keeps the order in which the old-file lines and the
    * new-file lines are consumed. */
  lemma ArrangeKeepsSides(calls: seq<SesElem>)
    ensures BeforeIdxs(Arrange(calls).Flat()) == BeforeIdxs(calls)
    ensures AfterIdxs(Arrange(calls).Flat()) == AfterIdxs(calls)
  {
    ArrangeSides(calls);
    SidesOfFlat(Arrange(calls));
  }

  lemma {:induction false} ArrangeSides(calls: seq<SesElem>)
    ensures SidesKept(calls)
    decreases |calls|
  {
    if calls != [] {
      var c := calls[..|calls| - 1];
      var x := calls[|calls| - 1];
      ArrangeSides(c);
      assert c + [x] == calls;
      ArrangeSidesStep(c, x);
    }
  }

  /** How the two sides of `calls` are distributed over its arrangement. */
  predicate SidesKept(calls: seq<SesElem>)
  {
    SidesOf(Arrange(calls), calls)
  }

  predicate SidesOf(l: Layout, calls: seq<SesElem>)
  {
    BeforeIdxs(l.settled) + BeforeIdxs(l.deletes) == BeforeIdxs(calls) &&
    BeforeIdxs(l.adds) == [] &&
    AfterIdxs(l.settled) + AfterIdxs(l.adds) == AfterIdxs(calls) &&
    AfterIdxs(l.deletes) == []
  }

  lemma ArrangeSidesStep(c: seq<SesElem>, x: SesElem)
    requires SidesKept(c)
    ensures SidesKept(c + [x])
  {
    if x.info.sesType == Delete {
      StepDelete(c, x);
    } else if x.info.sesType == Add {
      StepAdd(c, x);
    } else {
      StepCommon(c, x);
    }
  }

  lemma StepDelete(c: seq<SesElem>, x: SesElem)
    requires SidesKept(c) && x.info.sesType == Delete
    ensures SidesKept(c + [x])
  {
    ArrangeSnoc(c, x);
    var l := Arrange(c);
    assert Arrange(c + [x]) == Layout(l.settled, l.deletes + [x], l.adds);
    SingleIdxs(x);
    DeleteBefore(l, c, x);
    DeleteAfter(l, c, x);
    assert SidesOf(Layout(l.settled, l.deletes + [x], l.adds), c + [x]);
  }

  lemma DeleteBefore(l: Layout, c: seq<SesElem>, x: SesElem)
    requires BeforeIdxs(l.settled) + BeforeIdxs(l.deletes) == BeforeIdxs(c)
    requires BeforeIdxs([x]) == [x.info.beforeIdx]
    ensures BeforeIdxs(l.settled) + BeforeIdxs(l.deletes + [x]) == BeforeIdxs(c + [x])
  {
    BeforeIdxsAppend(c, [x]);
    PendingStep(l.deletes, x);
    var bs, bd, bx := BeforeIdxs(l.settled), BeforeIdxs(l.deletes), BeforeIdxs([x]);
    assert bs + (bd + bx) == (bs + bd) + bx;
  }

  lemma DeleteAfter(l: Layout, c: seq<SesElem>, x: SesElem)
    requires AfterIdxs(l.deletes) == [] && AfterIdxs([x]) == []
    ensures AfterIdxs(c + [x]) == AfterIdxs(c) && AfterIdxs(l.deletes + [x]) == []
  {
    AfterIdxsAppend(c, [x]);
    PendingStep(l.deletes, x);
  }

  lemma StepAdd(c: seq<SesElem>, x: SesElem)
    requires SidesKept(c) && x.info.sesType == Add
    ensures SidesKept(c + [x])
  {
    ArrangeSnoc(c, x);
    var l := Arrange(c);
    assert Arrange(c + [x]) == Layout(l.settled, l.deletes, l.adds + [x]);
    SingleIdxs(x);
    AddAfter(l, c, x);
    AddBefore(l, c, x);
    assert SidesOf(Layout(l.settled, l.deletes, l.adds + [x]), c + [x]);
  }

  lemma AddAfter(l: Layout, c: seq<SesElem>, x: SesElem)
    requires AfterIdxs(l.settled) + AfterIdxs(l.adds) == AfterIdxs(c)
    requires AfterIdxs([x]) == [x.info.afterIdx]
    ensures AfterIdxs(l.settled) + AfterIdxs(l.adds + [x]) == AfterIdxs(c + [x])
  {
    AfterIdxsAppend(c, [x]);
    PendingStep(l.adds, x);
    var as_, aa, ax := AfterIdxs(l.settled), AfterIdxs(l.adds), AfterIdxs([x]);
    assert as_ + (aa + ax) == (as_ + aa) + ax;
  }

  lemma AddBefore(l: Layout, c: seq<SesElem>, x: SesElem)
    requires BeforeIdxs(l.adds) == [] && BeforeIdxs([x]) == []
    ensures BeforeIdxs(c + [x]) == BeforeIdxs(c) && BeforeIdxs(l.adds + [x]) == []
  {
    BeforeIdxsAppend(c, [x]);
    PendingStep(l.adds, x);
  }

  lemma StepCommon(c: seq<SesElem>, x: SesElem)
    requires SidesKept(c) && x.info.sesType == Common
    ensures SidesKept(c + [x])
  {
    ArrangeSnoc(c, x);
    var l := Arrange(c);
    assert Arrange(c + [x]) == Layout(l.Flat() + [x], [], []);
    CommonBefore(c, x);
    CommonAfter(c, x);
    SettleStep(l, x);
  }

  lemma CommonBefore(c: seq<SesElem>, x: SesElem)
    requires SidesKept(c) && x.info.sesType == Common
    ensures BeforeIdxs(Arrange(c).Flat() + [x]) == BeforeIdxs(c + [x])
  {
    var l := Arrange(c);
    BeforeIdxsAppend(c, [x]);
    SettleStep(l, x);
    var bs, bd, ba, bx := BeforeIdxs(l.settled), BeforeIdxs(l.deletes), BeforeIdxs(l.adds), BeforeIdxs([x]);
    assert BeforeIdxs(l.Flat() + [x]) == bs + bd + ba + bx;
    assert ba == [];
    assert BeforeIdxs(c) == bs + bd;
  }

  lemma CommonAfter(c: seq<SesElem>, x: SesElem)
    requires SidesKept(c) && x.info.sesType == Common
    ensures AfterIdxs(Arrange(c).Flat() + [x]) == AfterIdxs(c + [x])
  {
    var l := Arrange(c);
    AfterIdxsAppend(c, [x]);
    SettleStep(l, x);
    var as_, ad, aa, ax := AfterIdxs(l.settled), AfterIdxs(l.deletes), AfterIdxs(l.adds), AfterIdxs([x]);
    assert AfterIdxs(l.Flat() + [x]) == as_ + ad + aa + ax;
    assert ad == [];
    assert AfterIdxs(c) == as_ + aa;
  }

  lemma PendingStep(d: seq<SesElem>, x: SesElem)
    ensures BeforeIdxs(d + [x]) == BeforeIdxs(d) + BeforeIdxs([x])
    ensures AfterIdxs(d + [x]) == AfterIdxs(d) + AfterIdxs([x])
  {
    BeforeIdxsAppend(d, [x]);
    AfterIdxsAppend(d, [x]);
  }

  lemma SettleStep(l: Layout, x: SesElem)
    ensures BeforeIdxs(l.Flat() + [x]) == BeforeIdxs(l.settled) + BeforeIdxs(l.deletes) + BeforeIdxs(l.adds) + BeforeIdxs([x])
    ensures AfterIdxs(l.Flat() + [x]) == AfterIdxs(l.settled) + AfterIdxs(l.deletes) + AfterIdxs(l.adds) + AfterIdxs([x])
    ensures BeforeIdxs([]) == [] && AfterIdxs([]) == []
  {
    SidesOfFlat(l);
    BeforeIdxsAppend(l.Flat(), [x]);
    AfterIdxsAppend(l.Flat(), [x]);
  }

  lemma SingleIdxs(x: SesElem)
    ensures BeforeIdxs([x]) == if OnBeforeSide(x.info.sesType) then [x.info.beforeIdx] else []
    ensures AfterIdxs([x]) == if OnAfterSide(x.info.sesType) then [x.info.afterIdx] else []
  {
    assert [x][..0] == [];
  }

  lemma SidesOfFlat(l: Layout)
    ensures BeforeIdxs(l.Flat()) == BeforeIdxs(l.settled) + BeforeIdxs(l.deletes) + BeforeIdxs(l.adds)
    ensures AfterIdxs(l.Flat()) == AfterIdxs(l.settled) + AfterIdxs(l.deletes) + AfterIdxs(l.adds)
  {
    BeforeIdxsAppend(l.settled + l.deletes, l.adds);
    BeforeIdxsAppend(l.settled, l.deletes);
    AfterIdxsAppend(l.settled + l.deletes, l.adds);
    AfterIdxsAppend(l.settled, l.deletes);
  }

  /** Arrange, unfolded once for an entry recorded last. */
  lemma ArrangeSnoc(c: seq<SesElem>, x: SesElem)
    ensures Arrange(c + [x]) == match x.info.sesType
      case Delete => Arrange(c).(deletes := Arrange(c).deletes + [x])
      case Common => Layout(Arrange(c).Flat() + [x], [], [])
      case Add => Arrange(c).(adds := Arrange(c).adds + [x])
  {
    assert (c + [x])[..|c + [x]| - 1] == c;
  }

  /** How recording one more entry changes the deletes-first arrangement:
    * a Delete goes in at the insertion point, which moves past it; any other
    * entry goes at the end, and a Common moves the insertion point there. */
  lemma ArrangeInsert(c: seq<SesElem>, x: SesElem)
    ensures var l := Arrange(c);
      var n := |l.settled| + |l.deletes|;
      var l' := Arrange(c + [x]);
      var n' := |l'.settled| + |l'.deletes|;
      n <= |l.Flat()| &&
      (x.info.sesType == Delete ==> l'.Flat() == l.Flat()[..n] + [x] + l.Flat()[n..] && n' == n + 1) &&
      (x.info.sesType == Common ==> l'.Flat() == l.Flat() + [x] && n' == |l.Flat()| + 1) &&
      (x.info.sesType == Add ==> l'.Flat() == l.Flat() + [x] && n' == n)
  {
    var l := Arrange(c);
    ArrangeSnoc(c, x);
    InsertDelete(l, x);
    match x.info.sesType
    case Delete =>
    case Common =>
      assert Arrange(c + [x]).Flat() == l.Flat() + [x];
    case Add =>
      assert Arrange(c + [x]).Flat() == l.settled + l.deletes + (l.adds + [x]);
  }

  /** Inserting a Delete at the deletes-first position of an arrangement. */
  lemma InsertDelete(l: Layout, x: SesElem)
    ensures |l.settled| + |l.deletes| <= |l.Flat()|
    ensures l.Flat()[..|l.settled| + |l.deletes|] + [x] + l.Flat()[|l.settled| + |l.deletes|..]
         == l.(deletes := l.deletes + [x]).Flat()
  {
    assert l.Flat()[..|l.settled| + |l.deletes|] == l.settled + l.deletes;
    assert l.Flat()[|l.settled| + |l.deletes|..] == l.adds;
  }

  lemma AllOfTypeSnoc(c: seq<SesElem>, x: SesElem, t: SesType)
    ensures AllOfType(c + [x], t) == (AllOfType(c, t) && x.info.sesType == t)
  {
    if AllOfType(c + [x], t) {
      assert (c + [x])[|c|] == x;
      forall i | 0 <= i < |c| ensures c[i].info.sesType == t {
        assert (c + [x])[i] == c[i];
      }
    }
  }

  /** A complete script stays a complete script of the same two files when its
    * deletes are moved first. */
  lemma ArrangeKeepsScript(calls: seq<SesElem>, a: seq<string>, b: seq<string>, i: nat, j: nat)
    requires ScriptUpTo(calls, a, b, i, j)
    ensures ScriptUpTo(Arrange(calls).Flat(), a, b, i, j)
  {
    ArrangeKeepsSides(calls);
    ArrangePermutes(calls);
    var f := Arrange(calls).Flat();
    forall k | 0 <= k < |f| ensures EntryIn(f[k], a, b, i, j) {
      assert f[k] in multiset(f);
      assert f[k] in multiset(calls);
      var m :| 0 <= m < |calls| && calls[m] == f[k];
    }
  }

  /** Diff_Ses: the shortest edit script being recorded. `calls` is the order
    * in which the entries were recorded. */
  class Ses {
    var sequenceDS: seq<SesElem>
    var onlyAdd: bool
    var onlyDelete: bool
    var onlyCopy: bool
    const deletesFirst: bool
    var nextDeleteIdx: nat
    ghost var calls: seq<SesElem>

    ghost predicate Valid()
      reads this
    {
      onlyAdd == AllOfType(calls, Add) &&
      onlyDelete == AllOfType(calls, Delete) &&
      onlyCopy == AllOfType(calls, Common) &&
      (deletesFirst ==>
        sequenceDS == Arrange(calls).Flat() &&
        nextDeleteIdx == |Arrange(calls).settled| + |Arrange(calls).deletes|) &&
      (!deletesFirst ==> sequenceDS == calls && nextDeleteIdx == 0)
    }

    /** Diff_Ses(moveDel): empty, every "only" flag set. */
    constructor (moveDel: bool)
      ensures Valid() && fresh(this)
      ensures deletesFirst == moveDel && calls == [] && sequenceDS == []
      ensures onlyAdd && onlyDelete && onlyCopy && nextDeleteIdx == 0
    {
      sequenceDS := [];
      onlyAdd, onlyDelete, onlyCopy := true, true, true;
      deletesFirst := moveDel;
      nextDeleteIdx := 0;
      calls := [];
    }

    function IsOnlyAdd(): bool
      reads this
    {
      onlyAdd
    }

    function IsOnlyDelete(): bool
      reads this
    {
      onlyDelete
    }

    function IsOnlyCopy(): bool
      reads this
    {
      onlyCopy
    }

    /** isOnlyOneOperation: the script so far is made of a single kind of entry. */
    function IsOnlyOneOperation(): (r: bool)
      reads this
      requires Valid()
      ensures r <==> (AllOfType(calls, Add) || AllOfType(calls, Delete) || AllOfType(calls, Common))
    {
      IsOnlyAdd() || IsOnlyDelete() || IsOnlyCopy()
    }

    /** isChange: the script so far holds an Add or a Delete. */
    function IsChange(): (r: bool)
      reads this
      requires Valid()
      ensures r <==> exists i | 0 <= i < |calls| :: calls[i].info.sesType != Common
    {
      !onlyCopy
    }

    function GetSequence(): seq<SesElem>
      reads this
    {
      sequenceDS
    }

    /** addSequence: records one entry. In the plain mode it is appended; with
      * deletes first, a Delete is inserted after the last Common and the Deletes
      * already recorded since, ahead of any Adds recorded since that Common. */
    method AddSequence(e: string, beforeIdx: int, afterIdx: int, t: SesType)
      requires Valid()
      modifies this
      ensures Valid()
      ensures calls == old(calls) + [SesElem(e, ElemInfo(beforeIdx, afterIdx, t))]
      ensures !deletesFirst ==> sequenceDS == old(sequenceDS) + [SesElem(e, ElemInfo(beforeIdx, afterIdx, t))]
      ensures deletesFirst && t == Delete ==>
        old(nextDeleteIdx) <= |old(sequenceDS)| &&
        sequenceDS == old(sequenceDS)[..old(nextDeleteIdx)] + [SesElem(e, ElemInfo(beforeIdx, afterIdx, t))] + old(sequenceDS)[old(nextDeleteIdx)..] &&
        nextDeleteIdx == old(nextDeleteIdx) + 1
      ensures deletesFirst && t == Common ==>
        sequenceDS == old(sequenceDS) + [SesElem(e, ElemInfo(beforeIdx, afterIdx, t))] && nextDeleteIdx == |sequenceDS|
      ensures deletesFirst && t == Add ==>
        sequenceDS == old(sequenceDS) + [SesElem(e, ElemInfo(beforeIdx, afterIdx, t))] && nextDeleteIdx == old(nextDeleteIdx)
    {
      var pe := SesElem(e, ElemInfo(beforeIdx, afterIdx, t));
      AllOfTypeSnoc(calls, pe, Add);
      AllOfTypeSnoc(calls, pe, Delete);
      AllOfTypeSnoc(calls, pe, Common);
      ArrangeInsert(calls, pe);
      calls := calls + [pe];
      if !deletesFirst {
        sequenceDS := sequenceDS + [pe];
      }
      match t
      case Delete =>
        onlyCopy := false;
        onlyAdd := false;
        if deletesFirst {
          sequenceDS := sequenceDS[..nextDeleteIdx] + [pe] + sequenceDS[nextDeleteIdx..];
          nextDeleteIdx := nextDeleteIdx + 1;
        }
      case Common =>
        onlyAdd := false;
        onlyDelete := false;
        if deletesFirst {
          sequenceDS := sequenceDS + [pe];
          nextDeleteIdx := |sequenceDS|;
        }
      case Add =>
        onlyDelete := false;
        onlyCopy := false;
        if deletesFirst {
          sequenceDS := sequenceDS + [pe];
        }
    }
  }
}
