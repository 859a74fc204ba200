// Small shared vocabulary: optional values, the C++ unsigned sentinels and
// the string helpers the graph code relies on.
module Common {

  datatype Option<T> = None | Some(value: T)

  // A graph keeps its functions, lines, instructions and edges in arenas; a
  // pointer to one of them is its index in the arena of the graph it lives in.
  type FuncId = nat
  type LineId = nat
  type InstId = nat
  type EdgeId = nat

  /** Every id of `s` is an index below `n`. */
  predicate IdsBelow(s: seq<nat>, n: nat)
  {
    forall k | 0 <= k < |s| :: s[k] < n
  }

  /** An absent id, or an index below `n`. */
  predicate OptBelow(o: Option<nat>, n: nat)
  {
    o.Some? ==> o.value < n
  }

  /** numeric_limits<unsigned>::max(), the "not found" value of the line lookups */
  const UINT_MAX: nat := 4294967295

  /** the 2^32 values of a C++ `unsigned` */
  const UINT_RANGE: nat := 4294967296

  /** Conversion of a `long long` to `unsigned`: the value modulo 2^32. */
  function ToUnsigned(v: int): (r: nat)
    ensures r < UINT_RANGE
    ensures 0 <= v < UINT_RANGE ==> r == v
    ensures v == -1 ==> r == UINT_MAX
  {
    v % UINT_RANGE
  }

  /** `needle` occurs in `haystack` starting at position `j`. */
  predicate OccursAt(haystack: string, needle: string, j: int)
  {
    0 <= j && j + |needle| <= |haystack| && haystack[j..j + |needle|] == needle
  }

  /** `haystack.find(needle)`: the first position where `needle` occurs. */
  function Find(haystack: string, needle: string): (r: Option<nat>)
    ensures r.Some? ==> OccursAt(haystack, needle, r.value)
    ensures r.Some? ==> forall j | 0 <= j < r.value :: !OccursAt(haystack, needle, j)
    ensures r.None? ==> forall j :: !OccursAt(haystack, needle, j)
  {
    FindFrom(haystack, needle, 0)
  }

  /** The first position at or after `i` where `needle` occurs. */
  function FindFrom(haystack: string, needle: string, i: nat): (r: Option<nat>)
    ensures r.Some? ==> i <= r.value && OccursAt(haystack, needle, r.value)
    ensures r.Some? ==> forall j | i <= j < r.value :: !OccursAt(haystack, needle, j)
    ensures r.None? ==> forall j | i <= j :: !OccursAt(haystack, needle, j)
    decreases |haystack| - i
  {
    if i + |needle| > |haystack| then None
    else if OccursAt(haystack, needle, i) then Some(i)
    else FindFrom(haystack, needle, i + 1)
  }

  predicate Contains(haystack: string, needle: string)
  {
    Find(haystack, needle).Some?
  }

  /** std::map::insert: the key's existing value wins; otherwise the pair is added. */
  function MapInsert<K(!new), V>(m: map<K, V>, k: K, v: V): (r: map<K, V>)
    ensures k in r && r[k] == (if k in m then m[k] else v)
    ensures forall k' | k' != k :: (k' in r <==> k' in m)
    ensures forall k' | k' != k && k' in m :: r[k'] == m[k']
  {
    if k in m then m else m[k := v]
  }

  /** A sequence is its front and its last element. */
  lemma SplitLast<T>(s: seq<T>)
    requires s != []
    ensures s == s[..|s| - 1] + [s[|s| - 1]]
  {
  }

  /** A prefix one element longer. */
  lemma TakeNext<T>(s: seq<T>, k: nat)
    requires k < |s|
    ensures s[..k + 1] == s[..k] + [s[k]]
  {
  }

  /** Inserting a key that is already present changes nothing. */
  lemma MapInsertTwice<K(!new), V>(m: map<K, V>, k: K, v: V, w: V)
    ensures MapInsert(MapInsert(m, k, v), k, w) == MapInsert(m, k, v)
  {
  }

  /** The number of occurrences of `c` in `s` (std::count). */
  function CountChar(s: string, c: char): (r: nat)
    ensures r <= |s|
    ensures r == 0 <==> forall i | 0 <= i < |s| :: s[i] != c
  {
    if s == [] then 0 else (if s[0] == c then 1 else 0) + CountChar(s[1..], c)
  }

  lemma {:induction false} CountCharAppend(s: string, t: string, c: char)
    ensures CountChar(s + t, c) == CountChar(s, c) + CountChar(t, c)
    decreases |s|
  {
    if s == [] {
      assert s + t == t;
    } else {
      assert (s + t)[1..] == s[1..] + t;
      CountCharAppend(s[1..], t, c);
    }
  }

  /** The least element of a non-empty finite set of integers. */
  function MinOf(s: set<int>): (m: int)
    requires s != {}
    ensures m in s && forall x | x in s :: m <= x
  {
    MinExists(s);
    var m :| m in s && forall x | x in s :: m <= x;
    m
  }

  /** A set other than the empty one has an element. */
  lemma NonEmptyHas(s: set<int>)
    requires s != {}
    ensures exists y :: y in s
  {
    if forall y :: y !in s {
      assert false;
    }
  }

  lemma {:induction false} MinExists(s: set<int>)
    requires s != {}
    ensures exists m :: m in s && forall x | x in s :: m <= x
    decreases |s|
  {
    NonEmptyHas(s);
    var y :| y in s;
    if s != {y} {
      var rest := s - {y};
      MinExists(rest);
      var m :| m in rest && forall x | x in rest :: m <= x;
      var w := if y < m then y else m;
      forall x | x in s
        ensures w <= x
      {
        if x != y { assert x in rest; }
      }
      assert w in s;
    } else {
      forall x | x in s
        ensures y <= x
      {
        assert x == y;
      }
    }
  }

  /** The elements of a finite set of integers in increasing order: the
    * iteration order of a std::set or of the keys of a std::map. */
  function Ascending(s: set<int>): (r: seq<int>)
    ensures |r| == |s|
    ensures forall x :: x in r <==> x in s
    ensures forall j, k | 0 <= j < k < |r| :: r[j] < r[k]
    decreases |s|
  {
    if s == {} then []
    else
      var m := MinOf(s);
      var rest := Ascending(s - {m});
      [m] + rest
  }

  /** The same order on a set of ids (the keys of a std::map keyed by
    * pointer, pointers being modelled as arena ids). */
  function AscendingIds(s: set<nat>): (r: seq<nat>)
    ensures |r| == |s|
    ensures forall x :: x in r <==> x in s
    ensures forall j, k | 0 <= j < k < |r| :: r[j] < r[k]
  {
    var r := Ascending(s);
    assert forall j | 0 <= j < |r| :: r[j] in s;
    r
  }
}
