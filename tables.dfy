/**
 * In-memory stand-ins for the database tables and query shapes the services
 * use: a table is a map from serial primary key to row, rows are read back in
 * ascending key order, `WHERE` is a filter and `ORDER BY` a sort on a
 * lexicographic integer key.
 */
module Tables {
  import opened Wrappers

  /** A set that is not empty has a member (stated without a precondition so that no branch is dead). */
  lemma NonEmptyHasMember(s: set<int>)
    ensures s == {} || exists k :: k in s
  {
    if forall k :: k !in s {
      assert s == {};
    }
  }

  predicate IsLeast(k: int, ks: set<int>) {
    k in ks && forall x :: x in ks ==> k <= x
  }

  lemma {:induction false} Least(ks: set<int>) returns (k: int)
    requires ks != {}
    ensures IsLeast(k, ks)
    decreases |ks|
  {
    NonEmptyHasMember(ks);
    var y :| y in ks;
    var rest := ks - {y};
    assert ks == rest + {y};
    if rest == {} {
      assert ks == {y};
      k := y;
    } else {
      assert |rest| < |ks|;
      var m := Least(rest);
      k := if y < m then y else m;
    }
  }

  lemma MinExists(ks: set<int>)
    requires ks != {}
    ensures exists k :: IsLeast(k, ks)
  {
    var k := Least(ks);
  }

  /** The smallest element of a non-empty set of integers. */
  function MinKey(ks: set<int>): (k: int)
    requires ks != {}
    ensures k in ks && forall x :: x in ks ==> k <= x
  {
    MinExists(ks);
    var k :| IsLeast(k, ks);
    k
  }

  /** The elements of a finite set of integers, ascending, each once. */
  function Ascending(ks: set<int>): (r: seq<int>)
    ensures |r| == |ks|
    ensures forall i, j :: 0 <= i < j < |r| ==> r[i] < r[j]
    ensures forall k :: k in r <==> k in ks
    decreases |ks|
  {
    if ks == {} then []
    else
      var k := MinKey(ks);
      [k] + Ascending(ks - {k})
  }

  /** The rows of a table in ascending primary-key order. */
  function Rows<V(==, !new)>(m: map<int, V>): (r: seq<V>)
    ensures |r| == |m|
    ensures forall v :: v in r <==> v in m.Values
  {
    var keys := Ascending(m.Keys);
    var r := seq(|keys|, i requires 0 <= i < |keys| => m[keys[i]]);
    assert forall v :: v in m.Values ==> v in r by {
      forall v | v in m.Values ensures v in r {
        var k :| k in m && m[k] == v;
        var i :| 0 <= i < |keys| && keys[i] == k;
        assert r[i] == v;
      }
    }
    r
  }

  /** The row at each position is the one stored under the key at that position. */
  lemma RowsAt<V(!new)>(m: map<int, V>)
    ensures |Rows(m)| == |Ascending(m.Keys)|
    ensures forall i :: 0 <= i < |Rows(m)| ==> Ascending(m.Keys)[i] in m && Rows(m)[i] == m[Ascending(m.Keys)[i]]
  {
  }

  /** `rows.filter(p)`: keeps the rows satisfying `p`, in their order (defined from the last row, the way a loop appends). */
  function Filter<T(!new)>(s: seq<T>, p: T -> bool): (r: seq<T>)
    ensures |r| <= |s|
    ensures forall x :: x in r <==> x in s && p(x)
  {
    if s == [] then []
    else Filter(s[..|s| - 1], p) + (if p(s[|s| - 1]) then [s[|s| - 1]] else [])
  }

  /** Filtering distributes over concatenation: order among the kept rows is preserved. */
  lemma {:induction false} FilterConcat<T(!new)>(a: seq<T>, b: seq<T>, p: T -> bool)
    ensures Filter(a + b, p) == Filter(a, p) + Filter(b, p)
    decreases |b|
  {
    if b == [] {
      assert a + b == a;
    } else {
      ConcatInit(a, b);
      FilterConcat(a, b[..|b| - 1], p);
    }
  }

  /** Dropping the last element of `a + b`, for a non-empty `b`. */
  lemma ConcatInit<T>(a: seq<T>, b: seq<T>)
    requires b != []
    ensures (a + b)[..|a + b| - 1] == a + b[..|b| - 1]
    ensures (a + b)[|a + b| - 1] == b[|b| - 1]
  {
  }

  predicate Increasing(s: seq<int>) {
    forall i, j :: 0 <= i < j < |s| ==> s[i] < s[j]
  }

  /** Filtering a strictly increasing sequence leaves it strictly increasing. */
  lemma {:induction false} FilterIncreasing(s: seq<int>, p: int -> bool)
    requires Increasing(s)
    ensures Increasing(Filter(s, p))
  {
    if s != [] {
      var init := s[..|s| - 1];
      var last := s[|s| - 1];
      FilterIncreasing(init, p);
      var head := Filter(init, p);
      var r := Filter(s, p);
      forall i, j | 0 <= i < j < |r| ensures r[i] < r[j] {
        if p(last) && j == |r| - 1 {
          assert r[i] == head[i] && head[i] in head;
          var m :| 0 <= m < |init| && init[m] == head[i];
          assert s[m] == r[i];
        } else {
          assert r[i] == head[i] && r[j] == head[j];
        }
      }
    }
  }

  /** Lexicographic order on integer keys, a shorter prefix first: the order of a multi-column `ORDER BY`. */
  predicate LexLe(a: seq<int>, b: seq<int>) {
    a == [] || (b != [] && (a[0] < b[0] || (a[0] == b[0] && LexLe(a[1..], b[1..]))))
  }

  lemma {:induction false} LexTotal(a: seq<int>, b: seq<int>)
    ensures LexLe(a, b) || LexLe(b, a)
  {
    if a != [] && b != [] && a[0] == b[0] {
      LexTotal(a[1..], b[1..]);
    }
  }

  lemma {:induction false} LexTrans(a: seq<int>, b: seq<int>, c: seq<int>)
    requires LexLe(a, b) && LexLe(b, c)
    ensures LexLe(a, c)
  {
    if a != [] && b != [] && c != [] && a[0] == b[0] == c[0] {
      LexTrans(a[1..], b[1..], c[1..]);
    }
  }

  predicate SortedByKey<T>(s: seq<T>, key: T -> seq<int>) {
    forall i, j :: 0 <= i < j < |s| ==> LexLe(key(s[i]), key(s[j]))
  }

  /** Inserts `x` before the first element whose key is not below its own. */
  function InsertByKey<T>(x: T, s: seq<T>, key: T -> seq<int>): (r: seq<T>)
    requires SortedByKey(s, key)
    ensures SortedByKey(r, key)
    ensures multiset(r) == multiset(s) + multiset{x}
  {
    if s == [] then [x]
    else if LexLe(key(x), key(s[0])) then
      InsertFront(x, s, key);
      [x] + s
    else
      var rest := InsertByKey(x, s[1..], key);
      LexTotal(key(x), key(s[0]));
      InsertBehind(x, s, rest, key);
      assert s == [s[0]] + s[1..];
      [s[0]] + rest
  }

  lemma InsertFront<T>(x: T, s: seq<T>, key: T -> seq<int>)
    requires s != [] && SortedByKey(s, key) && LexLe(key(x), key(s[0]))
    ensures SortedByKey([x] + s, key)
  {
    forall j | 0 < j < |s| ensures LexLe(key(x), key(s[j])) {
      LexTrans(key(x), key(s[0]), key(s[j]));
    }
  }

  lemma InsertBehind<T>(x: T, s: seq<T>, rest: seq<T>, key: T -> seq<int>)
    requires s != [] && SortedByKey(s, key) && LexLe(key(s[0]), key(x))
    requires SortedByKey(rest, key) && multiset(rest) == multiset(s[1..]) + multiset{x}
    ensures SortedByKey([s[0]] + rest, key)
  {
    forall j | 0 <= j < |rest| ensures LexLe(key(s[0]), key(rest[j])) {
      assert rest[j] in multiset(rest);
      if rest[j] != x {
        assert rest[j] in multiset(s[1..]);
        var k :| 0 <= k < |s[1..]| && s[1..][k] == rest[j];
        assert s[k + 1] == rest[j];
      }
    }
  }

  /** `ORDER BY key`: an insertion sort that is stable and returns a permutation of its input. */
  function SortByKey<T>(s: seq<T>, key: T -> seq<int>): (r: seq<T>)
    ensures SortedByKey(r, key)
    ensures multiset(r) == multiset(s)
  {
    if s == [] then []
    else
      assert s == [s[0]] + s[1..];
      InsertByKey(s[0], SortByKey(s[1..], key), key)
  }

  /** A permutation has the same members. */
  lemma SameMembers<T>(a: seq<T>, b: seq<T>)
    requires multiset(a) == multiset(b)
    ensures forall x :: x in a <==> x in b
  {
    forall x ensures x in a <==> x in b {
      assert x in a <==> x in multiset(a);
      assert x in b <==> x in multiset(b);
    }
  }

  /** `rows.find(p)`: the first row satisfying `p`, if any. */
  function Find<T>(s: seq<T>, p: T -> bool): (r: Option<T>)
    ensures r.Some? ==> r.value in s && p(r.value)
    ensures r.None? <==> forall x :: x in s ==> !p(x)
  {
    if s == [] then None
    else if p(s[0]) then Some(s[0])
    else
      var r := Find(s[1..], p);
      assert forall x :: x in s ==> x == s[0] || x in s[1..];
      r
  }

  /** `ORDER BY` on one integer column: a permutation ordered by that column. */
  function SortByInt<T>(s: seq<T>, key: T -> int): (r: seq<T>)
    ensures multiset(r) == multiset(s)
    ensures forall i, j :: 0 <= i < j < |r| ==> key(r[i]) <= key(r[j])
  {
    var r := SortByKey(s, x => [key(x)]);
    forall i, j | 0 <= i < j < |r| ensures key(r[i]) <= key(r[j]) {
      SingletonLexLe(key(r[i]), key(r[j]));
    }
    r
  }

  lemma SingletonLexLe(a: int, b: int)
    requires LexLe([a], [b])
    ensures a <= b
  {
    assert [a][1..] == [];
  }

  /** Filtering keeps a sequence ordered by an integer key. */
  lemma {:induction false} FilterSorted<T(!new)>(s: seq<T>, p: T -> bool, key: T -> int)
    requires forall i, j :: 0 <= i < j < |s| ==> key(s[i]) <= key(s[j])
    ensures forall i, j :: 0 <= i < j < |Filter(s, p)| ==> key(Filter(s, p)[i]) <= key(Filter(s, p)[j])
  {
    if s != [] {
      var init := s[..|s| - 1];
      var last := s[|s| - 1];
      FilterSorted(init, p, key);
      var head := Filter(init, p);
      var r := Filter(s, p);
      forall i, j | 0 <= i < j < |r| ensures key(r[i]) <= key(r[j]) {
        if p(last) && j == |r| - 1 {
          assert r[i] == head[i] && head[i] in head;
          var m :| 0 <= m < |init| && init[m] == head[i];
          assert s[m] == r[i] && r[j] == last && m < |s| - 1;
        } else {
          assert r[i] == head[i] && r[j] == head[j];
        }
      }
    }
  }
  /** The primary keys whose rows satisfy `p`: what a `WHERE` clause selects. */
  function Matching<V(!new)>(m: map<int, V>, p: V -> bool): set<int> {
    set k | k in m && p(m[k])
  }

  /** The keys among `ks` whose rows satisfy `p`. */
  function Selected<V>(m: map<int, V>, ks: seq<int>, p: V -> bool): set<int> {
    set k | k in ks && k in m && p(m[k])
  }

  lemma SelectedStep<V>(m: map<int, V>, ks: seq<int>, p: V -> bool)
    requires ks != [] && ks[|ks| - 1] in m
    ensures Selected(m, ks, p) == Selected(m, ks[..|ks| - 1], p) + (if p(m[ks[|ks| - 1]]) then {ks[|ks| - 1]} else {})
  {
    var n := |ks| - 1;
    assert forall k :: k in ks <==> k in ks[..n] || k == ks[n] by {
      assert ks == ks[..n] + [ks[n]];
    }
  }

  /** Filtering rows read through distinct keys keeps one row per selected key. */
  lemma {:induction false} FilterCount<V(!new)>(m: map<int, V>, ks: seq<int>, s: seq<V>, p: V -> bool)
    requires |s| == |ks|
    requires forall i :: 0 <= i < |ks| ==> ks[i] in m && s[i] == m[ks[i]]
    requires forall i, j :: 0 <= i < j < |ks| ==> ks[i] != ks[j]
    ensures |Filter(s, p)| == |Selected(m, ks, p)|
  {
    if s != [] {
      var n := |s| - 1;
      FilterCount(m, ks[..n], s[..n], p);
      SelectedStep(m, ks, p);
      assert ks[n] !in Selected(m, ks[..n], p);
    }
  }

  /** A `WHERE` query returns exactly as many rows as there are matching keys. */
  lemma FilterRowsCount<V(!new)>(m: map<int, V>, p: V -> bool)
    ensures |Filter(Rows(m), p)| == |Matching(m, p)|
  {
    var ks := Ascending(m.Keys);
    RowsAt(m);
    FilterCount(m, ks, Rows(m), p);
    SelectedAll(m, ks, p);
  }

  lemma SelectedAll<V(!new)>(m: map<int, V>, ks: seq<int>, p: V -> bool)
    requires forall k :: k in ks <==> k in m
    ensures Selected(m, ks, p) == Matching(m, p)
  {
    forall k ensures k in Selected(m, ks, p) <==> k in Matching(m, p) {
      assert k in ks <==> k in m;
    }
  }

  /** Filtering keeps every copy of a kept element and drops every copy of the others. */
  lemma {:induction false} FilterMultiset<T(!new)>(s: seq<T>, p: T -> bool, x: T)
    ensures multiset(Filter(s, p))[x] == if p(x) then multiset(s)[x] else 0
  {
    if s != [] {
      var n := |s| - 1;
      FilterMultiset(s[..n], p, x);
      assert s == s[..n] + [s[n]];
    }
  }

  /** How many rows of the table equal `v`. */
  function Copies<V(==)>(m: map<int, V>, v: V): nat {
    |set k | k in m && m[k] == v|
  }

  lemma {:induction false} FilterEqualCount<V(!new)>(s: seq<V>, v: V)
    ensures |Filter(s, x => x == v)| == multiset(s)[v]
  {
    if s != [] {
      var n := |s| - 1;
      FilterEqualCount(s[..n], v);
      assert s == s[..n] + [s[n]];
    }
  }

  /** Reading the table back yields each row as often as keys map to it. */
  lemma RowsMultiset<V(!new)>(m: map<int, V>, v: V)
    ensures multiset(Rows(m))[v] == Copies(m, v)
  {
    var equal := x => x == v;
    FilterRowsCount(m, equal);
    FilterEqualCount(Rows(m), v);
    assert Matching(m, equal) == set k | k in m && m[k] == v;
  }

  /** A `WHERE` query yields each selected row once per key holding it, and nothing else. */
  lemma SelectMultiset<V(!new)>(m: map<int, V>, p: V -> bool, v: V)
    ensures multiset(Filter(Rows(m), p))[v] == if p(v) then Copies(m, v) else 0
  {
    FilterMultiset(Rows(m), p, v);
    RowsMultiset(m, v);
  }

  /** What a `WHERE` query followed by an `ORDER BY` returns: one row per matching key, each selected row once per key holding it. */
  lemma SelectPermutation<V(!new)>(m: map<int, V>, p: V -> bool, r: seq<V>)
    requires multiset(r) == multiset(Filter(Rows(m), p))
    ensures |r| == |Matching(m, p)|
    ensures forall v :: multiset(r)[v] == if p(v) then Copies(m, v) else 0
  {
    FilterRowsCount(m, p);
    assert |r| == |multiset(r)|;
    forall v ensures multiset(r)[v] == if p(v) then Copies(m, v) else 0 {
      SelectMultiset(m, p, v);
    }
  }

  /** Filtering the result of a query again keeps the copies that pass both conditions. */
  lemma FilterKeepsCopies<V(!new)>(m: map<int, V>, s: seq<V>, p: V -> bool, q: V -> bool)
    requires forall v :: multiset(s)[v] == if p(v) then Copies(m, v) else 0
    ensures forall v :: multiset(Filter(s, q))[v] == if p(v) && q(v) then Copies(m, v) else 0
  {
    forall v ensures multiset(Filter(s, q))[v] == if p(v) && q(v) then Copies(m, v) else 0 {
      FilterMultiset(s, q, v);
    }
  }
}
