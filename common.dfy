/**
 * Generic vocabulary shared by the model: optional values and results, the
 * query-set operations the ORM performs on a table (filtering, reversing,
 * ordering by a text column) and the uniqueness of a key across the rows of
 * a table.
 */
module Common {

  datatype Option<T> = None | Some(value: T)

  datatype Result<T, E> = Ok(value: T) | Err(error: E)

  /** Every key occurs at most once among the rows: a database UNIQUE constraint. */
  ghost predicate UniqueBy<T, K>(s: seq<T>, key: T -> K)
  {
    forall i, j :: 0 <= i < j < |s| ==> key(s[i]) != key(s[j])
  }

  /** Appending rows whose keys are new keeps a key unique. */
  lemma UniqueAppend<T, K>(a: seq<T>, b: seq<T>, key: T -> K)
    requires UniqueBy(a, key) && UniqueBy(b, key)
    requires forall i, j :: 0 <= i < |a| && 0 <= j < |b| ==> key(a[i]) != key(b[j])
    ensures UniqueBy(a + b, key)
  {
    var s := a + b;
    forall i, j | 0 <= i < j < |s| ensures key(s[i]) != key(s[j]) {
      if j < |a| {
      } else if i >= |a| {
        assert s[i] == b[i - |a|] && s[j] == b[j - |a|];
      } else {
        assert s[j] == b[j - |a|];
      }
    }
  }

  /** Dropping the first row keeps a key unique. */
  lemma UniqueTail<T, K>(s: seq<T>, key: T -> K)
    requires s != [] && UniqueBy(s, key)
    ensures UniqueBy(s[1..], key)
  {
    var t := s[1..];
    forall a, b | 0 <= a < b < |t| ensures key(t[a]) != key(t[b]) {
      assert t[a] == s[a + 1] && t[b] == s[b + 1];
    }
  }

  /** Rows ordered strictly newest-first by an integer key (ORDER BY key DESC). */
  ghost predicate DescendingBy<T>(s: seq<T>, key: T -> int)
  {
    forall i, j :: 0 <= i < j < |s| ==> key(s[i]) > key(s[j])
  }

  /** Rows in strictly increasing key order: a table in insertion order with auto-increment ids. */
  ghost predicate AscendingBy<T>(s: seq<T>, key: T -> int)
  {
    forall i, j :: 0 <= i < j < |s| ==> key(s[i]) < key(s[j])
  }

  /** The rows of `s` that satisfy `p`, in their original order (a WHERE clause). */
  function Filter<T(!new)>(p: T -> bool, s: seq<T>): (r: seq<T>)
    ensures |r| <= |s|
    ensures forall x :: x in r <==> x in s && p(x)
  {
    if s == [] then [] else (if p(s[0]) then [s[0]] else []) + Filter(p, s[1..])
  }

  lemma {:induction false} FilterAll<T(!new)>(p: T -> bool, s: seq<T>)
    requires forall x :: x in s ==> p(x)
    ensures Filter(p, s) == s
  {
    if s != [] {
      FilterAll(p, s[1..]);
    }
  }

  lemma {:induction false} FilterAppend<T(!new)>(p: T -> bool, a: seq<T>, b: seq<T>)
    ensures Filter(p, a + b) == Filter(p, a) + Filter(p, b)
  {
    if a != [] {
      FilterAppend(p, a[1..], b);
      assert (a + b)[1..] == a[1..] + b;
    } else {
      assert a + b == b;
    }
  }

  /** Any two rows of a filtered table appear in the same order in the table itself. */
  lemma {:induction false} FilterPairFromSource<T(!new)>(p: T -> bool, s: seq<T>, i: int, j: int)
    returns (i': int, j': int)
    requires 0 <= i < j < |Filter(p, s)|
    ensures 0 <= i' < j' < |s| && s[i'] == Filter(p, s)[i] && s[j'] == Filter(p, s)[j]
  {
    var rest := Filter(p, s[1..]);
    var r := Filter(p, s);
    if p(s[0]) {
      assert r == [s[0]] + rest;
      if i == 0 {
        var k := FilterIndexInSource(p, s[1..], j - 1);
        i', j' := 0, k + 1;
      } else {
        var a, b := FilterPairFromSource(p, s[1..], i - 1, j - 1);
        i', j' := a + 1, b + 1;
      }
    } else {
      assert r == rest;
      var a, b := FilterPairFromSource(p, s[1..], i, j);
      i', j' := a + 1, b + 1;
    }
  }

  /** Every row of a filtered table is a row of the table. */
  lemma FilterIndexInSource<T(!new)>(p: T -> bool, s: seq<T>, i: int) returns (k: int)
    requires 0 <= i < |Filter(p, s)|
    ensures 0 <= k < |s| && s[k] == Filter(p, s)[i]
  {
    assert Filter(p, s)[i] in Filter(p, s);
    k :| 0 <= k < |s| && s[k] == Filter(p, s)[i];
  }

  lemma {:induction false} FilterNone<T(!new)>(p: T -> bool, s: seq<T>)
    requires forall x :: x in s ==> !p(x)
    ensures Filter(p, s) == []
  {
    if s != [] {
      FilterNone(p, s[1..]);
    }
  }

  /**
   * When every row `p` selects carries the key `k` and the key is unique,
   * `p` selects at most one row, and one exactly when some row satisfies it.
   */
  lemma {:induction false} FilterAtMostOne<T(!new), K>(p: T -> bool, s: seq<T>, key: T -> K, k: K)
    requires UniqueBy(s, key)
    requires forall x :: p(x) ==> key(x) == k
    ensures |Filter(p, s)| <= 1
    ensures |Filter(p, s)| == 1 <==> exists x :: x in s && p(x)
  {
    if s != [] {
      var tail := s[1..];
      assert UniqueBy(tail, key) by {
        forall i, j | 0 <= i < j < |tail| ensures key(tail[i]) != key(tail[j]) {
          assert tail[i] == s[i + 1] && tail[j] == s[j + 1];
        }
      }
      if p(s[0]) {
        forall x | x in tail ensures !p(x) {
          var j :| 0 <= j < |tail| && tail[j] == x;
          assert key(s[0]) != key(s[j + 1]);
        }
        FilterNone(p, tail);
      } else {
        FilterAtMostOne(p, tail, key, k);
        assert forall x :: x in s && p(x) ==> x in tail;
      }
    }
  }

  lemma FilterKeepsUnique<T(!new), K>(p: T -> bool, s: seq<T>, key: T -> K)
    requires UniqueBy(s, key)
    ensures UniqueBy(Filter(p, s), key)
  {
    var r := Filter(p, s);
    forall i, j | 0 <= i < j < |r| ensures key(r[i]) != key(r[j]) {
      var _, _ := FilterPairFromSource(p, s, i, j);
    }
  }

  lemma FilterKeepsDescending<T(!new)>(p: T -> bool, s: seq<T>, key: T -> int)
    requires DescendingBy(s, key)
    ensures DescendingBy(Filter(p, s), key)
  {
    var r := Filter(p, s);
    forall i, j | 0 <= i < j < |r| ensures key(r[i]) > key(r[j]) {
      var _, _ := FilterPairFromSource(p, s, i, j);
    }
  }

  lemma FilterKeepsAscending<T(!new)>(p: T -> bool, s: seq<T>, key: T -> int)
    requires AscendingBy(s, key)
    ensures AscendingBy(Filter(p, s), key)
  {
    var r := Filter(p, s);
    forall i, j | 0 <= i < j < |r| ensures key(r[i]) < key(r[j]) {
      var _, _ := FilterPairFromSource(p, s, i, j);
    }
  }

  lemma FilterKeepsSorted<T(!new)>(p: T -> bool, s: seq<T>, key: T -> string)
    requires SortedBy(s, key)
    ensures SortedBy(Filter(p, s), key)
  {
    var r := Filter(p, s);
    forall i, j | 0 <= i < j < |r| ensures TextLe(key(r[i]), key(r[j])) {
      var _, _ := FilterPairFromSource(p, s, i, j);
    }
  }

  lemma AppendAssoc<T>(a: seq<T>, b: seq<T>, c: seq<T>)
    ensures a + (b + c) == (a + b) + c
  {
  }

  /** `s` read back to front. */
  function Reverse<T>(s: seq<T>): (r: seq<T>)
    ensures |r| == |s|
    ensures forall k :: 0 <= k < |s| ==> r[k] == s[|s| - 1 - k]
  {
    seq(|s|, k requires 0 <= k < |s| => s[|s| - 1 - k])
  }

  /** A table kept in insertion order with increasing ids, read in reverse, lists newest first. */
  lemma ReverseOfAscendingIsDescending<T>(s: seq<T>, key: T -> int)
    requires AscendingBy(s, key)
    ensures DescendingBy(Reverse(s), key)
    ensures multiset(Reverse(s)) == multiset(s)
  {
    var r := Reverse(s);
    forall i, j | 0 <= i < j < |r| ensures key(r[i]) > key(r[j]) {
      assert r[i] == s[|s| - 1 - i] && r[j] == s[|s| - 1 - j];
    }
    ReverseMultiset(s);
  }

  lemma {:induction false} ReverseMultiset<T>(s: seq<T>)
    ensures multiset(Reverse(s)) == multiset(s)
  {
    if s != [] {
      ReverseMultiset(s[1..]);
      assert Reverse(s) == Reverse(s[1..]) + [s[0]];
      assert s == [s[0]] + s[1..];
    }
  }

  // ---------------------------------------------------------------------
  // Ordering by a text column (ORDER BY name), by character code.

  /** `a` sorts before or equal to `b`, comparing character codes left to right. */
  predicate TextLe(a: string, b: string)
  {
    |a| == 0 || (|b| > 0 && (a[0] < b[0] || (a[0] == b[0] && TextLe(a[1..], b[1..]))))
  }

  lemma {:induction false} TextLeTotal(a: string, b: string)
    ensures TextLe(a, b) || TextLe(b, a)
  {
    if |a| > 0 && |b| > 0 && a[0] == b[0] {
      TextLeTotal(a[1..], b[1..]);
    }
  }

  lemma {:induction false} TextLeTransitive(a: string, b: string, c: string)
    requires TextLe(a, b) && TextLe(b, c)
    ensures TextLe(a, c)
  {
    if |a| > 0 && a[0] == b[0] && b[0] == c[0] {
      TextLeTransitive(a[1..], b[1..], c[1..]);
    }
  }

  ghost predicate SortedBy<T>(s: seq<T>, key: T -> string)
  {
    forall i, j :: 0 <= i < j < |s| ==> TextLe(key(s[i]), key(s[j]))
  }

  /** Inserts `x` into the sorted `s` after every row whose key sorts strictly before it. */
  function Insert<T>(x: T, s: seq<T>, key: T -> string): (r: seq<T>)
    requires SortedBy(s, key)
    ensures SortedBy(r, key)
    ensures multiset(r) == multiset(s) + multiset{x}
  {
    if s == [] then [x]
    else if TextLe(key(x), key(s[0])) then
      InsertFront(x, s, key);
      [x] + s
    else
      var rest := Insert(x, s[1..], key);
      InsertBehind(x, s, rest, key);
      assert s == [s[0]] + s[1..];
      [s[0]] + rest
  }

  lemma InsertFront<T>(x: T, s: seq<T>, key: T -> string)
    requires SortedBy(s, key) && s != [] && TextLe(key(x), key(s[0]))
    ensures SortedBy([x] + s, key)
  {
    var r := [x] + s;
    forall i, j | 0 <= i < j < |r| ensures TextLe(key(r[i]), key(r[j])) {
      if i == 0 && j > 1 {
        TextLeTransitive(key(x), key(s[0]), key(s[j - 1]));
      }
    }
  }

  lemma InsertBehind<T>(x: T, s: seq<T>, rest: seq<T>, key: T -> string)
    requires SortedBy(s, key) && s != [] && !TextLe(key(x), key(s[0]))
    requires SortedBy(rest, key) && multiset(rest) == multiset(s[1..]) + multiset{x}
    ensures SortedBy([s[0]] + rest, key)
  {
    var r := [s[0]] + rest;
    TextLeTotal(key(x), key(s[0]));
    forall i, j | 0 <= i < j < |r| ensures TextLe(key(r[i]), key(r[j])) {
      if i == 0 {
        var y := rest[j - 1];
        assert y in multiset(rest);
        if y != x {
          assert y in multiset(s[1..]);
          var k :| 0 <= k < |s[1..]| && s[1..][k] == y;
          assert s[k + 1] == y;
        }
      }
    }
  }

  /** Insertion sort by a text key: the ORM's `ordering = ('name',)`. */
  function SortBy<T>(s: seq<T>, key: T -> string): (r: seq<T>)
    ensures SortedBy(r, key)
    ensures multiset(r) == multiset(s)
  {
    if s == [] then []
    else
      assert s == [s[0]] + s[1..];
      Insert(s[0], SortBy(s[1..], key), key)
  }
}
