/**
 * The relational operations that the Room DAOs of the application are
 * declared with, over a table held as a sequence of row values in
 * insertion (rowid) order: WHERE filters, ORDER BY, primary-key lookup,
 * INSERT OR REPLACE, UPDATE and DELETE by primary key.
 */
module Tables {
  import opened Wrappers

  // ---------------------------------------------------------------- WHERE

  /** The rows of `s` that satisfy `p`, in table order. */
  function Filter<T(!new)>(s: seq<T>, p: T -> bool): (r: seq<T>)
    ensures |r| <= |s|
    ensures forall x :: x in r <==> x in s && p(x)
  {
    if s == [] then []
    else
      assert s == [s[0]] + s[1..];
      (if p(s[0]) then [s[0]] else []) + Filter(s[1..], p)
  }

  /** A filter keeps each row that passes exactly as often as the table holds it, and drops the rest. */
  lemma {:induction false} FilterMultiset<T(!new)>(s: seq<T>, p: T -> bool)
    ensures forall x :: multiset(Filter(s, p))[x] == if p(x) then multiset(s)[x] else 0
  {
    if s != [] {
      assert s == [s[0]] + s[1..];
      FilterMultiset(s[1..], p);
    }
  }

  /** A filter every row passes keeps the table as it is. */
  lemma {:induction false} FilterAll<T(!new)>(s: seq<T>, p: T -> bool)
    requires forall x :: x in s ==> p(x)
    ensures Filter(s, p) == s
  {
    if s != [] {
      FilterAll(s[1..], p);
    }
  }

  /** Filtering keeps table order: it distributes over concatenation. */
  lemma {:induction false} FilterAppend<T(!new)>(a: seq<T>, b: seq<T>, p: T -> bool)
    ensures Filter(a + b, p) == Filter(a, p) + Filter(b, p)
  {
    if a == [] {
      assert a + b == b;
    } else {
      var h := if p(a[0]) then [a[0]] else [];
      assert (a + b)[0] == a[0];
      assert (a + b)[1..] == a[1..] + b;
      FilterAppend(a[1..], b, p);
      assert Filter(a + b, p) == h + (Filter(a[1..], p) + Filter(b, p));
      AppendAssoc(h, Filter(a[1..], p), Filter(b, p));
    }
  }

  /** The filter of a table extended by one row. */
  lemma {:induction false} FilterSnoc<T(!new)>(a: seq<T>, x: T, p: T -> bool)
    ensures Filter(a + [x], p) == Filter(a, p) + (if p(x) then [x] else [])
  {
    var t := if p(x) then [x] else [];
    if a == [] {
      assert a + [x] == [x];
      assert [x][1..] == [];
      assert Filter([x], p) == t + Filter([], p);
    } else {
      var h := if p(a[0]) then [a[0]] else [];
      assert (a + [x])[0] == a[0];
      assert (a + [x])[1..] == a[1..] + [x];
      FilterSnoc(a[1..], x, p);
      assert Filter(a + [x], p) == h + (Filter(a[1..], p) + t);
      assert Filter(a, p) == h + Filter(a[1..], p);
      AppendAssoc(h, Filter(a[1..], p), t);
    }
  }

  lemma AppendAssoc<T>(a: seq<T>, b: seq<T>, c: seq<T>)
    ensures a + (b + c) == (a + b) + c
  {
  }

  /** One more element of a prefix: the step of a loop that filters `s` front to back. */
  lemma FilterPrefixStep<T(!new)>(s: seq<T>, i: nat, p: T -> bool)
    requires i < |s|
    ensures Filter(s[..i + 1], p) == Filter(s[..i], p) + (if p(s[i]) then [s[i]] else [])
  {
    assert s[..i + 1] == s[..i] + [s[i]];
    FilterSnoc(s[..i], s[i], p);
  }

  // ------------------------------------------------------------- ORDER BY

  /** `le` is a total preorder: the comparison an ORDER BY clause induces. */
  ghost predicate TotalPreorder<T(!new)>(le: (T, T) -> bool) {
    && (forall a, b :: le(a, b) || le(b, a))
    && (forall a, b, c :: le(a, b) && le(b, c) ==> le(a, c))
  }

  /** Every pair of rows is in order. */
  ghost predicate Sorted<T>(s: seq<T>, le: (T, T) -> bool) {
    forall i, j :: 0 <= i < j < |s| ==> le(s[i], s[j])
  }

  /** Inserts `x` before the first row it is not after. */
  function Insert<T>(x: T, s: seq<T>, le: (T, T) -> bool): (r: seq<T>)
    ensures multiset(r) == multiset(s) + multiset{x}
    ensures |r| == |s| + 1
  {
    if s == [] || le(x, s[0]) then [x] + s
    else
      assert s == [s[0]] + s[1..];
      [s[0]] + Insert(x, s[1..], le)
  }

  /** The rows of `s` in the order `le` asks for (an insertion sort). */
  function Sort<T>(s: seq<T>, le: (T, T) -> bool): (r: seq<T>)
    ensures multiset(r) == multiset(s)
    ensures |r| == |s|
  {
    if s == [] then []
    else
      assert s == [s[0]] + s[1..];
      Insert(s[0], Sort(s[1..], le), le)
  }

  lemma {:induction false} InsertSorted<T(!new)>(x: T, s: seq<T>, le: (T, T) -> bool)
    requires TotalPreorder(le)
    requires Sorted(s, le)
    ensures Sorted(Insert(x, s, le), le)
  {
    if s == [] || le(x, s[0]) {
      var r := [x] + s;
      forall i, j | 0 <= i < j < |r| ensures le(r[i], r[j]) {
        if i == 0 && j > 1 {
          assert le(s[0], s[j - 1]);
        }
      }
    } else {
      var t := Insert(x, s[1..], le);
      InsertSorted(x, s[1..], le);
      assert le(s[0], x);
      forall y | y in t ensures le(s[0], y) {
        assert y in multiset(t);
        if y != x {
          assert y in multiset(s[1..]);
          var k :| 0 <= k < |s[1..]| && s[1..][k] == y;
          assert s[k + 1] == y;
        }
      }
      var r := [s[0]] + t;
      forall i, j | 0 <= i < j < |r| ensures le(r[i], r[j]) {
        if i == 0 {
          assert r[j] == t[j - 1];
          assert r[j] in t;
        } else {
          assert r[i] == t[i - 1] && r[j] == t[j - 1];
        }
      }
    }
  }

  /** ORDER BY: the result is a permutation of the table, in order. */
  lemma {:induction false} SortSorted<T(!new)>(s: seq<T>, le: (T, T) -> bool)
    requires TotalPreorder(le)
    ensures Sorted(Sort(s, le), le)
  {
    if s != [] {
      SortSorted(s[1..], le);
      InsertSorted(s[0], Sort(s[1..], le), le);
    }
  }

  /**
   * SQLite's BINARY collation: strings compare code point by code point,
   * and a proper prefix sorts first.
   */
  predicate StrLe(a: string, b: string) {
    a == [] || (b != [] && (a[0] < b[0] || (a[0] == b[0] && StrLe(a[1..], b[1..]))))
  }

  lemma {:induction false} StrLeTotal(a: string, b: string)
    ensures StrLe(a, b) || StrLe(b, a)
  {
    if a != [] && b != [] && a[0] == b[0] {
      StrLeTotal(a[1..], b[1..]);
    }
  }

  lemma {:induction false} StrLeTransitive(a: string, b: string, c: string)
    requires StrLe(a, b) && StrLe(b, c)
    ensures StrLe(a, c)
  {
    if a != [] && b != [] && c != [] && a[0] == b[0] && b[0] == c[0] {
      StrLeTransitive(a[1..], b[1..], c[1..]);
    }
  }

  /** Two strings each at most the other are the same string. */
  lemma {:induction false} StrLeAntisymmetric(a: string, b: string)
    requires StrLe(a, b) && StrLe(b, a)
    ensures a == b
  {
    if a != [] && b != [] {
      StrLeAntisymmetric(a[1..], b[1..]);
      assert a == [a[0]] + a[1..] && b == [b[0]] + b[1..];
    }
  }

  // ---------------------------------------------------------- primary key

  /** No two rows share a primary key. */
  ghost predicate UniqueKeys<T, K>(s: seq<T>, key: T -> K) {
    forall i, j :: 0 <= i < j < |s| ==> key(s[i]) != key(s[j])
  }

  /** The first row whose key is `k` (a `WHERE pk = :k` lookup). */
  function Lookup<T, K(==)>(s: seq<T>, k: K, key: T -> K): (r: Option<T>)
    ensures r.Some? ==> r.value in s && key(r.value) == k
    ensures r.None? <==> forall x :: x in s ==> key(x) != k
  {
    if s == [] then None
    else if key(s[0]) == k then Some(s[0])
    else
      assert s == [s[0]] + s[1..];
      Lookup(s[1..], k, key)
  }

  /** The lookup finds the first row with the key. */
  lemma {:induction false} LookupFirst<T, K>(s: seq<T>, k: K, key: T -> K, i: nat)
    requires i < |s| && key(s[i]) == k
    requires forall j :: 0 <= j < i ==> key(s[j]) != k
    ensures Lookup(s, k, key) == Some(s[i])
  {
    if i > 0 {
      LookupFirst(s[1..], k, key, i - 1);
    }
  }

  /** What the lookup finds is the first row carrying the key. */
  lemma {:induction false} LookupIsFirst<T, K>(s: seq<T>, k: K, key: T -> K)
    requires Lookup(s, k, key).Some?
    ensures exists i :: 0 <= i < |s| && s[i] == Lookup(s, k, key).value && forall j :: 0 <= j < i ==> key(s[j]) != k
  {
    if key(s[0]) == k {
      assert s[0] == Lookup(s, k, key).value;
    } else {
      var t := s[1..];
      LookupIsFirst(t, k, key);
      var i :| 0 <= i < |t| && t[i] == Lookup(t, k, key).value && forall j :: 0 <= j < i ==> key(t[j]) != k;
      forall j | 0 <= j < i + 1 ensures key(s[j]) != k {
        if j > 0 {
          assert s[j] == t[j - 1];
        }
      }
      assert s[i + 1] == t[i];
    }
  }

  /** With unique keys the lookup finds THE row with that key. */
  lemma LookupUnique<T, K>(s: seq<T>, x: T, key: T -> K)
    requires UniqueKeys(s, key)
    requires x in s
    ensures Lookup(s, key(x), key) == Some(x)
  {
    var y := Lookup(s, key(x), key).value;
    var i :| 0 <= i < |s| && s[i] == x;
    var j :| 0 <= j < |s| && s[j] == y;
    if i < j {
      assert key(s[i]) != key(s[j]);
    } else if j < i {
      assert key(s[j]) != key(s[i]);
    }
  }

  /** `DELETE ... WHERE pk = :k`: drops the rows with that key. */
  function RemoveKey<T(!new), K(==)>(s: seq<T>, k: K, key: T -> K): (r: seq<T>)
    ensures forall x :: multiset(r)[x] == if key(x) == k then 0 else multiset(s)[x]
  {
    FilterMultiset(s, KeyIsNot(k, key));
    Filter(s, KeyIsNot(k, key))
  }

  function KeyIsNot<T, K(==)>(k: K, key: T -> K): T -> bool {
    x => key(x) != k
  }

  /** A table with unique keys: its tail has unique keys and none of them is the head's. */
  lemma UniqueKeysTail<T, K>(s: seq<T>, key: T -> K)
    requires s != [] && UniqueKeys(s, key)
    ensures UniqueKeys(s[1..], key)
    ensures forall y :: y in s[1..] ==> key(y) != key(s[0])
  {
    forall i, j | 0 <= i < j < |s[1..]| ensures key(s[1..][i]) != key(s[1..][j]) {
      assert s[1..][i] == s[i + 1] && s[1..][j] == s[j + 1];
    }
    forall y | y in s[1..] ensures key(y) != key(s[0]) {
      var m :| 0 <= m < |s[1..]| && s[1..][m] == y;
      assert s[m + 1] == y;
    }
  }

  /** A row put in front of a table with unique keys none of which is its own. */
  lemma UniqueKeysCons<T, K>(x: T, t: seq<T>, key: T -> K)
    requires UniqueKeys(t, key)
    requires forall y :: y in t ==> key(y) != key(x)
    ensures UniqueKeys([x] + t, key)
  {
    var r := [x] + t;
    forall i, j | 0 <= i < j < |r| ensures key(r[i]) != key(r[j]) {
      assert r[j] == t[j - 1];
      if i > 0 {
        assert r[i] == t[i - 1];
      }
    }
  }

  /** A filtered table keeps unique keys. */
  lemma {:induction false} FilterUnique<T(!new), K>(s: seq<T>, p: T -> bool, key: T -> K)
    requires UniqueKeys(s, key)
    ensures UniqueKeys(Filter(s, p), key)
  {
    if s != [] {
      UniqueKeysTail(s, key);
      FilterUnique(s[1..], p, key);
      var t := Filter(s[1..], p);
      if p(s[0]) {
        assert Filter(s, p) == [s[0]] + t;
        UniqueKeysCons(s[0], t, key);
      } else {
        assert Filter(s, p) == t;
      }
    }
  }


  lemma RemoveKeyUnique<T(!new), K>(s: seq<T>, k: K, key: T -> K)
    requires UniqueKeys(s, key)
    ensures UniqueKeys(RemoveKey(s, k, key), key)
  {
    FilterUnique(s, KeyIsNot(k, key), key);
  }

  /**
   * `INSERT OR REPLACE`: the row that held the key, if any, is deleted and
   * the new row is appended.
   */
  function Upsert<T(!new), K(==)>(s: seq<T>, x: T, key: T -> K): (r: seq<T>)
    ensures x in r
    ensures forall y :: y in r && key(y) == key(x) ==> y == x
    ensures forall y :: key(y) != key(x) ==> multiset(r)[y] == multiset(s)[y]
  {
    RemoveKey(s, key(x), key) + [x]
  }

  lemma UpsertUnique<T(!new), K>(s: seq<T>, x: T, key: T -> K)
    requires UniqueKeys(s, key)
    ensures UniqueKeys(Upsert(s, x, key), key)
  {
    var t := RemoveKey(s, key(x), key);
    RemoveKeyUnique(s, key(x), key);
    var r := t + [x];
    forall i, j | 0 <= i < j < |r| ensures key(r[i]) != key(r[j]) {
      if j == |t| {
        assert r[i] == t[i] && r[i] in t;
      } else {
        assert r[i] == t[i] && r[j] == t[j];
      }
    }
  }

  /** Appending a row whose key is new keeps the keys unique, and the row is found under its key. */
  lemma AppendNewKey<T, K>(s: seq<T>, x: T, key: T -> K)
    requires UniqueKeys(s, key)
    requires forall y :: y in s ==> key(y) != key(x)
    ensures UniqueKeys(s + [x], key)
    ensures Lookup(s + [x], key(x), key) == Some(x)
  {
    var r := s + [x];
    forall i, j | 0 <= i < j < |r| ensures key(r[i]) != key(r[j]) {
      assert r[i] == s[i];
      if j == |s| {
        assert r[i] in s;
      } else {
        assert r[j] == s[j];
      }
    }
    LookupUnique(r, x, key);
  }

  /** A lookup after INSERT OR REPLACE finds the new row under its key, and the old answer under any other key. */
  lemma LookupAfterUpsert<T(!new), K>(s: seq<T>, x: T, key: T -> K, k: K)
    requires UniqueKeys(s, key)
    ensures Lookup(Upsert(s, x, key), k, key) == if k == key(x) then Some(x) else Lookup(s, k, key)
  {
    var r := Upsert(s, x, key);
    UpsertUnique(s, x, key);
    if k == key(x) {
      LookupUnique(r, x, key);
    } else if Lookup(s, k, key).Some? {
      var y := Lookup(s, k, key).value;
      assert multiset(r)[y] == multiset(s)[y];
      LookupUnique(r, y, key);
      LookupUnique(s, y, key);
    }
  }

  /** A lookup after DELETE by key finds nothing under that key and the old answer under any other. */
  lemma LookupAfterRemove<T(!new), K>(s: seq<T>, k0: K, key: T -> K, k: K)
    requires UniqueKeys(s, key)
    ensures Lookup(RemoveKey(s, k0, key), k, key) == if k == k0 then None else Lookup(s, k, key)
  {
    var r := RemoveKey(s, k0, key);
    RemoveKeyUnique(s, k0, key);
    if k != k0 {
      if Lookup(s, k, key).Some? {
        var y := Lookup(s, k, key).value;
        assert multiset(r)[y] == multiset(s)[y];
        LookupUnique(r, y, key);
        LookupUnique(s, y, key);
      }
    }
  }

  /** `UPDATE ... WHERE pk = key(x)`: every row with that key becomes `x`. */
  function Replace<T, K(==)>(s: seq<T>, x: T, key: T -> K): (r: seq<T>)
    ensures |r| == |s|
    ensures forall i :: 0 <= i < |s| && key(s[i]) != key(x) ==> r[i] == s[i]
    ensures forall i :: 0 <= i < |s| && key(s[i]) == key(x) ==> r[i] == x
  {
    if s == [] then []
    else [if key(s[0]) == key(x) then x else s[0]] + Replace(s[1..], x, key)
  }

  /** After UPDATE the key reads back the new row if it was present; other keys are unaffected. */
  lemma LookupAfterReplace<T, K>(s: seq<T>, x: T, key: T -> K, k: K)
    requires UniqueKeys(s, key)
    ensures Lookup(Replace(s, x, key), k, key) ==
              if k == key(x) && Lookup(s, k, key).Some? then Some(x) else Lookup(s, k, key)
  {
    var r := Replace(s, x, key);
    ReplaceUnique(s, x, key);
    if Lookup(s, k, key).Some? {
      var y := Lookup(s, k, key).value;
      var i :| 0 <= i < |s| && s[i] == y;
      LookupUnique(s, y, key);
      LookupUnique(r, r[i], key);
    }
  }

  lemma ReplaceUnique<T, K>(s: seq<T>, x: T, key: T -> K)
    requires UniqueKeys(s, key)
    ensures UniqueKeys(Replace(s, x, key), key)
  {
    var r := Replace(s, x, key);
    forall i, j | 0 <= i < j < |r| ensures key(r[i]) != key(r[j]) {
      assert key(r[i]) == key(s[i]) && key(r[j]) == key(s[j]);
    }
  }

  /** A list of rows written one after another with UPDATE. */
  function ReplaceAll<T, K(==)>(s: seq<T>, xs: seq<T>, key: T -> K): (r: seq<T>)
    ensures |r| == |s|
    ensures forall i :: 0 <= i < |s| && (forall x :: x in xs ==> key(x) != key(s[i])) ==> r[i] == s[i]
    ensures forall i :: 0 <= i < |s| ==> key(r[i]) == key(s[i])
    decreases |xs|
  {
    if xs == [] then s
    else Replace(ReplaceAll(s, xs[..|xs| - 1], key), xs[|xs| - 1], key)
  }

  lemma ReplaceAllSnoc<T, K>(s: seq<T>, xs: seq<T>, x: T, key: T -> K)
    ensures ReplaceAll(s, xs + [x], key) == Replace(ReplaceAll(s, xs, key), x, key)
  {
    assert (xs + [x])[..|xs|] == xs;
  }

  lemma ReplaceAllUnique<T, K>(s: seq<T>, xs: seq<T>, key: T -> K)
    requires UniqueKeys(s, key)
    ensures UniqueKeys(ReplaceAll(s, xs, key), key)
  {
    var r := ReplaceAll(s, xs, key);
    forall i, j | 0 <= i < j < |r| ensures key(r[i]) != key(r[j]) {
      assert key(r[i]) == key(s[i]) && key(r[j]) == key(s[j]);
    }
  }
}
