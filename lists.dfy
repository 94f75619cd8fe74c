/**
 * The JavaScript array operations the store and the pages are built from:
 * `filter`, `find`, `findIndex`, the de-duplication `Array.from(new Set(xs))`,
 * and the find-by-id-then-overwrite-or-push pattern of the store.
 * Collections are keyed by a named key function (a product's id, a user's id,
 * a product's barcode).
 */
module Lists {
  import opened Wrappers

  // ---------------------------------------------------------------------------
  // Order-preserving subsequences and `filter`
  // ---------------------------------------------------------------------------

  /** `r` is obtained from `s` by dropping elements, keeping the rest in order. */
  ghost predicate IsSubsequence<T(!new)>(r: seq<T>, s: seq<T>)
    decreases |s|
  {
    if r == [] then true
    else if s == [] then false
    else (r[0] == s[0] && IsSubsequence(r[1..], s[1..])) || IsSubsequence(r, s[1..])
  }

  /** Every list is a subsequence of itself. */
  lemma {:induction false} SubsequenceOfItself<T(!new)>(s: seq<T>)
    ensures IsSubsequence(s, s)
  {
    if s != [] {
      SubsequenceOfItself(s[1..]);
    }
  }

  /** `s.filter(keep)`: every element that passes, each as often as in `s`, in order. */
  function Filter<T(==,!new)>(s: seq<T>, keep: T -> bool): (r: seq<T>)
    ensures |r| <= |s|
    ensures forall x :: x in r <==> x in s && keep(x)
    ensures forall x :: multiset(r)[x] == if keep(x) then multiset(s)[x] else 0
    ensures IsSubsequence(r, s)
  {
    if s == [] then []
    else
      assert s == [s[0]] + s[1..];
      if keep(s[0]) then [s[0]] + Filter(s[1..], keep) else Filter(s[1..], keep)
  }

  /** A filter that every element passes returns the list unchanged. */
  lemma {:induction false} FilterKeepsAll<T(!new)>(s: seq<T>, keep: T -> bool)
    requires forall x :: x in s ==> keep(x)
    ensures Filter(s, keep) == s
  {
    if s != [] {
      FilterKeepsAll(s[1..], keep);
    }
  }

  /** A filter that drops nothing saw only elements passing its test. */
  lemma {:induction false} FilterFullLength<T(!new)>(s: seq<T>, keep: T -> bool)
    ensures |Filter(s, keep)| == |s| <==> forall x :: x in s ==> keep(x)
  {
    if forall x :: x in s ==> keep(x) {
      FilterKeepsAll(s, keep);
    } else if s != [] {
      var t := Filter(s[1..], keep);
      FilterFullLength(s[1..], keep);
      assert Filter(s, keep) == if keep(s[0]) then [s[0]] + t else t;
      if keep(s[0]) {
        var x :| x in s && !keep(x);
        assert x in s[1..];
      }
    }
  }

  /** Filtering a list with one more element at the end keeps one more exactly when that element passes. */
  lemma {:induction false} FilterLengthAppendOne<T(!new)>(s: seq<T>, x: T, keep: T -> bool)
    ensures |Filter(s + [x], keep)| == |Filter(s, keep)| + (if keep(x) then 1 else 0)
  {
    if s != [] {
      var t := s + [x];
      assert t[0] == s[0] && t[1..] == s[1..] + [x];
      FilterLengthAppendOne(s[1..], x, keep);
    }
  }

  /** The number of positions of `s` whose element passes `keep`. */
  function CountPassing<T>(s: seq<T>, keep: T -> bool): nat {
    |set i | 0 <= i < |s| && keep(s[i])|
  }

  /** The positions passing a test, counted up to the last one and then the last one. */
  lemma PassingPositionsStep<T(!new)>(s: seq<T>, keep: T -> bool)
    requires s != []
    ensures CountPassing(s, keep) == CountPassing(s[..|s| - 1], keep) + (if keep(s[|s| - 1]) then 1 else 0)
  {
    var n := |s| - 1;
    var p := s[..n];
    var before := set i | 0 <= i < |p| && keep(p[i]);
    var after := set i | 0 <= i < |s| && keep(s[i]);
    var last: set<int> := if keep(s[n]) then {n} else {};
    assert after == before + last by {
      forall i | i in after
        ensures i in before + last
      {
        if i < n {
          assert p[i] == s[i];
        }
      }
      forall i | i in before
        ensures i in after
      {
        assert p[i] == s[i];
      }
    }
    assert before !! last;
  }

  /** The length of a filter is the number of positions whose element passes the test. */
  lemma {:induction false} FilterLengthCountsIndices<T(!new)>(s: seq<T>, keep: T -> bool)
    ensures |Filter(s, keep)| == CountPassing(s, keep)
    decreases |s|
  {
    if s != [] {
      var n := |s| - 1;
      assert s == s[..n] + [s[n]];
      FilterLengthAppendOne(s[..n], s[n], keep);
      FilterLengthCountsIndices(s[..n], keep);
      PassingPositionsStep(s, keep);
    }
  }

  /** Two filters whose tests are exact complements split the list between them. */
  lemma {:induction false} FilterPartition<T(!new)>(s: seq<T>, a: T -> bool, b: T -> bool)
    requires forall x :: a(x) != b(x)
    ensures |Filter(s, a)| + |Filter(s, b)| == |s|
  {
    if s != [] {
      FilterPartition(s[1..], a, b);
    }
  }

  // ---------------------------------------------------------------------------
  // `Array.from(new Set(xs))`: distinct values in order of first appearance
  // ---------------------------------------------------------------------------

  predicate NoDuplicates<T(==,!new)>(s: seq<T>) {
    forall i, j :: 0 <= i < j < |s| ==> s[i] != s[j]
  }

  /** `s.indexOf(x)` for a value known to occur. */
  function IndexOf<T(==,!new)>(s: seq<T>, x: T): (k: nat)
    requires x in s
    ensures k < |s| && s[k] == x && x !in s[..k]
  {
    if s[0] == x then 0
    else
      var k := IndexOf(s[1..], x);
      assert s[..k + 1] == [s[0]] + s[1..][..k];
      k + 1
  }

  /** The first occurrence of a value that occurs in a prefix lies in that prefix. */
  lemma {:induction false} IndexOfInPrefix<T(!new)>(s: seq<T>, n: nat, x: T)
    requires n <= |s| && x in s[..n]
    ensures IndexOf(s, x) == IndexOf(s[..n], x)
  {
    if s[0] != x {
      assert s[..n][1..] == s[1..][..n - 1];
      assert x in s[1..][..n - 1] by {
        var i :| 0 <= i < n && s[..n][i] == x;
        assert i != 0;
        assert s[1..][..n - 1][i - 1] == x;
      }
      IndexOfInPrefix(s[1..], n - 1, x);
    }
  }

  /** The insertion-ordered contents of a `Set` built from `s`. */
  function Distinct<T(==,!new)>(s: seq<T>): (r: seq<T>)
    ensures NoDuplicates(r)
    ensures forall x :: x in r <==> x in s
    decreases |s|
  {
    if s == [] then []
    else
      var d := Distinct(s[..|s| - 1]);
      assert s == s[..|s| - 1] + [s[|s| - 1]];
      if s[|s| - 1] in d then d else d + [s[|s| - 1]]
  }

  /** Distinct values are listed in the order in which they first occur in `s`. */
  lemma {:induction false} DistinctFirstAppearance<T(!new)>(s: seq<T>)
    ensures forall i, j :: 0 <= i < j < |Distinct(s)| ==>
      IndexOf(s, Distinct(s)[i]) < IndexOf(s, Distinct(s)[j])
  {
    if s != [] {
      var n := |s| - 1;
      var p, x := s[..n], s[n];
      var d, r := Distinct(p), Distinct(s);
      DistinctFirstAppearance(p);
      assert s[..n] == p;
      forall y | y in d
        ensures IndexOf(s, y) == IndexOf(p, y) < n
      {
        IndexOfInPrefix(s, n, y);
      }
      if x !in d {
        assert x !in s[..n];
        assert IndexOf(s, x) == n;
      }
      forall i, j | 0 <= i < j < |r|
        ensures IndexOf(s, r[i]) < IndexOf(s, r[j])
      {
        assert r[i] in d;
      }
    }
  }

  // ---------------------------------------------------------------------------
  // Keyed records: `findIndex`, `find`, upsert, replace, delete by key
  // ---------------------------------------------------------------------------

  /** No two records share a key. */
  ghost predicate UniqueKeys<T>(s: seq<T>, key: T -> string) {
    forall i, j :: 0 <= i < j < |s| ==> key(s[i]) != key(s[j])
  }

  /** Dropping records never makes two keys equal. */
  lemma {:induction false} SubsequenceKeepsUniqueKeys<T(!new)>(r: seq<T>, s: seq<T>, key: T -> string)
    requires IsSubsequence(r, s) && UniqueKeys(s, key)
    ensures UniqueKeys(r, key)
    ensures forall x :: x in r ==> x in s
    decreases |s|
  {
    if r == [] {
    } else if r[0] == s[0] && IsSubsequence(r[1..], s[1..]) {
      SubsequenceKeepsUniqueKeys(r[1..], s[1..], key);
      forall x | x in r
        ensures x in s
      {
        if x != r[0] {
          assert x in r[1..];
        }
      }
      forall j | 1 <= j < |r|
        ensures key(r[0]) != key(r[j])
      {
        assert r[j] in r[1..];
        var i :| 0 <= i < |s[1..]| && s[1..][i] == r[j];
        assert s[i + 1] == r[j];
      }
    } else {
      SubsequenceKeepsUniqueKeys(r, s[1..], key);
    }
  }

  /** `s.findIndex(x => key(x) === id)`: the first index with that key, or -1. */
  function IndexOfKey<T>(s: seq<T>, key: T -> string, id: string): (k: int)
    ensures -1 <= k < |s|
    ensures 0 <= k ==> key(s[k]) == id && forall j :: 0 <= j < k ==> key(s[j]) != id
    ensures k < 0 ==> forall j :: 0 <= j < |s| ==> key(s[j]) != id
  {
    if s == [] then -1
    else if key(s[0]) == id then 0
    else
      var k := IndexOfKey(s[1..], key, id);
      if k < 0 then -1 else k + 1
  }

  /** The first index whose key is `id` is what `IndexOfKey` finds. */
  lemma IndexOfKeyIs<T>(s: seq<T>, key: T -> string, id: string, k: int)
    requires -1 <= k < |s|
    requires 0 <= k ==> key(s[k]) == id
    requires forall j :: 0 <= j < |s| && (k < 0 || j < k) ==> key(s[j]) != id
    ensures IndexOfKey(s, key, id) == k
  {
  }

  /** `s.find(x => key(x) === id)`: the first record with that key. */
  function FindByKey<T>(s: seq<T>, key: T -> string, id: string): (r: Option<T>)
    ensures r.None? <==> forall j :: 0 <= j < |s| ==> key(s[j]) != id
    ensures r.Some? ==> exists k :: 0 <= k < |s| && s[k] == r.value && key(r.value) == id &&
                                    forall j :: 0 <= j < k ==> key(s[j]) != id
  {
    var k := IndexOfKey(s, key, id);
    if k >= 0 then Some(s[k]) else None
  }

  /** Overwrite the slot of the first record with `x`'s key, or push `x` when there is none. */
  function Upsert<T>(s: seq<T>, x: T, key: T -> string): (r: seq<T>)
    ensures var k := IndexOfKey(s, key, key(x)); 0 <= k ==> r == s[k := x]
    ensures IndexOfKey(s, key, key(x)) < 0 ==> r == s + [x]
    ensures FindByKey(r, key, key(x)) == Some(x)
    ensures forall id :: id != key(x) ==> FindByKey(r, key, id) == FindByKey(s, key, id)
  {
    var k := IndexOfKey(s, key, key(x));
    var r := if k >= 0 then s[k := x] else s + [x];
    IndexOfKeyIs(r, key, key(x), if k >= 0 then k else |s|);
    forall id | id != key(x)
      ensures FindByKey(r, key, id) == FindByKey(s, key, id)
    {
      var i := IndexOfKey(s, key, id);
      if i >= 0 {
        IndexOfKeyIs(r, key, id, i);
      } else {
        IndexOfKeyIs(r, key, id, -1);
      }
    }
    r
  }

  /** Saving the same record twice is the same as saving it once. */
  lemma UpsertIdempotent<T>(s: seq<T>, x: T, key: T -> string)
    ensures Upsert(Upsert(s, x, key), x, key) == Upsert(s, x, key)
  {
    var k := IndexOfKey(s, key, key(x));
    var r := Upsert(s, x, key);
    IndexOfKeyIs(r, key, key(x), if k >= 0 then k else |s|);
  }

  /** Saving a record keeps keys unique: it takes the place of the record it shares its key with. */
  lemma UpsertKeepsKeysUnique<T>(s: seq<T>, x: T, key: T -> string)
    requires UniqueKeys(s, key)
    ensures UniqueKeys(Upsert(s, x, key), key)
  {
  }

  /** Overwrite the slot of the first record with `x`'s key; a no-op when there is none. */
  function Replace<T>(s: seq<T>, x: T, key: T -> string): (r: seq<T>)
    ensures |r| == |s|
    ensures IndexOfKey(s, key, key(x)) < 0 ==> r == s
    ensures var k := IndexOfKey(s, key, key(x)); 0 <= k ==> r == s[k := x]
    ensures IndexOfKey(s, key, key(x)) >= 0 ==> FindByKey(r, key, key(x)) == Some(x)
    ensures forall id :: id != key(x) ==> FindByKey(r, key, id) == FindByKey(s, key, id)
  {
    var k := IndexOfKey(s, key, key(x));
    if k >= 0 then Upsert(s, x, key) else s
  }

  /** `s.filter(x => key(x) !== id)`. */
  function RemoveKey<T(==,!new)>(s: seq<T>, key: T -> string, id: string): (r: seq<T>)
    ensures forall x :: x in r <==> x in s && key(x) != id
    ensures forall x :: multiset(r)[x] == if key(x) != id then multiset(s)[x] else 0
    ensures IsSubsequence(r, s)
    ensures FindByKey(r, key, id) == None
  {
    Filter(s, x => key(x) != id)
  }

  /** Deleting a key that no record has changes nothing. */
  lemma RemoveAbsentKey<T(!new)>(s: seq<T>, key: T -> string, id: string)
    requires IndexOfKey(s, key, id) < 0
    ensures RemoveKey(s, key, id) == s
  {
    FilterKeepsAll(s, x => key(x) != id);
  }
}
