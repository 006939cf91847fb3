/** Generic table operations the dashboard takes from its dataframe library,
    restated over sequences of rows: boolean-mask selection, group sizes,
    distinct group keys, sorting by a count column and taking the first rows. */
module Tables {

  /** `a` is `b` with some elements dropped and the others kept in order. */
  predicate IsSubsequence<T(==)>(a: seq<T>, b: seq<T>)
    decreases |b|
  {
    if b == [] then a == []
    else (a != [] && a[0] == b[0] && IsSubsequence(a[1..], b[1..])) || IsSubsequence(a, b[1..])
  }

  predicate NoDuplicates<T(==)>(s: seq<T>) {
    forall i, j :: 0 <= i < j < |s| ==> s[i] != s[j]
  }

  /** No duplicates means no element occurs more than once. */
  lemma {:induction false} NoDuplicatesMultiset<T>(s: seq<T>)
    ensures NoDuplicates(s) <==> forall x :: multiset(s)[x] <= 1
  {
    if s != [] {
      NoDuplicatesMultiset(s[1..]);
      assert s == [s[0]] + s[1..];
      assert NoDuplicates(s) <==> s[0] !in s[1..] && NoDuplicates(s[1..]) by {
        if NoDuplicates(s) {
          forall i, j | 0 <= i < j < |s[1..]| ensures s[1..][i] != s[1..][j] {
            assert s[1..][i] == s[i + 1] && s[1..][j] == s[j + 1];
          }
          forall k | 0 <= k < |s[1..]| ensures s[1..][k] != s[0] {
            assert s[1..][k] == s[k + 1];
          }
        }
        if s[0] !in s[1..] && NoDuplicates(s[1..]) {
          forall i, j | 0 <= i < j < |s| ensures s[i] != s[j] {
            assert s[j] == s[1..][j - 1];
            if i > 0 {
              assert s[i] == s[1..][i - 1];
            }
          }
        }
      }
      var rest := multiset(s[1..]);
      assert multiset(s) == multiset{s[0]} + rest;
      assert multiset(s)[s[0]] == rest[s[0]] + 1;
      if forall x :: multiset(s)[x] <= 1 {
        assert multiset(s)[s[0]] <= 1;
        assert rest[s[0]] == 0;
        assert forall x :: rest[x] <= multiset(s)[x];
      }
      if NoDuplicates(s) {
        assert rest[s[0]] == 0;
        forall x ensures multiset(s)[x] <= 1 {
          if x != s[0] {
            assert multiset(s)[x] == rest[x];
          }
        }
      }
    }
  }

  /** Part of a duplicate-free collection is duplicate-free. */
  lemma SubMultisetNoDuplicates<T>(a: seq<T>, b: seq<T>)
    requires multiset(a) <= multiset(b) && NoDuplicates(b)
    ensures NoDuplicates(a)
  {
    NoDuplicatesMultiset(b);
    NoDuplicatesMultiset(a);
    assert forall x :: multiset(a)[x] <= multiset(b)[x];
  }

  // ---------------------------------------------------------------- selection

  /** Boolean-mask selection `frame[mask]`: the rows that satisfy `keep`, in order. */
  function Where<T(==,!new)>(s: seq<T>, keep: T -> bool): (r: seq<T>)
    ensures |r| <= |s|
    ensures forall x :: x in r <==> x in s && keep(x)
  {
    if s == [] then []
    else if keep(s[0]) then [s[0]] + Where(s[1..], keep)
    else Where(s[1..], keep)
  }

  /** A mask keeps every copy of a row it accepts and no copy of one it rejects. */
  lemma {:induction false} WhereMultiplicity<T(!new)>(s: seq<T>, keep: T -> bool)
    ensures forall x :: multiset(Where(s, keep))[x] == if keep(x) then multiset(s)[x] else 0
  {
    if s != [] {
      WhereMultiplicity(s[1..], keep);
      assert s == [s[0]] + s[1..];
    }
  }

  lemma WhereCons<T(!new)>(x: T, s: seq<T>, keep: T -> bool)
    ensures Where([x] + s, keep) == if keep(x) then [x] + Where(s, keep) else Where(s, keep)
  {
    assert ([x] + s)[1..] == s;
  }

  lemma {:induction false} WhereIsSubsequence<T(!new)>(s: seq<T>, keep: T -> bool)
    ensures IsSubsequence(Where(s, keep), s)
  {
    if s != [] {
      WhereIsSubsequence(s[1..], keep);
      if keep(s[0]) {
        assert ([s[0]] + Where(s[1..], keep))[1..] == Where(s[1..], keep);
      }
    }
  }

  /** A mask that holds on every row selects the whole frame. */
  lemma {:induction false} WhereAll<T(!new)>(s: seq<T>, keep: T -> bool)
    requires forall x :: x in s ==> keep(x)
    ensures Where(s, keep) == s
  {
    if s != [] {
      WhereAll(s[1..], keep);
    }
  }

  /** A mask that holds on no row selects nothing. */
  lemma {:induction false} WhereNone<T(!new)>(s: seq<T>, keep: T -> bool)
    requires forall x :: x in s ==> !keep(x)
    ensures Where(s, keep) == []
  {
    if s != [] {
      WhereNone(s[1..], keep);
    }
  }

  /** Two masks applied one after the other select what their conjunction selects. */
  lemma {:induction false} WhereWhere<T(!new)>(s: seq<T>, p: T -> bool, q: T -> bool, both: T -> bool)
    requires forall x :: both(x) == (p(x) && q(x))
    ensures Where(Where(s, p), q) == Where(s, both)
  {
    if s != [] {
      WhereWhere(s[1..], p, q, both);
      if p(s[0]) {
        WhereCons(s[0], Where(s[1..], p), q);
      }
    }
  }

  /** The order in which two masks are applied does not matter. */
  lemma WhereCommutes<T(!new)>(s: seq<T>, p: T -> bool, q: T -> bool)
    ensures Where(Where(s, p), q) == Where(Where(s, q), p)
  {
    var both := x => p(x) && q(x);
    WhereWhere(s, p, q, both);
    WhereWhere(s, q, p, both);
  }

  // ---------------------------------------------------------------- group sizes

  /** The number of rows equal to `x` (the size of the group of `x`). */
  function Count<T(==)>(s: seq<T>, x: T): (n: nat)
    ensures n <= |s|
    ensures n > 0 <==> x in s
  {
    if s == [] then 0 else (if s[0] == x then 1 else 0) + Count(s[1..], x)
  }

  lemma CountCons<T>(y: T, s: seq<T>, x: T)
    ensures Count([y] + s, x) == (if y == x then 1 else 0) + Count(s, x)
  {
    assert ([y] + s)[1..] == s;
  }

  /** The group sizes of `s` for each of `keys`, in the order of `keys`. */
  function CountsFor<T(==)>(s: seq<T>, keys: seq<T>): (counts: seq<nat>)
    ensures |counts| == |keys|
    ensures forall i :: 0 <= i < |keys| ==> counts[i] == Count(s, keys[i])
  {
    if keys == [] then [] else [Count(s, keys[0])] + CountsFor(s, keys[1..])
  }

  function Total(xs: seq<nat>): nat {
    if xs == [] then 0 else xs[0] + Total(xs[1..])
  }

  lemma {:induction false} CountInDistinct<T>(keys: seq<T>, x: T)
    requires NoDuplicates(keys)
    ensures Count(keys, x) == if x in keys then 1 else 0
  {
    if keys != [] {
      assert NoDuplicates(keys[1..]) by {
        forall i, j | 0 <= i < j < |keys[1..]| ensures keys[1..][i] != keys[1..][j] {
          assert keys[1..][i] == keys[i + 1] && keys[1..][j] == keys[j + 1];
        }
      }
      CountInDistinct(keys[1..], x);
      if keys[0] == x {
        assert x !in keys[1..] by {
          forall k | 0 <= k < |keys[1..]| ensures keys[1..][k] != x {
            assert keys[1..][k] == keys[k + 1];
          }
        }
      }
    }
  }

  lemma {:induction false} CountsForEmpty<T>(keys: seq<T>)
    ensures Total(CountsFor([], keys)) == 0
  {
    if keys != [] {
      CountsForEmpty(keys[1..]);
    }
  }

  /** Adding one row adds one to the group sizes of the keys equal to it. */
  lemma {:induction false} CountsForCons<T>(y: T, s: seq<T>, keys: seq<T>)
    ensures Total(CountsFor([y] + s, keys)) == Count(keys, y) + Total(CountsFor(s, keys))
  {
    if keys != [] {
      CountCons(y, s, keys[0]);
      CountsForCons(y, s, keys[1..]);
    }
  }

  /** Group sizes over distinct keys that cover every row add up to the number of rows. */
  lemma {:induction false} CountsCoverAll<T>(s: seq<T>, keys: seq<T>)
    requires NoDuplicates(keys)
    requires forall x :: x in s ==> x in keys
    ensures Total(CountsFor(s, keys)) == |s|
  {
    if s == [] {
      CountsForEmpty(keys);
    } else {
      assert s == [s[0]] + s[1..];
      CountsForCons(s[0], s[1..], keys);
      CountInDistinct(keys, s[0]);
      CountsCoverAll(s[1..], keys);
    }
  }

  // ---------------------------------------------------------------- group keys

  /** The distinct values of `s`, one group key per value. */
  function Distinct<T(==,!new)>(s: seq<T>): (keys: seq<T>)
    ensures NoDuplicates(keys)
    ensures forall x :: x in keys <==> x in s
  {
    if s == [] then []
    else
      var rest := Distinct(s[1..]);
      if s[0] in rest then rest else [s[0]] + rest
  }

  predicate StrictlyIncreasing(s: seq<int>) {
    forall i, j :: 0 <= i < j < |s| ==> s[i] < s[j]
  }

  function InsertKey(x: int, ks: seq<int>): (r: seq<int>)
    requires StrictlyIncreasing(ks)
    ensures StrictlyIncreasing(r)
    ensures forall y :: y in r <==> y == x || y in ks
  {
    if ks == [] then [x]
    else if x < ks[0] then [x] + ks
    else if x == ks[0] then ks
    else
      var tail := InsertKey(x, ks[1..]);
      assert forall k :: 0 <= k < |tail| ==> tail[k] in tail;
      [ks[0]] + tail
  }

  /** The distinct integer keys of `s` in ascending order, as a group-by on an
      integer column lists them. */
  function SortedKeys(s: seq<int>): (ks: seq<int>)
    ensures StrictlyIncreasing(ks)
    ensures forall y :: y in ks <==> y in s
  {
    if s == [] then [] else InsertKey(s[0], SortedKeys(s[1..]))
  }

  lemma StrictlyIncreasingNoDuplicates(ks: seq<int>)
    requires StrictlyIncreasing(ks)
    ensures NoDuplicates(ks)
  {
  }

  // ---------------------------------------------------------------- sorting

  /** The rows are in non-increasing order of `key`. */
  predicate NonIncreasing<T>(s: seq<T>, key: T -> int) {
    forall i, j :: 0 <= i < j < |s| ==> key(s[i]) >= key(s[j])
  }

  function KeySum<T>(s: seq<T>, key: T -> int): int {
    if s == [] then 0 else key(s[0]) + KeySum(s[1..], key)
  }

  function InsertDescending<T(==)>(x: T, s: seq<T>, key: T -> int): (r: seq<T>)
    ensures multiset(r) == multiset(s) + multiset{x}
    ensures KeySum(r, key) == key(x) + KeySum(s, key)
  {
    if s == [] || key(x) >= key(s[0]) then
      [x] + s
    else
      assert s == [s[0]] + s[1..];
      [s[0]] + InsertDescending(x, s[1..], key)
  }

  /** Inserting never raises the largest key above a common bound. */
  lemma {:induction false} InsertDescendingBounded<T>(x: T, s: seq<T>, key: T -> int, b: int)
    requires key(x) <= b
    requires forall i :: 0 <= i < |s| ==> key(s[i]) <= b
    ensures forall i :: 0 <= i < |InsertDescending(x, s, key)| ==> key(InsertDescending(x, s, key)[i]) <= b
  {
    if s != [] && key(x) < key(s[0]) {
      var tail := InsertDescending(x, s[1..], key);
      assert forall i :: 0 <= i < |s[1..]| ==> s[1..][i] == s[i + 1];
      InsertDescendingBounded(x, s[1..], key, b);
      var r := [s[0]] + tail;
      assert r == InsertDescending(x, s, key);
      forall i | 0 <= i < |r| ensures key(r[i]) <= b {
        if i > 0 { assert r[i] == tail[i - 1]; }
      }
    }
  }

  lemma {:induction false} InsertDescendingSorted<T>(x: T, s: seq<T>, key: T -> int)
    requires NonIncreasing(s, key)
    ensures NonIncreasing(InsertDescending(x, s, key), key)
  {
    if s != [] && key(x) < key(s[0]) {
      var rest := s[1..];
      assert forall i :: 0 <= i < |rest| ==> rest[i] == s[i + 1];
      var tail := InsertDescending(x, rest, key);
      InsertDescendingSorted(x, rest, key);
      InsertDescendingBounded(x, rest, key, key(s[0]));
      var r := [s[0]] + tail;
      assert r == InsertDescending(x, s, key);
      forall i, j | 0 <= i < j < |r| ensures key(r[i]) >= key(r[j]) {
        assert r[j] == tail[j - 1];
        if i > 0 { assert r[i] == tail[i - 1]; }
      }
    }
  }

  lemma InsertDescendingDistinct<T>(x: T, s: seq<T>, key: T -> int)
    requires x !in s && NoDuplicates(s)
    ensures NoDuplicates(InsertDescending(x, s, key))
    decreases |s|
  {
    if s != [] && key(x) < key(s[0]) {
      var tail := InsertDescending(x, s[1..], key);
      assert s == [s[0]] + s[1..];
      InsertDescendingDistinct(x, s[1..], key);
      assert s[0] !in multiset(tail);
      forall k | 0 <= k < |tail| ensures s[0] != tail[k] {
        assert tail[k] in multiset(tail);
      }
    }
  }

  /** `sort_values(key, ascending=False)`: the same rows, largest key first.
      Rows with equal keys keep their relative order. */
  function SortDescending<T(==)>(s: seq<T>, key: T -> int): (r: seq<T>)
    ensures multiset(r) == multiset(s)
    ensures |r| == |s|
    ensures KeySum(r, key) == KeySum(s, key)
  {
    if s == [] then []
    else
      assert s == [s[0]] + s[1..];
      InsertDescending(s[0], SortDescending(s[1..], key), key)
  }

  lemma {:induction false} SortDescendingSorted<T>(s: seq<T>, key: T -> int)
    ensures NonIncreasing(SortDescending(s, key), key)
  {
    if s != [] {
      SortDescendingSorted(s[1..], key);
      InsertDescendingSorted(s[0], SortDescending(s[1..], key), key);
    }
  }

  lemma {:induction false} SortDescendingDistinct<T>(s: seq<T>, key: T -> int)
    requires NoDuplicates(s)
    ensures NoDuplicates(SortDescending(s, key))
  {
    if s != [] {
      assert s == [s[0]] + s[1..];
      assert NoDuplicates(s[1..]) by {
        forall i, j | 0 <= i < j < |s[1..]| ensures s[1..][i] != s[1..][j] {
          assert s[1..][i] == s[i + 1] && s[1..][j] == s[j + 1];
        }
      }
      assert s[0] !in s[1..] by {
        forall k | 0 <= k < |s[1..]| ensures s[1..][k] != s[0] {
          assert s[1..][k] == s[k + 1];
        }
      }
      SortDescendingDistinct(s[1..], key);
      assert s[0] !in multiset(SortDescending(s[1..], key));
      InsertDescendingDistinct(s[0], SortDescending(s[1..], key), key);
    }
  }

  /** `head(n)`: the first `n` rows, or all of them when there are fewer. */
  function Take<T>(s: seq<T>, n: nat): (r: seq<T>)
    ensures |r| == if |s| < n then |s| else n
    ensures forall i :: 0 <= i < |r| ==> r[i] == s[i]
  {
    if |s| < n then s else s[..n]
  }

  /** `head` only keeps rows it is given, each at most as often. */
  lemma TakeSubMultiset<T>(s: seq<T>, n: nat)
    ensures multiset(Take(s, n)) <= multiset(s)
  {
    if n <= |s| {
      assert s == s[..n] + s[n..];
    }
  }

  /** `sort_values(key, ascending=False).head(n)`: the first `n` rows of the
      descending sort, or all of them when there are fewer. */
  function TopBy<T(==)>(s: seq<T>, n: nat, key: T -> int): (top: seq<T>)
    ensures |top| == if |s| < n then |s| else n
    ensures multiset(top) <= multiset(s)
    ensures NonIncreasing(top, key)
  {
    SortDescendingSorted(s, key);
    TakeSubMultiset(SortDescending(s, key), n);
    Take(SortDescending(s, key), n)
  }

  /** In rows sorted by `key`, every row left out of the first `n` has a key no
      larger than any row among them. */
  lemma TakeOfSortedIsTop<T>(s: seq<T>, n: nat, key: T -> int, x: T)
    requires NonIncreasing(s, key)
    requires x in s && x !in Take(s, n)
    ensures forall y :: y in Take(s, n) ==> key(y) >= key(x)
  {
    var j :| 0 <= j < |s| && s[j] == x;
    var top := Take(s, n);
    assert j >= |top|;
    forall y | y in top ensures key(y) >= key(x) {
      var i :| 0 <= i < |top| && top[i] == y;
      assert s[i] == y;
    }
  }
}
