/** Stable sorting and lexicographic order, as Rust's `sort`, `sort_by_key` and path comparison provide them. */
module Ordering {

  ghost predicate TotalPreorder<T(!new)>(le: (T, T) -> bool) {
    && (forall a, b :: le(a, b) || le(b, a))
    && (forall a, b, c :: le(a, b) && le(b, c) ==> le(a, c))
  }

  ghost predicate TotalOrder<T(!new)>(le: (T, T) -> bool) {
    && TotalPreorder(le)
    && (forall a, b :: le(a, b) && le(b, a) ==> a == b)
  }

  // ---------- stable insertion sort ----------

  /** Puts `x` in front of the first element that is not smaller. */
  function Insert<T>(le: (T, T) -> bool, x: T, s: seq<T>): seq<T> {
    if s == [] || le(x, s[0]) then [x] + s else [s[0]] + Insert(le, x, s[1..])
  }

  function Sort<T>(le: (T, T) -> bool, s: seq<T>): seq<T> {
    if s == [] then [] else Insert(le, s[0], Sort(le, s[1..]))
  }

  /** Ascending, with `tie` deciding the order of elements that compare equal. */
  ghost predicate StablyOrdered<T>(le: (T, T) -> bool, tie: (T, T) -> bool, s: seq<T>) {
    forall i, j :: 0 <= i < j < |s| ==> Precedes(le, tie, s[i], s[j])
  }

  ghost predicate Precedes<T>(le: (T, T) -> bool, tie: (T, T) -> bool, a: T, b: T) {
    le(a, b) && (le(b, a) ==> tie(a, b))
  }

  lemma {:induction false} InsertPermutes<T>(le: (T, T) -> bool, x: T, s: seq<T>)
    ensures multiset(Insert(le, x, s)) == multiset{x} + multiset(s)
  {
    if s == [] || le(x, s[0]) {
    } else {
      InsertPermutes(le, x, s[1..]);
      assert s == [s[0]] + s[1..];
    }
  }

  lemma {:induction false} SortPermutes<T>(le: (T, T) -> bool, s: seq<T>)
    ensures multiset(Sort(le, s)) == multiset(s)
  {
    if s == [] {
    } else {
      SortPermutes(le, s[1..]);
      InsertPermutes(le, s[0], Sort(le, s[1..]));
      assert s == [s[0]] + s[1..];
    }
  }

  lemma SameElements<T>(a: seq<T>, b: seq<T>)
    requires multiset(a) == multiset(b)
    ensures |a| == |b|
    ensures forall x :: x in a <==> x in b
  {
    assert |a| == |multiset(a)| == |multiset(b)| == |b|;
    forall x ensures x in a <==> x in b {
      assert x in multiset(a) <==> x in multiset(b);
    }
  }

  lemma {:induction false} InsertOrders<T(!new)>(le: (T, T) -> bool, tie: (T, T) -> bool, x: T, s: seq<T>)
    requires TotalPreorder(le)
    requires StablyOrdered(le, tie, s)
    requires forall y :: y in s ==> tie(x, y)
    ensures StablyOrdered(le, tie, Insert(le, x, s))
  {
    var r := Insert(le, x, s);
    if s == [] {
    } else if le(x, s[0]) {
      forall j | 0 < j < |r| ensures Precedes(le, tie, r[0], r[j]) {
        assert r[j] == s[j - 1] && s[j - 1] in s;
        if j > 1 { assert Precedes(le, tie, s[0], s[j - 1]); }
      }
      assert forall i, j :: 0 < i < j < |r| ==> r[i] == s[i - 1] && r[j] == s[j - 1];
    } else {
      InsertOrders(le, tie, x, s[1..]);
      InsertPermutes(le, x, s[1..]);
      var tail := Insert(le, x, s[1..]);
      SameElements(tail, [x] + s[1..]);
      forall j | 0 < j < |r| ensures Precedes(le, tie, r[0], r[j]) {
        var y := tail[j - 1];
        assert y in [x] + s[1..];
        if y != x {
          var k :| 0 <= k < |s[1..]| && s[1..][k] == y;
          assert Precedes(le, tie, s[0], s[k + 1]);
        }
      }
      forall i, j | 0 < i < j < |r| ensures Precedes(le, tie, r[i], r[j]) {
        assert r[i] == tail[i - 1] && r[j] == tail[j - 1];
      }
    }
  }

  /** Sorting a list that `tie` already orders yields the order "by `le`, then by `tie`". */
  lemma {:induction false} SortOrders<T(!new)>(le: (T, T) -> bool, tie: (T, T) -> bool, s: seq<T>)
    requires TotalPreorder(le)
    requires forall i, j :: 0 <= i < j < |s| ==> tie(s[i], s[j])
    ensures StablyOrdered(le, tie, Sort(le, s))
  {
    if s == [] {
    } else {
      var rest := Sort(le, s[1..]);
      SortOrders(le, tie, s[1..]);
      SortPermutes(le, s[1..]);
      SameElements(rest, s[1..]);
      forall y | y in rest ensures tie(s[0], y) {
        var k :| 0 <= k < |s[1..]| && s[1..][k] == y;
        assert y == s[k + 1];
      }
      InsertOrders(le, tie, s[0], rest);
    }
  }

  /** A list in strict order is determined by its elements. */
  lemma {:induction false} SortedUnique<T(!new)>(lt: (T, T) -> bool, a: seq<T>, b: seq<T>, k: nat)
    requires forall x, y :: !(lt(x, y) && lt(y, x))
    requires forall i, j :: 0 <= i < j < |a| ==> lt(a[i], a[j])
    requires forall i, j :: 0 <= i < j < |b| ==> lt(b[i], b[j])
    requires forall x :: x in a <==> x in b
    requires k <= |a|
    ensures k <= |b| && a[..k] == b[..k]
  {
    if k == 0 {
    } else {
      var n := k - 1;
      SortedUnique(lt, a, b, n);
      assert forall i :: 0 <= i < n ==> a[..n][i] == a[i] && b[..n][i] == b[i];
      assert a[n] in b;
      var m :| 0 <= m < |b| && b[m] == a[n];
      assert b[n] in a;
      var l :| 0 <= l < |a| && a[l] == b[n];
    }
  }

  // ---------- lexicographic order ----------

  predicate LexLe<T(==)>(le: (T, T) -> bool, a: seq<T>, b: seq<T>) {
    a == [] || (b != [] && le(a[0], b[0]) && (a[0] == b[0] ==> LexLe(le, a[1..], b[1..])))
  }

  lemma {:induction false} LexTotal<T(!new)>(le: (T, T) -> bool, a: seq<T>, b: seq<T>)
    requires TotalOrder(le)
    ensures LexLe(le, a, b) || LexLe(le, b, a)
    ensures LexLe(le, a, b) && LexLe(le, b, a) ==> a == b
  {
    if a == [] || b == [] {
    } else {
      LexTotal(le, a[1..], b[1..]);
      assert a == [a[0]] + a[1..] && b == [b[0]] + b[1..];
    }
  }

  lemma {:induction false} LexTransitive<T(!new)>(le: (T, T) -> bool, a: seq<T>, b: seq<T>, c: seq<T>)
    requires TotalOrder(le)
    requires LexLe(le, a, b) && LexLe(le, b, c)
    ensures LexLe(le, a, c)
  {
    if a == [] {
    } else {
      if a[0] == c[0] {
        LexTransitive(le, a[1..], b[1..], c[1..]);
      }
    }
  }

  predicate CharLe(a: char, b: char) { a <= b }

  predicate StringLe(a: string, b: string) { LexLe(CharLe, a, b) }

  predicate PathLe(a: seq<string>, b: seq<string>) { LexLe(StringLe, a, b) }

  lemma StringOrder()
    ensures TotalOrder(StringLe)
  {
    forall a, b ensures StringLe(a, b) || StringLe(b, a) { LexTotal(CharLe, a, b); }
    forall a, b | StringLe(a, b) && StringLe(b, a) ensures a == b { LexTotal(CharLe, a, b); }
    forall a, b, c | StringLe(a, b) && StringLe(b, c) ensures StringLe(a, c) { LexTransitive(CharLe, a, b, c); }
  }

  lemma PathOrder()
    ensures TotalOrder(PathLe)
  {
    StringOrder();
    forall a, b ensures PathLe(a, b) || PathLe(b, a) { LexTotal(StringLe, a, b); }
    forall a, b | PathLe(a, b) && PathLe(b, a) ensures a == b { LexTotal(StringLe, a, b); }
    forall a, b, c | PathLe(a, b) && PathLe(b, c) ensures PathLe(a, c) { LexTransitive(StringLe, a, b, c); }
  }

  /** `a` and `b` agree up to position k, and no further. */
  ghost predicate PartAt<T>(a: seq<T>, b: seq<T>, k: nat) {
    k <= |a| && k <= |b| && a[..k] == b[..k] && (k < |a| && k < |b| ==> a[k] != b[k])
  }

  /** The first difference decides, and a prefix comes first. */
  lemma {:induction false} LexFirstDifference<T(!new)>(le: (T, T) -> bool, a: seq<T>, b: seq<T>, k: nat)
    requires TotalOrder(le) && PartAt(a, b, k)
    ensures LexLe(le, a, b) <==> k == |a| || (k < |b| && le(a[k], b[k]))
  {
    if k == 0 {
    } else {
      assert a[0] == a[..k][0] == b[..k][0] == b[0];
      assert a[1..][..k - 1] == a[..k][1..] && b[1..][..k - 1] == b[..k][1..];
      LexFirstDifference(le, a[1..], b[1..], k - 1);
    }
  }

  /** Entries of one directory are ordered by the first character in which their names differ. */
  lemma SiblingOrder(dir: seq<string>, m: string, n: string, k: nat)
    requires PartAt(m, n, k)
    ensures PathLe(dir + [m], dir + [n]) <==> k == |m| || (k < |n| && m[k] <= n[k])
  {
    StringOrder();
    LexFirstDifference(CharLe, m, n, k);
    if m == n {
      PathOrder();
      assert k == |m|;
    } else {
      assert (dir + [m])[..|dir|] == dir == (dir + [n])[..|dir|];
      LexFirstDifference(StringLe, dir + [m], dir + [n], |dir|);
    }
  }
}
