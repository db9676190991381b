/** The order Go gives strings, and what sorting by a string key leaves undecided. */
module Ordering {

  /** Go compares strings byte by byte; on scalar values that is code-point order. */
  predicate Before(a: string, b: string) {
    if b == [] then false
    else if a == [] then true
    else if a[0] == b[0] then Before(a[1..], b[1..])
    else a[0] < b[0]
  }

  lemma {:induction false} BeforeIsTransitive(a: string, b: string, c: string)
    requires Before(a, b) && Before(b, c)
    ensures Before(a, c)
  {
    if a != [] && a[0] == b[0] && b[0] == c[0] { BeforeIsTransitive(a[1..], b[1..], c[1..]); }
  }

  lemma {:induction false} BeforeIsIrreflexive(a: string)
    ensures !Before(a, a)
  {
    if a != [] { BeforeIsIrreflexive(a[1..]); }
  }

  lemma {:induction false} BeforeIsTotal(a: string, b: string)
    ensures Before(a, b) || a == b || Before(b, a)
  {
    if a != [] && b != [] && a[0] == b[0] {
      BeforeIsTotal(a[1..], b[1..]);
      assert a == [a[0]] + a[1..] && b == [b[0]] + b[1..];
    }
  }

  /** Where two texts first differ. */
  ghost predicate DiffersAt(a: string, b: string, n: nat) {
    n <= |a| && n < |b| && a[..n] == b[..n] && (n == |a| || a[n] < b[n])
  }

  lemma FirstCharactersAgree(a: string, b: string, n: nat)
    requires DiffersAt(a, b, n)
    ensures n > 0 ==> a[0] == b[0]
  {
    assert n > 0 ==> a[..n][0] == a[0] && b[..n][0] == b[0];
  }

  /** The text that ends first, or has the smaller character, where they first differ, comes first. */
  lemma {:induction false} BeforeIff(a: string, b: string)
    ensures Before(a, b) <==> exists n: nat :: DiffersAt(a, b, n)
  {
    if a == [] || b == [] || a[0] != b[0] {
      if Before(a, b) { assert DiffersAt(a, b, 0); }
      forall n: nat | DiffersAt(a, b, n) ensures n == 0 { FirstCharactersAgree(a, b, n); }
    } else {
      BeforeIff(a[1..], b[1..]);
      if n: nat :| DiffersAt(a[1..], b[1..], n) {
        assert a[..n + 1] == [a[0]] + a[1..][..n] && b[..n + 1] == [b[0]] + b[1..][..n];
        assert DiffersAt(a, b, n + 1);
      }
      if n: nat :| DiffersAt(a, b, n) {
        assert a[1..][..n - 1] == a[..n][1..] && b[1..][..n - 1] == b[..n][1..];
        assert DiffersAt(a[1..], b[1..], n - 1);
      }
    }
  }

  // ---------------------------------------------------------------- sorted lists

  /** A strict total order, as `Before` is. */
  ghost predicate TotalOrder<K(!new)>(before: (K, K) -> bool) {
    && (forall a :: !before(a, a))
    && (forall a, b, c :: before(a, b) && before(b, c) ==> before(a, c))
    && (forall a, b :: before(a, b) || a == b || before(b, a))
  }

  lemma BeforeIsTotalOrder()
    ensures TotalOrder(Before)
  {
    forall a ensures !Before(a, a) { BeforeIsIrreflexive(a); }
    forall a, b, c | Before(a, b) && Before(b, c) ensures Before(a, c) { BeforeIsTransitive(a, b, c); }
    forall a, b ensures Before(a, b) || a == b || Before(b, a) { BeforeIsTotal(a, b); }
  }

  /** Keys never decrease. */
  ghost predicate Sorted<T, K>(before: (K, K) -> bool, key: T -> K, xs: seq<T>) {
    forall i, j :: 0 <= i < j < |xs| ==> !before(key(xs[j]), key(xs[i]))
  }

  /** Keys strictly increase. */
  predicate Strict<T, K>(before: (K, K) -> bool, key: T -> K, xs: seq<T>) {
    forall i, j :: 0 <= i < j < |xs| ==> before(key(xs[i]), key(xs[j]))
  }

  /** What any sorting routine, stable or not, promises. */
  ghost predicate SortOf<T, K>(before: (K, K) -> bool, key: T -> K, xs: seq<T>, ys: seq<T>) {
    multiset(xs) == multiset(ys) && Sorted(before, key, ys)
  }

  lemma HeadsAgree<T, K(!new)>(before: (K, K) -> bool, key: T -> K, xs: seq<T>, ys: seq<T>)
    requires TotalOrder(before) && Strict(before, key, xs) && Sorted(before, key, ys)
    requires multiset(xs) == multiset(ys) && xs != []
    ensures ys != [] && xs[0] == ys[0]
  {
    assert xs[0] in multiset(ys);
    var j :| 0 <= j < |ys| && ys[j] == xs[0];
    assert ys[0] in multiset(xs);
    var i :| 0 <= i < |xs| && xs[i] == ys[0];
  }

  lemma TailMultiset<T>(xs: seq<T>)
    requires xs != []
    ensures multiset(xs[1..]) == multiset(xs) - multiset{xs[0]}
  {
    assert xs == [xs[0]] + xs[1..];
  }

  lemma TailsStayInOrder<T, K>(before: (K, K) -> bool, key: T -> K, xs: seq<T>, ys: seq<T>)
    requires Strict(before, key, xs) && Sorted(before, key, ys) && xs != [] && ys != []
    ensures Strict(before, key, xs[1..]) && Sorted(before, key, ys[1..])
  {
    var s, t := xs[1..], ys[1..];
    forall i, j | 0 <= i < j < |s| ensures before(key(s[i]), key(s[j])) {
      assert s[i] == xs[i + 1] && s[j] == xs[j + 1];
    }
    forall i, j | 0 <= i < j < |t| ensures !before(key(t[j]), key(t[i])) {
      assert t[i] == ys[i + 1] && t[j] == ys[j + 1];
    }
  }

  /** When keys are distinct there is one sorted order. */
  lemma {:induction false} SortIsUnique<T, K(!new)>(before: (K, K) -> bool, key: T -> K, xs: seq<T>, ys: seq<T>)
    requires TotalOrder(before) && Strict(before, key, xs) && Sorted(before, key, ys)
    requires multiset(xs) == multiset(ys)
    ensures xs == ys
  {
    if xs == [] {
      assert |multiset(ys)| == |ys|;
    } else {
      HeadsAgree(before, key, xs, ys);
      TailMultiset(xs);
      TailMultiset(ys);
      TailsStayInOrder(before, key, xs, ys);
      SortIsUnique(before, key, xs[1..], ys[1..]);
      assert xs == [xs[0]] + xs[1..] && ys == [ys[0]] + ys[1..];
    }
  }

  /** Neighbours in order are enough. */
  lemma {:induction false} NeighboursAreEnough<T, K(!new)>(before: (K, K) -> bool, key: T -> K, xs: seq<T>)
    requires TotalOrder(before) && forall i :: 0 < i < |xs| ==> before(key(xs[i - 1]), key(xs[i]))
    ensures Strict(before, key, xs)
  {
    forall i, j | 0 <= i < j < |xs| ensures before(key(xs[i]), key(xs[j])) {
      Climb(before, key, xs, i, j);
    }
  }

  lemma {:induction false} Climb<T, K(!new)>(before: (K, K) -> bool, key: T -> K, xs: seq<T>, i: nat, j: nat)
    requires TotalOrder(before) && forall k :: 0 < k < |xs| ==> before(key(xs[k - 1]), key(xs[k]))
    requires i < j < |xs|
    ensures before(key(xs[i]), key(xs[j]))
    decreases j
  {
    assert before(key(xs[j - 1]), key(xs[j]));
    if i < j - 1 { Climb(before, key, xs, i, j - 1); }
  }

  // ---------------------------------------------------------------- a sort

  function Insert<T, K>(before: (K, K) -> bool, key: T -> K, x: T, xs: seq<T>): seq<T> {
    if xs == [] || !before(key(xs[0]), key(x)) then [x] + xs else [xs[0]] + Insert(before, key, x, xs[1..])
  }

  function SortBy<T, K>(before: (K, K) -> bool, key: T -> K, xs: seq<T>): seq<T> {
    if xs == [] then [] else Insert(before, key, xs[0], SortBy(before, key, xs[1..]))
  }

  lemma {:induction false} InsertKeeps<T, K>(before: (K, K) -> bool, key: T -> K, x: T, xs: seq<T>)
    ensures multiset(Insert(before, key, x, xs)) == multiset{x} + multiset(xs)
  {
    if xs != [] && before(key(xs[0]), key(x)) {
      InsertKeeps(before, key, x, xs[1..]);
      assert xs == [xs[0]] + xs[1..];
    }
  }

  lemma InsertMembers<T, K>(before: (K, K) -> bool, key: T -> K, x: T, xs: seq<T>, y: T)
    requires y in Insert(before, key, x, xs)
    ensures y == x || y in xs
  {
    InsertKeeps(before, key, x, xs);
    assert y in multiset(Insert(before, key, x, xs));
  }

  lemma SortedCons<T, K>(before: (K, K) -> bool, key: T -> K, x: T, xs: seq<T>)
    requires Sorted(before, key, xs) && forall y :: y in xs ==> !before(key(y), key(x))
    ensures Sorted(before, key, [x] + xs)
  {
    var ys := [x] + xs;
    forall i, j | 0 <= i < j < |ys| ensures !before(key(ys[j]), key(ys[i])) {
      assert ys[j] == xs[j - 1];
      if i > 0 { assert ys[i] == xs[i - 1]; }
    }
  }

  lemma {:induction false} InsertSorts<T, K(!new)>(before: (K, K) -> bool, key: T -> K, x: T, xs: seq<T>)
    requires TotalOrder(before) && Sorted(before, key, xs)
    ensures Sorted(before, key, Insert(before, key, x, xs))
  {
    if xs == [] || !before(key(xs[0]), key(x)) {
      forall y | y in xs ensures !before(key(y), key(x)) {
        var j :| 0 <= j < |xs| && xs[j] == y;
        assert j > 0 ==> !before(key(xs[j]), key(xs[0]));
      }
      SortedCons(before, key, x, xs);
    } else {
      var rest := Insert(before, key, x, xs[1..]);
      InsertSorts(before, key, x, xs[1..]);
      forall y | y in rest ensures !before(key(y), key(xs[0])) {
        InsertMembers(before, key, x, xs[1..], y);
        if y in xs[1..] {
          var j :| 0 <= j < |xs[1..]| && xs[1..][j] == y;
          assert xs[j + 1] == y;
        }
      }
      SortedCons(before, key, xs[0], rest);
    }
  }

  lemma {:induction false} SortBySorts<T, K(!new)>(before: (K, K) -> bool, key: T -> K, xs: seq<T>)
    requires TotalOrder(before)
    ensures SortOf(before, key, xs, SortBy(before, key, xs))
  {
    if xs != [] {
      SortBySorts(before, key, xs[1..]);
      InsertKeeps(before, key, xs[0], SortBy(before, key, xs[1..]));
      InsertSorts(before, key, xs[0], SortBy(before, key, xs[1..]));
      assert xs == [xs[0]] + xs[1..];
    }
  }
}
