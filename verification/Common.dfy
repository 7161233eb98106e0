/** Small shared datatypes. */
module Common {

  datatype Option<+T> = None | Some(value: T)

  datatype Result<+T> = Ok(value: T) | Err

  const I64_MAX: int := 0x7FFF_FFFF_FFFF_FFFF
  const U64_MAX: int := 0xFFFF_FFFF_FFFF_FFFF

  type U64 = n: int | 0 <= n <= U64_MAX

  function Min(a: int, b: int): int {
    if a <= b then a else b
  }

  function Max(a: int, b: int): int {
    if a <= b then b else a
  }

  ghost predicate StrictTotalOrder<T(!new)>(before: (T, T) -> bool) {
    && (forall a :: !before(a, a))
    && (forall a, b :: a != b ==> before(a, b) || before(b, a))
    && (forall a, b, c :: before(a, b) && before(b, c) ==> before(a, c))
  }

  lemma SubsetSize<T>(a: set<T>, b: set<T>)
    requires a <= b
    ensures |a| <= |b|
  {
    assert b == a + (b - a);
  }

  /** A set has `n` elements exactly when `n` different ones can be listed. */
  lemma {:induction false} ListSome<T>(s: set<T>, n: nat) returns (xs: seq<T>)
    requires n <= |s|
    ensures |xs| == n && (forall i :: 0 <= i < n ==> xs[i] in s)
    ensures forall i, j :: 0 <= i < j < n ==> xs[i] != xs[j]
  {
    if n == 0 {
      xs := [];
    } else {
      var x :| x in s;
      var rest := ListSome(s - {x}, n - 1);
      xs := [x] + rest;
    }
  }

  lemma {:induction false} ListedFit<T>(s: set<T>, xs: seq<T>)
    requires forall i :: 0 <= i < |xs| ==> xs[i] in s
    requires forall i, j :: 0 <= i < j < |xs| ==> xs[i] != xs[j]
    ensures |xs| <= |s|
  {
    if xs == [] {
    } else {
      ListedFit(s - {xs[0]}, xs[1..]);
    }
  }

  /** Two sequences without repeats that hold the same elements are permutations of one another. */
  lemma SameElementsSameMultiset<T>(a: seq<T>, b: seq<T>)
    requires forall i, j :: 0 <= i < j < |a| ==> a[i] != a[j]
    requires forall i, j :: 0 <= i < j < |b| ==> b[i] != b[j]
    requires forall x :: x in a <==> x in b
    ensures multiset(a) == multiset(b)
  {
    forall x ensures multiset(a)[x] == multiset(b)[x] {
      CountInDistinct(a, x);
      CountInDistinct(b, x);
    }
  }

  lemma {:induction false} CountInDistinct<T>(a: seq<T>, x: T)
    requires forall i, j :: 0 <= i < j < |a| ==> a[i] != a[j]
    ensures multiset(a)[x] == if x in a then 1 else 0
  {
    if a == [] {
    } else {
      var init := a[..|a| - 1];
      assert a == init + [a[|a| - 1]];
      CountInDistinct(init, x);
    }
  }
}
