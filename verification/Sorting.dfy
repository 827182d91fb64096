/** The standard library's stable sorting, and the byte order of strings. */
module Sorting {
  ghost predicate StrictWeakOrder<T(!new)>(less: (T, T) -> bool) {
    && (forall x, y :: less(x, y) ==> !less(y, x))
    && (forall x, y, z {:trigger less(x, y), less(y, z)} :: less(x, z) ==> less(x, y) || less(y, z))
  }

  ghost predicate Sorted<T>(less: (T, T) -> bool, xs: seq<T>) {
    forall i, j :: 0 <= i < j < |xs| ==> !less(xs[j], xs[i])
  }

  function Insert<T>(less: (T, T) -> bool, x: T, xs: seq<T>): (r: seq<T>)
    ensures multiset(r) == multiset{x} + multiset(xs)
  {
    if xs == [] then [x]
    else if less(xs[0], x) then
      assert xs == [xs[0]] + xs[1..];
      [xs[0]] + Insert(less, x, xs[1..])
    else [x] + xs
  }

  /** The stable order: elements that compare equal keep their relative position. */
  function StableSort<T>(less: (T, T) -> bool, xs: seq<T>): (r: seq<T>)
    ensures multiset(r) == multiset(xs) && |r| == |xs|
  {
    if xs == [] then []
    else
      assert xs == [xs[0]] + xs[1..];
      var r := Insert(less, xs[0], StableSort(less, xs[1..]));
      assert |multiset(r)| == |multiset(xs)|;
      r
  }

  lemma {:induction false} InsertSorts<T(!new)>(less: (T, T) -> bool, x: T, xs: seq<T>)
    requires StrictWeakOrder(less) && Sorted(less, xs)
    ensures Sorted(less, Insert(less, x, xs))
  {
    if xs != [] {
      var r := Insert(less, x, xs);
      if less(xs[0], x) {
        InsertSorts(less, x, xs[1..]);
        forall j | 0 < j < |r| ensures !less(r[j], xs[0]) {
          assert r[j] in multiset(r[1..]) && multiset(r[1..]) == multiset{x} + multiset(xs[1..]);
          assert r[j] == x || r[j] in xs[1..];
        }
      } else {
        forall j | 0 < j < |r| ensures !less(r[j], x) {
          var y, h := r[j], xs[0];
          assert y == xs[j - 1];
          assert !less(y, h);
        }
      }
    }
  }

  lemma {:induction false} StableSortSorts<T(!new)>(less: (T, T) -> bool, xs: seq<T>)
    requires StrictWeakOrder(less)
    ensures Sorted(less, StableSort(less, xs))
  {
    if xs != [] {
      StableSortSorts(less, xs[1..]);
      InsertSorts(less, xs[0], StableSort(less, xs[1..]));
    }
  }

  // ---------------------------------------------------------------- stability

  /** The elements of one kind, in order. */
  ghost function Select<T>(kind: T -> bool, xs: seq<T>): seq<T> {
    if xs == [] then [] else (if kind(xs[0]) then [xs[0]] else []) + Select(kind, xs[1..])
  }

  ghost predicate AreTies<T(!new)>(less: (T, T) -> bool, kind: T -> bool) {
    forall a, b {:trigger less(a, b)} :: kind(a) && kind(b) ==> !less(a, b)
  }

  lemma {:induction false} InsertKeepsTies<T(!new)>(less: (T, T) -> bool, kind: T -> bool, x: T, xs: seq<T>)
    requires AreTies(less, kind)
    ensures Select(kind, Insert(less, x, xs)) == (if kind(x) then [x] else []) + Select(kind, xs)
  {
    if xs != [] && less(xs[0], x) {
      var rest := Insert(less, x, xs[1..]);
      InsertKeepsTies(less, kind, x, xs[1..]);
      assert ([xs[0]] + rest)[1..] == rest;
      assert Select(kind, [xs[0]] + rest) == (if kind(xs[0]) then [xs[0]] else []) + Select(kind, rest);
    } else {
      assert ([x] + xs)[1..] == xs;
    }
  }

  /** Elements that compare equal keep their order. */
  lemma {:induction false} StableSortKeepsTies<T(!new)>(less: (T, T) -> bool, kind: T -> bool, xs: seq<T>)
    requires AreTies(less, kind)
    ensures Select(kind, StableSort(less, xs)) == Select(kind, xs)
  {
    if xs != [] {
      StableSortKeepsTies(less, kind, xs[1..]);
      InsertKeepsTies(less, kind, xs[0], StableSort(less, xs[1..]));
    }
  }

  // ---------------------------------------------------------------- total orders

  ghost predicate Total<T(!new)>(less: (T, T) -> bool) {
    forall x, y :: x == y || less(x, y) || less(y, x)
  }

  lemma SortedHeadsAgree<T(!new)>(less: (T, T) -> bool, a: seq<T>, b: seq<T>)
    requires Total(less) && Sorted(less, a) && Sorted(less, b)
    requires a != [] && b != [] && a[0] in b && b[0] in a
    ensures a[0] == b[0]
  {
  }

  lemma TailsMatch<T>(a: seq<T>, b: seq<T>)
    requires multiset(a) == multiset(b) && a != [] && b != [] && a[0] == b[0]
    ensures multiset(a[1..]) == multiset(b[1..])
  {
    assert a == [a[0]] + a[1..] && b == [b[0]] + b[1..];
    assert multiset(a[1..]) == multiset(a) - multiset{a[0]} && multiset(b[1..]) == multiset(b) - multiset{b[0]};
  }

  /** Under a total order a multiset has one sorted list. */
  lemma {:induction false} SortedIsUnique<T(!new)>(less: (T, T) -> bool, a: seq<T>, b: seq<T>)
    requires Total(less) && multiset(a) == multiset(b) && Sorted(less, a) && Sorted(less, b)
    ensures a == b
  {
    assert |multiset(a)| == |multiset(b)|;
    if a != [] {
      assert a[0] in multiset(b) && b[0] in multiset(a);
      SortedHeadsAgree(less, a, b);
      TailsMatch(a, b);
      SortedIsUnique(less, a[1..], b[1..]);
    }
  }

  /** Go compares strings byte by byte; a proper prefix comes first. */
  predicate StringLess(a: string, b: string) {
    b != "" && (a == "" || a[0] < b[0] || (a[0] == b[0] && StringLess(a[1..], b[1..])))
  }

  /** The texts agree up to position `k`, where `a` ends or has the smaller character. */
  predicate IsSmallerAt(a: string, b: string, k: nat) {
    k <= |a| && k < |b| && (forall i :: 0 <= i < k ==> a[i] == b[i]) && (k == |a| || a[k] < b[k])
  }

  lemma {:induction false} StringLessExactly(a: string, b: string)
    ensures StringLess(a, b) <==> exists k :: IsSmallerAt(a, b, k)
  {
    if a != "" && b != "" && a[0] == b[0] {
      StringLessExactly(a[1..], b[1..]);
      if k: nat :| IsSmallerAt(a[1..], b[1..], k) {
        assert forall i :: 0 < i <= k ==> a[i] == a[1..][i - 1] && b[i] == b[1..][i - 1];
        assert IsSmallerAt(a, b, k + 1);
      }
      if k: nat :| IsSmallerAt(a, b, k) {
        assert k > 0 && forall i :: 0 <= i < k - 1 ==> a[1..][i] == a[i + 1] && b[1..][i] == b[i + 1];
        assert IsSmallerAt(a[1..], b[1..], k - 1);
      }
    } else if b != "" && (a == "" || a[0] < b[0]) {
      assert IsSmallerAt(a, b, 0);
    }
  }

  lemma {:induction false} StringOrder(a: string, b: string, c: string)
    ensures StringLess(a, b) ==> !StringLess(b, a)
    ensures a != b ==> StringLess(a, b) || StringLess(b, a)
    ensures StringLess(a, c) ==> StringLess(a, b) || StringLess(b, c)
  {
    if a != "" && b != "" {
      assert a == [a[0]] + a[1..] && b == [b[0]] + b[1..];
      StringOrder(a[1..], b[1..], if c == "" then "" else c[1..]);
    }
  }

  lemma StringLessIsOrder()
    ensures StrictWeakOrder(StringLess) && Total(StringLess)
  {
    forall a, b, c
      ensures a == b || StringLess(a, b) || StringLess(b, a)
      ensures StringLess(a, b) ==> !StringLess(b, a)
      ensures StringLess(a, c) ==> StringLess(a, b) || StringLess(b, c)
    {
      StringOrder(a, b, c);
    }
  }
}
