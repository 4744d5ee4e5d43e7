/**
 The remove-or-append toggle both forms of the application apply to a list that
 they use as a set: the completed habit ids of a day and the selected weekdays
 of a new habit. If the element is present, every occurrence is filtered out
 (keeping the order of the rest); otherwise it is appended at the end.
 */
module ListToggle {

  /** No element occurs at two positions. */
  predicate NoDup<T(==)>(xs: seq<T>) {
    forall i, j :: 0 <= i < j < |xs| ==> xs[i] != xs[j]
  }

  /** `xs.filter(y => y !== x)`: every occurrence of `x` dropped. */
  function Remove<T(==, !new)>(xs: seq<T>, x: T): (r: seq<T>)
    ensures forall y :: y in r <==> y in xs && y != x
    ensures multiset(r) == multiset(xs)[x := 0]
    ensures |r| == |xs| - multiset(xs)[x]
  {
    if xs == [] then []
    else
      assert xs == [xs[0]] + xs[1..];
      if xs[0] == x then Remove(xs[1..], x)
      else [xs[0]] + Remove(xs[1..], x)
  }

  /** The toggle: `xs.includes(x) ? xs.filter(y => y !== x) : [...xs, x]`. */
  function Toggled<T(==, !new)>(xs: seq<T>, x: T): (r: seq<T>)
    ensures x in r <==> x !in xs
    ensures forall y :: y != x ==> (y in r <==> y in xs)
    ensures x !in xs ==> |r| == |xs| + 1 && r[..|xs|] == xs && r[|xs|] == x
    ensures x in xs ==> multiset(r) == multiset(xs)[x := 0]
  {
    if x in xs then Remove(xs, x) else xs + [x]
  }

  /** Index-free reading of NoDup: every element has multiplicity at most one. */
  lemma {:induction false} NoDupMultiplicity<T(!new)>(xs: seq<T>)
    ensures NoDup(xs) <==> forall y :: multiset(xs)[y] <= 1
  {
    if xs != [] {
      var t := xs[1..];
      assert xs == [xs[0]] + t;
      NoDupMultiplicity(t);
      if NoDup(xs) {
        assert NoDup(t) by {
          forall i, j | 0 <= i < j < |t| ensures t[i] != t[j] {
            assert t[i] == xs[i + 1] && t[j] == xs[j + 1];
          }
        }
        assert xs[0] !in t by {
          forall k | 0 <= k < |t| ensures t[k] != xs[0] {
            assert t[k] == xs[k + 1];
          }
        }
      }
      if forall y :: multiset(xs)[y] <= 1 {
        assert forall y :: multiset(t)[y] <= multiset(xs)[y];
        assert multiset(t)[xs[0]] == 0;
        forall i, j | 0 <= i < j < |xs| ensures xs[i] != xs[j] {
          if i == 0 {
            assert xs[j] == t[j - 1] && t[j - 1] in t;
          } else {
            assert xs[i] == t[i - 1] && xs[j] == t[j - 1];
          }
        }
      }
    }
  }

  /** In a duplicate-free list an element that is present occurs exactly once. */
  lemma NoDupOnce<T(!new)>(xs: seq<T>, x: T)
    requires NoDup(xs) && x in xs
    ensures multiset(xs)[x] == 1
  {
    NoDupMultiplicity(xs);
  }

  /** Filtering distributes over concatenation, so it keeps the relative order
      of the elements it does not drop. */
  lemma {:induction false} RemoveConcat<T(!new)>(a: seq<T>, b: seq<T>, x: T)
    ensures Remove(a + b, x) == Remove(a, x) + Remove(b, x)
  {
    if a == [] {
      assert a + b == b;
    } else {
      assert (a + b)[0] == a[0] && (a + b)[1..] == a[1..] + b;
      RemoveConcat(a[1..], b, x);
    }
  }

  /** Filtering out an element that is absent changes nothing. */
  lemma {:induction false} RemoveAbsent<T(!new)>(xs: seq<T>, x: T)
    requires x !in xs
    ensures Remove(xs, x) == xs
  {
    if xs != [] {
      assert xs[0] != x;
      RemoveAbsent(xs[1..], x);
    }
  }

  /** Toggling keeps a list duplicate-free. */
  lemma ToggledNoDup<T(!new)>(xs: seq<T>, x: T)
    requires NoDup(xs)
    ensures NoDup(Toggled(xs, x))
  {
    var r := Toggled(xs, x);
    NoDupMultiplicity(xs);
    NoDupMultiplicity(r);
    if x !in xs {
      assert r == xs + [x];
      assert multiset(r) == multiset(xs) + multiset{x};
    }
  }

  /** Toggling an element that is present in a duplicate-free list shortens it
      by one; toggling an absent one lengthens it by one. */
  lemma ToggledLength<T(!new)>(xs: seq<T>, x: T)
    requires NoDup(xs)
    ensures |Toggled(xs, x)| == if x in xs then |xs| - 1 else |xs| + 1
  {
    if x in xs {
      NoDupOnce(xs, x);
    }
  }

  /** Toggling keeps every element inside any set that holds the old elements
      and the toggled one. */
  lemma ToggledWithin<T(!new)>(xs: seq<T>, x: T, universe: set<T>)
    requires forall y :: y in xs ==> y in universe
    requires x in universe
    ensures forall y :: y in Toggled(xs, x) ==> y in universe
  {
  }

  /** Toggling twice restores the same elements; when the element was absent it
      restores the exact list, and on a duplicate-free list the same multiset
      (the removed element comes back at the end). */
  lemma ToggleTwice<T(!new)>(xs: seq<T>, x: T)
    ensures forall y :: y in Toggled(Toggled(xs, x), x) <==> y in xs
    ensures x !in xs ==> Toggled(Toggled(xs, x), x) == xs
    ensures x in xs ==> Toggled(Toggled(xs, x), x) == Remove(xs, x) + [x]
    ensures NoDup(xs) ==> multiset(Toggled(Toggled(xs, x), x)) == multiset(xs)
  {
    if x !in xs {
      assert x in xs + [x];
      RemoveConcat(xs, [x], x);
      RemoveAbsent(xs, x);
      assert Remove([x], x) == [];
    } else {
      var once := Remove(xs, x);
      assert x !in once by { assert multiset(once)[x] == 0; }
      if NoDup(xs) {
        NoDupOnce(xs, x);
        assert multiset(once + [x]) == multiset(once) + multiset{x};
        assert multiset(xs) == multiset(xs)[x := 0] + multiset{x};
      }
    }
  }
}
