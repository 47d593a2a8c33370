/**
 * Counting occurrences in a sequence, the step-by-step way of showing that
 * one sequence is a reordering of another.
 */
module Counts {

  /** How many times `x` occurs in `s`. */
  function Count<T(==)>(s: seq<T>, x: T): nat {
    if s == [] then 0 else (if s[0] == x then 1 else 0) + Count(s[1..], x)
  }

  /** The occurrences in a concatenation are those of its parts. */
  lemma {:induction false} CountConcat<T>(a: seq<T>, b: seq<T>, x: T)
    ensures Count(a + b, x) == Count(a, x) + Count(b, x)
  {
    if a == [] {
      assert a + b == b;
    } else {
      assert (a + b)[1..] == a[1..] + b;
      CountConcat(a[1..], b, x);
    }
  }

  /** The count is the multiplicity in the sequence's multiset. */
  lemma {:induction false} CountIsMultiplicity<T>(s: seq<T>, x: T)
    ensures Count(s, x) == multiset(s)[x]
  {
    if s != [] {
      assert s == [s[0]] + s[1..];
      CountIsMultiplicity(s[1..], x);
    }
  }

  /** A pair counts the same in either order. */
  lemma CountSwap<T>(x: T, y: T, v: T)
    ensures Count([y, x], v) == Count([x, y], v)
  {
    assert [y, x][1..] == [x];
    assert [x, y][1..] == [y];
    assert [x][1..] == [] && [y][1..] == [];
  }

  /** Sequences that count every element alike have the same multiset. */
  lemma SameCounts<T>(a: seq<T>, b: seq<T>)
    requires forall v :: Count(a, v) == Count(b, v)
    ensures multiset(a) == multiset(b)
  {
    forall v ensures multiset(a)[v] == multiset(b)[v] {
      CountIsMultiplicity(a, v);
      CountIsMultiplicity(b, v);
    }
  }
}
