/**
 * `list(set(xs))`, the deduplication step of `extract_info` (main.py:42-43).
 *
 * Python lists the elements of the set in its hash-iteration order, which
 * the program never relies on. Distinct keeps the first occurrence of each
 * element; SameElementsSameMultiset shows that any other duplicate-free list
 * of the same elements differs from it only in order.
 */
module ListSet {

  predicate NoDuplicates<T(==)>(xs: seq<T>) {
    forall i, j :: 0 <= i < j < |xs| ==> xs[i] != xs[j]
  }

  /** The elements of `xs`, each once. */
  function Distinct<T(==,!new)>(xs: seq<T>): (r: seq<T>)
    ensures NoDuplicates(r)
    ensures forall x :: x in r <==> x in xs
    ensures |r| <= |xs|
  {
    if xs == [] then []
    else
      var r := Distinct(xs[..|xs| - 1]);
      if xs[|xs| - 1] in r then r else r + [xs[|xs| - 1]]
  }

  /** A list without duplicates is its own deduplication. */
  lemma {:induction false} DistinctOfDistinct<T(!new)>(xs: seq<T>)
    requires NoDuplicates(xs)
    ensures Distinct(xs) == xs
  {
    if xs != [] {
      var init := xs[..|xs| - 1];
      assert NoDuplicates(init);
      DistinctOfDistinct(init);
      assert xs[|xs| - 1] !in init;
      assert xs == init + [xs[|xs| - 1]];
    }
  }

  /** Deduplicating twice is deduplicating once. */
  lemma DistinctIdempotent<T(!new)>(xs: seq<T>)
    ensures Distinct(Distinct(xs)) == Distinct(xs)
  {
    DistinctOfDistinct(Distinct(xs));
  }

  /** In a list without duplicates every element occurs once. */
  lemma {:induction false} OnceEach<T>(xs: seq<T>, x: T)
    requires NoDuplicates(xs)
    ensures multiset(xs)[x] == if x in xs then 1 else 0
  {
    if xs != [] {
      var init := xs[..|xs| - 1];
      assert NoDuplicates(init);
      OnceEach(init, x);
      assert xs == init + [xs[|xs| - 1]];
      assert xs[|xs| - 1] !in init;
    }
  }

  /** Two duplicate-free lists of the same elements are the same up to order. */
  lemma SameElementsSameMultiset<T(!new)>(a: seq<T>, b: seq<T>)
    requires NoDuplicates(a) && NoDuplicates(b)
    requires forall x :: x in a <==> x in b
    ensures multiset(a) == multiset(b)
  {
    forall x
      ensures multiset(a)[x] == multiset(b)[x]
    {
      OnceEach(a, x);
      OnceEach(b, x);
    }
  }

  /** Deduplication depends only on the elements of the list, up to order. */
  lemma DistinctUpToOrder<T(!new)>(xs: seq<T>, ys: seq<T>)
    requires forall x :: x in xs <==> x in ys
    ensures multiset(Distinct(xs)) == multiset(Distinct(ys))
  {
    SameElementsSameMultiset(Distinct(xs), Distinct(ys));
  }
}
