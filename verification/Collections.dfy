/** Sequences as listings of sets, and the orders in which maps and directories are walked. */
module Collections {

  ghost predicate Distinct<T>(xs: seq<T>) {
    forall i, j :: 0 <= i < j < |xs| ==> xs[i] != xs[j]
  }

  /** Walking a set meets each of its elements once, in whatever order. */
  ghost predicate Walks<T(!new)>(walk: set<T> -> seq<T>) {
    forall s: set<T> {:trigger walk(s)} :: (forall x :: x in walk(s) <==> x in s) && Distinct(walk(s))
  }

  function SetOf<T(==)>(xs: seq<T>): set<T> {
    set x | x in xs
  }

  function Without<T>(xs: seq<T>, i: nat): seq<T>
    requires i < |xs|
  {
    xs[..i] + xs[i + 1..]
  }

  lemma WalkCovers<T(!new)>(walk: set<T> -> seq<T>, s: set<T>)
    requires Walks(walk)
    ensures SetOf(walk(s)) == s && Distinct(walk(s)) && forall x :: x in walk(s) <==> x in s
  {
  }

  lemma TakeNext<T>(xs: seq<T>, i: nat)
    requires i < |xs| && Distinct(xs)
    ensures xs[i] in SetOf(xs) && xs[i] !in SetOf(xs[..i]) && SetOf(xs[..i + 1]) == SetOf(xs[..i]) + {xs[i]}
  {
    assert xs[..i + 1] == xs[..i] + [xs[i]];
  }

  lemma Pushed<T>(xs: seq<T>, x: T)
    requires Distinct(xs) && x !in SetOf(xs)
    ensures Distinct(xs + [x]) && SetOf(xs + [x]) == SetOf(xs) + {x}
  {
  }

  lemma {:induction false} DistinctSize<T>(xs: seq<T>)
    requires Distinct(xs)
    ensures |SetOf(xs)| == |xs|
  {
    if xs != [] {
      var front, last := xs[..|xs| - 1], xs[|xs| - 1];
      DistinctSize(front);
      assert last !in front;
      assert SetOf(xs) == SetOf(front) + {last};
    }
  }
}
