/** Filtering a list in order, and what filtering keeps. */
module Lists {

  function Select<T>(p: T -> bool, xs: seq<T>): seq<T> {
    if xs == [] then []
    else
      var rest := Select(p, xs[..|xs| - 1]);
      if p(xs[|xs| - 1]) then rest + [xs[|xs| - 1]] else rest
  }

  lemma SelectStep<T>(p: T -> bool, xs: seq<T>, x: T)
    ensures Select(p, xs + [x]) == Select(p, xs) + if p(x) then [x] else []
  {
  }

  lemma {:induction false} SelectMember<T>(p: T -> bool, xs: seq<T>, x: T)
    ensures x in Select(p, xs) <==> x in xs && p(x)
  {
    if xs != [] {
      SelectMember(p, xs[..|xs| - 1], x);
      assert xs == xs[..|xs| - 1] + [xs[|xs| - 1]];
    }
  }

  lemma {:induction false} SelectCount<T>(p: T -> bool, xs: seq<T>, x: T)
    ensures multiset(Select(p, xs))[x] == if p(x) then multiset(xs)[x] else 0
  {
    if xs != [] {
      SelectCount(p, xs[..|xs| - 1], x);
      assert xs == xs[..|xs| - 1] + [xs[|xs| - 1]];
    }
  }

  /** Selecting twice is selecting once when the second choice implies the first. */
  lemma {:induction false} SelectSelect<T>(p: T -> bool, q: T -> bool, xs: seq<T>)
    requires forall x :: x in xs && p(x) ==> q(x)
    ensures Select(p, Select(q, xs)) == Select(p, xs)
  {
    if xs != [] {
      var init, x := xs[..|xs| - 1], xs[|xs| - 1];
      SelectSelect(p, q, init);
      if q(x) {
        SelectStep(p, Select(q, init), x);
      }
    }
  }

  ghost predicate NoRepeats<T>(xs: seq<T>) {
    forall i, j :: 0 <= i < j < |xs| ==> xs[i] != xs[j]
  }
}
