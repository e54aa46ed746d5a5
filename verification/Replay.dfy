/** Scripts as lists of atomic actions, cut short by a kill after any of them. */
module Replay {

  function PerformAll<S, A>(perform: (S, A) -> S, s: S, actions: seq<A>): S {
    if actions == [] then s
    else perform(PerformAll(perform, s, actions[..|actions| - 1]), actions[|actions| - 1])
  }

  /** The actions a budget allows. */
  function Cut<A>(actions: seq<A>, budget: nat): seq<A> {
    if budget < |actions| then actions[..budget] else actions
  }

  /** A stretch of a script took the state from one value to another, using up budget,
      and lives on if the budget covered it. */
  predicate Ran<S(==), A>(perform: (S, A) -> S, before: S, after: S, actions: seq<A>, budget: nat, left: nat,
                  alive: bool) {
    && after == PerformAll(perform, before, Cut(actions, budget))
    && alive == (budget >= |actions|)
    && left == if alive then budget - |actions| else 0
  }

  lemma {:induction false} PerformConcat<S, A>(perform: (S, A) -> S, s: S, a: seq<A>, b: seq<A>)
    ensures PerformAll(perform, s, a + b) == PerformAll(perform, PerformAll(perform, s, a), b)
  {
    if b == [] {
      assert a + b == a;
    } else {
      PerformConcat(perform, s, a, b[..|b| - 1]);
      assert (a + b)[..|a + b| - 1] == a + b[..|b| - 1];
    }
  }

  lemma PerformOne<S, A>(perform: (S, A) -> S, s: S, a: A)
    ensures PerformAll(perform, s, [a]) == perform(s, a)
  {
    assert [a][..0] == [];
  }

  lemma PerformOn<S, A>(perform: (S, A) -> S, before: S, a: seq<A>, middle: S, b: seq<A>, after: S)
    requires PerformAll(perform, before, a) == middle && PerformAll(perform, middle, b) == after
    ensures PerformAll(perform, before, a + b) == after
  {
    PerformConcat(perform, before, a, b);
  }

  lemma RanOn<S, A>(perform: (S, A) -> S, before: S, middle: S, after: S, a: seq<A>, b: seq<A>,
                    budget: nat, rest: nat, left: nat, alive: bool)
    requires Ran(perform, before, middle, a, budget, rest, true) && Ran(perform, middle, after, b, rest, left, alive)
    ensures Ran(perform, before, after, a + b, budget, left, alive)
  {
    PerformConcat(perform, before, a, Cut(b, rest));
    assert Cut(a + b, budget) == a + Cut(b, rest);
  }

  lemma RanOut<S, A>(perform: (S, A) -> S, before: S, after: S, a: seq<A>, b: seq<A>, budget: nat)
    requires Ran(perform, before, after, a, budget, 0, false)
    ensures Ran(perform, before, after, a + b, budget, 0, false)
  {
    assert Cut(a + b, budget) == Cut(a, budget);
  }
}
