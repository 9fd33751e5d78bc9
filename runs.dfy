// The event loop of one realization, as a function of the state it starts from, and the
// run of states it passes through.

module Runs {
  import opened Types
  import opened Blocks
  import opened Invariants

  /** The state the event loop of run_realization ends in: while not every source has
      generated its quota and passes remain, one more event is found and processed. */
  function Realize(c: Config, st: State, fuel: nat, draws: nat -> real): State
    requires Inv(c, st) && NonNegative(draws)
    decreases fuel
  {
    if AllReached(st.sources, c.minRequests) || fuel == 0 then st
    else
      StepInv(c, st, draws);
      Realize(c, Step(c, st, draws), fuel - 1, draws)
  }

  /** One pass of the loop when it does not stop: the result is that of the remaining passes
      from the next state. */
  lemma RealizeUnfold(c: Config, st: State, f: nat, draws: nat -> real)
    requires Inv(c, st) && NonNegative(draws) && |st.sources| > 0 && Inv(c, Step(c, st, draws))
    requires !AllReached(st.sources, c.minRequests)
    ensures Realize(c, st, f + 1, draws) == Realize(c, Step(c, st, draws), f, draws)
  {
  }

  /** The same, for a ceiling given as the successor of f. */
  lemma RealizeNext(c: Config, st: State, fuel: nat, f: nat, draws: nat -> real)
    requires Inv(c, st) && NonNegative(draws) && |st.sources| > 0 && Inv(c, Step(c, st, draws))
    requires !AllReached(st.sources, c.minRequests) && fuel == f + 1
    ensures Realize(c, st, fuel, draws) == Realize(c, Step(c, st, draws), f, draws)
  {
    RealizeUnfold(c, st, f, draws);
  }

  /** The loop keeps the invariant, and its clock ends no earlier than it started. */
  lemma {:induction false} RealizeInv(c: Config, st: State, fuel: nat, draws: nat -> real)
    requires Inv(c, st) && NonNegative(draws)
    ensures Inv(c, Realize(c, st, fuel, draws))
    ensures st.time <= Realize(c, st, fuel, draws).time
    decreases fuel
  {
    if !AllReached(st.sources, c.minRequests) && fuel > 0 {
      var f: nat := fuel - 1;
      StepInv(c, st, draws);
      RealizeUnfold(c, st, f, draws);
      RealizeInv(c, Step(c, st, draws), f, draws);
    }
  }

  /** The states the loop passes through: a run from st whose last state is the result,
      with no earlier state having every quota met, and which stops short of the ceiling
      only once every quota is met. */
  lemma {:induction false} RealizeTrace(c: Config, st: State, fuel: nat, draws: nat -> real)
    returns (trace: seq<State>, iterations: nat)
    requires Inv(c, st) && NonNegative(draws)
    ensures |trace| == iterations + 1 && iterations <= fuel && trace[0] == st
    ensures IsRun(c, trace, draws) && trace[iterations] == Realize(c, st, fuel, draws)
    ensures forall k :: 0 <= k < iterations ==> !AllReached(trace[k].sources, c.minRequests)
    ensures iterations < fuel ==> AllReached(trace[iterations].sources, c.minRequests)
    decreases fuel
  {
    if AllReached(st.sources, c.minRequests) || fuel == 0 {
      trace, iterations := [st], 0;
    } else {
      var f: nat := fuel - 1;
      StepInv(c, st, draws);
      var rest, n := RealizeTrace(c, Step(c, st, draws), f, draws);
      trace, iterations := TraceCons(c, st, fuel, f, rest, n, draws);
    }
  }

  /** The step case of RealizeTrace: the run from the next state, preceded by st. */
  lemma TraceCons(c: Config, st: State, fuel: nat, f: nat, rest: seq<State>, n: nat,
                  draws: nat -> real)
    returns (trace: seq<State>, iterations: nat)
    requires Inv(c, st) && NonNegative(draws) && |st.sources| > 0 && Inv(c, Step(c, st, draws))
    requires !AllReached(st.sources, c.minRequests) && fuel == f + 1
    requires |rest| == n + 1 && n <= f && rest[0] == Step(c, st, draws)
    requires IsRun(c, rest, draws) && rest[n] == Realize(c, Step(c, st, draws), f, draws)
    requires forall k :: 0 <= k < n ==> !AllReached(rest[k].sources, c.minRequests)
    requires n < f ==> AllReached(rest[n].sources, c.minRequests)
    ensures |trace| == iterations + 1 && iterations <= fuel && trace[0] == st
    ensures IsRun(c, trace, draws) && trace[iterations] == Realize(c, st, fuel, draws)
    ensures forall k :: 0 <= k < iterations ==> !AllReached(trace[k].sources, c.minRequests)
    ensures iterations < fuel ==> AllReached(trace[iterations].sources, c.minRequests)
  {
    RealizeNext(c, st, fuel, f, draws);
    trace, iterations := [st] + rest, n + 1;
    RunCons(c, st, rest, draws);
    assert trace[iterations] == rest[n];
    forall k | 0 < k < iterations
      ensures !AllReached(trace[k].sources, c.minRequests)
    {
      assert trace[k] == rest[k - 1];
    }
  }

  /** The state after k realizations in a row, each run as run_simulation runs it: reset by
      initialize_realization from the state the previous one left, then the event loop with the
      iteration ceiling. */
  function Sweep(c: Config, st: State, k: nat, draws: nat -> real): (r: State)
    requires Wf(c, st) && NonNegative(draws)
    ensures Wf(c, r)
    decreases k
  {
    if k == 0 then st
    else
      var prev := Sweep(c, st, k - 1, draws);
      InitInv(c, prev, draws);
      RealizeInv(c, Init(c, prev, draws), MAX_ITERATIONS, draws);
      Realize(c, Init(c, prev, draws), MAX_ITERATIONS, draws)
  }

  /** One more realization of the sweep starts from the reset of the state the previous ones
      left, and ends where the event loop leaves it. */
  lemma SweepNext(c: Config, st: State, k: nat, draws: nat -> real)
    requires Wf(c, st) && NonNegative(draws)
    ensures Inv(c, Init(c, Sweep(c, st, k, draws), draws))
    ensures Sweep(c, st, k + 1, draws)
         == Realize(c, Init(c, Sweep(c, st, k, draws), draws), MAX_ITERATIONS, draws)
  {
    InitInv(c, Sweep(c, st, k, draws), draws);
  }
}
