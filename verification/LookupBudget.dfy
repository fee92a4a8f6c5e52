/**
 The shared budget of address lookups (service/ip_info.go:70-96): any number of workers take from one counter
 with a load and a compare-and-swap, and try again when somebody was faster.
 */
module LookupBudget {

  /** Where a worker stands in its call: before the load, or holding the value it loaded. */
  datatype Worker = AtLoad | Holding(value: int)

  /** `granted` and `refused` count the completed calls by their answers, `wins` the successful swaps. */
  datatype State = State(remaining: int, workers: map<nat, Worker>, granted: nat, refused: nat)

  /** One atomic operation of one worker. A worker not seen before starts its first call. */
  datatype Step = Load(worker: nat) | CompareAndSwap(worker: nat)

  function At(s: State, w: nat): Worker {
    if w in s.workers then s.workers[w] else AtLoad
  }

  function NewBudget(limit: int): State {
    State(if limit < 0 then 0 else limit, map[], 0, 0)
  }

  predicate Enabled(s: State, step: Step) {
    match step
    case Load(w) => At(s, w).AtLoad?
    case CompareAndSwap(w) => At(s, w).Holding?
  }

  function Next(s: State, step: Step): State
    requires Enabled(s, step)
  {
    match step
    case Load(w) =>
      if s.remaining <= 0 then s.(refused := s.refused + 1)
      else s.(workers := s.workers[w := Holding(s.remaining)])
    case CompareAndSwap(w) =>
      if s.remaining == At(s, w).value
      then s.(remaining := s.remaining - 1, granted := s.granted + 1, workers := s.workers[w := AtLoad])
      else s.(workers := s.workers[w := AtLoad])
  }

  /** The states of a run, each from the one before by an enabled step. */
  ghost predicate IsRun(states: seq<State>, steps: seq<Step>, limit: int) {
    && |states| == |steps| + 1 && states[0] == NewBudget(limit)
    && forall k :: 0 <= k < |steps| ==> Enabled(states[k], steps[k]) && states[k + 1] == Next(states[k], steps[k])
  }

  predicate Inv(s: State, limit: int) {
    && s.remaining >= 0
    && s.granted == (if limit < 0 then 0 else limit) - s.remaining
    && (s.refused > 0 ==> s.remaining == 0)
    && (forall w :: w in s.workers && s.workers[w].Holding? ==> s.workers[w].value >= 1 && s.workers[w].value >= s.remaining)
  }

  lemma StepKeepsInv(s: State, step: Step, limit: int)
    requires Inv(s, limit) && Enabled(s, step)
    ensures Inv(Next(s, step), limit)
  {
  }

  lemma {:induction false} RunKeepsInv(states: seq<State>, steps: seq<Step>, limit: int, k: nat)
    requires IsRun(states, steps, limit) && k < |states|
    ensures Inv(states[k], limit)
  {
    if k > 0 {
      RunKeepsInv(states, steps, limit, k - 1);
      StepKeepsInv(states[k - 1], steps[k - 1], limit);
    }
  }

  function Min(a: int, b: int): int {
    if a <= b then a else b
  }

  /** In every interleaving, at every moment, the completed calls answered true are as many as the budget allows,
      and the budget is never negative. */
  lemma GrantsAreExact(states: seq<State>, steps: seq<Step>, limit: int, k: nat)
    requires IsRun(states, steps, limit) && k < |states|
    ensures states[k].remaining >= 0
    ensures states[k].granted == Min(if limit < 0 then 0 else limit, states[k].granted + states[k].refused)
  {
    RunKeepsInv(states, steps, limit, k);
  }

  /** A swap fails only when another one succeeded after the load: the budget is smaller than the value held. */
  lemma FailedSwapMeansProgress(states: seq<State>, steps: seq<Step>, limit: int, k: nat)
    requires IsRun(states, steps, limit) && k < |steps| && steps[k].CompareAndSwap?
    requires states[k + 1].granted == states[k].granted
    ensures states[k].remaining < At(states[k], steps[k].worker).value
  {
    RunKeepsInv(states, steps, limit, k);
    assert Enabled(states[k], steps[k]);
  }
}
