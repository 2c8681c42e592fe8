/** The contract assumed of `core::Download`, which is not part of the repository: stages are entered in
    order; entering a stage calls back, and the callback's result is the number of releases to wait for,
    where zero advances at once; a release of any other stage does nothing; a reset goes back to the start. */
module Downloading {
  import opened Common

  datatype Download = Idle | Waiting(stage: nat, left: nat) | Finished

  /** The state reached by entering `stage`, and the stages entered on the way. */
  function Enter(waits: seq<nat>, stage: nat): (Download, seq<nat>)
    decreases |waits| - stage
  {
    if stage >= |waits| then
      (Finished, [])
    else if waits[stage] > 0 then
      (Waiting(stage, waits[stage]), [stage])
    else
      var (d, entered) := Enter(waits, stage + 1);
      (d, [stage] + entered)
  }

  function Begin(waits: seq<nat>): (Download, seq<nat>) {
    Enter(waits, 0)
  }

  function CheckRelaxed(waits: seq<nat>, d: Download, stage: nat): (Download, seq<nat>) {
    if d.Waiting? && d.stage == stage then
      if d.left > 1 then (Waiting(stage, d.left - 1), []) else Enter(waits, stage + 1)
    else
      (d, [])
  }

  /** The stages are entered in order; `enter` is a stream's callback: what entering one stage makes of
      its state and what it says. */
  function EnterInOrder<S, N>(enter: (S, nat) -> (S, seq<N>), s: S, stages: seq<nat>): (S, seq<N>) {
    if stages == [] then
      (s, [])
    else
      var (before, said) := EnterInOrder(enter, s, DropLast(stages));
      var (after, last) := enter(before, Last(stages));
      (after, said + last)
  }
}
