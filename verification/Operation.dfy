/** What can happen to a simulated system from outside: edits of its parameters, and ticks. */
module Operation {

  /** `Edit` is a Set, under the name as trimmed. */
  datatype Action = Edit(name: string, value: real) | Tick

  /** How many of the first `n` actions are ticks. */
  function Ticks(actions: seq<Action>, n: nat): nat
    requires n <= |actions|
  {
    if n == 0 then 0 else Ticks(actions, n - 1) + if actions[n - 1].Tick? then 1 else 0
  }
}
