/** What a whole run shows to the outside: its result, memory and calls. */
module Behaviours {
  import opened Word
  import opened Isa
  import opened Machine

  datatype Behaviour = Returns(result: U64, mem: Memory, trace: seq<Event>) | Fails | Diverges

  function Observe(st: Status): Behaviour {
    match st
    case Running(_) => Diverges
    case Exited(r, end) => Returns(r, end.mem, end.trace)
    case Error => Fails
  }

  predicate Ended(p: Program, o: Oracle, mem: Memory, n: nat) {
    !Run(p, o, Running(Entry(mem)), n).Running?
  }

  ghost function BehaviourOf(p: Program, o: Oracle, mem: Memory): Behaviour {
    if exists n: nat :: Ended(p, o, mem, n) then
      var n: nat :| Ended(p, o, mem, n);
      Observe(Run(p, o, Running(Entry(mem)), n))
    else Diverges
  }

  /** Once a run has ended it stays as it is. */
  lemma Settled(p: Program, o: Oracle, st: Status, m: nat, n: nat)
    requires m <= n && !Run(p, o, st, m).Running?
    ensures Run(p, o, st, n) == Run(p, o, st, m)
  {
    RunAdd(p, o, st, m, n - m);
    RunEnded(p, o, Run(p, o, st, m), n - m);
  }

  lemma BehaviourIs(p: Program, o: Oracle, mem: Memory, n: nat)
    requires Ended(p, o, mem, n)
    ensures BehaviourOf(p, o, mem) == Observe(Run(p, o, Running(Entry(mem)), n))
  {
    var m: nat :| Ended(p, o, mem, m) && BehaviourOf(p, o, mem) == Observe(Run(p, o, Running(Entry(mem)), m));
    if m <= n { Settled(p, o, Running(Entry(mem)), m, n); } else { Settled(p, o, Running(Entry(mem)), n, m); }
  }
}
