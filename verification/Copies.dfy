/**
 One program on any number of CPUs: each has registers and a frame of its own, all share
 memory, and their instructions interleave in any order.
 */
module Copies {
  import opened Isa
  import opened Machine

  /** Shared memory, and how far each CPU has got; the memory inside a status is out of date. */
  datatype Cpus = Cpus(mem: Memory, at: map<nat, Status>)

  function MemoryIn(st: Status, mem: Memory): Memory {
    match st
    case Running(s) => s.mem
    case Exited(_, end) => end.mem
    case Error => mem
  }

  /** CPU i enters the program, or executes its next instruction on the shared memory. */
  function StepOf(p: Program, os: nat -> Oracle, c: Cpus, i: nat): Cpus {
    if i !in c.at then c.(at := c.at[i := Running(Entry(c.mem))])
    else if !c.at[i].Running? then c
    else
      var st := Step(p, os(i), c.at[i].s.(mem := c.mem));
      Cpus(MemoryIn(st, c.mem), c.at[i := st])
  }

  /** The CPUs take turns as the schedule says. */
  function RunOf(p: Program, os: nat -> Oracle, c: Cpus, schedule: seq<nat>): Cpus {
    if schedule == [] then c
    else StepOf(p, os, RunOf(p, os, c, schedule[..|schedule| - 1]), schedule[|schedule| - 1])
  }

  /** No CPU has entered the program yet. */
  function Idle(mem: Memory): Cpus {
    Cpus(mem, map[])
  }
}
