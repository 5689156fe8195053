/** Records written down slot by slot, each state with no more than what later slots need. */
module Records {
  import opened Isa
  import opened Machine
  import opened Abstract
  import opened Checker

  const BARE: Kinds :=
    Kinds(NotInit, NotInit, NotInit, NotInit, NotInit, NotInit, NotInit, NotInit, NotInit, NotInit, To(InStack, STACK_SIZE, STACK_SIZE))

  const TOP: Kind := To(InStack, STACK_SIZE, STACK_SIZE)

  function Slot(k: int): Kind {
    To(InStack, STACK_SIZE + k, STACK_SIZE + k)
  }

  /** Instruction i leads from a to b and nowhere else. */
  predicate Leads(ld: Loaded, i: Insn, a: Saved, b: Saved) {
    var next := Check(ld, i, a);
    next.Some? && |next.value| == 1 && Includes(b, next.value[0])
  }

  lemma CellsJoin(first: int, m: nat, n: nat)
    ensures Cells(first, m) + Cells(first + m, n) == Cells(first, m + n)
  {
    hide Cells;
    CellsAre(first, m);
    CellsAre(first + m, n);
    CellsAre(first, m + n);
    var a, b := Cells(first, m) + Cells(first + m, n), Cells(first, m + n);
    assert forall i :: i in a <==> i in b;
  }
}
