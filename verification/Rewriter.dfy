/**
 The kernel's rewriting of a loaded program: a map lookup becomes a lookup of the
 raw element and, unless that is null, a step over the element's header; symbols of
 the data section become offsets into it; jumps are stretched to match.
 */
module Rewriter {
  import opened Word
  import opened Isa
  import opened Machine
  import opened Behaviours

  predicate SlotFine(p: Program, k: nat)
    requires k < |p|
  {
    && (Wide(p[k]) ==> k + 1 < |p| && p[k + 1] == Second)
    && (p[k].Jump? || p[k].JumpIf? ==> 0 <= k + 1 + p[k].joff <= |p|)
  }

  /** Every wide load has its second slot, and every jump stays inside. */
  predicate WellFormed(p: Program) {
    forall k: nat :: k < |p| ==> SlotFine(p, k)
  }

  function Width(i: Insn): nat {
    if i == Call(MapLookup) then 3 else 1
  }

  /** Where slot k of p ends up. */
  function Pos(p: Program, k: nat): nat
    requires k <= |p|
  {
    if k == 0 then 0 else Pos(p, k - 1) + Width(p[k - 1])
  }

  function NewOffset(p: Program, k: nat): int
    requires WellFormed(p) && k < |p| && (p[k].Jump? || p[k].JumpIf?)
  {
    assert SlotFine(p, k);
    Pos(p, k + 1 + p[k].joff) - Pos(p, k) - 1
  }

  predicate SlotFits(p: Program, k: nat)
    requires WellFormed(p) && k < |p|
  {
    && (p[k].Jump? || p[k].JumpIf? ==> -0x8000 <= NewOffset(p, k) < 0x8000)
    && (p[k].LoadSym? ==> p[k].addend + 4 < TWO32)
  }

  /** All new offsets and addends fit their fields. */
  predicate Rewritable(p: Program) {
    WellFormed(p) && forall k: nat :: k < |p| ==> SlotFits(p, k)
  }

  function Patch(p: Program, k: nat): (r: seq<Insn>)
    requires Rewritable(p) && k < |p|
    ensures |r| == Width(p[k])
  {
    assert SlotFits(p, k);
    match p[k]
    case Call(MapLookup) => [Call(RawLookup), JumpIf(Eq, 0, Imm(0), 1), Alu(Add, 0, Imm(56))]
    case Jump(_) => [Jump(NewOffset(p, k))]
    case JumpIf(op, left, right, _) => [JumpIf(op, left, right, NewOffset(p, k))]
    case LoadSym(dst, MessageRef, addend) => [LoadSym(dst, DataRef, addend + 4)]
    case i => [i]
  }

  /** What replaces an instruction whose jump offset stays the same. */
  function Replaced(i: Insn): seq<Insn> {
    match i
    case Call(MapLookup) => [Call(RawLookup), JumpIf(Eq, 0, Imm(0), 1), Alu(Add, 0, Imm(56))]
    case LoadSym(dst, MessageRef, addend) => if addend + 4 < 0x1_0000_0000 then [LoadSym(dst, DataRef, addend + 4)] else [i]
    case _ => [i]
  }

  lemma PatchIs(p: Program, k: nat)
    requires Rewritable(p) && k < |p| && (p[k].Jump? || p[k].JumpIf? ==> NewOffset(p, k) == p[k].joff)
    ensures Patch(p, k) == Replaced(p[k])
  {
    hide Pos;
  }

  lemma ReplacedSize(i: Insn)
    ensures |Replaced(i)| == if i == Call(MapLookup) then 3 else 1
  {
  }

  function RewriteTo(p: Program, k: nat): (r: Program)
    requires Rewritable(p) && k <= |p|
    ensures |r| == Pos(p, k)
  {
    if k == 0 then [] else RewriteTo(p, k - 1) + Patch(p, k - 1)
  }

  function Rewrite(p: Program): Program
    requires Rewritable(p)
  {
    RewriteTo(p, |p|)
  }

  lemma {:induction false} PatchAt(p: Program, n: nat, k: nat, j: nat)
    requires Rewritable(p) && k < n <= |p| && j < Width(p[k])
    ensures Pos(p, k) + j < Pos(p, n) && RewriteTo(p, n)[Pos(p, k) + j] == Patch(p, k)[j]
    decreases n
  {
    if k < n - 1 { PatchAt(p, n - 1, k, j); }
  }

  /** The same state, at the place where the rewritten program continues. */
  predicate Twin(p: Program, s: State, s': State) {
    0 <= s.pc <= |p| && s' == s.(pc := Pos(p, s.pc))
  }

  predicate Match(p: Program, st: Status, st': Status) {
    match st
    case Error => st'.Error?
    case Exited(r, end) => st'.Exited? && st'.result == r && Twin(p, end, st'.end)
    case Running(s) => st'.Running? && Twin(p, s, st'.s)
  }

  // ---- Execution does not depend on where the instruction stands ----

  function Moved(st: Status, d: int): Status {
    match st
    case Running(t) => Running(t.(pc := t.pc + d))
    case Exited(r, t) => Exited(r, t.(pc := t.pc + d))
    case Error => Error
  }

  lemma HelperMoved(h: Helper, s: State, r: Reply, d: int)
    ensures CallHelper(h, s.(pc := s.pc + d), r) == Moved(CallHelper(h, s, r), d)
    ensures CallHelper(h, s, r).Running? ==> CallHelper(h, s, r).s.pc == s.pc + 1
    ensures !CallHelper(h, s, r).Exited?
  {
    hide ReadBytes, WriteBytes, Conversions, Accepts, WithTable, TableOf, Fit;
  }

  lemma ExecuteMoved(i: Insn, s: State, r: Reply, d: int)
    ensures Execute(i, s.(pc := s.pc + d), r) == Moved(Execute(i, s, r), d)
  {
    hide CallHelper, AluResult, LoadValue, StoreValue, Compare;
    match i
    case Call(h) => HelperMoved(h, s, r, d);
    case Load(size, dst, base, off) => LoadMoved(s, size, s.regs.Get(base), off, d);
    case Store(size, base, off, val) => StoreMoved(s, size, s.regs.Get(base), off, s.regs.Get(val), d);
    case _ =>
  }

  lemma LoadMoved(s: State, size: Size, base: Value, off: int, d: int)
    ensures LoadValue(s.(pc := s.pc + d), size, base, off) == LoadValue(s, size, base, off)
  {
    hide ReadBytes, Word64;
  }

  lemma StoreMoved(s: State, size: Size, base: Value, off: int, v: Value, d: int)
    ensures StoreValue(s.(pc := s.pc + d), size, base, off, v) == StoreValue(s, size, base, off, v)
  {
    hide WriteBytes, Bytes;
  }

  // ---- The rewriting preserves behaviour ----

  /** Where a straight-line instruction goes on to. */
  lemma NextPc(i: Insn, s: State, r: Reply)
    requires !i.Jump? && !i.JumpIf?
    ensures var st := Execute(i, s, r); st.Running? ==> st.s.pc == s.pc + (if Wide(i) then 2 else 1)
    ensures var st := Execute(i, s, r); st.Exited? ==> st.end == s
  {
    hide CallHelper, AluResult, LoadValue, StoreValue;
    if i.Call? { HelperMoved(i.helper, s, r, 0); }
  }

  /** The offset of message in the data section replaces its name. */
  lemma PatchedExecution(p: Program, k: nat, s: State, r: Reply)
    requires Rewritable(p) && k < |p| && p[k] != Call(MapLookup) && !p[k].Jump? && !p[k].JumpIf?
    ensures |Patch(p, k)| == 1 && Execute(Patch(p, k)[0], s, r) == Execute(p[k], s, r)
  {
    hide CallHelper, AluResult, LoadValue, StoreValue, Pos, Compare;
    assert SlotFits(p, k);
    if p[k].LoadSym? { assert Resolve(MessageRef, p[k].addend) == Resolve(DataRef, p[k].addend + 4); }
  }

  lemma StepIs(p: Program, o: Oracle, s: State)
    requires 0 <= s.pc < |p|
    ensures Step(p, o, s) == Execute(p[s.pc], s, o(s.calls))
  {
    hide Execute;
  }

  /** A straight-line instruction moves on by as much in both programs. */
  lemma PlainMatches(p: Program, s: State, st: Status)
    requires Rewritable(p) && 0 <= s.pc < |p| && p[s.pc] != Call(MapLookup)
    requires st.Running? ==> st.s.pc == s.pc + if Wide(p[s.pc]) then 2 else 1
    requires st.Exited? ==> st.end == s
    ensures Match(p, st, Moved(st, Pos(p, s.pc) - s.pc))
  {
    var k := s.pc;
    assert SlotFine(p, k);
    hide Rewritable;
    assert Pos(p, k + 1) == Pos(p, k) + 1;
    if Wide(p[k]) { assert Pos(p, k + 2) == Pos(p, k + 1) + 1; }
  }

  lemma StepPlain(p: Program, o: Oracle, s: State)
    requires Rewritable(p) && 0 <= s.pc < |p| && p[s.pc] != Call(MapLookup) && !p[s.pc].Jump? && !p[s.pc].JumpIf?
    ensures Match(p, Step(p, o, s), Step(Rewrite(p), o, s.(pc := Pos(p, s.pc))))
  {
    hide Execute, Patch, RewriteTo, Step, Match, Pos, Moved, Rewritable;
    var k, r := s.pc, o(s.calls);
    var s' := s.(pc := Pos(p, k));
    PatchAt(p, |p|, k, 0);
    StepIs(p, o, s);
    StepIs(Rewrite(p), o, s');
    PatchedExecution(p, k, s', r);
    ExecuteMoved(p[k], s, r, Pos(p, k) - k);
    NextPc(p[k], s, r);
    PlainMatches(p, s, Step(p, o, s));
  }

  /** The jump that replaces a jump leads to where its target has moved. */
  lemma JumpPatched(p: Program, k: nat)
    requires Rewritable(p) && k < |p| && (p[k].Jump? || p[k].JumpIf?)
    ensures 0 <= k + 1 + p[k].joff <= |p| && Pos(p, k) < |Rewrite(p)| && -0x8000 <= NewOffset(p, k) < 0x8000
    ensures Rewrite(p)[Pos(p, k)] == p[k].(joff := NewOffset(p, k))
    ensures Pos(p, k + 1) == Pos(p, k) + 1 && Pos(p, k) + 1 + NewOffset(p, k) == Pos(p, k + 1 + p[k].joff)
  {
    hide RewriteTo;
    assert SlotFine(p, k) && SlotFits(p, k);
    PatchAt(p, |p|, k, 0);
  }

  lemma StepJump(p: Program, o: Oracle, s: State)
    requires Rewritable(p) && 0 <= s.pc < |p| && (p[s.pc].Jump? || p[s.pc].JumpIf?)
    ensures Match(p, Step(p, o, s), Step(Rewrite(p), o, s.(pc := Pos(p, s.pc))))
  {
    hide Execute, Rewrite, WellFormed, JumpTaken, Pos, NewOffset;
    var k, s' := s.pc, s.(pc := Pos(p, s.pc));
    JumpPatched(p, k);
    var i, j := p[k], p[k].(joff := NewOffset(p, k));
    StepIs(p, o, s);
    StepIs(Rewrite(p), o, s');
    JumpEffect(i, s, o(s.calls));
    JumpEffect(j, s', o(s.calls));
    hide Step;
    assert JumpTaken(j, s') == JumpTaken(i, s);
  }

  /** Whether a jump is taken does not depend on the program counter. */
  function JumpTaken(i: Insn, s: State): Option<bool>
    requires i.Jump? || i.JumpIf?
  {
    if i.Jump? then Some(true) else Compare(i.cop, s.regs.Get(i.left), OperandValue(s.regs, i.right))
  }

  lemma JumpEffect(i: Insn, s: State, r: Reply)
    requires i.Jump? || i.JumpIf?
    ensures Execute(i, s, r) == match JumpTaken(i, s)
                                case None => Error
                                case Some(b) => Running(s.(pc := s.pc + 1 + if b then i.joff else 0))
    ensures forall pc, off: Off16 :: JumpTaken(i.(joff := off), s.(pc := pc)) == JumpTaken(i, s)
  {
    hide Compare;
  }

  /** A lookup takes two or three steps of the rewritten program: the raw lookup, the
      test for null, and for an element the step over its header. */
  lemma StepLookup(p: Program, o: Oracle, s: State) returns (n: nat)
    requires Rewritable(p) && 0 <= s.pc < |p| && p[s.pc] == Call(MapLookup)
    ensures n > 0 && Match(p, Step(p, o, s), Run(Rewrite(p), o, Running(s.(pc := Pos(p, s.pc))), n))
  {
    var q, k, s0 := Rewrite(p), s.pc, s.(pc := Pos(p, s.pc));
    PatchAt(p, |p|, k, 0);
    PatchAt(p, |p|, k, 1);
    PatchAt(p, |p|, k, 2);
    assert Pos(p, k + 1) == Pos(p, k) + 3;
    hide RewriteTo, Pos;
    n := RawLookupSteps(q, o, s0);
    LookupMoved(s, Pos(p, k) - k);
  }

  lemma LookupMoved(s: State, d: int)
    ensures Lookup(s.(pc := s.pc + d), ELEM_HEADER) == Moved(Lookup(s, ELEM_HEADER), d)
    ensures Lookup(s, ELEM_HEADER).Running? ==> Lookup(s, ELEM_HEADER).s.pc == s.pc + 1
  {
    HelperMoved(MapLookup, s, Reply(0, [], false), d);
  }

  /** The three instructions that replace a lookup do what the lookup does. */
  lemma RawLookupSteps(q: Program, o: Oracle, s: State) returns (n: nat)
    requires 0 <= s.pc && s.pc + 2 < |q| && q[s.pc] == Call(RawLookup)
    requires q[s.pc + 1] == JumpIf(Eq, 0, Imm(0), 1) && q[s.pc + 2] == Alu(Add, 0, Imm(56))
    ensures n > 0
    ensures Run(q, o, Running(s), n) == match Lookup(s, ELEM_HEADER)
                                        case Running(t) => Running(t.(pc := t.pc + 2))
                                        case st => st
  {
    hide ReadBytes, Run;
    var raw := Lookup(s, 0);
    RunOne(q, o, s);
    if raw.Error? {
      n := 1;
    } else {
      var t := raw.s;
      RunOne(q, o, t);
      RunAdd(q, o, Running(s), 1, 1);
      n := 2;
      if t.regs.r0.Ptr? {
        RunOne(q, o, t.(pc := t.pc + 1));
        RunAdd(q, o, Running(s), 2, 1);
        n := 3;
      }
    }
  }

  lemma StepSimulated(p: Program, o: Oracle, s: State) returns (n: nat)
    requires Rewritable(p) && 0 <= s.pc < |p|
    ensures n > 0 && Match(p, Step(p, o, s), Run(Rewrite(p), o, Running(s.(pc := Pos(p, s.pc))), n))
  {
    hide Execute, RewriteTo;
    if p[s.pc] == Call(MapLookup) {
      n := StepLookup(p, o, s);
    } else {
      n := 1;
      if p[s.pc].Jump? || p[s.pc].JumpIf? { StepJump(p, o, s); } else { StepPlain(p, o, s); }
    }
  }

  /** What it is for two statuses to match. */
  lemma MatchIs(p: Program, st: Status, st': Status)
    ensures Match(p, st, st') && st.Running? ==> 0 <= st.s.pc <= |p| && st' == Running(st.s.(pc := Pos(p, st.s.pc)))
    ensures Match(p, st, st') && !st.Running? ==> !st'.Running?
    ensures st.Running? && 0 <= st.s.pc <= |p| && st' == Running(st.s.(pc := Pos(p, st.s.pc))) ==> Match(p, st, st')
    ensures st.Error? && st'.Error? ==> Match(p, st, st')
  {
    hide Pos;
  }

  /** Every run of a program is matched by a run, at least as long, of its rewriting. */
  lemma {:induction false} RunSimulated(p: Program, o: Oracle, s: State, n: nat) returns (m: nat)
    requires Rewritable(p) && 0 <= s.pc <= |p|
    ensures m >= n && Match(p, Run(p, o, Running(s), n), Run(Rewrite(p), o, Running(s.(pc := Pos(p, s.pc))), m))
    decreases n
  {
    hide Execute, RewriteTo, Step, Pos, Match, Twin, Rewritable;
    var q, s' := Rewrite(p), s.(pc := Pos(p, s.pc));
    if n == 0 {
      m := 0;
      MatchIs(p, Running(s), Running(s'));
    } else if s.pc == |p| {
      assert Step(p, o, s) == Error && Step(q, o, s') == Error by { OutOfRange(p, o, s); OutOfRange(q, o, s'); }
      m := n;
      MatchIs(p, Error, Error);
      RunEnded(p, o, Error, n - 1);
      RunEnded(q, o, Error, n - 1);
    } else {
      var a := StepSimulated(p, o, s);
      var st := Step(p, o, s);
      MatchIs(p, st, Run(q, o, Running(s'), a));
      if st.Running? {
        var b := RunSimulated(p, o, st.s, n - 1);
        m := a + b;
        RunAdd(q, o, Running(s'), a, b);
      } else {
        m := a + n;
        RunEnded(p, o, st, n - 1);
        Settled(q, o, Running(s'), a, m);
      }
    }
  }

  lemma OutOfRange(p: Program, o: Oracle, s: State)
    requires s.pc == |p|
    ensures Step(p, o, s) == Error
  {
  }

  lemma EndsToo(p: Program, o: Oracle, mem: Memory, n: nat)
    requires Rewritable(p) && Ended(Rewrite(p), o, mem, n)
    ensures Ended(p, o, mem, n)
  {
    assert Entry(mem).pc == 0;
    hide Step, RewriteTo, Entry;
    var m := RunSimulated(p, o, Entry(mem), n);
    Settled(Rewrite(p), o, Running(Entry(mem)), n, m);
  }

  /** Rewriting changes nothing that can be observed: the same result, memory and calls,
      the same failures, and the same divergence. */
  lemma RewritePreservesBehaviour(p: Program, o: Oracle, mem: Memory)
    requires Rewritable(p)
    ensures BehaviourOf(Rewrite(p), o, mem) == BehaviourOf(p, o, mem)
  {
    var q := Rewrite(p);
    assert Entry(mem).pc == 0;
    hide Step, RewriteTo, Entry;
    if n: nat :| Ended(p, o, mem, n) {
      var m := RunSimulated(p, o, Entry(mem), n);
      BehaviourIs(p, o, mem, n);
      BehaviourIs(q, o, mem, m);
    } else if n: nat :| Ended(q, o, mem, n) {
      EndsToo(p, o, mem, n);
      assert false;
    }
  }
}
