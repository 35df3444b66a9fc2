/** The basic blocks that lowering emits and the machine that runs them: registers, stack slots, an output,
    and a stuck state for a branch to nowhere. */
module Ir {
  import opened Common
  import Src = ScalarSource

  datatype Operand = Const(n: int) | Reg(r: nat)

  /** A branch target is None where the emitter passed a null block. */
  datatype Instr =
    | Load(dst: nat, slot: nat)
    | Store(v: Operand, slot: nat)
    | Binary(dst: nat, aop: Src.ArithOp, a: Operand, b: Operand)
    | ICmp(dst: nat, cop: Src.CmpOp, a: Operand, b: Operand)
    | NotBit(dst: nat, a: Operand)
    | Phi(dst: nat, from1: nat, v1: Operand, from2: nat, v2: Operand)
    | CallPrint(v: Operand)
    | Br(target: Option<nat>)
    | CondBr(v: Operand, onTrue: nat, onFalse: nat)
    | SwitchBr(v: Operand, fallback: nat, arms: seq<(int, nat)>)
    | Ret(result: Option<Operand>)
  {
    predicate IsTerminator() { Br? || CondBr? || SwitchBr? || Ret? }
  }

  type Code = seq<Instr>

  predicate Terminated(code: Code) {
    |code| > 0 && code[|code| - 1].IsTerminator()
  }

  // ----- the machine -------------------------------------------------------------------------

  datatype Memory = Memory(regs: map<nat, int>, slots: map<nat, int>, out: seq<int>)

  datatype Machine =
    | Running(b: nat, pc: nat, prev: nat, m: Memory)
    | Done(v: Option<int>, out: seq<int>)
    | Stuck(out: seq<int>)

  function Get(m: map<nat, int>, k: nat): int { if k in m then m[k] else 0 }

  function Value(o: Operand, regs: map<nat, int>): int {
    match o case Const(n) => n case Reg(r) => Get(regs, r)
  }

  function SetReg(m: Memory, dst: nat, v: int): Memory { m.(regs := m.regs[dst := v]) }

  function ArmFor(v: int, fallback: nat, arms: seq<(int, nat)>): nat {
    if arms == [] then fallback
    else if arms[0].0 == v then arms[0].1
    else ArmFor(v, fallback, arms[1..])
  }

  function Step(p: seq<Code>, c: Machine): Machine {
    if !c.Running? then c
    else if c.b >= |p| || c.pc >= |p[c.b]| then Stuck(c.m.out)
    else
      var m := c.m;
      match p[c.b][c.pc]
      case Load(d, s) => c.(pc := c.pc + 1, m := SetReg(m, d, Get(m.slots, s)))
      case Store(v, s) => c.(pc := c.pc + 1, m := m.(slots := m.slots[s := Value(v, m.regs)]))
      case Binary(d, op, a, b) =>
        c.(pc := c.pc + 1, m := SetReg(m, d, Src.Apply(op, Value(a, m.regs), Value(b, m.regs))))
      case ICmp(d, op, a, b) =>
        c.(pc := c.pc + 1, m := SetReg(m, d, Src.Compare(op, Value(a, m.regs), Value(b, m.regs))))
      case NotBit(d, a) =>
        c.(pc := c.pc + 1, m := SetReg(m, d, Src.Bit(Value(a, m.regs) == 0)))
      case Phi(d, b1, v1, b2, v2) =>
        if c.prev == b1 then c.(pc := c.pc + 1, m := SetReg(m, d, Value(v1, m.regs)))
        else if c.prev == b2 then c.(pc := c.pc + 1, m := SetReg(m, d, Value(v2, m.regs)))
        else Stuck(m.out)
      case CallPrint(v) => c.(pc := c.pc + 1, m := m.(out := m.out + [Value(v, m.regs)]))
      case Br(None) => Stuck(m.out)
      case Br(Some(t)) => Running(t, 0, c.b, m)
      case CondBr(v, t, f) => Running(if Value(v, m.regs) != 0 then t else f, 0, c.b, m)
      case SwitchBr(v, d, arms) => Running(ArmFor(Value(v, m.regs), d, arms), 0, c.b, m)
      case Ret(None) => Done(None, m.out)
      case Ret(Some(v)) => Done(Some(Value(v, m.regs)), m.out)
  }

  function Run(p: seq<Code>, c: Machine, n: nat): Machine
    decreases n
  {
    if n == 0 then c else Run(p, Step(p, c), n - 1)
  }

  lemma {:induction false} RunSplits(p: seq<Code>, c: Machine, m: nat, n: nat)
    ensures Run(p, c, m + n) == Run(p, Run(p, c, m), n)
    decreases m
  {
    if m > 0 { RunSplits(p, Step(p, c), m - 1, n); }
  }

  lemma {:induction false} FinalStays(p: seq<Code>, c: Machine, n: nat)
    requires !c.Running?
    ensures Run(p, c, n) == c
    decreases n
  {
    if n > 0 { FinalStays(p, c, n - 1); }
  }
}
