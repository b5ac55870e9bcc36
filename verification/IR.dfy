/** A small SSA intermediate representation and its big-step semantics.

    A module is a list of functions, a function a list of basic blocks, and registers
    hold machine words.  Every instruction that the instrumentation pass neither mutates
    nor inserts (loads, stores, casts, calls that leave the module, ...) is an `Effect`:
    it appends an event to the trace and receives a value that may depend on the whole
    trace so far, so memory and the outside world are part of the environment. */
module IR {
  import opened Scalars
  import Bits

  type Word = nat

  datatype Loc = Loc(file: string, line: u32, col: u32)

  /** The place of an integer literal: an operand of a comparison or of a return. */
  datatype LitSite = CmpLit(of: nat, oi: nat) | RetLit(block: nat)

  /** `Src` registers are those of the program as written; the others are introduced by
      the pass and are named after the site they belong to, so they are fresh. */
  datatype Reg =
    | Src(n: nat)
    | Mut(of: nat, k: nat)
    | On(of: nat, k: nat)
    | Sel(of: nat, k: nat)
    | LitOn(at: LitSite)
    | LitSel(at: LitSite)

  datatype Operand = Const(width: nat, value: nat) | Var(reg: Reg)

  datatype BinOp = Add | Sub | Mul | SDiv | UDiv | SRem | URem | And | Or | Xor

  datatype Pred = EQ | NE | SGT | SGE | SLT | SLE | UGT | UGE | ULT | ULE

  datatype Inst =
    | Bin(dst: Reg, bop: BinOp, width: nat, a: Operand, b: Operand, loc: Option<Loc>)
    | Cmp(dst: Reg, pred: Pred, width: nat, a: Operand, b: Operand, loc: Option<Loc>)
    | Select(dst: Reg, cond: Operand, whenOn: Operand, whenOff: Operand)
    | Active(dst: Reg, id: u32)
    | Call(dst: Reg, callee: nat, args: seq<Operand>)
    | Effect(dst: Reg, tag: string, args: seq<Operand>)

  datatype Phi = Phi(dst: Reg, incoming: seq<(nat, Operand)>)

  datatype Term =
    | Br(target: nat)
    | CondBr(cond: Operand, whenTrue: nat, whenFalse: nat)
    | Return(value: Option<Operand>, loc: Option<Loc>)
    | Unreachable

  datatype Block = Block(phis: seq<Phi>, insts: seq<Inst>, term: Term)

  datatype Function = Function(name: string, params: seq<Reg>, blocks: seq<Block>)

  type Module = seq<Function>

  // ---------------------------------------------------------------- arithmetic

  function Wrap(w: nat, x: int): Word {
    x % Bits.Pow(w)
  }

  /** The two's-complement reading of a word of width `w`. */
  function Signed(w: nat, x: Word): int {
    if 2 * Wrap(w, x) < Bits.Pow(w) then Wrap(w, x) else Wrap(w, x) - Bits.Pow(w)
  }

  function Abs(x: int): nat {
    if x < 0 then -x else x
  }

  /** Division and remainder that truncate toward zero. */
  function Quot(x: int, y: int): int
    requires y != 0
  {
    if (x < 0) == (y < 0) then Abs(x) / Abs(y) else -(Abs(x) / Abs(y))
  }

  function Rem(x: int, y: int): int
    requires y != 0
  {
    if x < 0 then -(Abs(x) % Abs(y)) else Abs(x) % Abs(y)
  }

  function BitAnd(x: nat, y: nat): nat {
    if x == 0 || y == 0 then 0 else (x % 2) * (y % 2) + 2 * BitAnd(x / 2, y / 2)
  }

  function BitOr(x: nat, y: nat): nat
    decreases x + y
  {
    if x == 0 then y else if y == 0 then x
    else (if x % 2 == 1 || y % 2 == 1 then 1 else 0) + 2 * BitOr(x / 2, y / 2)
  }

  /** Signed division by `y` traps: zero divisor, or MIN / -1. */
  predicate SDivTraps(w: nat, x: Word, y: Word) {
    || Signed(w, y) == 0
    || (2 * Signed(w, x) + Bits.Pow(w) == 0 && Signed(w, y) == -1)
  }

  /** The value of a binary operation, or None when the machine traps. */
  function EvalBin(op: BinOp, w: nat, x: Word, y: Word): Option<Word> {
    match op
    case Add => Some(Wrap(w, x + y))
    case Sub => Some(Wrap(w, x - y))
    case Mul => Some(Wrap(w, x * y))
    case SDiv => if SDivTraps(w, x, y) then None else Some(Wrap(w, Quot(Signed(w, x), Signed(w, y))))
    case SRem => if SDivTraps(w, x, y) then None else Some(Wrap(w, Rem(Signed(w, x), Signed(w, y))))
    case UDiv => if Wrap(w, y) == 0 then None else Some(Wrap(w, x) / Wrap(w, y))
    case URem => if Wrap(w, y) == 0 then None else Some(Wrap(w, x) % Wrap(w, y))
    case And => Some(BitAnd(Wrap(w, x), Wrap(w, y)))
    case Or => Some(BitOr(Wrap(w, x), Wrap(w, y)))
    case Xor => Some(Bits.Xor(Wrap(w, x), Wrap(w, y)))
  }

  predicate PredHolds(p: Pred, w: nat, x: Word, y: Word) {
    match p
    case EQ => Wrap(w, x) == Wrap(w, y)
    case NE => Wrap(w, x) != Wrap(w, y)
    case SGT => Signed(w, x) > Signed(w, y)
    case SGE => Signed(w, x) >= Signed(w, y)
    case SLT => Signed(w, x) < Signed(w, y)
    case SLE => Signed(w, x) <= Signed(w, y)
    case UGT => Wrap(w, x) > Wrap(w, y)
    case UGE => Wrap(w, x) >= Wrap(w, y)
    case ULT => Wrap(w, x) < Wrap(w, y)
    case ULE => Wrap(w, x) <= Wrap(w, y)
  }

  function EvalPred(p: Pred, w: nat, x: Word, y: Word): Word {
    if PredHolds(p, w, x, y) then 1 else 0
  }

  // ---------------------------------------------------------------- execution

  type Env = map<Reg, Word>

  datatype Event = Event(tag: string, args: seq<Word>)

  /** One executed binary operation with its operand values, and the number of events in the
      trace when it was executed. */
  datatype OpEvent = OpEvent(fn: nat, dst: Reg, op: BinOp, width: nat, x: Word, y: Word, at: nat)

  /** What a run accumulates: the observable trace, the ids handed to `mulation_active`,
      and a profile of the executed binary operations. */
  datatype St = St(trace: seq<Event>, hits: seq<u32>, ops: seq<OpEvent>)

  const START := St([], [], [])

  /** The selected mutant, and the world: the answer to the last event of a trace, or None
      when that event ends the process abnormally. */
  datatype Config = Config(active: u32, world: seq<Event> -> Option<Word>)

  datatype Result = Ret(value: Word) | Trap | Stuck | NoFuel

  datatype Out = Out(res: Result, st: St)

  datatype Step = Next(env: Env, st: St) | Halt(out: Out)

  function Eval(env: Env, op: Operand): Option<Word> {
    match op
    case Const(_, v) => Some(v)
    case Var(r) => if r in env then Some(env[r]) else None
  }

  function EvalAll(env: Env, ops: seq<Operand>): Option<seq<Word>> {
    if ops == [] then Some([])
    else
      var h := Eval(env, ops[0]);
      var t := EvalAll(env, ops[1..]);
      if h.None? || t.None? then None else Some([h.value] + t.value)
  }

  function Stop(r: Result, st: St): Step {
    Halt(Out(r, st))
  }

  /** Every instruction but a call. */
  function StepSimple(cfg: Config, fi: nat, i: Inst, env: Env, st: St): Step
    requires !i.Call?
  {
    match i
    case Bin(dst, op, w, a, b, _) =>
      var x, y := Eval(env, a), Eval(env, b);
      if x.None? || y.None? then Stop(Stuck, st) else
        var st1 := st.(ops := st.ops + [OpEvent(fi, dst, op, w, x.value, y.value, |st.trace|)]);
        var v := EvalBin(op, w, x.value, y.value);
        if v.None? then Stop(Trap, st1) else Next(env[dst := v.value], st1)
    case Cmp(dst, p, w, a, b, _) =>
      var x, y := Eval(env, a), Eval(env, b);
      if x.None? || y.None? then Stop(Stuck, st)
      else Next(env[dst := EvalPred(p, w, x.value, y.value)], st)
    case Select(dst, c, t, e) =>
      var cv, tv, ev := Eval(env, c), Eval(env, t), Eval(env, e);
      if cv.None? || tv.None? || ev.None? then Stop(Stuck, st)
      else Next(env[dst := if cv.value != 0 then tv.value else ev.value], st)
    case Active(dst, id) =>
      Next(env[dst := if cfg.active == id then 1 else 0], st.(hits := st.hits + [id]))
    case Effect(dst, tag, args) =>
      var vs := EvalAll(env, args);
      if vs.None? then Stop(Stuck, st) else
        var st1 := st.(trace := st.trace + [Event(tag, vs.value)]);
        var v := cfg.world(st1.trace);
        if v.None? then Stop(Trap, st1) else Next(env[dst := v.value], st1)
  }

  function ExecCall(m: Module, cfg: Config, i: Inst, env: Env, st: St, fuel: nat): Step
    requires i.Call?
    decreases fuel, 0, 0
  {
    var vs := EvalAll(env, i.args);
    if vs.None? then Stop(Stuck, st)
    else if fuel == 0 then Stop(NoFuel, st)
    else
      var o := RunFn(m, cfg, i.callee, vs.value, st, fuel - 1);
      if o.res.Ret? then Next(env[i.dst := o.res.value], o.st) else Halt(o)
  }

  function ExecOne(m: Module, cfg: Config, fi: nat, i: Inst, env: Env, st: St, fuel: nat): Step
    decreases fuel, 0, 1
  {
    if i.Call? then ExecCall(m, cfg, i, env, st, fuel) else StepSimple(cfg, fi, i, env, st)
  }

  function Exec(m: Module, cfg: Config, fi: nat, insts: seq<Inst>, env: Env, st: St, fuel: nat): Step
    decreases fuel, 1, |insts|
  {
    if insts == [] then Next(env, st) else
      var s := ExecOne(m, cfg, fi, insts[0], env, st, fuel);
      if s.Halt? then s else Exec(m, cfg, fi, insts[1..], s.env, s.st, fuel)
  }

  /** The operand a phi takes on the edge from `prev`. */
  function Incoming(incoming: seq<(nat, Operand)>, prev: nat): Option<Operand> {
    if incoming == [] then None
    else if incoming[0].0 == prev then Some(incoming[0].1)
    else Incoming(incoming[1..], prev)
  }

  /** All phis read the environment of the edge, then write. */
  function PhiEnv(phis: seq<Phi>, prev: nat, edge: Env, acc: Env): Option<Env> {
    if phis == [] then Some(acc) else
      var op := Incoming(phis[0].incoming, prev);
      if op.None? then None else
        var v := Eval(edge, op.value);
        if v.None? then None else PhiEnv(phis[1..], prev, edge, acc[phis[0].dst := v.value])
  }

  function Jump(m: Module, cfg: Config, fi: nat, bi: nat, target: nat, env: Env, st: St, fuel: nat): Out
    decreases fuel, 2
  {
    if fuel == 0 then Out(NoFuel, st) else RunBlock(m, cfg, fi, bi, target, env, st, fuel - 1)
  }

  function RunTerm(m: Module, cfg: Config, fi: nat, bi: nat, t: Term, env: Env, st: St, fuel: nat): Out
    decreases fuel, 3
  {
    match t
    case Br(target) => Jump(m, cfg, fi, bi, target, env, st, fuel)
    case CondBr(c, t1, t2) =>
      var v := Eval(env, c);
      if v.None? then Out(Stuck, st)
      else Jump(m, cfg, fi, bi, if v.value != 0 then t1 else t2, env, st, fuel)
    case Return(None, _) => Out(Ret(0), st)
    case Return(Some(op), _) =>
      var v := Eval(env, op);
      if v.None? then Out(Stuck, st) else Out(Ret(v.value), st)
    case Unreachable => Out(Trap, st)
  }

  /** Runs block `bi`, entered from block `prev`; every jump costs one unit of fuel. */
  function RunBlock(m: Module, cfg: Config, fi: nat, prev: nat, bi: nat, env: Env, st: St, fuel: nat): Out
    decreases fuel, 4
  {
    if fi >= |m| || bi >= |m[fi].blocks| then Out(Stuck, st) else
      var b := m[fi].blocks[bi];
      var e := PhiEnv(b.phis, prev, env, env);
      if e.None? then Out(Stuck, st) else
        var s := Exec(m, cfg, fi, b.insts, e.value, st, fuel);
        if s.Halt? then s.out else RunTerm(m, cfg, fi, bi, b.term, s.env, s.st, fuel)
  }

  function Bind(params: seq<Reg>, args: seq<Word>): Env
    requires |params| == |args|
  {
    if params == [] then map[] else Bind(params[1..], args[1..])[params[0] := args[0]]
  }

  /** Calls function `fi`: binds the parameters and enters block 0. */
  function RunFn(m: Module, cfg: Config, fi: nat, args: seq<Word>, st: St, fuel: nat): Out
    decreases fuel, 5
  {
    if fi >= |m| || |args| != |m[fi].params| then Out(Stuck, st)
    else RunBlock(m, cfg, fi, 0, 0, Bind(m[fi].params, args), st, fuel)
  }

  // ---------------------------------------------------------------- basic laws

  lemma {:induction false} ExecConcat(m: Module, cfg: Config, fi: nat, xs: seq<Inst>, ys: seq<Inst>,
                                      env: Env, st: St, fuel: nat)
    ensures Exec(m, cfg, fi, xs + ys, env, st, fuel) ==
            var s := Exec(m, cfg, fi, xs, env, st, fuel);
            if s.Halt? then s else Exec(m, cfg, fi, ys, s.env, s.st, fuel)
    decreases |xs|
  {
    if xs == [] {
      assert xs + ys == ys;
    } else {
      assert (xs + ys)[1..] == xs[1..] + ys;
      var s := ExecOne(m, cfg, fi, xs[0], env, st, fuel);
      if s.Next? {
        ExecConcat(m, cfg, fi, xs[1..], ys, s.env, s.st, fuel);
      }
    }
  }

  lemma ExecSingle(m: Module, cfg: Config, fi: nat, i: Inst, env: Env, st: St, fuel: nat)
    ensures Exec(m, cfg, fi, [i], env, st, fuel) == ExecOne(m, cfg, fi, i, env, st, fuel)
  {
  }

  /** How a call ends, given how its callee ended. */
  function Returned(e: Env, dst: Reg, o: Out): Step {
    if o.res.Ret? then Next(e[dst := o.res.value], o.st) else Halt(o)
  }

  lemma ExecOfCall(m: Module, cfg: Config, i: Inst, env: Env, st: St, fuel: nat, vs: seq<Word>, o: Out)
    requires i.Call? && fuel > 0 && EvalAll(env, i.args) == Some(vs)
    requires o == RunFn(m, cfg, i.callee, vs, st, fuel - 1)
    ensures ExecCall(m, cfg, i, env, st, fuel) == Returned(env, i.dst, o)
  {
  }

  ghost predicate HasInst(f: Function, i: Inst) {
    exists bi :: 0 <= bi < |f.blocks| && i in f.blocks[bi].insts
  }

  predicate Executes(i: Inst, e: OpEvent) {
    i.Bin? && i.dst == e.dst && i.bop == e.op && i.width == e.width
  }

  /** The event comes from an instruction of the module. */
  ghost predicate Sourced(m: Module, e: OpEvent) {
    e.fn < |m| && exists i :: HasInst(m[e.fn], i) && Executes(i, e)
  }

  ghost predicate SourcedIn(m: Module, fi: nat, insts: seq<Inst>, e: OpEvent) {
    Sourced(m, e) || (e.fn == fi && exists i :: i in insts && Executes(i, e))
  }

  predicate AsksFor(i: Inst, id: u32) {
    i.Active? && i.id == id
  }

  /** Some instruction of the module hands this id to `mulation_active`. */
  ghost predicate Asks(m: Module, id: u32) {
    exists fi: nat, i :: fi < |m| && HasInst(m[fi], i) && AsksFor(i, id)
  }

  ghost predicate AsksIn(m: Module, insts: seq<Inst>, id: u32) {
    Asks(m, id) || exists i :: i in insts && AsksFor(i, id)
  }

  /** `later` continues `earlier`: traces, hits and profiles are only appended to. */
  ghost predicate Extends(earlier: St, later: St) {
    earlier.trace <= later.trace && earlier.hits <= later.hits && earlier.ops <= later.ops
  }

  function StepSt(s: Step): St {
    if s.Next? then s.st else s.out.st
  }

  lemma {:induction false} ExecExtends(m: Module, cfg: Config, fi: nat, insts: seq<Inst>, env: Env, st: St, fuel: nat)
    ensures var later := StepSt(Exec(m, cfg, fi, insts, env, st, fuel));
            && Extends(st, later)
            && (forall e :: e in later.ops ==> e in st.ops || SourcedIn(m, fi, insts, e))
            && forall id :: id in later.hits ==> id in st.hits || AsksIn(m, insts, id)
    decreases fuel, 1, |insts|
  {
    if insts != [] {
      ExecOneExtends(m, cfg, fi, insts[0], env, st, fuel);
      var s := ExecOne(m, cfg, fi, insts[0], env, st, fuel);
      if s.Next? {
        ExecExtends(m, cfg, fi, insts[1..], s.env, s.st, fuel);
      }
    }
  }

  lemma {:induction false} ExecOneExtends(m: Module, cfg: Config, fi: nat, i: Inst, env: Env, st: St, fuel: nat)
    ensures var later := StepSt(ExecOne(m, cfg, fi, i, env, st, fuel));
            && Extends(st, later)
            && (forall e :: e in later.ops ==> e in st.ops || SourcedIn(m, fi, [i], e))
            && forall id :: id in later.hits ==> id in st.hits || AsksIn(m, [i], id)
    decreases fuel, 0
  {
    assert i in [i];
    if i.Call? {
      var vs := EvalAll(env, i.args);
      if vs.Some? && fuel > 0 {
        RunFnExtends(m, cfg, i.callee, vs.value, st, fuel - 1);
      }
    }
  }

  lemma {:induction false} RunTermExtends(m: Module, cfg: Config, fi: nat, bi: nat, t: Term, env: Env, st: St,
                                          fuel: nat)
    ensures var later := RunTerm(m, cfg, fi, bi, t, env, st, fuel).st;
            && Extends(st, later)
            && (forall e :: e in later.ops ==> e in st.ops || Sourced(m, e))
            && forall id :: id in later.hits ==> id in st.hits || Asks(m, id)
    decreases fuel, 3
  {
    if fuel > 0 {
      match t
      case Br(target) => RunBlockExtends(m, cfg, fi, bi, target, env, st, fuel - 1);
      case CondBr(c, t1, t2) =>
        RunBlockExtends(m, cfg, fi, bi, t1, env, st, fuel - 1);
        RunBlockExtends(m, cfg, fi, bi, t2, env, st, fuel - 1);
      case _ =>
    }
  }

  lemma {:induction false} RunBlockExtends(m: Module, cfg: Config, fi: nat, prev: nat, bi: nat, env: Env, st: St,
                                           fuel: nat)
    ensures var later := RunBlock(m, cfg, fi, prev, bi, env, st, fuel).st;
            && Extends(st, later)
            && (forall e :: e in later.ops ==> e in st.ops || Sourced(m, e))
            && forall id :: id in later.hits ==> id in st.hits || Asks(m, id)
    decreases fuel, 4
  {
    if fi < |m| && bi < |m[fi].blocks| {
      var b := m[fi].blocks[bi];
      var e := PhiEnv(b.phis, prev, env, env);
      if e.Some? {
        ExecExtends(m, cfg, fi, b.insts, e.value, st, fuel);
        assert forall i :: i in b.insts ==> HasInst(m[fi], i);
        var s := Exec(m, cfg, fi, b.insts, e.value, st, fuel);
        if s.Next? {
          RunTermExtends(m, cfg, fi, bi, b.term, s.env, s.st, fuel);
        }
      }
    }
  }

  lemma {:induction false} RunFnExtends(m: Module, cfg: Config, fi: nat, args: seq<Word>, st: St, fuel: nat)
    ensures var later := RunFn(m, cfg, fi, args, st, fuel).st;
            && Extends(st, later)
            && (forall e :: e in later.ops ==> e in st.ops || Sourced(m, e))
            && forall id :: id in later.hits ==> id in st.hits || Asks(m, id)
    decreases fuel, 5
  {
    if fi < |m| && |args| == |m[fi].params| {
      RunBlockExtends(m, cfg, fi, 0, 0, Bind(m[fi].params, args), st, fuel);
    }
  }
}
