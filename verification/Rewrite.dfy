/** What the pass produces, as one structural map over the source program.

    A plan says which sites have been instrumented so far and with which ids.  `Instrument`
    in the module Pass reaches the final plan by in-place insertions; this module says
    what the program looks like for any plan, and what the program looks like when one
    mutant is chosen. */
module Rewrite {
  import opened Scalars
  import opened IR
  import opened Mutants

  /** For one function: the ids already inserted behind each site, the sites whose uses
      have been redirected to the end of their chain, and the instrumented literals. */
  datatype Plan = Plan(chains: map<nat, seq<u32>>, redir: set<nat>, lits: map<LitSite, u32>)

  const NO_PLAN := Plan(map[], {}, map[])

  /** The value selected after `k` alternatives of site `n`. */
  function Cur(n: nat, k: nat): Reg {
    if k == 0 then Src(n) else Sel(n, k - 1)
  }

  function Ids(p: Plan, n: nat): seq<u32> {
    if n in p.chains then p.chains[n] else []
  }

  function SubstReg(p: Plan, r: Reg): Reg {
    if r.Src? && r.n in p.redir then Cur(r.n, |Ids(p, r.n)|) else r
  }

  function SubstOp(p: Plan, op: Operand): Operand {
    if op.Var? then Var(SubstReg(p, op.reg)) else op
  }

  function SubstAll(p: Plan, ops: seq<Operand>): (r: seq<Operand>)
    ensures |r| == |ops|
    ensures forall i :: 0 <= i < |ops| ==> r[i] == SubstOp(p, ops[i])
  {
    if ops == [] then [] else [SubstOp(p, ops[0])] + SubstAll(p, ops[1..])
  }

  // ---------------------------------------------------------------- chains

  /** The mutated copies of a binary operation or comparison, in order. */
  function Copies(p: Plan, i: Inst): seq<Inst> {
    match i
    case Bin(Src(n), op, w, a, b, loc) =>
      seq(|BinAlts(op, w)|, k requires 0 <= k < |BinAlts(op, w)| =>
        Bin(Mut(n, k), BinAlts(op, w)[k].op, w, SubstOp(p, a), SubstOp(p, b), loc))
    case Cmp(Src(n), pr, w, a, b, loc) =>
      seq(|PredAlts(pr)|, k requires 0 <= k < |PredAlts(pr)| =>
        Cmp(Mut(n, k), PredAlts(pr)[k], w, SubstOp(p, a), SubstOp(p, b), loc))
    case _ => []
  }

  /** The three instructions of alternative `k`. */
  function Link(n: nat, k: nat, copy: Inst, id: u32): seq<Inst> {
    [copy, Active(On(n, k), id), Select(Sel(n, k), Var(On(n, k)), Var(Mut(n, k)), Var(Cur(n, k)))]
  }

  /** select(active(id_k), mut_k, cur) for the first `k` alternatives. */
  function Chain(n: nat, copies: seq<Inst>, ids: seq<u32>, k: nat): (r: seq<Inst>)
    requires k <= |copies| && k <= |ids|
    ensures |r| == 3 * k
  {
    if k == 0 then [] else Chain(n, copies, ids, k - 1) + Link(n, k - 1, copies[k - 1], ids[k - 1])
  }

  function Min(x: nat, y: nat): nat {
    if x < y then x else y
  }

  function ChainOf(p: Plan, i: Inst): seq<Inst> {
    if i.dst.Src? then
      Chain(i.dst.n, Copies(p, i), Ids(p, i.dst.n), Min(|Copies(p, i)|, |Ids(p, i.dst.n)|))
    else []
  }

  // ---------------------------------------------------------------- literals

  predicate IsLit(op: Operand) {
    op.Const? && op.width <= 64 && (op.value == 0 || op.value == 1) && op.width != 1
  }

  predicate LitPlanned(p: Plan, at: LitSite, op: Operand) {
    at in p.lits && IsLit(op)
  }

  function LitCode(p: Plan, at: LitSite, op: Operand): seq<Inst> {
    if LitPlanned(p, at, op) then
      [Active(LitOn(at), p.lits[at]),
       Select(LitSel(at), Var(LitOn(at)), Const(op.width, 1 - op.value), op)]
    else []
  }

  function LitOp(p: Plan, at: LitSite, op: Operand): Operand {
    if LitPlanned(p, at, op) then Var(LitSel(at)) else SubstOp(p, op)
  }

  // ---------------------------------------------------------------- the whole program

  /** The instruction itself, with its operands redirected. */
  function Core(p: Plan, i: Inst): Inst {
    match i
    case Bin(d, op, w, a, b, loc) => Bin(d, op, w, SubstOp(p, a), SubstOp(p, b), loc)
    case Cmp(d, pr, w, a, b, loc) =>
      if d.Src? then Cmp(d, pr, w, LitOp(p, CmpLit(d.n, 0), a), LitOp(p, CmpLit(d.n, 1), b), loc)
      else Cmp(d, pr, w, SubstOp(p, a), SubstOp(p, b), loc)
    case Select(d, c, t, e) => Select(d, SubstOp(p, c), SubstOp(p, t), SubstOp(p, e))
    case Active(d, id) => i
    case Call(d, callee, args) => Call(d, callee, SubstAll(p, args))
    case Effect(d, tag, args) => Effect(d, tag, SubstAll(p, args))
  }

  /** Literal selections inserted in front of an instruction. */
  function Before(p: Plan, i: Inst): seq<Inst> {
    if i.Cmp? && i.dst.Src? then LitCode(p, CmpLit(i.dst.n, 0), i.a) + LitCode(p, CmpLit(i.dst.n, 1), i.b)
    else []
  }

  function Expand(p: Plan, i: Inst): seq<Inst> {
    Before(p, i) + [Core(p, i)] + ChainOf(p, i)
  }

  function ExpandAll(p: Plan, insts: seq<Inst>): seq<Inst> {
    if insts == [] then [] else Expand(p, insts[0]) + ExpandAll(p, insts[1..])
  }

  function SubstIncoming(p: Plan, inc: seq<(nat, Operand)>): seq<(nat, Operand)> {
    if inc == [] then [] else [(inc[0].0, SubstOp(p, inc[0].1))] + SubstIncoming(p, inc[1..])
  }

  function SubstPhis(p: Plan, phis: seq<Phi>): (r: seq<Phi>)
    ensures |r| == |phis|
  {
    if phis == [] then [] else [Phi(phis[0].dst, SubstIncoming(p, phis[0].incoming))] + SubstPhis(p, phis[1..])
  }

  function BeforeTerm(p: Plan, bi: nat, t: Term): seq<Inst> {
    if t.Return? && t.value.Some? then LitCode(p, RetLit(bi), t.value.value) else []
  }

  function CoreTerm(p: Plan, bi: nat, t: Term): Term {
    match t
    case CondBr(c, t1, t2) => CondBr(SubstOp(p, c), t1, t2)
    case Return(Some(op), loc) => Return(Some(LitOp(p, RetLit(bi), op)), loc)
    case _ => t
  }

  function RewriteBlock(p: Plan, bi: nat, b: Block): Block {
    Block(SubstPhis(p, b.phis), ExpandAll(p, b.insts) + BeforeTerm(p, bi, b.term), CoreTerm(p, bi, b.term))
  }

  function RewriteFn(p: Plan, f: Function): Function {
    Function(f.name, f.params,
             seq(|f.blocks|, bi requires 0 <= bi < |f.blocks| => RewriteBlock(p, bi, f.blocks[bi])))
  }

  function RewriteModule(plans: seq<Plan>, m: Module): Module
    requires |plans| == |m|
  {
    seq(|m|, i requires 0 <= i < |m| => RewriteFn(plans[i], m[i]))
  }

  // ---------------------------------------------------------------- mutants of the source

  /** The last alternative whose id is `a`, or -1: the innermost select of a chain loses. */
  function Chosen(ids: seq<u32>, a: u32): (k: int)
    ensures -1 <= k < |ids|
    ensures k >= 0 ==> ids[k] == a
    ensures forall j :: k < j < |ids| ==> ids[j] != a
  {
    if ids == [] then -1 else if ids[|ids| - 1] == a then |ids| - 1 else Chosen(ids[..|ids| - 1], a)
  }

  function FlipOp(p: Plan, at: LitSite, a: u32, op: Operand): Operand {
    if LitPlanned(p, at, op) && p.lits[at] == a then Const(op.width, 1 - op.value) else op
  }

  /** The number of alternatives a plan gives to an instruction. */
  function Arity(p: Plan, i: Inst): nat {
    if i.dst.Src? then Min(|Copies(p, i)|, |Ids(p, i.dst.n)|) else 0
  }

  /** The source instruction with mutant `a` applied. */
  function MutInst(p: Plan, a: u32, i: Inst): Inst {
    if i.dst.Src? then
      var k := Chosen(Ids(p, i.dst.n)[..Arity(p, i)], a);
      match i
      case Bin(d, op, w, x, y, loc) => if k >= 0 then Bin(d, BinAlts(op, w)[k].op, w, x, y, loc) else i
      case Cmp(d, pr, w, x, y, loc) =>
        if k >= 0 then Cmp(d, PredAlts(pr)[k], w, x, y, loc)
        else Cmp(d, pr, w, FlipOp(p, CmpLit(d.n, 0), a, x), FlipOp(p, CmpLit(d.n, 1), a, y), loc)
      case _ => i
    else i
  }

  function MutInsts(p: Plan, a: u32, insts: seq<Inst>): (r: seq<Inst>)
    ensures |r| == |insts|
    ensures forall i :: 0 <= i < |insts| ==> r[i] == MutInst(p, a, insts[i])
  {
    if insts == [] then [] else [MutInst(p, a, insts[0])] + MutInsts(p, a, insts[1..])
  }

  function MutTerm(p: Plan, a: u32, bi: nat, t: Term): Term {
    match t
    case Return(Some(op), loc) => Return(Some(FlipOp(p, RetLit(bi), a, op)), loc)
    case _ => t
  }

  function MutBlock(p: Plan, a: u32, bi: nat, b: Block): Block {
    Block(b.phis, MutInsts(p, a, b.insts), MutTerm(p, a, bi, b.term))
  }

  function MutFn(p: Plan, a: u32, f: Function): Function {
    Function(f.name, f.params,
             seq(|f.blocks|, bi requires 0 <= bi < |f.blocks| => MutBlock(p, a, bi, f.blocks[bi])))
  }

  /** The program as written, with the operator, predicate or literal of mutant `a` replaced. */
  function MutModule(plans: seq<Plan>, a: u32, m: Module): Module
    requires |plans| == |m|
  {
    seq(|m|, i requires 0 <= i < |m| => MutFn(plans[i], a, m[i]))
  }
}
