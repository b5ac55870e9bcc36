/** The main theorem about the instrumentation: running the rewritten program with mutant
    `a` selected is running the source program with mutant `a` applied, except that the
    run stops with a trap at the first site where the eagerly evaluated original or one of
    its alternatives traps and the mutant itself does not. */
module Fidelity {
  import opened Scalars
  import opened IR
  import opened Mutants
  import opened Rewrite
  import opened Seqs

  // ---------------------------------------------------------------- shape of the source

  predicate SrcOp(op: Operand) {
    op.Var? ==> op.reg.Src?
  }

  predicate SrcOps(ops: seq<Operand>) {
    forall i :: 0 <= i < |ops| ==> SrcOp(ops[i])
  }

  /** A source instruction reads source registers; its result does not feed itself. */
  predicate SrcInst(i: Inst) {
    && i.dst.Src?
    && match i
       case Bin(d, _, _, a, b, _) => SrcOp(a) && SrcOp(b) && a != Var(d) && b != Var(d)
       case Cmp(d, _, _, a, b, _) => SrcOp(a) && SrcOp(b) && a != Var(d) && b != Var(d)
       case Select(_, c, t, e) => SrcOp(c) && SrcOp(t) && SrcOp(e)
       case Active(_, _) => true
       case Call(_, _, args) => SrcOps(args)
       case Effect(_, _, args) => SrcOps(args)
  }

  predicate SrcPhi(phi: Phi) {
    phi.dst.Src? && forall j :: 0 <= j < |phi.incoming| ==> SrcOp(phi.incoming[j].1)
  }

  predicate SrcTerm(t: Term) {
    match t
    case CondBr(c, _, _) => SrcOp(c)
    case Return(Some(op), _) => SrcOp(op)
    case _ => true
  }

  predicate SrcBlock(b: Block) {
    && (forall j :: 0 <= j < |b.phis| ==> SrcPhi(b.phis[j]))
    && (forall j :: 0 <= j < |b.insts| ==> SrcInst(b.insts[j]))
    && SrcTerm(b.term)
  }

  /** SSA: a register is defined by at most one instruction, and then by nothing else. */
  ghost predicate UniqueInsts(f: Function) {
    && (forall b, j, c, k | 0 <= b < |f.blocks| && 0 <= j < |f.blocks[b].insts| && 0 <= c < |f.blocks|
          && 0 <= k < |f.blocks[c].insts| ::
          f.blocks[b].insts[j].dst == f.blocks[c].insts[k].dst ==> b == c && j == k)
    && (forall b, j, q | 0 <= b < |f.blocks| && 0 <= j < |f.blocks[b].insts| && 0 <= q < |f.params| ::
          f.params[q] != f.blocks[b].insts[j].dst)
    && (forall b, j, c, q | 0 <= b < |f.blocks| && 0 <= j < |f.blocks[b].insts| && 0 <= c < |f.blocks|
          && 0 <= q < |f.blocks[c].phis| ::
          f.blocks[c].phis[q].dst != f.blocks[b].insts[j].dst)
  }

  lemma SameDst(f: Function, i: Inst, k: Inst)
    requires UniqueInsts(f) && HasInst(f, i) && HasInst(f, k) && i.dst == k.dst
    ensures i == k
  {
    var b :| 0 <= b < |f.blocks| && i in f.blocks[b].insts;
    var c :| 0 <= c < |f.blocks| && k in f.blocks[c].insts;
    var x :| 0 <= x < |f.blocks[b].insts| && f.blocks[b].insts[x] == i;
    var y :| 0 <= y < |f.blocks[c].insts| && f.blocks[c].insts[y] == k;
  }

  /** A function as the pass receives it. */
  ghost predicate SrcFn(f: Function) {
    && (forall j :: 0 <= j < |f.params| ==> f.params[j].Src?)
    && (forall bi :: 0 <= bi < |f.blocks| ==> SrcBlock(f.blocks[bi]))
    && UniqueInsts(f)
  }

  ghost predicate SrcModule(m: Module) {
    forall i {:trigger SrcFn(m[i])} :: 0 <= i < |m| ==> SrcFn(m[i])
  }

  // ---------------------------------------------------------------- complete plans

  /** Uses of a register are redirected exactly when its definition got a chain, and the
      chain is long enough for every id. */
  predicate FitsInst(p: Plan, i: Inst) {
    && i.dst.Src?
    && (i.dst.n in p.redir <==> Arity(p, i) > 0)
    && |Ids(p, i.dst.n)| <= |Copies(p, i)|
  }

  predicate Plain(p: Plan, r: Reg) {
    r.Src? && r.n !in p.redir
  }

  predicate FitsBlock(p: Plan, b: Block) {
    && (forall j :: 0 <= j < |b.phis| ==> Plain(p, b.phis[j].dst))
    && (forall j :: 0 <= j < |b.insts| ==> FitsInst(p, b.insts[j]))
  }

  predicate FitsFn(p: Plan, f: Function) {
    && (forall j :: 0 <= j < |f.params| ==> Plain(p, f.params[j]))
    && (forall bi :: 0 <= bi < |f.blocks| ==> FitsBlock(p, f.blocks[bi]))
  }

  ghost predicate Fits(plans: seq<Plan>, m: Module) {
    && |plans| == |m|
    && SrcModule(m)
    && forall i {:trigger FitsFn(plans[i], m[i])} :: 0 <= i < |m| ==> FitsFn(plans[i], m[i])
  }

  // ---------------------------------------------------------------- divergence

  /** An executed operation at an instrumented site where evaluating the site eagerly traps
      although the operation itself does not. */
  ghost predicate Diverges(plans: seq<Plan>, m: Module, e: OpEvent)
    requires |plans| == |m|
  {
    && e.fn < |m|
    && EvalBin(e.op, e.width, e.x, e.y).Some?
    && exists i ::
         && HasInst(m[e.fn], i) && i.Bin? && i.dst == e.dst && Arity(plans[e.fn], i) > 0
         && SiteTraps(i.bop, e.width, e.x, e.y)
  }

  ghost predicate Faithful(plans: seq<Plan>, m: Module, ops: seq<OpEvent>)
    requires |plans| == |m|
  {
    forall e :: e in ops ==> !Diverges(plans, m, e)
  }

  /** `trace` is what the run had done when it came to its operation `k`. */
  predicate CutAt(st: St, k: nat, trace: seq<Event>) {
    k < |st.ops| && st.ops[k].at <= |st.trace| && trace == st.trace[..st.ops[k].at]
  }

  ghost predicate FirstDivergence(plans: seq<Plan>, m: Module, ops: seq<OpEvent>, k: nat)
    requires |plans| == |m|
  {
    k < |ops| && Diverges(plans, m, ops[k]) && Faithful(plans, m, ops[..k])
  }

  /** `trace` ends at the first operation of the run that diverges. */
  ghost predicate StopsFirst(plans: seq<Plan>, m: Module, st: St, trace: seq<Event>)
    requires |plans| == |m|
  {
    exists k: nat {:trigger CutAt(st, k, trace)} :: CutAt(st, k, trace) && FirstDivergence(plans, m, st.ops, k)
  }

  // ---------------------------------------------------------------- environments

  /** The redirected register of every source register holds its value. */
  ghost predicate Rel(p: Plan, e: Env, e': Env) {
    forall n: nat ::
      && (Src(n) in e <==> SubstReg(p, Src(n)) in e')
      && (Src(n) in e ==> e'[SubstReg(p, Src(n))] == e[Src(n)])
  }

  lemma EvalSubst(p: Plan, e: Env, e': Env, op: Operand)
    requires Rel(p, e, e') && SrcOp(op)
    ensures Eval(e', SubstOp(p, op)) == Eval(e, op)
  {
    if op.Var? {
      assert op.reg == Src(op.reg.n);
    }
  }

  lemma {:induction false} EvalAllSubst(p: Plan, e: Env, e': Env, ops: seq<Operand>)
    requires Rel(p, e, e') && SrcOps(ops)
    ensures EvalAll(e', SubstAll(p, ops)) == EvalAll(e, ops)
  {
    if ops != [] {
      EvalSubst(p, e, e', ops[0]);
      EvalAllSubst(p, e, e', ops[1..]);
      assert SubstAll(p, ops)[1..] == SubstAll(p, ops[1..]);
    }
  }

  /** Writing an uninstrumented register keeps environments related. */
  lemma RelWrite(p: Plan, e: Env, e': Env, n: nat, v: Word)
    requires Rel(p, e, e') && n !in p.redir
    ensures Rel(p, e[Src(n) := v], e'[Src(n) := v])
  {
  }

  // ---------------------------------------------------------------- chains

  predicate ChainReg(n: nat, r: Reg) {
    (r.Mut? || r.On? || r.Sel?) && r.of == n
  }

  /** The environments agree on everything but the chain of site `n`. */
  ghost predicate SameOff(n: nat, e: Env, f: Env) {
    forall r :: !ChainReg(n, r) ==> (r in e <==> r in f) && (r in e ==> e[r] == f[r])
  }

  function CopyVal(i: Inst, k: nat, x: Word, y: Word): Option<Word>
    requires (i.Bin? && k < |BinAlts(i.bop, i.width)|) || (i.Cmp? && k < |PredAlts(i.pred)|)
  {
    if i.Bin? then EvalBin(BinAlts(i.bop, i.width)[k].op, i.width, x, y)
    else Some(EvalPred(PredAlts(i.pred)[k], i.width, x, y))
  }

  ghost predicate SomeCopyTraps(i: Inst, k: nat, x: Word, y: Word)
    requires (i.Bin? && k <= |BinAlts(i.bop, i.width)|) || (i.Cmp? && k <= |PredAlts(i.pred)|)
  {
    exists j: nat :: j < k && CopyVal(i, j, x, y).None?
  }

  /** The value at the end of a chain: the last alternative whose id is active wins. */
  function Picked(i: Inst, ids: seq<u32>, a: u32, x: Word, y: Word, v: Word): Option<Word>
    requires (i.Bin? && |ids| <= |BinAlts(i.bop, i.width)|) || (i.Cmp? && |ids| <= |PredAlts(i.pred)|)
  {
    var c := Chosen(ids, a);
    if c >= 0 then CopyVal(i, c, x, y) else Some(v)
  }

  /** The copies at a site read the same operands as the site itself. */
  lemma CopyOpStable(p: Plan, n: nat, op: Operand, e: Env, f: Env)
    requires SrcOp(op) && op != Var(Src(n)) && SameOff(n, e, f)
    ensures Eval(f, SubstOp(p, op)) == Eval(e, SubstOp(p, op))
  {
    if op.Var? {
      assert !ChainReg(n, SubstReg(p, op.reg));
    }
  }

  lemma PickedNext(i: Inst, ids: seq<u32>, a: u32, x: Word, y: Word, v: Word)
    requires ids != []
    requires (i.Bin? && |ids| <= |BinAlts(i.bop, i.width)|) || (i.Cmp? && |ids| <= |PredAlts(i.pred)|)
    ensures Picked(i, ids, a, x, y, v) ==
            if ids[|ids| - 1] == a then CopyVal(i, |ids| - 1, x, y) else Picked(i, ids[..|ids| - 1], a, x, y, v)
  {
  }

  /** What running a chain of `k` alternatives means. */
  ghost predicate ChainDone(p: Plan, i: Inst, a: u32, k: nat, x: Word, y: Word, env: Env, st: St, s: Step)
    requires (i.Bin? || i.Cmp?) && i.dst.Src? && i.dst in env
    requires k <= |Copies(p, i)| && k <= |Ids(p, i.dst.n)|
  {
    if SomeCopyTraps(i, k, x, y) then s == Stop(Trap, StepSt(s)) && s.out.st.trace == st.trace
    else
      && s.Next? && s.st.trace == st.trace && SameOff(i.dst.n, env, s.env)
      && Cur(i.dst.n, k) in s.env
      && Picked(i, Ids(p, i.dst.n)[..k], a, x, y, env[i.dst]) == Some(s.env[Cur(i.dst.n, k)])
  }

  /** A chain of `k` alternatives: every copy is evaluated, the active one is selected. */
  lemma {:induction false} ChainRun(m: Module, cfg: Config, fi: nat, p: Plan, i: Inst, k: nat,
                                    env: Env, st: St, fuel: nat, x: Word, y: Word)
    returns (s: Step)
    requires i.Bin? || i.Cmp?
    requires SrcInst(i) && i.dst in env
    requires k <= |Copies(p, i)| && k <= |Ids(p, i.dst.n)|
    requires Eval(env, SubstOp(p, i.a)) == Some(x)
    requires Eval(env, SubstOp(p, i.b)) == Some(y)
    ensures s == Exec(m, cfg, fi, Chain(i.dst.n, Copies(p, i), Ids(p, i.dst.n), k), env, st, fuel)
    ensures ChainDone(p, i, cfg.active, k, x, y, env, st, s)
    decreases k
  {
    s := Next(env, st);
    if k > 0 {
      var n, copies, ids := i.dst.n, Copies(p, i), Ids(p, i.dst.n);
      s := ChainRun(m, cfg, fi, p, i, k - 1, env, st, fuel, x, y);
      ExecConcat(m, cfg, fi, Chain(n, copies, ids, k - 1), Link(n, k - 1, copies[k - 1], ids[k - 1]), env, st, fuel);
      if s.Next? {
        s := ChainLink(m, cfg, fi, p, i, k, env, st, fuel, x, y, s);
      }
    }
  }

  /** One more link behind the first `k - 1`. */
  lemma ChainLink(m: Module, cfg: Config, fi: nat, p: Plan, i: Inst, k: nat, env: Env, st: St, fuel: nat, x: Word,
                  y: Word, s: Step)
    returns (t: Step)
    requires (i.Bin? || i.Cmp?) && SrcInst(i) && i.dst in env
    requires 0 < k <= |Copies(p, i)| && k <= |Ids(p, i.dst.n)|
    requires Eval(env, SubstOp(p, i.a)) == Some(x) && Eval(env, SubstOp(p, i.b)) == Some(y)
    requires s.Next? && ChainDone(p, i, cfg.active, k - 1, x, y, env, st, s)
    ensures t == Exec(m, cfg, fi, Link(i.dst.n, k - 1, Copies(p, i)[k - 1], Ids(p, i.dst.n)[k - 1]), s.env, s.st, fuel)
    ensures ChainDone(p, i, cfg.active, k, x, y, env, st, t)
  {
    var n := i.dst.n;
    CopyOpStable(p, n, i.a, env, s.env);
    CopyOpStable(p, n, i.b, env, s.env);
    LinkRun(m, cfg, fi, p, i, k - 1, s.env, s.st, fuel, x, y);
    t := Exec(m, cfg, fi, Link(n, k - 1, Copies(p, i)[k - 1], Ids(p, n)[k - 1]), s.env, s.st, fuel);
    ChainStep(p, i, cfg.active, k, x, y, env, st, s, t);
  }

  lemma ChainStep(p: Plan, i: Inst, a: u32, k: nat, x: Word, y: Word, env: Env, st: St, s: Step, t: Step)
    requires (i.Bin? || i.Cmp?) && i.dst.Src? && i.dst in env
    requires 0 < k <= |Copies(p, i)| && k <= |Ids(p, i.dst.n)|
    requires s.Next? && ChainDone(p, i, a, k - 1, x, y, env, st, s)
    requires var n := i.dst.n;
             if CopyVal(i, k - 1, x, y).None? then t == Stop(Trap, StepSt(t)) && t.out.st.trace == s.st.trace
             else
               && t.Next? && t.st.trace == s.st.trace && SameOff(n, s.env, t.env)
               && Sel(n, k - 1) in t.env
               && t.env[Sel(n, k - 1)] ==
                  if Ids(p, n)[k - 1] == a then CopyVal(i, k - 1, x, y).value else s.env[Cur(n, k - 1)]
    ensures ChainDone(p, i, a, k, x, y, env, st, t)
  {
    var ids := Ids(p, i.dst.n)[..k];
    assert ids[..k - 1] == Ids(p, i.dst.n)[..k - 1];
    PickedNext(i, ids, a, x, y, env[i.dst]);
    if SomeCopyTraps(i, k, x, y) {
      var j: nat :| j < k && CopyVal(i, j, x, y).None?;
      assert j == k - 1;
    }
  }

  /** One alternative of a chain. */
  lemma LinkRun(m: Module, cfg: Config, fi: nat, p: Plan, i: Inst, k: nat,
                env: Env, st: St, fuel: nat, x: Word, y: Word)
    requires i.Bin? || i.Cmp?
    requires SrcInst(i)
    requires k < |Copies(p, i)| && k < |Ids(p, i.dst.n)|
    requires Eval(env, SubstOp(p, i.a)) == Some(x)
    requires Eval(env, SubstOp(p, i.b)) == Some(y)
    requires Cur(i.dst.n, k) in env
    ensures var n := i.dst.n;
            var s := Exec(m, cfg, fi, Link(n, k, Copies(p, i)[k], Ids(p, n)[k]), env, st, fuel);
            if CopyVal(i, k, x, y).None? then s == Stop(Trap, StepSt(s)) && s.out.st.trace == st.trace
            else
              && s.Next? && s.st.trace == st.trace && SameOff(n, env, s.env)
              && Sel(n, k) in s.env
              && s.env[Sel(n, k)] == if Ids(p, n)[k] == cfg.active then CopyVal(i, k, x, y).value else env[Cur(n, k)]
  {
    var n := i.dst.n;
    var l := Link(n, k, Copies(p, i)[k], Ids(p, n)[k]);
    var s0 := ExecOne(m, cfg, fi, l[0], env, st, fuel);
    if s0.Next? {
      assert l[1..] == [l[1], l[2]] && l[1..][1..] == [l[2]];
      var s1 := ExecOne(m, cfg, fi, l[1], s0.env, s0.st, fuel);
      var s2 := ExecOne(m, cfg, fi, l[2], s1.env, s1.st, fuel);
      assert Exec(m, cfg, fi, [l[2]], s1.env, s1.st, fuel) == s2;
      assert Exec(m, cfg, fi, l[1..], s0.env, s0.st, fuel) == s2;
    }
  }

  // ---------------------------------------------------------------- agreement of two runs

  /** `s` is a step of the mutant, `s'` the corresponding step of the instrumented program. */
  ghost predicate Agree(plans: seq<Plan>, m: Module, p: Plan, s: Step, s': Step)
    requires |plans| == |m|
  {
    if !Faithful(plans, m, StepSt(s).ops) then
      s'.Halt? && s'.out.res == Trap && StopsFirst(plans, m, StepSt(s), s'.out.st.trace)
    else if s.Next? then
      s'.Next? && Rel(p, s.env, s'.env) && s'.st.trace == s.st.trace
    else
      s'.Halt? && s'.out.res == s.out.res && s'.out.st.trace == s.out.st.trace
  }

  ghost predicate AgreeOut(plans: seq<Plan>, m: Module, o: Out, o': Out)
    requires |plans| == |m|
  {
    if Faithful(plans, m, o.st.ops) then o'.res == o.res && o'.st.trace == o.st.trace
    else o'.res == Trap && StopsFirst(plans, m, o.st, o'.st.trace)
  }

  /** Literal selection in front of an instruction. */
  lemma LitRun(m: Module, cfg: Config, fi: nat, p: Plan, at: LitSite, op: Operand,
               e: Env, e': Env, st: St, fuel: nat)
    requires SrcOp(op) && Rel(p, e, e')
    ensures var s := Exec(m, cfg, fi, LitCode(p, at, op), e', st, fuel);
            && s.Next? && s.st.trace == st.trace && Rel(p, e, s.env)
            && Eval(s.env, LitOp(p, at, op)) == Eval(e, FlipOp(p, at, cfg.active, op))
            && (forall r :: r != LitOn(at) && r != LitSel(at) ==>
                  (r in e' <==> r in s.env) && (r in e' ==> e'[r] == s.env[r]))
  {
    EvalSubst(p, e, e', op);
    if LitPlanned(p, at, op) {
      var l := LitCode(p, at, op);
      assert l[1..] == [l[1]];
      var s0 := ExecOne(m, cfg, fi, l[0], e', st, fuel);
      ExecSingle(m, cfg, fi, l[1], s0.env, s0.st, fuel);
    }
  }

  lemma UniqueSite(plans: seq<Plan>, m: Module, fi: nat, i: Inst, e: OpEvent)
    requires Fits(plans, m) && fi < |m| && HasInst(m[fi], i) && i.Bin?
    requires e.fn == fi && e.dst == i.dst
    ensures Diverges(plans, m, e) <==>
            Arity(plans[fi], i) > 0 && SiteTraps(i.bop, e.width, e.x, e.y)
            && EvalBin(e.op, e.width, e.x, e.y).Some?
  {
    assert SrcFn(m[fi]);
    forall k | HasInst(m[fi], k) && k.dst == i.dst
      ensures k == i
    {
      SameDst(m[fi], i, k);
    }
  }

  /** After the chain, the redirected register holds the picked value. */
  lemma RelAfterChain(p: Plan, n: nat, k: nat, e: Env, core: Env, after: Env, v: Word)
    requires n in p.redir && k == |Ids(p, n)| && k > 0
    requires Src(n) in core
    requires forall n': nat :: n' != n ==>
               && (Src(n') in e <==> SubstReg(p, Src(n')) in core)
               && (Src(n') in e ==> core[SubstReg(p, Src(n'))] == e[Src(n')])
    requires SameOff(n, core, after) && Cur(n, k) in after && after[Cur(n, k)] == v
    ensures Rel(p, e[Src(n) := v], after)
  {
    forall n': nat | n' != n
      ensures !ChainReg(n, SubstReg(p, Src(n')))
    {
    }
  }

  ghost predicate Ready(plans: seq<Plan>, m: Module, fi: nat, i: Inst, e: Env, st: St, e': Env, st': St) {
    && Fits(plans, m) && fi < |m| && HasInst(m[fi], i)
    && Rel(plans[fi], e, e') && st.trace == st'.trace && Faithful(plans, m, st.ops)
  }

  lemma HasInstFits(plans: seq<Plan>, m: Module, fi: nat, i: Inst)
    requires Fits(plans, m) && fi < |m| && HasInst(m[fi], i)
    ensures SrcInst(i) && FitsInst(plans[fi], i)
  {
    var bi :| 0 <= bi < |m[fi].blocks| && i in m[fi].blocks[bi].insts;
    assert SrcFn(m[fi]) && FitsFn(plans[fi], m[fi]);
    assert SrcBlock(m[fi].blocks[bi]) && FitsBlock(plans[fi], m[fi].blocks[bi]);
  }

  lemma RelOthers(p: Plan, n: nat, e: Env, e': Env, v: Word)
    requires Rel(p, e, e')
    ensures forall n': nat :: n' != n ==>
              && (Src(n') in e <==> SubstReg(p, Src(n')) in e'[Src(n) := v])
              && (Src(n') in e ==> e'[Src(n) := v][SubstReg(p, Src(n'))] == e[Src(n')])
  {
  }

  lemma FaithfulPush(plans: seq<Plan>, m: Module, ops: seq<OpEvent>, ev: OpEvent)
    requires |plans| == |m| && Faithful(plans, m, ops)
    ensures Faithful(plans, m, ops + [ev]) <==> !Diverges(plans, m, ev)
  {
    assert ev in ops + [ev];
  }

  /** An operation that diverges after a faithful run is where the instrumented program stops. */
  lemma StopNow(plans: seq<Plan>, m: Module, st: St, ev: OpEvent)
    requires |plans| == |m| && Faithful(plans, m, st.ops) && Diverges(plans, m, ev) && ev.at == |st.trace|
    ensures StopsFirst(plans, m, st.(ops := st.ops + [ev]), st.trace)
  {
    var k, after := |st.ops|, st.(ops := st.ops + [ev]);
    assert after.ops[..k] == st.ops && after.ops[k] == ev;
    assert CutAt(after, k, st.trace);
  }

  /** The chain of a complete site, run right after the site's own instruction. */
  lemma SimChain(m': Module, cfg: Config, fi: nat, p: Plan, i: Inst, e: Env, core: Env, st: St, fuel: nat,
                 x: Word, y: Word)
    requires i.Bin? || i.Cmp?
    requires SrcInst(i) && FitsInst(p, i) && Arity(p, i) > 0
    requires Eval(core, SubstOp(p, i.a)) == Some(x)
    requires Eval(core, SubstOp(p, i.b)) == Some(y)
    requires i.dst in core
    requires forall n: nat :: n != i.dst.n ==>
               && (Src(n) in e <==> SubstReg(p, Src(n)) in core)
               && (Src(n) in e ==> core[SubstReg(p, Src(n))] == e[Src(n)])
    ensures var k := |Ids(p, i.dst.n)|;
            var s := Exec(m', cfg, fi, ChainOf(p, i), core, st, fuel);
            if SomeCopyTraps(i, k, x, y) then s == Stop(Trap, StepSt(s)) && s.out.st.trace == st.trace
            else
              var v := Picked(i, Ids(p, i.dst.n), cfg.active, x, y, core[i.dst]);
              s.Next? && s.st.trace == st.trace && v.Some? && Rel(p, e[i.dst := v.value], s.env)
  {
    var n, ids := i.dst.n, Ids(p, i.dst.n);
    var k := |ids|;
    var s := ChainRun(m', cfg, fi, p, i, k, core, st, fuel, x, y);
    assert ids[..k] == ids;
    if !SomeCopyTraps(i, k, x, y) {
      RelAfterChain(p, n, k, e, core, s.env, s.env[Cur(n, k)]);
    }
  }

  lemma MutBin(p: Plan, a: u32, i: Inst, x: Word, y: Word)
    requires i.Bin? && SrcInst(i) && FitsInst(p, i) && Arity(p, i) > 0
    ensures var k, mi := |Ids(p, i.dst.n)|, MutInst(p, a, i);
            && mi.Bin? && mi == i.(bop := mi.bop)
            && (EvalBin(i.bop, i.width, x, y).None? ==> SiteTraps(i.bop, i.width, x, y))
            && (EvalBin(i.bop, i.width, x, y).Some? ==>
                  && (SomeCopyTraps(i, k, x, y) <==> SiteTraps(i.bop, i.width, x, y))
                  && Picked(i, Ids(p, i.dst.n), a, x, y, EvalBin(i.bop, i.width, x, y).value)
                     == EvalBin(mi.bop, i.width, x, y))
  {
    var ids := Ids(p, i.dst.n);
    assert ids[..|ids|] == ids;
    SiteTrapsExactly(i.bop, i.width, x, y);
    var alts := BinAlts(i.bop, i.width);
    if EvalBin(i.bop, i.width, x, y).Some? {
      assert CopyVal(i, 0, x, y) == EvalBin(alts[0].op, i.width, x, y);
      if SomeCopyTraps(i, |ids|, x, y) {
        var j: nat :| j < |ids| && CopyVal(i, j, x, y).None?;
        assert 0 <= j < |alts| && EvalBin(alts[j].op, i.width, x, y).None?;
      }
    }
  }

  lemma SimBinSite(plans: seq<Plan>, m: Module, m': Module, fi: nat, i: Inst, cfg: Config, e: Env, st: St, e': Env,
                   st': St, fuel: nat, x: Word, y: Word)
    requires Ready(plans, m, fi, i, e, st, e', st') && i.Bin? && SrcInst(i)
    requires Arity(plans[fi], i) > 0
    requires Eval(e, i.a) == Some(x) && Eval(e, i.b) == Some(y)
    ensures var p := plans[fi];
            Agree(plans, m, p, StepSimple(cfg, fi, MutInst(p, cfg.active, i), e, st),
                  Exec(m', cfg, fi, Expand(p, i), e', st', fuel))
  {
    var p := plans[fi];
    HasInstFits(plans, m, fi, i);
    MutBin(p, cfg.active, i, x, y);
    var mi, core := MutInst(p, cfg.active, i), Core(p, i);
    EvalSubst(p, e, e', i.a);
    EvalSubst(p, e, e', i.b);
    assert Expand(p, i) == [core] + ChainOf(p, i);
    ExecConcat(m', cfg, fi, [core], ChainOf(p, i), e', st', fuel);
    ExecSingle(m', cfg, fi, core, e', st', fuel);
    var ev := OpEvent(fi, i.dst, mi.bop, i.width, x, y, |st.trace|);
    UniqueSite(plans, m, fi, i, ev);
    FaithfulPush(plans, m, st.ops, ev);
    if Diverges(plans, m, ev) { StopNow(plans, m, st, ev); }
    var c := ExecOne(m', cfg, fi, core, e', st', fuel);
    if c.Next? {
      EvalSubstCore(p, i, i.a, e', c.env);
      EvalSubstCore(p, i, i.b, e', c.env);
      RelOthers(p, i.dst.n, e, e', c.env[i.dst]);
      SimChain(m', cfg, fi, p, i, e, c.env, c.st, fuel, x, y);
    }
  }

  /** Executing the site's own instruction does not disturb its operands. */
  lemma EvalSubstCore(p: Plan, i: Inst, op: Operand, e': Env, f: Env)
    requires i.dst.Src? && SrcOp(op) && op != Var(i.dst) && i.dst in f && f == e'[i.dst := f[i.dst]]
    ensures Eval(f, SubstOp(p, op)) == Eval(e', SubstOp(p, op))
  {
  }

  /** An operation without a chain, or that has no operand values. */
  lemma SimBinPlain(plans: seq<Plan>, m: Module, m': Module, fi: nat, i: Inst, cfg: Config, e: Env, st: St, e': Env,
                    st': St, fuel: nat)
    requires Ready(plans, m, fi, i, e, st, e', st') && i.Bin? && SrcInst(i) && FitsInst(plans[fi], i)
    requires Arity(plans[fi], i) == 0 || Eval(e, i.a).None? || Eval(e, i.b).None?
    ensures var p := plans[fi];
            Agree(plans, m, p, StepSimple(cfg, fi, MutInst(p, cfg.active, i), e, st),
                  Exec(m', cfg, fi, Expand(p, i), e', st', fuel))
  {
    var p, core := plans[fi], Core(plans[fi], i);
    var x, y := Eval(e, i.a), Eval(e, i.b);
    EvalSubst(p, e, e', i.a);
    EvalSubst(p, e, e', i.b);
    assert Expand(p, i) == [core] + ChainOf(p, i);
    ExecConcat(m', cfg, fi, [core], ChainOf(p, i), e', st', fuel);
    ExecSingle(m', cfg, fi, core, e', st', fuel);
    if x.Some? && y.Some? {
      assert ChainOf(p, i) == [] && MutInst(p, cfg.active, i) == i;
      var ev := OpEvent(fi, i.dst, i.bop, i.width, x.value, y.value, |st.trace|);
      UniqueSite(plans, m, fi, i, ev);
      FaithfulPush(plans, m, st.ops, ev);
      var c := ExecOne(m', cfg, fi, core, e', st', fuel);
      if c.Next? { RelWrite(p, e, e', i.dst.n, c.env[i.dst]); }
    }
  }

  lemma SimBin(plans: seq<Plan>, m: Module, m': Module, fi: nat, i: Inst, cfg: Config, e: Env, st: St, e': Env,
               st': St, fuel: nat)
    requires Ready(plans, m, fi, i, e, st, e', st') && i.Bin?
    ensures var p := plans[fi];
            Agree(plans, m, p, StepSimple(cfg, fi, MutInst(p, cfg.active, i), e, st),
                  Exec(m', cfg, fi, Expand(p, i), e', st', fuel))
  {
    var p := plans[fi];
    HasInstFits(plans, m, fi, i);
    var x, y := Eval(e, i.a), Eval(e, i.b);
    if Arity(p, i) > 0 && x.Some? && y.Some? {
      SimBinSite(plans, m, m', fi, i, cfg, e, st, e', st', fuel, x.value, y.value);
    } else {
      SimBinPlain(plans, m, m', fi, i, cfg, e, st, e', st', fuel);
    }
  }

  lemma MutCmp(p: Plan, a: u32, i: Inst, x: Word, y: Word, v: Word)
    requires i.Cmp? && SrcInst(i) && FitsInst(p, i)
    ensures var k, mi, c := |Ids(p, i.dst.n)|, MutInst(p, a, i), Chosen(Ids(p, i.dst.n), a);
            && mi.Cmp?
            && !SomeCopyTraps(i, k, x, y)
            && (c < 0 ==>
                  && Picked(i, Ids(p, i.dst.n), a, x, y, v) == Some(v)
                  && mi == Cmp(i.dst, i.pred, i.width, FlipOp(p, CmpLit(i.dst.n, 0), a, i.a),
                       FlipOp(p, CmpLit(i.dst.n, 1), a, i.b), i.loc))
            && (c >= 0 ==>
                  && mi == Cmp(i.dst, mi.pred, i.width, i.a, i.b, i.loc)
                  && Picked(i, Ids(p, i.dst.n), a, x, y, v) == Some(EvalPred(mi.pred, i.width, x, y)))
  {
    var ids := Ids(p, i.dst.n);
    assert ids[..|ids|] == ids;
  }

  /** The part of a comparison site in front of its chain. */
  lemma CmpFront(m': Module, fi: nat, p: Plan, i: Inst, cfg: Config, e: Env, e': Env, st': St, fuel: nat)
    requires i.Cmp? && SrcInst(i) && Rel(p, e, e')
    ensures var s := Exec(m', cfg, fi, Before(p, i), e', st', fuel);
            && s.Next? && s.st.trace == st'.trace && Rel(p, e, s.env)
            && Eval(s.env, LitOp(p, CmpLit(i.dst.n, 0), i.a)) == Eval(e, FlipOp(p, CmpLit(i.dst.n, 0), cfg.active, i.a))
            && Eval(s.env, LitOp(p, CmpLit(i.dst.n, 1), i.b)) == Eval(e, FlipOp(p, CmpLit(i.dst.n, 1), cfg.active, i.b))
  {
    var n := i.dst.n;
    var l0, l1 := LitCode(p, CmpLit(n, 0), i.a), LitCode(p, CmpLit(n, 1), i.b);
    ExecConcat(m', cfg, fi, l0, l1, e', st', fuel);
    LitRun(m', cfg, fi, p, CmpLit(n, 0), i.a, e, e', st', fuel);
    var s := Exec(m', cfg, fi, l0, e', st', fuel);
    LitRun(m', cfg, fi, p, CmpLit(n, 1), i.b, e, s.env, s.st, fuel);
    EvalSubst(p, e, Exec(m', cfg, fi, l1, s.env, s.st, fuel).env, i.a);
  }

  /** A comparison and its chain, once its literal operands are selected. */
  lemma CmpBack(m': Module, fi: nat, p: Plan, i: Inst, cfg: Config, e: Env, e': Env, st: St, st': St, fuel: nat)
    requires i.Cmp? && SrcInst(i) && FitsInst(p, i) && Rel(p, e, e') && st.trace == st'.trace
    requires Eval(e', LitOp(p, CmpLit(i.dst.n, 0), i.a)) == Eval(e, FlipOp(p, CmpLit(i.dst.n, 0), cfg.active, i.a))
    requires Eval(e', LitOp(p, CmpLit(i.dst.n, 1), i.b)) == Eval(e, FlipOp(p, CmpLit(i.dst.n, 1), cfg.active, i.b))
    ensures var s := StepSimple(cfg, fi, MutInst(p, cfg.active, i), e, st);
            var s' := Exec(m', cfg, fi, [Core(p, i)] + ChainOf(p, i), e', st', fuel);
            && StepSt(s).ops == st.ops
            && StepSt(s').trace == StepSt(s).trace
            && (s.Next? ==> s'.Next? && Rel(p, s.env, s'.env))
            && (s.Halt? ==> s'.Halt? && s'.out.res == s.out.res)
  {
    var core := Core(p, i);
    ExecConcat(m', cfg, fi, [core], ChainOf(p, i), e', st', fuel);
    ExecSingle(m', cfg, fi, core, e', st', fuel);
    EvalSubst(p, e, e', i.a);
    EvalSubst(p, e, e', i.b);
    var x, y := Eval(e, i.a), Eval(e, i.b);
    var c := ExecOne(m', cfg, fi, core, e', st', fuel);
    if c.Next? {
      MutCmp(p, cfg.active, i, x.value, y.value, c.env[i.dst]);
      if Arity(p, i) > 0 {
        EvalSubstCore(p, i, i.a, e', c.env);
        EvalSubstCore(p, i, i.b, e', c.env);
        RelOthers(p, i.dst.n, e, e', c.env[i.dst]);
        SimChain(m', cfg, fi, p, i, e, c.env, c.st, fuel, x.value, y.value);
      } else {
        assert ChainOf(p, i) == [];
        RelWrite(p, e, e', i.dst.n, c.env[i.dst]);
      }
    } else {
      assert x.None? || y.None?;
    }
  }

  lemma SimCmp(plans: seq<Plan>, m: Module, m': Module, fi: nat, i: Inst, cfg: Config, e: Env, st: St, e': Env,
               st': St, fuel: nat)
    requires Ready(plans, m, fi, i, e, st, e', st') && i.Cmp?
    ensures var p := plans[fi];
            Agree(plans, m, p, StepSimple(cfg, fi, MutInst(p, cfg.active, i), e, st),
                  Exec(m', cfg, fi, Expand(p, i), e', st', fuel))
  {
    var p := plans[fi];
    HasInstFits(plans, m, fi, i);
    var back := [Core(p, i)] + ChainOf(p, i);
    assert Expand(p, i) == Before(p, i) + back;
    ExecConcat(m', cfg, fi, Before(p, i), back, e', st', fuel);
    CmpFront(m', fi, p, i, cfg, e, e', st', fuel);
    var s := Exec(m', cfg, fi, Before(p, i), e', st', fuel);
    CmpBack(m', fi, p, i, cfg, e, s.env, st, s.st, fuel);
  }

  /** Instructions that are not sites only have their operands redirected. */
  lemma SimOther(plans: seq<Plan>, m: Module, m': Module, fi: nat, i: Inst, cfg: Config, e: Env, st: St, e': Env,
                 st': St, fuel: nat)
    requires Ready(plans, m, fi, i, e, st, e', st') && !i.Bin? && !i.Cmp? && !i.Call?
    ensures var p := plans[fi];
            Agree(plans, m, p, StepSimple(cfg, fi, MutInst(p, cfg.active, i), e, st),
                  Exec(m', cfg, fi, Expand(p, i), e', st', fuel))
  {
    var p := plans[fi];
    HasInstFits(plans, m, fi, i);
    var core := Core(p, i);
    assert Expand(p, i) == [core] && MutInst(p, cfg.active, i) == i;
    ExecSingle(m', cfg, fi, core, e', st', fuel);
    match i {
      case Select(_, c, t, f) =>
        EvalSubst(p, e, e', c);
        EvalSubst(p, e, e', t);
        EvalSubst(p, e, e', f);
      case Active(_, _) =>
      case Effect(_, _, args) => EvalAllSubst(p, e, e', args);
    }
    var s := StepSimple(cfg, fi, core, e', st');
    if s.Next? {
      RelWrite(p, e, e', i.dst.n, s.env[i.dst]);
    }
  }

  // ---------------------------------------------------------------- whole runs

  /** A divergence in a profile stays there. */
  lemma StopExtends(plans: seq<Plan>, m: Module, a: St, b: St, trace: seq<Event>)
    requires |plans| == |m| && Extends(a, b) && StopsFirst(plans, m, a, trace)
    ensures !Faithful(plans, m, b.ops) && StopsFirst(plans, m, b, trace)
  {
    var k: nat :| CutAt(a, k, trace) && FirstDivergence(plans, m, a.ops, k);
    SamePrefix(a.ops, b.ops, k);
    SamePrefix(a.trace, b.trace, a.ops[k].at);
    assert b.ops[k] in b.ops;
    assert CutAt(b, k, trace);
  }

  /** The mutant and the instrumented program under one plan. */
  ghost predicate Pair(plans: seq<Plan>, m: Module, a: u32, mm: Module, m': Module) {
    && |plans| == |m| == |mm| == |m'|
    && (forall fi {:trigger MutFn(plans[fi], a, m[fi])} :: 0 <= fi < |m| ==> mm[fi] == MutFn(plans[fi], a, m[fi]))
    && (forall fi {:trigger RewriteFn(plans[fi], m[fi])} :: 0 <= fi < |m| ==> m'[fi] == RewriteFn(plans[fi], m[fi]))
  }

  lemma {:induction false} SimCall(plans: seq<Plan>, m: Module, mm: Module, m': Module, p: Plan, i: Inst, core: Inst,
                                   cfg: Config, e: Env, st: St, e': Env, st': St, fuel: nat)
    returns (s: Step, s': Step)
    requires Pair(plans, m, cfg.active, mm, m') && Fits(plans, m)
    requires Rel(p, e, e') && st.trace == st'.trace && Faithful(plans, m, st.ops) && SameCall(p, i, core, e, e')
    ensures s == ExecCall(mm, cfg, i, e, st, fuel) && s' == ExecCall(m', cfg, core, e', st', fuel)
    ensures Agree(plans, m, p, s, s')
    decreases fuel, 0
  {
    var vs := EvalAll(e, i.args);
    if vs.None? || fuel == 0 {
      s, s' := CallStops(plans, m, p, mm, m', i, core, cfg, e, st, e', st', fuel);
    } else {
      var o, o' := SimFn(plans, m, mm, m', i.callee, cfg, vs.value, st, st', fuel - 1);
      s, s' := CallReturns(plans, m, p, mm, m', i, core, cfg, e, st, e', st', fuel, vs.value, o, o');
    }
  }

  /** The same call with the same arguments, into an uninstrumented register. */
  predicate SameCall(p: Plan, i: Inst, core: Inst, e: Env, e': Env) {
    && i.Call? && core.Call? && core.dst == i.dst && core.callee == i.callee
    && i.dst.Src? && i.dst.n !in p.redir && EvalAll(e', core.args) == EvalAll(e, i.args)
  }

  lemma CallStops(plans: seq<Plan>, m: Module, p: Plan, mm: Module, m': Module, i: Inst, core: Inst, cfg: Config,
                  e: Env, st: St, e': Env, st': St, fuel: nat)
    returns (s: Step, s': Step)
    requires |plans| == |m| && st.trace == st'.trace && Faithful(plans, m, st.ops)
    requires SameCall(p, i, core, e, e') && (EvalAll(e, i.args).None? || fuel == 0)
    ensures s == ExecCall(mm, cfg, i, e, st, fuel) && s' == ExecCall(m', cfg, core, e', st', fuel)
    ensures Agree(plans, m, p, s, s')
  {
    var res := if EvalAll(e, i.args).None? then Stuck else NoFuel;
    s, s' := Stop(res, st), Stop(res, st');
  }

  lemma CallReturns(plans: seq<Plan>, m: Module, p: Plan, mm: Module, m': Module, i: Inst, core: Inst, cfg: Config,
                    e: Env, st: St, e': Env, st': St, fuel: nat, vs: seq<Word>, o: Out, o': Out)
    returns (s: Step, s': Step)
    requires |plans| == |m| && Rel(p, e, e') && AgreeOut(plans, m, o, o') && fuel > 0
    requires SameCall(p, i, core, e, e') && EvalAll(e, i.args) == Some(vs)
    requires o == RunFn(mm, cfg, i.callee, vs, st, fuel - 1) && o' == RunFn(m', cfg, i.callee, vs, st', fuel - 1)
    ensures s == ExecCall(mm, cfg, i, e, st, fuel) && s' == ExecCall(m', cfg, core, e', st', fuel)
    ensures Agree(plans, m, p, s, s')
  {
    ExecOfCall(mm, cfg, i, e, st, fuel, vs, o);
    ExecOfCall(m', cfg, core, e', st', fuel, vs, o');
    s, s' := Returned(e, i.dst, o), Returned(e', i.dst, o');
    ReturnAgree(plans, m, p, i.dst.n, e, e', o, o');
  }

  lemma CallParts(plans: seq<Plan>, m: Module, fi: nat, i: Inst, e: Env, e': Env)
    requires Fits(plans, m) && fi < |m| && HasInst(m[fi], i) && i.Call? && Rel(plans[fi], e, e')
    ensures SameCall(plans[fi], i, Core(plans[fi], i), e, e')
  {
    HasInstFits(plans, m, fi, i);
    EvalAllSubst(plans[fi], e, e', i.args);
  }

  lemma ReturnAgree(plans: seq<Plan>, m: Module, p: Plan, n: nat, e: Env, e': Env, o: Out, o': Out)
    requires |plans| == |m| && Rel(p, e, e') && n !in p.redir && AgreeOut(plans, m, o, o')
    ensures Agree(plans, m, p, Returned(e, Src(n), o), Returned(e', Src(n), o'))
  {
    if o.res.Ret? {
      RelWrite(p, e, e', n, o.res.value);
    }
  }

  lemma {:induction false} SimOne(plans: seq<Plan>, m: Module, mm: Module, m': Module, fi: nat, i: Inst, cfg: Config,
                                  e: Env, st: St, e': Env, st': St, fuel: nat)
    requires Pair(plans, m, cfg.active, mm, m')
    requires Ready(plans, m, fi, i, e, st, e', st')
    ensures var p := plans[fi];
            Agree(plans, m, p, ExecOne(mm, cfg, fi, MutInst(p, cfg.active, i), e, st, fuel),
                  Exec(m', cfg, fi, Expand(p, i), e', st', fuel))
    decreases fuel, 1
  {
    var p := plans[fi];
    if i.Call? {
      CallParts(plans, m, fi, i, e, e');
      assert MutInst(p, cfg.active, i) == i && Expand(p, i) == [Core(p, i)];
      ExecSingle(m', cfg, fi, Core(p, i), e', st', fuel);
      var _, _ := SimCall(plans, m, mm, m', p, i, Core(p, i), cfg, e, st, e', st', fuel);
    } else if i.Bin? {
      SimBin(plans, m, m', fi, i, cfg, e, st, e', st', fuel);
    } else if i.Cmp? {
      SimCmp(plans, m, m', fi, i, cfg, e, st, e', st', fuel);
    } else {
      SimOther(plans, m, m', fi, i, cfg, e, st, e', st', fuel);
    }
  }

  lemma {:induction false} SimInsts(plans: seq<Plan>, m: Module, mm: Module, m': Module, fi: nat, insts: seq<Inst>,
                                    cfg: Config, e: Env, st: St, e': Env, st': St, fuel: nat)
    requires Pair(plans, m, cfg.active, mm, m')
    requires Fits(plans, m) && fi < |m| && Rel(plans[fi], e, e') && st.trace == st'.trace && Faithful(plans, m, st.ops)
    requires forall i :: i in insts ==> HasInst(m[fi], i)
    ensures var p := plans[fi];
            Agree(plans, m, p, Exec(mm, cfg, fi, MutInsts(p, cfg.active, insts), e, st, fuel),
                  Exec(m', cfg, fi, ExpandAll(p, insts), e', st', fuel))
    decreases fuel, 2, |insts|
  {
    if insts != [] {
      var p := plans[fi];
      var i, rest := insts[0], insts[1..];
      var mi := MutInsts(p, cfg.active, insts);
      assert mi[1..] == MutInsts(p, cfg.active, rest);
      SimOne(plans, m, mm, m', fi, i, cfg, e, st, e', st', fuel);
      ExecConcat(m', cfg, fi, Expand(p, i), ExpandAll(p, rest), e', st', fuel);
      var s := ExecOne(mm, cfg, fi, mi[0], e, st, fuel);
      var s' := Exec(m', cfg, fi, Expand(p, i), e', st', fuel);
      assert Exec(mm, cfg, fi, mi, e, st, fuel) == if s.Halt? then s else Exec(mm, cfg, fi, mi[1..], s.env, s.st, fuel);
      if s.Next? {
        ExecExtends(mm, cfg, fi, mi[1..], s.env, s.st, fuel);
        if Faithful(plans, m, s.st.ops) {
          SimInsts(plans, m, mm, m', fi, rest, cfg, s.env, s.st, s'.env, s'.st, fuel);
        } else {
          StopExtends(plans, m, s.st, StepSt(Exec(mm, cfg, fi, mi[1..], s.env, s.st, fuel)), s'.out.st.trace);
        }
      }
    }
  }

  lemma {:induction false} IncomingSubst(p: Plan, inc: seq<(nat, Operand)>, prev: nat)
    requires forall j :: 0 <= j < |inc| ==> SrcOp(inc[j].1)
    ensures var o := Incoming(inc, prev);
            && Incoming(SubstIncoming(p, inc), prev) == (if o.None? then None else Some(SubstOp(p, o.value)))
            && (o.Some? ==> SrcOp(o.value))
  {
    if inc != [] {
      IncomingSubst(p, inc[1..], prev);
      assert SubstIncoming(p, inc)[1..] == SubstIncoming(p, inc[1..]);
    }
  }

  lemma {:induction false} SimPhis(p: Plan, phis: seq<Phi>, prev: nat, edge: Env, edge': Env, acc: Env, acc': Env)
    requires forall j :: 0 <= j < |phis| ==> SrcPhi(phis[j]) && Plain(p, phis[j].dst)
    requires Rel(p, edge, edge') && Rel(p, acc, acc')
    ensures var r, r' := PhiEnv(phis, prev, edge, acc), PhiEnv(SubstPhis(p, phis), prev, edge', acc');
            (r.None? <==> r'.None?) && (r.Some? ==> Rel(p, r.value, r'.value))
  {
    if phis != [] {
      var phi := phis[0];
      IncomingSubst(p, phi.incoming, prev);
      assert SubstPhis(p, phis)[1..] == SubstPhis(p, phis[1..]);
      var op := Incoming(phi.incoming, prev);
      if op.Some? {
        EvalSubst(p, edge, edge', op.value);
        var v := Eval(edge, op.value);
        if v.Some? {
          RelWrite(p, acc, acc', phi.dst.n, v.value);
          SimPhis(p, phis[1..], prev, edge, edge', acc[phi.dst := v.value], acc'[phi.dst := v.value]);
        }
      }
    }
  }

  lemma {:induction false} SimTerm(plans: seq<Plan>, m: Module, mm: Module, m': Module, fi: nat, bi: nat, t: Term,
                                   cfg: Config, e: Env, st: St, e': Env, st': St, fuel: nat)
    requires Pair(plans, m, cfg.active, mm, m')
    requires Fits(plans, m) && fi < |m| && Rel(plans[fi], e, e') && st.trace == st'.trace && Faithful(plans, m, st.ops)
    requires SrcTerm(t)
    ensures var p, m' := plans[fi], m';
            var s := Exec(m', cfg, fi, BeforeTerm(p, bi, t), e', st', fuel);
            && s.Next?
            && AgreeOut(plans, m, RunTerm(mm, cfg, fi, bi, MutTerm(p, cfg.active, bi, t), e, st, fuel),
                        RunTerm(m', cfg, fi, bi, CoreTerm(p, bi, t), s.env, s.st, fuel))
    decreases fuel, 3
  {
    var p := plans[fi];
    var a := cfg.active;
    if t.Return? && t.value.Some? {
      LitRun(m', cfg, fi, p, RetLit(bi), t.value.value, e, e', st', fuel);
    } else {
      assert BeforeTerm(p, bi, t) == [];
      if t.Br? {
        var _, _ := SimJump(plans, m, mm, m', fi, bi, t.target, cfg, e, st, e', st', fuel);
      } else if t.CondBr? {
        EvalSubst(p, e, e', t.cond);
        var v := Eval(e, t.cond);
        if v.Some? {
          var target := if v.value != 0 then t.whenTrue else t.whenFalse;
          assert RunTerm(mm, cfg, fi, bi, MutTerm(p, a, bi, t), e, st, fuel)
                   == Jump(mm, cfg, fi, bi, target, e, st, fuel);
          var _, _ := SimJump(plans, m, mm, m', fi, bi, target, cfg, e, st, e', st', fuel);
        }
      }
    }
  }

  lemma {:induction false} SimJump(plans: seq<Plan>, m: Module, mm: Module, m': Module, fi: nat, bi: nat, target: nat,
                                   cfg: Config, e: Env, st: St, e': Env, st': St, fuel: nat)
    returns (o: Out, o': Out)
    requires Pair(plans, m, cfg.active, mm, m')
    requires Fits(plans, m) && fi < |m| && Rel(plans[fi], e, e') && st.trace == st'.trace && Faithful(plans, m, st.ops)
    ensures o == Jump(mm, cfg, fi, bi, target, e, st, fuel) && o' == Jump(m', cfg, fi, bi, target, e', st', fuel)
    ensures AgreeOut(plans, m, o, o')
    decreases fuel, 2
  {
    o, o' := Out(NoFuel, st), Out(NoFuel, st');
    if fuel > 0 {
      o, o' := SimBlock(plans, m, mm, m', fi, bi, target, cfg, e, st, e', st', fuel - 1);
    }
  }

  lemma {:induction false} SimBlock(plans: seq<Plan>, m: Module, mm: Module, m': Module, fi: nat, prev: nat, bi: nat,
                                    cfg: Config, e: Env, st: St, e': Env, st': St, fuel: nat)
    returns (o: Out, o': Out)
    requires Pair(plans, m, cfg.active, mm, m')
    requires Fits(plans, m) && fi < |m| && Rel(plans[fi], e, e') && st.trace == st'.trace && Faithful(plans, m, st.ops)
    ensures o == RunBlock(mm, cfg, fi, prev, bi, e, st, fuel) && o' == RunBlock(m', cfg, fi, prev, bi, e', st', fuel)
    ensures AgreeOut(plans, m, o, o')
    decreases fuel, 4, 1
  {
    o, o' := RunBlock(mm, cfg, fi, prev, bi, e, st, fuel), RunBlock(m', cfg, fi, prev, bi, e', st', fuel);
    var p := plans[fi];
    assert mm[fi] == MutFn(p, cfg.active, m[fi]) && m'[fi] == RewriteFn(p, m[fi]);
    if bi < |m[fi].blocks| {
      var b := m[fi].blocks[bi];
      assert SrcFn(m[fi]) && FitsFn(p, m[fi]);
      assert SrcBlock(b) && FitsBlock(p, b);
      SimPhis(p, b.phis, prev, e, e', e, e');
      var e1, e1' := PhiEnv(b.phis, prev, e, e), PhiEnv(SubstPhis(p, b.phis), prev, e', e');
      if e1.Some? {
        o, o' := SimBody(plans, m, mm, m', fi, bi, b, cfg, e1.value, st, e1'.value, st', fuel);
      }
    }
  }

  /** What a block does after its phis. */
  function Body(m: Module, cfg: Config, fi: nat, bi: nat, b: Block, e: Env, st: St, fuel: nat): Out {
    var s := Exec(m, cfg, fi, b.insts, e, st, fuel);
    if s.Halt? then s.out else RunTerm(m, cfg, fi, bi, b.term, s.env, s.st, fuel)
  }

  lemma {:induction false} SimBody(plans: seq<Plan>, m: Module, mm: Module, m': Module, fi: nat, bi: nat, b: Block,
                                   cfg: Config, e: Env, st: St, e': Env, st': St, fuel: nat)
    returns (o: Out, o': Out)
    requires Pair(plans, m, cfg.active, mm, m')
    requires Fits(plans, m) && fi < |m| && Rel(plans[fi], e, e') && st.trace == st'.trace && Faithful(plans, m, st.ops)
    requires bi < |m[fi].blocks| && b == m[fi].blocks[bi] && SrcBlock(b)
    ensures o == Body(mm, cfg, fi, bi, MutBlock(plans[fi], cfg.active, bi, b), e, st, fuel)
    ensures o' == Body(m', cfg, fi, bi, RewriteBlock(plans[fi], bi, b), e', st', fuel)
    ensures AgreeOut(plans, m, o, o')
    decreases fuel, 4, 0
  {
    var p := plans[fi];
    o := Body(mm, cfg, fi, bi, MutBlock(p, cfg.active, bi, b), e, st, fuel);
    o' := Body(m', cfg, fi, bi, RewriteBlock(p, bi, b), e', st', fuel);
    assert forall i :: i in b.insts ==> HasInst(m[fi], i);
    SimInsts(plans, m, mm, m', fi, b.insts, cfg, e, st, e', st', fuel);
    ExecConcat(m', cfg, fi, ExpandAll(p, b.insts), BeforeTerm(p, bi, b.term), e', st', fuel);
    var s := Exec(mm, cfg, fi, MutInsts(p, cfg.active, b.insts), e, st, fuel);
    var s' := Exec(m', cfg, fi, ExpandAll(p, b.insts), e', st', fuel);
    if s.Next? {
      var mt := MutTerm(p, cfg.active, bi, b.term);
      RunTermExtends(mm, cfg, fi, bi, mt, s.env, s.st, fuel);
      if Faithful(plans, m, s.st.ops) {
        SimTerm(plans, m, mm, m', fi, bi, b.term, cfg, s.env, s.st, s'.env, s'.st, fuel);
      } else {
        StopExtends(plans, m, s.st, o.st, s'.out.st.trace);
      }
    }
  }

  lemma {:induction false} BindRel(p: Plan, params: seq<Reg>, args: seq<Word>)
    requires |params| == |args| && forall j :: 0 <= j < |params| ==> Plain(p, params[j])
    ensures Rel(p, Bind(params, args), Bind(params, args))
  {
    if params != [] {
      BindRel(p, params[1..], args[1..]);
      RelWrite(p, Bind(params[1..], args[1..]), Bind(params[1..], args[1..]), params[0].n, args[0]);
    }
  }

  lemma {:induction false} SimFn(plans: seq<Plan>, m: Module, mm: Module, m': Module, fi: nat, cfg: Config,
                                 args: seq<Word>, st: St, st': St, fuel: nat)
    returns (o: Out, o': Out)
    requires Pair(plans, m, cfg.active, mm, m')
    requires Fits(plans, m) && st.trace == st'.trace && Faithful(plans, m, st.ops)
    ensures o == RunFn(mm, cfg, fi, args, st, fuel) && o' == RunFn(m', cfg, fi, args, st', fuel)
    ensures AgreeOut(plans, m, o, o')
    decreases fuel, 5
  {
    o, o' := RunFn(mm, cfg, fi, args, st, fuel), RunFn(m', cfg, fi, args, st', fuel);
    if fi < |m| {
      assert mm[fi] == MutFn(plans[fi], cfg.active, m[fi]) && m'[fi] == RewriteFn(plans[fi], m[fi]);
      if |args| == |m[fi].params| {
        assert FitsFn(plans[fi], m[fi]);
        BindRel(plans[fi], m[fi].params, args);
        var e := Bind(m[fi].params, args);
        o, o' := SimBlock(plans, m, mm, m', fi, 0, 0, cfg, e, st, e, st', fuel);
      }
    }
  }

  // ---------------------------------------------------------------- main theorems

  /** Every run of the instrumented program with `a` selected ends with the result and the
      effects of the source program with mutant `a` applied; if that run executes an
      operation at which the site traps eagerly, it stops at the first one with a trap instead. */
  lemma MutantFidelity(plans: seq<Plan>, m: Module, cfg: Config, fi: nat, args: seq<Word>, fuel: nat)
    requires Fits(plans, m)
    ensures var o := RunFn(MutModule(plans, cfg.active, m), cfg, fi, args, START, fuel);
            var o' := RunFn(RewriteModule(plans, m), cfg, fi, args, START, fuel);
            if forall e :: e in o.st.ops ==> !Diverges(plans, m, e)
            then o'.res == o.res && o'.st.trace == o.st.trace
            else o'.res == Trap && StopsFirst(plans, m, o.st, o'.st.trace)
  {
    var mm, m' := MutModule(plans, cfg.active, m), RewriteModule(plans, m);
    var _, _ := SimFn(plans, m, mm, m', fi, cfg, args, START, START, fuel);
  }

  /** No id of the plans is `a`. */
  ghost predicate Unused(plans: seq<Plan>, a: u32) {
    forall fi :: 0 <= fi < |plans| ==>
      && (forall n :: n in plans[fi].chains ==> a !in plans[fi].chains[n])
      && (forall at :: at in plans[fi].lits ==> plans[fi].lits[at] != a)
  }

  lemma UnusedIsSource(plans: seq<Plan>, m: Module, a: u32)
    requires |plans| == |m| && Unused(plans, a)
    ensures MutModule(plans, a, m) == m
  {
    forall fi | 0 <= fi < |m|
      ensures MutFn(plans[fi], a, m[fi]) == m[fi]
    {
      forall bi | 0 <= bi < |m[fi].blocks|
        ensures MutBlock(plans[fi], a, bi, m[fi].blocks[bi]) == m[fi].blocks[bi]
      {
        var b := m[fi].blocks[bi];
        assert MutInsts(plans[fi], a, b.insts) == b.insts by {
          forall i | i in b.insts
            ensures MutInst(plans[fi], a, i) == i
          {
          }
        }
      }
    }
  }

  /** An executed integer multiplication at an instrumented site whose operands make signed
      division trap. */
  ghost predicate BadMul(plans: seq<Plan>, m: Module, e: OpEvent)
    requires |plans| == |m|
  {
    && e.fn < |m| && e.op == Mul && SDivTraps(e.width, e.x, e.y)
    && exists i :: HasInst(m[e.fn], i) && Executes(i, e) && Arity(plans[e.fn], i) > 0
  }

  /** `trace` ends at the first such multiplication of the run. */
  ghost predicate StopsAtMul(plans: seq<Plan>, m: Module, st: St, trace: seq<Event>)
    requires |plans| == |m|
  {
    exists k: nat {:trigger CutAt(st, k, trace)} ::
      CutAt(st, k, trace) && BadMul(plans, m, st.ops[k]) && forall e :: e in st.ops[..k] ==> !BadMul(plans, m, e)
  }

  /** With no mutant selected the instrumented program behaves as the source, except exactly
      when the source executes an instrumented multiplication by zero, or of MIN by -1. */
  lemma BaselinePreserved(plans: seq<Plan>, m: Module, cfg: Config, fi: nat, args: seq<Word>, fuel: nat)
    requires Fits(plans, m) && Unused(plans, cfg.active)
    ensures var o := RunFn(m, cfg, fi, args, START, fuel);
            var o' := RunFn(RewriteModule(plans, m), cfg, fi, args, START, fuel);
            if forall e :: e in o.st.ops ==> !BadMul(plans, m, e)
            then o'.res == o.res && o'.st.trace == o.st.trace
            else o'.res == Trap && StopsAtMul(plans, m, o.st, o'.st.trace)
  {
    UnusedIsSource(plans, m, cfg.active);
    MutantFidelity(plans, m, cfg, fi, args, fuel);
    RunFnExtends(m, cfg, fi, args, START, fuel);
    var o := RunFn(m, cfg, fi, args, START, fuel);
    forall e | e in o.st.ops
      ensures Diverges(plans, m, e) <==> BadMul(plans, m, e)
    {
      SourcedDivergence(plans, m, e);
    }
    SameStop(plans, m, o.st, RunFn(RewriteModule(plans, m), cfg, fi, args, START, fuel).st.trace);
  }

  lemma SameStop(plans: seq<Plan>, m: Module, st: St, trace: seq<Event>)
    requires |plans| == |m|
    requires forall e :: e in st.ops ==> (Diverges(plans, m, e) <==> BadMul(plans, m, e))
    ensures StopsFirst(plans, m, st, trace) ==> StopsAtMul(plans, m, st, trace)
  {
    if StopsFirst(plans, m, st, trace) {
      var k: nat :| CutAt(st, k, trace) && FirstDivergence(plans, m, st.ops, k);
      assert st.ops[k] in st.ops && forall e :: e in st.ops[..k] ==> e in st.ops;
    }
  }

  lemma SourcedDivergence(plans: seq<Plan>, m: Module, e: OpEvent)
    requires Fits(plans, m) && Sourced(m, e)
    ensures Diverges(plans, m, e) <==> BadMul(plans, m, e)
  {
    var i :| HasInst(m[e.fn], i) && Executes(i, e);
    UniqueSite(plans, m, e.fn, i, e);
    assert SrcFn(m[e.fn]);
    forall k | HasInst(m[e.fn], k) && Executes(k, e)
      ensures k == i
    {
      SameDst(m[e.fn], i, k);
    }
    assert Arity(plans[e.fn], i) > 0 ==> BinAlts(i.bop, i.width) != [];
    if BinAlts(i.bop, i.width) != [] {
      SiteTrapsExactly(e.op, e.width, e.x, e.y);
    }
  }
}
