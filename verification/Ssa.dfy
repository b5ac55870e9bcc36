/** The instrumented program is well-formed SSA: every register has one definition, and
    every use is dominated by its definition. */
module Ssa {
  import opened Scalars
  import opened IR
  import opened Rewrite
  import opened Fidelity

  // ---------------------------------------------------------------- single definitions

  function One(b: bool): nat {
    if b then 1 else 0
  }

  function CountInsts(r: Reg, insts: seq<Inst>): nat {
    if insts == [] then 0 else One(insts[0].dst == r) + CountInsts(r, insts[1..])
  }

  function CountPhis(r: Reg, phis: seq<Phi>): nat {
    if phis == [] then 0 else One(phis[0].dst == r) + CountPhis(r, phis[1..])
  }

  function CountParams(r: Reg, params: seq<Reg>): nat {
    if params == [] then 0 else One(params[0] == r) + CountParams(r, params[1..])
  }

  function CountBlock(r: Reg, b: Block): nat {
    CountPhis(r, b.phis) + CountInsts(r, b.insts)
  }

  /** Definitions of `r` in the first `k` blocks. */
  function CountBlocks(r: Reg, f: Function, k: nat): nat
    requires k <= |f.blocks|
  {
    if k == 0 then 0 else CountBlocks(r, f, k - 1) + CountBlock(r, f.blocks[k - 1])
  }

  function CountDefs(r: Reg, f: Function): nat {
    CountParams(r, f.params) + CountBlocks(r, f, |f.blocks|)
  }

  ghost predicate SingleDefs(f: Function) {
    forall r :: CountDefs(r, f) <= 1
  }

  lemma {:induction false} CountConcat(r: Reg, x: seq<Inst>, y: seq<Inst>)
    ensures CountInsts(r, x + y) == CountInsts(r, x) + CountInsts(r, y)
  {
    if x == [] {
      assert x + y == y;
    } else {
      assert (x + y)[1..] == x[1..] + y;
      CountConcat(r, x[1..], y);
    }
  }

  lemma CountFew(r: Reg, a: Inst, b: Inst, c: Inst)
    ensures CountInsts(r, [a, b]) == One(a.dst == r) + One(b.dst == r)
    ensures CountInsts(r, [a, b, c]) == One(a.dst == r) + One(b.dst == r) + One(c.dst == r)
  {
    CountConcat(r, [a], [b]);
    CountConcat(r, [a, b], [c]);
    assert [a] + [b] == [a, b] && [a, b] + [c] == [a, b, c];
  }

  /** The source register whose definition brings `r` along. */
  function Owner(r: Reg): Option<nat> {
    match r
    case Src(n) => Some(n)
    case Mut(n, _) => Some(n)
    case On(n, _) => Some(n)
    case Sel(n, _) => Some(n)
    case LitOn(CmpLit(n, _)) => Some(n)
    case LitSel(CmpLit(n, _)) => Some(n)
    case _ => None
  }

  /** The block whose return brings `r` along. */
  function RetBlock(r: Reg): Option<nat> {
    match r
    case LitOn(RetLit(b)) => Some(b)
    case LitSel(RetLit(b)) => Some(b)
    case _ => None
  }

  lemma {:induction false} ChainCount(r: Reg, p: Plan, i: Inst, k: nat)
    requires i.dst.Src? && k <= |Copies(p, i)| && k <= |Ids(p, i.dst.n)|
    ensures CountInsts(r, Chain(i.dst.n, Copies(p, i), Ids(p, i.dst.n), k)) <=
            One((r.Mut? || r.On? || r.Sel?) && r.of == i.dst.n && r.k < k)
  {
    if k > 0 {
      var n := i.dst.n;
      var c, l := Chain(n, Copies(p, i), Ids(p, n), k - 1), Link(n, k - 1, Copies(p, i)[k - 1], Ids(p, n)[k - 1]);
      ChainCount(r, p, i, k - 1);
      CountConcat(r, c, l);
      CountFew(r, l[0], l[1], l[2]);
    }
  }

  lemma LitCount(r: Reg, p: Plan, at: LitSite, op: Operand)
    ensures CountInsts(r, LitCode(p, at, op)) <= One(r == LitOn(at) || r == LitSel(at))
  {
    var l := LitCode(p, at, op);
    if l != [] {
      CountFew(r, l[0], l[1], l[1]);
    }
  }

  lemma ExpandCount(r: Reg, p: Plan, i: Inst)
    requires i.dst.Src?
    ensures CountInsts(r, Expand(p, i)) <= One(Owner(r) == Some(i.dst.n))
  {
    var n := i.dst.n;
    CountConcat(r, Before(p, i), [Core(p, i)]);
    CountConcat(r, Before(p, i) + [Core(p, i)], ChainOf(p, i));
    ChainCount(r, p, i, Min(|Copies(p, i)|, |Ids(p, n)|));
    if i.Cmp? {
      CountConcat(r, LitCode(p, CmpLit(n, 0), i.a), LitCode(p, CmpLit(n, 1), i.b));
      LitCount(r, p, CmpLit(n, 0), i.a);
      LitCount(r, p, CmpLit(n, 1), i.b);
    }
  }

  lemma {:induction false} ExpandAllCount(r: Reg, p: Plan, insts: seq<Inst>)
    requires forall j :: 0 <= j < |insts| ==> insts[j].dst.Src?
    ensures CountInsts(r, ExpandAll(p, insts)) <= if Owner(r).Some? then CountInsts(Src(Owner(r).value), insts) else 0
  {
    if insts != [] {
      ExpandAllCount(r, p, insts[1..]);
      ExpandCount(r, p, insts[0]);
      CountConcat(r, Expand(p, insts[0]), ExpandAll(p, insts[1..]));
    }
  }

  lemma {:induction false} PhiCount(r: Reg, p: Plan, phis: seq<Phi>)
    ensures CountPhis(r, SubstPhis(p, phis)) == CountPhis(r, phis)
  {
    if phis != [] {
      PhiCount(r, p, phis[1..]);
      assert SubstPhis(p, phis)[1..] == SubstPhis(p, phis[1..]);
    }
  }

  lemma {:induction false} OwnerPhis(r: Reg, phis: seq<Phi>)
    requires forall j :: 0 <= j < |phis| ==> phis[j].dst.Src?
    ensures CountPhis(r, phis) <= if Owner(r).Some? then CountPhis(Src(Owner(r).value), phis) else 0
  {
    if phis != [] { OwnerPhis(r, phis[1..]); }
  }

  lemma {:induction false} OwnerParams(r: Reg, params: seq<Reg>)
    requires forall j :: 0 <= j < |params| ==> params[j].Src?
    ensures CountParams(r, params) <= if Owner(r).Some? then CountParams(Src(Owner(r).value), params) else 0
  {
    if params != [] { OwnerParams(r, params[1..]); }
  }

  lemma BlockCount(r: Reg, p: Plan, bi: nat, b: Block)
    requires SrcBlock(b)
    ensures CountBlock(r, RewriteBlock(p, bi, b)) <=
            if Owner(r).Some? then CountBlock(Src(Owner(r).value), b)
            else One(RetBlock(r) == Some(bi))
  {
    PhiCount(r, p, b.phis);
    OwnerPhis(r, b.phis);
    ExpandAllCount(r, p, b.insts);
    CountConcat(r, ExpandAll(p, b.insts), BeforeTerm(p, bi, b.term));
    if b.term.Return? && b.term.value.Some? {
      LitCount(r, p, RetLit(bi), b.term.value.value);
    }
  }

  /** The bound that `BlockCount` gives for block `bi`. */
  function BlockBound(r: Reg, f: Function, bi: nat): nat
    requires bi < |f.blocks|
  {
    if Owner(r).Some? then CountBlock(Src(Owner(r).value), f.blocks[bi]) else One(RetBlock(r) == Some(bi))
  }

  lemma {:induction false} BlocksCount(r: Reg, g: Function, f: Function, k: nat)
    requires k <= |f.blocks| == |g.blocks|
    requires forall bi :: 0 <= bi < |f.blocks| ==> CountBlock(r, g.blocks[bi]) <= BlockBound(r, f, bi)
    ensures CountBlocks(r, g, k) <=
            if Owner(r).Some? then CountBlocks(Src(Owner(r).value), f, k)
            else One(RetBlock(r).Some? && RetBlock(r).value < k)
  {
    if k > 0 {
      BlocksCount(r, g, f, k - 1);
    }
  }

  /** No register is defined twice after instrumentation if none is before. */
  lemma SingleDefsPreserved(p: Plan, f: Function)
    requires SrcFn(f) && SingleDefs(f)
    ensures SingleDefs(RewriteFn(p, f))
  {
    forall r
      ensures CountDefs(r, RewriteFn(p, f)) <= 1
    {
      var g := RewriteFn(p, f);
      forall bi | 0 <= bi < |f.blocks|
        ensures CountBlock(r, g.blocks[bi]) <= BlockBound(r, f, bi)
      {
        BlockCount(r, p, bi, f.blocks[bi]);
      }
      BlocksCount(r, g, f, |f.blocks|);
      OwnerParams(r, f.params);
      if Owner(r).Some? {
        assert CountDefs(Src(Owner(r).value), f) <= 1;
      }
    }
  }

  // ---------------------------------------------------------------- dominance

  predicate Succ(t: Term, b: nat) {
    (t.Br? && t.target == b) || (t.CondBr? && (t.whenTrue == b || t.whenFalse == b))
  }

  /** A path from the entry block along control-flow edges. */
  ghost predicate Path(f: Function, path: seq<nat>) {
    && |path| > 0 && path[0] == 0
    && (forall j :: 0 <= j < |path| ==> path[j] < |f.blocks|)
    && (forall j :: 0 < j < |path| ==> Succ(f.blocks[path[j - 1]].term, path[j]))
  }

  ghost predicate Dominates(f: Function, d: nat, b: nat) {
    forall path :: Path(f, path) && path[|path| - 1] == b ==> d in path
  }

  function DefsOf(insts: seq<Inst>): set<Reg> {
    if insts == [] then {} else {insts[0].dst} + DefsOf(insts[1..])
  }

  function PhiDefs(phis: seq<Phi>): set<Reg> {
    if phis == [] then {} else {phis[0].dst} + PhiDefs(phis[1..])
  }

  ghost predicate DefinedAbove(f: Function, bi: nat, r: Reg) {
    exists d :: 0 <= d < |f.blocks| && d != bi && Dominates(f, d, bi)
                && r in PhiDefs(f.blocks[d].phis) + DefsOf(f.blocks[d].insts)
  }

  /** Registers whose definition dominates the first instruction of block `bi`. */
  ghost function Scope(f: Function, bi: nat): iset<Reg>
    requires bi < |f.blocks|
  {
    iset r | r in f.params || r in PhiDefs(f.blocks[bi].phis) || DefinedAbove(f, bi, r)
  }

  ghost function ScopeOut(f: Function, bi: nat): iset<Reg>
    requires bi < |f.blocks|
  {
    Scope(f, bi) + iset r | r in DefsOf(f.blocks[bi].insts)
  }

  ghost predicate Visible(scope: iset<Reg>, op: Operand) {
    op.Var? ==> op.reg in scope
  }

  ghost predicate AllVisible(scope: iset<Reg>, ops: seq<Operand>) {
    forall j :: 0 <= j < |ops| ==> Visible(scope, ops[j])
  }

  ghost predicate UsesVisible(scope: iset<Reg>, i: Inst) {
    match i
    case Bin(_, _, _, a, b, _) => Visible(scope, a) && Visible(scope, b)
    case Cmp(_, _, _, a, b, _) => Visible(scope, a) && Visible(scope, b)
    case Select(_, c, t, e) => Visible(scope, c) && Visible(scope, t) && Visible(scope, e)
    case Active(_, _) => true
    case Call(_, _, args) => AllVisible(scope, args)
    case Effect(_, _, args) => AllVisible(scope, args)
  }

  /** Every instruction uses what is in scope when it runs. */
  ghost predicate Ordered(scope: iset<Reg>, insts: seq<Inst>) {
    insts == [] || (UsesVisible(scope, insts[0]) && Ordered(scope + iset{insts[0].dst}, insts[1..]))
  }

  ghost predicate TermVisible(scope: iset<Reg>, t: Term) {
    match t
    case CondBr(c, _, _) => Visible(scope, c)
    case Return(Some(op), _) => Visible(scope, op)
    case _ => true
  }

  ghost predicate PhiVisible(f: Function, phi: Phi) {
    forall j :: 0 <= j < |phi.incoming| ==>
      phi.incoming[j].0 < |f.blocks| && Visible(ScopeOut(f, phi.incoming[j].0), phi.incoming[j].1)
  }

  ghost predicate BlockDominated(f: Function, bi: nat)
    requires bi < |f.blocks|
  {
    var b := f.blocks[bi];
    && Ordered(Scope(f, bi), b.insts)
    && TermVisible(ScopeOut(f, bi), b.term)
    && forall j :: 0 <= j < |b.phis| ==> PhiVisible(f, b.phis[j])
  }

  ghost predicate UsesDominated(f: Function) {
    forall bi :: 0 <= bi < |f.blocks| ==> BlockDominated(f, bi)
  }

  // ---------------------------------------------------------------- preservation

  /** Whatever is in scope in the source, its redirected register is in scope after. */
  ghost predicate Covers(p: Plan, scope: iset<Reg>, scope': iset<Reg>) {
    forall n: nat :: Src(n) in scope ==> SubstReg(p, Src(n)) in scope'
  }

  ghost function Grow(scope: iset<Reg>, insts: seq<Inst>): iset<Reg> {
    scope + iset r | r in DefsOf(insts)
  }

  lemma {:induction false} DefsConcat(x: seq<Inst>, y: seq<Inst>)
    ensures DefsOf(x + y) == DefsOf(x) + DefsOf(y)
  {
    if x == [] {
      assert x + y == y;
    } else {
      assert (x + y)[1..] == x[1..] + y;
      DefsConcat(x[1..], y);
    }
  }

  lemma DefsFew(a: Inst, b: Inst, c: Inst)
    ensures DefsOf([a, b]) == {a.dst, b.dst}
    ensures DefsOf([a, b, c]) == {a.dst, b.dst, c.dst}
  {
    DefsConcat([a], [b]);
    DefsConcat([a, b], [c]);
    assert [a] + [b] == [a, b] && [a, b] + [c] == [a, b, c];
  }

  lemma {:induction false} OrderedConcat(scope: iset<Reg>, x: seq<Inst>, y: seq<Inst>)
    ensures Ordered(scope, x + y) <==> Ordered(scope, x) && Ordered(Grow(scope, x), y)
    ensures Grow(scope, x + y) == Grow(Grow(scope, x), y)
    decreases |x|
  {
    DefsConcat(x, y);
    if x == [] {
      assert x + y == y && Grow(scope, x) == scope;
    } else {
      assert (x + y)[1..] == x[1..] + y;
      OrderedConcat(scope + iset{x[0].dst}, x[1..], y);
      assert Grow(scope + iset{x[0].dst}, x[1..]) == Grow(scope, x);
    }
  }

  lemma VisibleSubst(p: Plan, scope: iset<Reg>, scope': iset<Reg>, op: Operand)
    requires Covers(p, scope, scope') && SrcOp(op) && Visible(scope, op)
    ensures Visible(scope', SubstOp(p, op))
  {
    if op.Var? { assert op.reg == Src(op.reg.n); }
  }

  lemma {:induction false} ChainOrdered(p: Plan, i: Inst, k: nat, scope': iset<Reg>)
    requires (i.Bin? || i.Cmp?) && i.dst.Src? && k <= |Copies(p, i)| && k <= |Ids(p, i.dst.n)|
    requires i.dst in scope' && Visible(scope', SubstOp(p, i.a)) && Visible(scope', SubstOp(p, i.b))
    ensures var c := Chain(i.dst.n, Copies(p, i), Ids(p, i.dst.n), k);
            Ordered(scope', c) && Cur(i.dst.n, k) in Grow(scope', c)
    decreases k
  {
    var n := i.dst.n;
    if k > 0 {
      var c, l := Chain(n, Copies(p, i), Ids(p, n), k - 1), Link(n, k - 1, Copies(p, i)[k - 1], Ids(p, n)[k - 1]);
      ChainOrdered(p, i, k - 1, scope');
      OrderedConcat(scope', c, l);
      var g := Grow(scope', c);
      assert l[1..] == [l[1], l[2]] && l[1..][1..] == [l[2]] && [l[2]][1..] == [];
      assert Ordered(g + iset{l[0].dst} + iset{l[1].dst}, [l[2]]);
      assert Ordered(g + iset{l[0].dst}, l[1..]);
      assert Ordered(g, l);
      DefsFew(l[0], l[1], l[2]);
    }
  }

  lemma LitOrdered(p: Plan, at: LitSite, op: Operand, scope: iset<Reg>, scope': iset<Reg>)
    requires Covers(p, scope, scope') && SrcOp(op) && Visible(scope, op)
    ensures var c := LitCode(p, at, op);
            Ordered(scope', c) && Visible(Grow(scope', c), LitOp(p, at, op))
  {
    VisibleSubst(p, scope, scope', op);
    var l := LitCode(p, at, op);
    if l != [] {
      assert l[1..] == [l[1]] && [l[1]][1..] == [];
      assert Ordered(scope' + iset{l[0].dst}, l[1..]);
      DefsFew(l[0], l[1], l[1]);
    }
  }

  lemma CoversMore(p: Plan, scope: iset<Reg>, scope': iset<Reg>, more: iset<Reg>)
    requires Covers(p, scope, scope') && scope' <= more
    ensures Covers(p, scope, more)
  {
  }

  lemma BeforeOrdered(p: Plan, i: Inst, scope: iset<Reg>, scope': iset<Reg>)
    requires Covers(p, scope, scope') && SrcInst(i) && UsesVisible(scope, i)
    ensures Ordered(scope', Before(p, i)) && UsesVisible(Grow(scope', Before(p, i)), Core(p, i))
  {
    var g := Grow(scope', Before(p, i));
    if i.Cmp? {
      var n := i.dst.n;
      var l0, l1 := LitCode(p, CmpLit(n, 0), i.a), LitCode(p, CmpLit(n, 1), i.b);
      LitOrdered(p, CmpLit(n, 0), i.a, scope, scope');
      CoversMore(p, scope, scope', Grow(scope', l0));
      LitOrdered(p, CmpLit(n, 1), i.b, scope, Grow(scope', l0));
      OrderedConcat(scope', l0, l1);
    } else {
      assert Before(p, i) == [] && g == scope';
      match i {
        case Bin(_, _, _, a, b, _) =>
          VisibleSubst(p, scope, scope', a);
          VisibleSubst(p, scope, scope', b);
        case Select(_, c, t, e) =>
          VisibleSubst(p, scope, scope', c);
          VisibleSubst(p, scope, scope', t);
          VisibleSubst(p, scope, scope', e);
        case Active(_, _) =>
        case Call(_, _, args) => AllVisibleSubst(p, scope, scope', args);
        case Effect(_, _, args) => AllVisibleSubst(p, scope, scope', args);
      }
    }
  }

  lemma AllVisibleSubst(p: Plan, scope: iset<Reg>, scope': iset<Reg>, ops: seq<Operand>)
    requires Covers(p, scope, scope') && SrcOps(ops) && AllVisible(scope, ops)
    ensures AllVisible(scope', SubstAll(p, ops))
  {
    forall j | 0 <= j < |ops|
      ensures Visible(scope', SubstAll(p, ops)[j])
    {
      VisibleSubst(p, scope, scope', ops[j]);
    }
  }

  lemma ExpandOrdered(p: Plan, i: Inst, scope: iset<Reg>, scope': iset<Reg>)
    requires Covers(p, scope, scope') && SrcInst(i) && FitsInst(p, i) && UsesVisible(scope, i)
    ensures Ordered(scope', Expand(p, i))
    ensures Covers(p, scope + iset{i.dst}, Grow(scope', Expand(p, i)))
  {
    var b, c, ch := Before(p, i), [Core(p, i)], ChainOf(p, i);
    var g1 := Grow(scope', b);
    var g2 := Grow(scope', b + c);
    BeforeOrdered(p, i, scope, scope');
    assert c[1..] == [] && DefsOf(c) == {i.dst} + {};
    OrderedConcat(scope', b, c);
    OrderedConcat(scope', b + c, ch);
    if Arity(p, i) > 0 {
      VisibleSubst(p, scope, scope', i.a);
      VisibleSubst(p, scope, scope', i.b);
      ChainOrdered(p, i, Arity(p, i), g2);
    }
  }

  lemma {:induction false} ExpandAllOrdered(p: Plan, insts: seq<Inst>, scope: iset<Reg>, scope': iset<Reg>)
    requires Covers(p, scope, scope') && Ordered(scope, insts)
    requires forall j :: 0 <= j < |insts| ==> SrcInst(insts[j]) && FitsInst(p, insts[j])
    ensures Ordered(scope', ExpandAll(p, insts))
    ensures Covers(p, Grow(scope, insts), Grow(scope', ExpandAll(p, insts)))
    decreases |insts|
  {
    if insts == [] {
      assert Grow(scope, insts) == scope && Grow(scope', ExpandAll(p, insts)) == scope';
    } else {
      var x, y := Expand(p, insts[0]), ExpandAll(p, insts[1..]);
      ExpandOrdered(p, insts[0], scope, scope');
      ExpandAllOrdered(p, insts[1..], scope + iset{insts[0].dst}, Grow(scope', x));
      OrderedConcat(scope', x, y);
      assert Grow(scope + iset{insts[0].dst}, insts[1..]) == Grow(scope, insts);
    }
  }

  lemma PathsUnchanged(p: Plan, f: Function, path: seq<nat>)
    ensures Path(RewriteFn(p, f), path) <==> Path(f, path)
  {
    var g := RewriteFn(p, f);
    forall bi, t | 0 <= bi < |f.blocks|
      ensures Succ(g.blocks[bi].term, t) <==> Succ(f.blocks[bi].term, t)
    {
    }
  }

  lemma DominatesUnchanged(p: Plan, f: Function, d: nat, b: nat)
    ensures Dominates(RewriteFn(p, f), d, b) <==> Dominates(f, d, b)
  {
    forall path {
      PathsUnchanged(p, f, path);
    }
  }

  lemma {:induction false} PhiDefsUnchanged(p: Plan, phis: seq<Phi>)
    ensures PhiDefs(SubstPhis(p, phis)) == PhiDefs(phis)
  {
    if phis != [] {
      PhiDefsUnchanged(p, phis[1..]);
      assert SubstPhis(p, phis)[1..] == SubstPhis(p, phis[1..]);
    }
  }

  lemma ChainDefines(n: nat, copies: seq<Inst>, ids: seq<u32>, k: nat)
    requires 0 < k <= |copies| && k <= |ids|
    ensures Sel(n, k - 1) in DefsOf(Chain(n, copies, ids, k))
  {
    var l := Link(n, k - 1, copies[k - 1], ids[k - 1]);
    DefsConcat(Chain(n, copies, ids, k - 1), l);
    DefsFew(l[0], l[1], l[2]);
  }

  lemma ExpandDefines(p: Plan, i: Inst)
    requires FitsInst(p, i)
    ensures SubstReg(p, i.dst) in DefsOf(Expand(p, i))
  {
    var n, c := i.dst.n, [Core(p, i)];
    DefsConcat(Before(p, i) + c, ChainOf(p, i));
    DefsConcat(Before(p, i), c);
    if Arity(p, i) > 0 {
      ChainDefines(n, Copies(p, i), Ids(p, n), Arity(p, i));
    } else {
      assert c[0].dst == i.dst;
    }
  }

  /** What a block defines, it defines after instrumentation under the redirected name. */
  lemma {:induction false} DefsCovered(p: Plan, insts: seq<Inst>, n: nat)
    requires forall j :: 0 <= j < |insts| ==> FitsInst(p, insts[j])
    requires Src(n) in DefsOf(insts)
    ensures SubstReg(p, Src(n)) in DefsOf(ExpandAll(p, insts))
  {
    DefsConcat(Expand(p, insts[0]), ExpandAll(p, insts[1..]));
    if insts[0].dst == Src(n) {
      ExpandDefines(p, insts[0]);
    } else {
      DefsCovered(p, insts[1..], n);
    }
  }

  lemma {:induction false} PhiDefIsPlain(p: Plan, phis: seq<Phi>, r: Reg)
    requires forall j :: 0 <= j < |phis| ==> Plain(p, phis[j].dst)
    requires r in PhiDefs(phis)
    ensures Plain(p, r)
  {
    if r != phis[0].dst { PhiDefIsPlain(p, phis[1..], r); }
  }

  lemma ScopeCovered(p: Plan, f: Function, bi: nat)
    requires SrcFn(f) && FitsFn(p, f) && bi < |f.blocks|
    ensures Covers(p, Scope(f, bi), Scope(RewriteFn(p, f), bi))
  {
    var g := RewriteFn(p, f);
    forall n: nat | Src(n) in Scope(f, bi)
      ensures SubstReg(p, Src(n)) in Scope(g, bi)
    {
      if Src(n) in f.params {
        var j :| 0 <= j < |f.params| && f.params[j] == Src(n);
        assert Plain(p, f.params[j]);
      } else if Src(n) in PhiDefs(f.blocks[bi].phis) {
        assert FitsBlock(p, f.blocks[bi]);
        PhiDefIsPlain(p, f.blocks[bi].phis, Src(n));
        PhiDefsUnchanged(p, f.blocks[bi].phis);
      } else {
        var d :| 0 <= d < |f.blocks| && d != bi && Dominates(f, d, bi)
                 && Src(n) in PhiDefs(f.blocks[d].phis) + DefsOf(f.blocks[d].insts);
        AboveCovered(p, f, bi, d, n);
      }
    }
  }

  lemma AboveCovered(p: Plan, f: Function, bi: nat, d: nat, n: nat)
    requires SrcFn(f) && FitsFn(p, f) && bi < |f.blocks| && d < |f.blocks| && d != bi && Dominates(f, d, bi)
    requires Src(n) in PhiDefs(f.blocks[d].phis) + DefsOf(f.blocks[d].insts)
    ensures DefinedAbove(RewriteFn(p, f), bi, SubstReg(p, Src(n)))
  {
    var g, b := RewriteFn(p, f), f.blocks[d];
    assert FitsBlock(p, b);
    DominatesUnchanged(p, f, d, bi);
    DefsConcat(ExpandAll(p, b.insts), BeforeTerm(p, d, b.term));
    PhiDefsUnchanged(p, b.phis);
    if Src(n) in PhiDefs(b.phis) {
      PhiDefIsPlain(p, b.phis, Src(n));
    } else {
      DefsCovered(p, b.insts, n);
    }
    assert SubstReg(p, Src(n)) in PhiDefs(g.blocks[d].phis) + DefsOf(g.blocks[d].insts);
  }

  /** The scope at the end of a block, before the literal selection of its return. */
  lemma BodyOrdered(p: Plan, f: Function, bi: nat)
    requires SrcFn(f) && FitsFn(p, f) && bi < |f.blocks| && Ordered(Scope(f, bi), f.blocks[bi].insts)
    ensures var g, x := RewriteFn(p, f), ExpandAll(p, f.blocks[bi].insts);
            Ordered(Scope(g, bi), x) && Covers(p, ScopeOut(f, bi), Grow(Scope(g, bi), x))
  {
    assert SrcBlock(f.blocks[bi]) && FitsBlock(p, f.blocks[bi]);
    ScopeCovered(p, f, bi);
    ExpandAllOrdered(p, f.blocks[bi].insts, Scope(f, bi), Scope(RewriteFn(p, f), bi));
    assert ScopeOut(f, bi) == Grow(Scope(f, bi), f.blocks[bi].insts);
  }

  lemma TermOrdered(p: Plan, bi: nat, t: Term, scope: iset<Reg>, scope': iset<Reg>)
    requires Covers(p, scope, scope') && SrcTerm(t) && TermVisible(scope, t)
    ensures var c := BeforeTerm(p, bi, t);
            Ordered(scope', c) && TermVisible(Grow(scope', c), CoreTerm(p, bi, t)) && Covers(p, scope, Grow(scope', c))
  {
    var c := BeforeTerm(p, bi, t);
    CoversMore(p, scope, scope', Grow(scope', c));
    match t {
      case CondBr(op, _, _) => VisibleSubst(p, scope, Grow(scope', c), op);
      case Return(Some(op), _) => LitOrdered(p, RetLit(bi), op, scope, scope');
      case _ =>
    }
  }

  lemma OutCovered(p: Plan, f: Function, bi: nat)
    requires SrcFn(f) && FitsFn(p, f) && bi < |f.blocks| && BlockDominated(f, bi)
    ensures var g := RewriteFn(p, f);
            && Ordered(Scope(g, bi), g.blocks[bi].insts)
            && TermVisible(ScopeOut(g, bi), g.blocks[bi].term)
            && Covers(p, ScopeOut(f, bi), ScopeOut(g, bi))
  {
    var g, b := RewriteFn(p, f), f.blocks[bi];
    var x, y := ExpandAll(p, b.insts), BeforeTerm(p, bi, b.term);
    assert SrcBlock(b);
    BodyOrdered(p, f, bi);
    TermOrdered(p, bi, b.term, ScopeOut(f, bi), Grow(Scope(g, bi), x));
    OrderedConcat(Scope(g, bi), x, y);
    assert ScopeOut(g, bi) == Grow(Scope(g, bi), x + y);
  }

  lemma {:induction false} IncomingAt(p: Plan, inc: seq<(nat, Operand)>)
    ensures |SubstIncoming(p, inc)| == |inc|
    ensures forall j :: 0 <= j < |inc| ==> SubstIncoming(p, inc)[j] == (inc[j].0, SubstOp(p, inc[j].1))
  {
    if inc != [] { IncomingAt(p, inc[1..]); }
  }

  lemma {:induction false} PhiAt(p: Plan, phis: seq<Phi>)
    ensures forall j :: 0 <= j < |phis| ==>
              SubstPhis(p, phis)[j] == Phi(phis[j].dst, SubstIncoming(p, phis[j].incoming))
  {
    if phis != [] { PhiAt(p, phis[1..]); }
  }

  lemma PhiCovered(p: Plan, f: Function, phi: Phi)
    requires SrcFn(f) && FitsFn(p, f) && UsesDominated(f) && SrcPhi(phi) && PhiVisible(f, phi)
    ensures PhiVisible(RewriteFn(p, f), Phi(phi.dst, SubstIncoming(p, phi.incoming)))
  {
    var g := RewriteFn(p, f);
    IncomingAt(p, phi.incoming);
    forall j | 0 <= j < |phi.incoming|
      ensures Visible(ScopeOut(g, phi.incoming[j].0), SubstOp(p, phi.incoming[j].1))
    {
      var prev := phi.incoming[j].0;
      OutCovered(p, f, prev);
      VisibleSubst(p, ScopeOut(f, prev), ScopeOut(g, prev), phi.incoming[j].1);
    }
  }

  /** Instrumentation keeps every use dominated by its definition. */
  lemma UsesStayDominated(p: Plan, f: Function)
    requires SrcFn(f) && FitsFn(p, f) && UsesDominated(f)
    ensures UsesDominated(RewriteFn(p, f))
  {
    var g := RewriteFn(p, f);
    forall bi | 0 <= bi < |f.blocks|
      ensures BlockDominated(g, bi)
    {
      var b := f.blocks[bi];
      assert BlockDominated(f, bi) && SrcBlock(b);
      OutCovered(p, f, bi);
      PhiAt(p, b.phis);
      forall j | 0 <= j < |b.phis|
        ensures PhiVisible(g, g.blocks[bi].phis[j])
      {
        PhiCovered(p, f, b.phis[j]);
      }
    }
  }
}
