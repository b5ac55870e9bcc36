/** What well-formed SSA is good for: no run of a well-formed program gets stuck on a register
    without a value, a missing block or a missing operand of a phi. */
module Safety {
  import opened Scalars
  import opened IR
  import opened Rewrite
  import opened Fidelity
  import opened Ssa
  import opened Ledgers
  import opened Keys
  import opened Semantics
  import Pass

  /** Control flow stays inside the function, and every phi has an operand for every way in. */
  ghost predicate Closed(f: Function) {
    && |f.blocks| > 0 && f.blocks[0].phis == []
    && forall bi: nat, to: nat :: bi < |f.blocks| && Succ(f.blocks[bi].term, to) ==>
         to < |f.blocks| && EntersFrom(f, bi, to)
  }

  predicate EntersFrom(f: Function, bi: nat, to: nat)
    requires to < |f.blocks|
  {
    forall q :: 0 <= q < |f.blocks[to].phis| ==> Incoming(f.blocks[to].phis[q].incoming, bi).Some?
  }

  /** A call passes as many arguments as its callee has parameters. */
  predicate CallFits(m: Module, i: Inst) {
    i.Call? ==> i.callee < |m| && |i.args| == |m[i.callee].params|
  }

  predicate CallsFit(m: Module, f: Function) {
    forall bi, j :: 0 <= bi < |f.blocks| && 0 <= j < |f.blocks[bi].insts| ==> CallFits(m, f.blocks[bi].insts[j])
  }

  ghost predicate WellFormed(m: Module) {
    forall fi {:trigger Closed(m[fi])} :: 0 <= fi < |m| ==> Closed(m[fi]) && CallsFit(m, m[fi]) && UsesDominated(m[fi])
  }

  // ---------------------------------------------------------------- operands have values

  ghost predicate Has(env: Env, scope: iset<Reg>) {
    forall r :: r in scope ==> r in env
  }

  lemma EvalHas(env: Env, scope: iset<Reg>, op: Operand)
    requires Has(env, scope) && Visible(scope, op)
    ensures Eval(env, op).Some?
  {
  }

  lemma {:induction false} EvalAllHas(env: Env, scope: iset<Reg>, ops: seq<Operand>)
    requires Has(env, scope) && AllVisible(scope, ops)
    ensures EvalAll(env, ops).Some? && |EvalAll(env, ops).value| == |ops|
  {
    if ops != [] {
      EvalHas(env, scope, ops[0]);
      EvalAllHas(env, scope, ops[1..]);
    }
  }

  ghost predicate Fine(s: Step, scope: iset<Reg>) {
    if s.Halt? then s.out.res != Stuck else Has(s.env, scope)
  }

  lemma SimpleFine(cfg: Config, fi: nat, i: Inst, env: Env, st: St, scope: iset<Reg>)
    requires !i.Call? && Has(env, scope) && UsesVisible(scope, i)
    ensures Fine(StepSimple(cfg, fi, i, env, st), scope + iset{i.dst})
  {
    match i
    case Bin(_, _, _, a, b, _) =>
      EvalHas(env, scope, a);
      EvalHas(env, scope, b);
    case Cmp(_, _, _, a, b, _) =>
      EvalHas(env, scope, a);
      EvalHas(env, scope, b);
    case Select(_, c, t, e) =>
      EvalHas(env, scope, c);
      EvalHas(env, scope, t);
      EvalHas(env, scope, e);
    case Active(_, _) =>
    case Effect(_, _, args) => EvalAllHas(env, scope, args);
  }

  // ---------------------------------------------------------------- what a path has defined

  /** The parameters, and what the blocks of the path define. */
  ghost function Defined(f: Function, path: seq<nat>): iset<Reg>
    requires forall j :: 0 <= j < |path| ==> path[j] < |f.blocks|
  {
    iset r | r in f.params
             || exists j :: 0 <= j < |path|
                  && r in PhiDefs(f.blocks[path[j]].phis) + DefsOf(f.blocks[path[j]].insts)
  }

  /** What is in scope in a block has been defined on the way to it. */
  lemma ScopeOnPath(f: Function, path: seq<nat>, bi: nat)
    requires Path(f, path) && path[|path| - 1] == bi
    ensures forall r :: r in Scope(f, bi) ==> r in Defined(f, path[..|path| - 1]) || r in PhiDefs(f.blocks[bi].phis)
  {
    var front := path[..|path| - 1];
    forall r | DefinedAbove(f, bi, r)
      ensures r in Defined(f, front)
    {
      var d :| 0 <= d < |f.blocks| && d != bi && Dominates(f, d, bi)
               && r in PhiDefs(f.blocks[d].phis) + DefsOf(f.blocks[d].insts);
      var j :| 0 <= j < |path| && path[j] == d;
      assert front[j] == d;
    }
  }

  lemma DefinedMore(f: Function, path: seq<nat>)
    requires Path(f, path)
    ensures var bi := path[|path| - 1];
            Defined(f, path) == Defined(f, path[..|path| - 1])
                                + iset r | r in PhiDefs(f.blocks[bi].phis) + DefsOf(f.blocks[bi].insts)
  {
    var front, bi := path[..|path| - 1], path[|path| - 1];
    forall r | r in Defined(f, front)
      ensures r in Defined(f, path)
    {
      if r !in f.params {
        var j :| 0 <= j < |front| && r in PhiDefs(f.blocks[front[j]].phis) + DefsOf(f.blocks[front[j]].insts);
        assert path[j] == front[j];
      }
    }
    forall r | r in Defined(f, path)
      ensures r in Defined(f, front) || r in PhiDefs(f.blocks[bi].phis) + DefsOf(f.blocks[bi].insts)
    {
      if r !in f.params {
        var j :| 0 <= j < |path| && r in PhiDefs(f.blocks[path[j]].phis) + DefsOf(f.blocks[path[j]].insts);
        if j < |front| { assert front[j] == path[j]; }
      }
    }
  }

  /** What is in scope behind a block has been defined when the path has come through it. */
  lemma ScopeOutOnPath(f: Function, path: seq<nat>)
    requires Path(f, path)
    ensures forall r :: r in ScopeOut(f, path[|path| - 1]) ==> r in Defined(f, path)
  {
    ScopeOnPath(f, path, path[|path| - 1]);
    DefinedMore(f, path);
  }

  // ---------------------------------------------------------------- entering a block

  lemma {:induction false} IncomingFrom(f: Function, phi: Phi, inc: seq<(nat, Operand)>, prev: nat)
    requires Incoming(inc, prev).Some? && prev < |f.blocks|
    requires forall j :: 0 <= j < |inc| ==> inc[j].0 < |f.blocks| && Visible(ScopeOut(f, inc[j].0), inc[j].1)
    ensures Visible(ScopeOut(f, prev), Incoming(inc, prev).value)
  {
    if inc[0].0 != prev { IncomingFrom(f, phi, inc[1..], prev); }
  }

  /** On an edge of the control flow every phi finds the value of its operand. */
  lemma {:induction false} PhisHave(f: Function, phis: seq<Phi>, prev: nat, edge: Env, acc: Env)
    requires prev < |f.blocks| && Has(edge, ScopeOut(f, prev))
    requires forall q :: 0 <= q < |phis| ==> PhiVisible(f, phis[q]) && Incoming(phis[q].incoming, prev).Some?
    ensures PhiEnv(phis, prev, edge, acc).Some?
    ensures acc.Keys + PhiDefs(phis) <= PhiEnv(phis, prev, edge, acc).value.Keys
  {
    if phis != [] {
      var phi := phis[0];
      assert PhiVisible(f, phi);
      IncomingFrom(f, phi, phi.incoming, prev);
      EvalHas(edge, ScopeOut(f, prev), Incoming(phi.incoming, prev).value);
      var v := Eval(edge, Incoming(phi.incoming, prev).value).value;
      PhisHave(f, phis[1..], prev, edge, acc[phi.dst := v]);
    }
  }

  /** A run is about to enter the last block of the path, and has a value for everything that the
      blocks before it define. */
  ghost predicate Arrives(f: Function, path: seq<nat>, prev: nat, bi: nat, env: Env) {
    && Path(f, path) && path[|path| - 1] == bi && Has(env, Defined(f, path[..|path| - 1]))
    && (|path| == 1 || prev == path[|path| - 2])
  }

  lemma EntersFine(f: Function, path: seq<nat>, prev: nat, bi: nat, env: Env)
    requires Closed(f) && UsesDominated(f) && Arrives(f, path, prev, bi, env)
    ensures PhiEnv(f.blocks[bi].phis, prev, env, env).Some?
    ensures Has(PhiEnv(f.blocks[bi].phis, prev, env, env).value, Scope(f, bi) + Defined(f, path[..|path| - 1]))
  {
    var front := path[..|path| - 1];
    ScopeOnPath(f, path, bi);
    if |path| > 1 {
      assert Path(f, front) && front[|front| - 1] == prev;
      assert Succ(f.blocks[prev].term, bi) && EntersFrom(f, prev, bi);
      ScopeOutOnPath(f, front);
      assert BlockDominated(f, bi);
      PhisHave(f, f.blocks[bi].phis, prev, env, env);
    }
  }

  lemma ArrivesNext(f: Function, path: seq<nat>, bi: nat, to: nat, env: Env)
    requires Closed(f) && Path(f, path) && path[|path| - 1] == bi && Has(env, Defined(f, path))
    requires Succ(f.blocks[bi].term, to)
    ensures Arrives(f, path + [to], bi, to, env)
  {
    var next := path + [to];
    assert next[..|next| - 1] == path;
    forall j | 0 < j < |next|
      ensures Succ(f.blocks[next[j - 1]].term, next[j])
    {
      if j < |path| { assert next[j - 1] == path[j - 1]; }
    }
  }

  // ---------------------------------------------------------------- runs

  lemma CallFine(m: Module, cfg: Config, i: Inst, env: Env, st: St, fuel: nat, scope: iset<Reg>)
    requires WellFormed(m) && i.Call? && CallFits(m, i) && Has(env, scope) && UsesVisible(scope, i)
    ensures Fine(ExecCall(m, cfg, i, env, st, fuel), scope + iset{i.dst})
    decreases fuel, 0, 0
  {
    EvalAllHas(env, scope, i.args);
    if fuel > 0 {
      NeverStuck(m, cfg, i.callee, EvalAll(env, i.args).value, st, fuel - 1);
    }
  }

  lemma InstsFine(m: Module, cfg: Config, fi: nat, insts: seq<Inst>, env: Env, st: St, fuel: nat, scope: iset<Reg>)
    requires WellFormed(m) && Has(env, scope) && Ordered(scope, insts)
    requires forall j :: 0 <= j < |insts| ==> CallFits(m, insts[j])
    ensures Fine(Exec(m, cfg, fi, insts, env, st, fuel), scope + iset r | r in DefsOf(insts))
    decreases fuel, 1, |insts|
  {
    if insts != [] {
      var i := insts[0];
      if i.Call? {
        CallFine(m, cfg, i, env, st, fuel, scope);
      } else {
        SimpleFine(cfg, fi, i, env, st, scope);
      }
      var s := ExecOne(m, cfg, fi, i, env, st, fuel);
      if s.Next? {
        InstsFine(m, cfg, fi, insts[1..], s.env, s.st, fuel, scope + iset{i.dst});
      }
    }
  }

  lemma TermFine(m: Module, cfg: Config, fi: nat, path: seq<nat>, bi: nat, env: Env, st: St, fuel: nat)
    requires WellFormed(m) && fi < |m| && Path(m[fi], path) && path[|path| - 1] == bi && Has(env, Defined(m[fi], path))
    ensures RunTerm(m, cfg, fi, bi, m[fi].blocks[bi].term, env, st, fuel).res != Stuck
    decreases fuel, 2, 0
  {
    var f := m[fi];
    assert Closed(f) && BlockDominated(f, bi);
    ScopeOutOnPath(f, path);
    match f.blocks[bi].term
    case Br(to) => JumpFine(m, cfg, fi, path, bi, to, env, st, fuel);
    case CondBr(c, t1, t2) =>
      EvalHas(env, ScopeOut(f, bi), c);
      JumpFine(m, cfg, fi, path, bi, if Eval(env, c).value != 0 then t1 else t2, env, st, fuel);
    case Return(None, _) =>
    case Return(Some(op), _) => EvalHas(env, ScopeOut(f, bi), op);
    case Unreachable =>
  }

  lemma JumpFine(m: Module, cfg: Config, fi: nat, path: seq<nat>, bi: nat, to: nat, env: Env, st: St, fuel: nat)
    requires WellFormed(m) && fi < |m| && Path(m[fi], path) && path[|path| - 1] == bi && Has(env, Defined(m[fi], path))
    requires Succ(m[fi].blocks[bi].term, to)
    ensures Jump(m, cfg, fi, bi, to, env, st, fuel).res != Stuck
    decreases fuel, 1, 0
  {
    assert Closed(m[fi]);
    ArrivesNext(m[fi], path, bi, to, env);
    if fuel > 0 {
      BlockFine(m, cfg, fi, path + [to], bi, to, env, st, fuel - 1);
    }
  }

  lemma BlockFine(m: Module, cfg: Config, fi: nat, path: seq<nat>, prev: nat, bi: nat, env: Env, st: St, fuel: nat)
    requires WellFormed(m) && fi < |m| && Arrives(m[fi], path, prev, bi, env)
    ensures RunBlock(m, cfg, fi, prev, bi, env, st, fuel).res != Stuck
    decreases fuel, 3, 0
  {
    var f, front := m[fi], path[..|path| - 1];
    assert Closed(f) && BlockDominated(f, bi);
    EntersFine(f, path, prev, bi, env);
    var b, e := f.blocks[bi], PhiEnv(f.blocks[bi].phis, prev, env, env).value;
    OrderedMore(Scope(f, bi), Defined(f, front), b.insts);
    InstsFine(m, cfg, fi, b.insts, e, st, fuel, Scope(f, bi) + Defined(f, front));
    var s := Exec(m, cfg, fi, b.insts, e, st, fuel);
    if s.Next? {
      DefinedMore(f, path);
      TermFine(m, cfg, fi, path, bi, s.env, s.st, fuel);
    }
  }

  lemma {:induction false} OrderedMore(scope: iset<Reg>, more: iset<Reg>, insts: seq<Inst>)
    requires Ordered(scope, insts)
    ensures Ordered(scope + more, insts)
  {
    if insts != [] {
      OrderedMore(scope + iset{insts[0].dst}, more, insts[1..]);
      assert (scope + iset{insts[0].dst}) + more == (scope + more) + iset{insts[0].dst};
    }
  }

  lemma {:induction false} BindHas(params: seq<Reg>, args: seq<Word>)
    requires |params| == |args|
    ensures forall r :: r in params ==> r in Bind(params, args)
  {
    if params != [] { BindHas(params[1..], args[1..]); }
  }

  /** A well-formed program that is called with the right number of arguments returns, traps or runs
      on, in every world and with any mutant selected; it never gets stuck. */
  lemma NeverStuck(m: Module, cfg: Config, fi: nat, args: seq<Word>, st: St, fuel: nat)
    requires WellFormed(m) && fi < |m| && |args| == |m[fi].params|
    ensures RunFn(m, cfg, fi, args, st, fuel).res != Stuck
    decreases fuel, 4, 0
  {
    assert Closed(m[fi]);
    BindHas(m[fi].params, args);
    assert [0][..0] == [];
    assert Arrives(m[fi], [0], 0, 0, Bind(m[fi].params, args));
    BlockFine(m, cfg, fi, [0], 0, 0, Bind(m[fi].params, args), st, fuel);
  }

  // ---------------------------------------------------------------- a well-formed program

  lemma LoopDominatesExit(f: Function)
    requires f == SwapFn()
    ensures Dominates(f, 1, 2)
  {
    forall path | Path(f, path) && path[|path| - 1] == 2
      ensures 1 in path
    {
      var before := path[|path| - 2];
      assert Succ(f.blocks[before].term, path[|path| - 1]);
      assert f.blocks[0].term == Br(1) && f.blocks[2].term.Return?;
      assert path[|path| - 2] == 1;
    }
  }

  lemma LoopOrdered(scope: iset<Reg>)
    requires Src(3) in scope && Src(4) in scope && Src(5) in scope
    ensures Ordered(scope, Round())
  {
    var b := Round();
    var s1 := scope + iset{b[0].dst};
    var s2 := s1 + iset{b[1].dst};
    assert b[1..][1..] == b[2..] && b[2..][1..] == [];
    assert UsesVisible(s2, b[2]) && UsesVisible(s1, b[1]) && UsesVisible(scope, b[0]);
    assert Ordered(s2, b[2..]);
    assert Ordered(s1, b[1..]);
  }

  lemma LoopDefines()
    ensures Src(3) in PhiDefs(Heads()) && Src(4) in PhiDefs(Heads()) && Src(5) in PhiDefs(Heads())
    ensures Src(6) in DefsOf(Round()) && Src(8) in DefsOf(Round())
  {
    var hs, b := Heads(), Round();
    assert hs[1..][1..] == hs[2..] && hs[1..][0] == hs[1] && hs[2..][0] == hs[2];
    assert b[1..][1..] == b[2..] && b[1..][0] == b[1] && b[2..][0] == b[2];
  }

  lemma LoopVisible(f: Function, q: nat)
    requires f == SwapFn() && q < 3
    ensures PhiVisible(f, Heads()[q])
  {
    LoopDefines();
    assert f.params == [Src(0), Src(1), Src(2)] && f.blocks[1].phis == Heads() && f.blocks[1].insts == Round();
    var phi := Heads()[q];
    var back := if q == 0 then Src(6) else if q == 1 then Src(5) else Src(4);
    assert phi.incoming == [(0, Var(f.params[q])), (1, Var(back))];
    assert f.params[q] in Scope(f, 0);
    assert forall r :: r in DefsOf(Round()) || r in PhiDefs(Heads()) ==> r in ScopeOut(f, 1);
  }

  lemma LoopBlock(f: Function)
    requires f == SwapFn()
    ensures BlockDominated(f, 1)
  {
    assert f.blocks[1] == Block(Heads(), Round(), CondBr(Var(Src(8)), 1, 2));
    LoopDefines();
    LoopOrdered(Scope(f, 1));
    forall q | 0 <= q < 3
      ensures PhiVisible(f, Heads()[q])
    {
      LoopVisible(f, q);
    }
  }

  lemma ExitBlock(f: Function)
    requires f == SwapFn()
    ensures BlockDominated(f, 2)
  {
    LoopDefines();
    LoopDominatesExit(f);
    assert f.blocks[1].phis == Heads() && f.blocks[2] == Block([], [], Return(Some(Var(Src(4))), None));
    assert DefinedAbove(f, 2, Src(4));
  }

  lemma LoopDominated(f: Function)
    requires f == SwapFn()
    ensures UsesDominated(f)
  {
    LoopBlock(f);
    ExitBlock(f);
    assert f.blocks[0] == Block([], [], Br(1));
    assert BlockDominated(f, 0);
  }

  lemma CallerDominated(f: Function)
    requires f == CallerFn()
    ensures UsesDominated(f)
  {
    assert f.params == [Src(0)];
    var b := f.blocks[0];
    var i := b.insts[0];
    assert b == Block([], [i], Return(Some(Var(Src(1))), None)) && i.args == [Var(Src(0)), Const(32, 7), Const(32, 9)];
    assert AllVisible(Scope(f, 0), i.args);
    assert Src(1) in DefsOf(b.insts);
    assert BlockDominated(f, 0);
  }

  /** The program with a loop, phis that swap and a call is well-formed. */
  lemma SwapIsWellFormed()
    ensures WellFormed([SwapFn(), CallerFn()])
  {
    var m := [SwapFn(), CallerFn()];
    LoopDominated(m[0]);
    CallerDominated(m[1]);
    LoopClosed(m[0]);
    assert CallsFit(m, m[0]) && CallsFit(m, m[1]);
    assert Closed(m[1]);
  }

  lemma LoopClosed(f: Function)
    requires f == SwapFn()
    ensures Closed(f)
  {
    forall bi: nat, to: nat | bi < |f.blocks| && Succ(f.blocks[bi].term, to)
      ensures to < |f.blocks| && EntersFrom(f, bi, to)
    {
      assert f.blocks[0].term == Br(1) && f.blocks[1].term == CondBr(Var(Src(8)), 1, 2) && f.blocks[2].term.Return?;
      assert f.blocks[1].phis == Heads() && f.blocks[2].phis == [];
      forall q | 0 <= q < 3 && bi < 2
        ensures Incoming(Heads()[q].incoming, bi).Some?
      {
        IncomingExact(Heads()[q].incoming, bi, bi);
      }
    }
  }

  // ---------------------------------------------------------------- the output of the pass

  lemma ExpandCalls(p: Plan, i: Inst, c: Inst)
    requires i.dst.Src? && c in Expand(p, i) && c.Call?
    ensures i.Call? && c.callee == i.callee && |c.args| == |i.args|
  {
    if c in ChainOf(p, i) {
      ChainCalls(i.dst.n, Copies(p, i), Ids(p, i.dst.n), Min(|Copies(p, i)|, |Ids(p, i.dst.n)|), c);
    }
  }

  lemma {:induction false} ChainCalls(n: nat, copies: seq<Inst>, ids: seq<u32>, k: nat, c: Inst)
    requires k <= |copies| && k <= |ids| && c in Chain(n, copies, ids, k)
    requires forall j :: 0 <= j < |copies| ==> !copies[j].Call?
    ensures !c.Call?
    decreases k
  {
    if c in Chain(n, copies, ids, k - 1) {
      ChainCalls(n, copies, ids, k - 1, c);
    } else {
      assert c in Link(n, k - 1, copies[k - 1], ids[k - 1]);
    }
  }

  lemma {:induction false} ExpandAllCalls(m: Module, p: Plan, insts: seq<Inst>, c: Inst)
    requires forall j :: 0 <= j < |insts| ==> insts[j].dst.Src? && CallFits(m, insts[j])
    requires c in ExpandAll(p, insts)
    ensures CallFits(m, c)
  {
    if c in Expand(p, insts[0]) {
      if c.Call? { ExpandCalls(p, insts[0], c); }
    } else {
      ExpandAllCalls(m, p, insts[1..], c);
    }
  }

  lemma BlockCalls(m: Module, p: Plan, bi: nat, b: Block, c: Inst)
    requires SrcBlock(b) && forall j :: 0 <= j < |b.insts| ==> CallFits(m, b.insts[j])
    requires c in RewriteBlock(p, bi, b).insts
    ensures CallFits(m, c)
  {
    assert forall j :: 0 <= j < |b.insts| ==> SrcInst(b.insts[j]);
    if c in ExpandAll(p, b.insts) { ExpandAllCalls(m, p, b.insts, c); }
  }

  lemma CallsStayFit(m: Module, fns: Module, p: Plan, f: Function)
    requires SrcFn(f) && CallsFit(m, f)
    requires |fns| == |m| && forall k :: 0 <= k < |m| ==> fns[k].params == m[k].params
    ensures CallsFit(fns, RewriteFn(p, f))
  {
    var g := RewriteFn(p, f);
    forall bi, j | 0 <= bi < |g.blocks| && 0 <= j < |g.blocks[bi].insts|
      ensures CallFits(fns, g.blocks[bi].insts[j])
    {
      assert SrcBlock(f.blocks[bi]) && g.blocks[bi] == RewriteBlock(p, bi, f.blocks[bi]);
      BlockCalls(m, p, bi, f.blocks[bi], g.blocks[bi].insts[j]);
    }
  }

  lemma {:induction false} SameIncoming(p: Plan, inc: seq<(nat, Operand)>, prev: nat)
    ensures Incoming(SubstIncoming(p, inc), prev).Some? <==> Incoming(inc, prev).Some?
  {
    if inc != [] {
      SameIncoming(p, inc[1..], prev);
      assert SubstIncoming(p, inc)[1..] == SubstIncoming(p, inc[1..]);
    }
  }

  lemma {:induction false} SamePhi(p: Plan, phis: seq<Phi>, q: nat)
    requires q < |phis|
    ensures SubstPhis(p, phis)[q].incoming == SubstIncoming(p, phis[q].incoming)
  {
    if q > 0 { SamePhi(p, phis[1..], q - 1); }
  }

  lemma StaysClosed(p: Plan, f: Function)
    requires Closed(f)
    ensures Closed(RewriteFn(p, f))
  {
    var g := RewriteFn(p, f);
    forall bi: nat, to: nat | bi < |g.blocks| && Succ(g.blocks[bi].term, to)
      ensures to < |g.blocks| && EntersFrom(g, bi, to)
    {
      assert Succ(f.blocks[bi].term, to) && EntersFrom(f, bi, to);
      forall q | 0 <= q < |g.blocks[to].phis|
        ensures Incoming(g.blocks[to].phis[q].incoming, bi).Some?
      {
        SamePhi(p, f.blocks[to].phis, q);
        SameIncoming(p, f.blocks[to].phis[q].incoming, bi);
      }
    }
  }

  /** The pass returns a well-formed program for a well-formed one, whatever mutant is selected then. */
  lemma OutputNeverStuck(m: Module, fns: Module, recs: seq<Mutant>, led: Ledger, cfg: Config, fi: nat, args: seq<Word>,
                         st: St, fuel: nat)
    requires State(m, fns, recs, led) && Pass.Complete(led.plans, m) && WellFormed(m)
    requires fi < |m| && |args| == |m[fi].params|
    ensures WellFormed(fns) && |fns| == |m| && RunFn(fns, cfg, fi, args, st, fuel).res != Stuck
  {
    Pass.CompleteFits(led.plans, m);
    forall k: nat | k < |fns|
      ensures Closed(fns[k]) && CallsFit(fns, fns[k]) && UsesDominated(fns[k])
    {
      assert SrcFn(m[k]) && FitsFn(led.plans[k], m[k]) && Closed(m[k]);
      StaysClosed(led.plans[k], m[k]);
      CallsStayFit(m, fns, led.plans[k], m[k]);
      UsesStayDominated(led.plans[k], m[k]);
    }
    NeverStuck(fns, cfg, fi, args, st, fuel);
  }
}
