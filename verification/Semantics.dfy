/** What the interpreter does, on all inputs of its parts and on one whole program. */
module Semantics {
  import opened Scalars
  import opened IR
  import Hash

  // ---------------------------------------------------------------- phis and parameters

  ghost predicate DistinctPhis(phis: seq<Phi>) {
    forall j, k :: 0 <= j < k < |phis| ==> phis[j].dst != phis[k].dst
  }

  /** The operand on an edge is the first one that is listed for it. */
  lemma {:induction false} IncomingExact(inc: seq<(nat, Operand)>, prev: nat, k: nat)
    requires k < |inc| && inc[k].0 == prev && forall j :: 0 <= j < k ==> inc[j].0 != prev
    ensures Incoming(inc, prev) == Some(inc[k].1)
  {
    if k > 0 { IncomingExact(inc[1..], prev, k - 1); }
  }

  lemma {:induction false} PhisKeep(phis: seq<Phi>, prev: nat, edge: Env, acc: Env, r: Reg)
    requires PhiEnv(phis, prev, edge, acc).Some? && forall k :: 0 <= k < |phis| ==> phis[k].dst != r
    ensures var e := PhiEnv(phis, prev, edge, acc).value;
            (r in e <==> r in acc) && (r in acc ==> e[r] == acc[r])
  {
    if phis != [] {
      var v := Eval(edge, Incoming(phis[0].incoming, prev).value).value;
      PhisKeep(phis[1..], prev, edge, acc[phis[0].dst := v], r);
    }
  }

  /** All phis of a block take their values at once: each reads what its operand was on the edge, also
      when another phi of the block gives that register a new value. */
  lemma {:induction false} PhisAtOnce(phis: seq<Phi>, prev: nat, edge: Env, acc: Env, k: nat)
    requires DistinctPhis(phis) && PhiEnv(phis, prev, edge, acc).Some? && k < |phis|
    ensures var op := Incoming(phis[k].incoming, prev);
            && op.Some? && Eval(edge, op.value).Some? && phis[k].dst in PhiEnv(phis, prev, edge, acc).value
            && PhiEnv(phis, prev, edge, acc).value[phis[k].dst] == Eval(edge, op.value).value
  {
    var v := Eval(edge, Incoming(phis[0].incoming, prev).value).value;
    if k == 0 {
      PhisKeep(phis[1..], prev, edge, acc[phis[0].dst := v], phis[0].dst);
    } else {
      PhisAtOnce(phis[1..], prev, edge, acc[phis[0].dst := v], k - 1);
    }
  }

  /** Each parameter gets its own argument. */
  lemma {:induction false} BindExact(params: seq<Reg>, args: seq<Word>, k: nat)
    requires |params| == |args| && k < |params|
    requires forall i, j :: 0 <= i < j < |params| ==> params[i] != params[j]
    ensures params[k] in Bind(params, args) && Bind(params, args)[params[k]] == args[k]
  {
    if k > 0 { BindExact(params[1..], args[1..], k - 1); }
  }

  /** The operands of a call or an effect are evaluated in order, and all of them must have values. */
  lemma {:induction false} EvalAllExact(env: Env, ops: seq<Operand>, k: nat)
    requires k < |ops|
    ensures EvalAll(env, ops).Some? ==>
              && |EvalAll(env, ops).value| == |ops| && Eval(env, ops[k]).Some?
              && EvalAll(env, ops).value[k] == Eval(env, ops[k]).value
    ensures Eval(env, ops[k]).None? ==> EvalAll(env, ops).None?
  {
    if k > 0 { EvalAllExact(env, ops[1..], k - 1); }
    if EvalAll(env, ops).Some? { AllValues(env, ops); }
  }

  lemma {:induction false} AllValues(env: Env, ops: seq<Operand>)
    requires EvalAll(env, ops).Some?
    ensures |EvalAll(env, ops).value| == |ops|
  {
    if ops != [] { AllValues(env, ops[1..]); }
  }

  // ---------------------------------------------------------------- the world

  /** return ask(x, y); */
  function AskFn(): Function {
    Function("ask", [Src(0), Src(1)],
             [Block([], [Effect(Src(2), "ask", [Var(Src(0)), Var(Src(1))])], Return(Some(Var(Src(2))), None))])
  }

  /** An effect is in the trace when the world is asked for its answer; the run goes on with that, or
      ends there. */
  lemma AskRuns(m: Module, cfg: Config, x: Word, y: Word, fuel: nat)
    requires |m| > 0 && m[0] == AskFn()
    ensures var o, answer := RunFn(m, cfg, 0, [x, y], START, fuel), cfg.world([Event("ask", [x, y])]);
            o.st.trace == [Event("ask", [x, y])] && o.res == if answer.Some? then Ret(answer.value) else Trap
  {
    var params, args, i := [Src(0), Src(1)], [x, y], Effect(Src(2), "ask", [Var(Src(0)), Var(Src(1))]);
    var env := Bind(params, args);
    BindExact(params, args, 0);
    BindExact(params, args, 1);
    OperandsRead(env, Src(0), Src(1), x, y);
    AskBlock(m, cfg, env, i, x, y, fuel);
    assert m[0].blocks[0] == Block([], [i], Return(Some(Var(Src(2))), None));
  }

  lemma AskBlock(m: Module, cfg: Config, env: Env, i: Inst, x: Word, y: Word, fuel: nat)
    requires |m| > 0 && |m[0].blocks| > 0 && m[0].blocks[0] == Block([], [i], Return(Some(Var(Src(2))), None))
    requires i.Effect? && i.dst == Src(2) && i.tag == "ask" && EvalAll(env, i.args) == Some([x, y])
    ensures var o, answer := RunBlock(m, cfg, 0, 0, 0, env, START, fuel), cfg.world([Event("ask", [x, y])]);
            o.st.trace == [Event("ask", [x, y])] && o.res == if answer.Some? then Ret(answer.value) else Trap
  {
    assert [] + [Event("ask", [x, y])] == [Event("ask", [x, y])];
    ExecSingle(m, cfg, 0, i, env, START, fuel);
    var s := StepSimple(cfg, 0, i, env, START);
    assert Exec(m, cfg, 0, [i], env, START, fuel) == s;
    if s.Next? {
      assert RunTerm(m, cfg, 0, 0, m[0].blocks[0].term, s.env, s.st, fuel) == Out(Ret(s.env[Src(2)]), s.st);
    }
  }

  lemma FirstValue(env: Env, ops: seq<Operand>, v: Word, vs: seq<Word>)
    requires ops != [] && Eval(env, ops[0]) == Some(v) && EvalAll(env, ops[1..]) == Some(vs)
    ensures EvalAll(env, ops) == Some([v] + vs)
  {
  }

  lemma OperandsRead(env: Env, r: Reg, s: Reg, x: Word, y: Word)
    requires r in env && s in env && env[r] == x && env[s] == y
    ensures EvalAll(env, [Var(r), Var(s)]) == Some([x, y])
  {
    var ops := [Var(r), Var(s)];
    assert ops[1..][1..] == [] && ops[1..][0] == Var(s) && ops[1..] != [];
    FirstValue(env, ops[1..], y, []);
    FirstValue(env, ops, x, [y] + []);
    assert [x] + ([y] + []) == [x, y];
  }

  // ---------------------------------------------------------------- one whole program

  /** show(x, y), i - 1, and whether that is not 0. */
  function Round(): seq<Inst> {
    [Effect(Src(7), "show", [Var(Src(4)), Var(Src(5))]),
     Bin(Src(6), Sub, 32, Var(Src(3)), Const(32, 1), None),
     Cmp(Src(8), NE, 32, Var(Src(6)), Const(32, 0), None)]
  }

  /** i, x and y at the head of the loop: at first the parameters, then i - 1, y and x. */
  function Heads(): seq<Phi> {
    [Phi(Src(3), [(0, Var(Src(0))), (1, Var(Src(6)))]),
     Phi(Src(4), [(0, Var(Src(1))), (1, Var(Src(5)))]),
     Phi(Src(5), [(0, Var(Src(2))), (1, Var(Src(4)))])]
  }

  /** do { show(x, y); swap(x, y); } while (--i); return the x of the last round. */
  function SwapFn(): Function {
    Function("swap", [Src(0), Src(1), Src(2)],
             [Block([], [], Br(1)),
              Block(Heads(), Round(), CondBr(Var(Src(8)), 1, 2)),
              Block([], [], Return(Some(Var(Src(4))), None))])
  }

  /** return swap(i, 7, 9); */
  function CallerFn(): Function {
    Function("caller", [Src(0)],
             [Block([], [Call(Src(1), 0, [Var(Src(0)), Const(32, 7), Const(32, 9)])],
                    Return(Some(Var(Src(1))), None))])
  }

  /** What `n` rounds show. */
  function Shown(n: nat, x: Word, y: Word): (r: seq<Event>)
    ensures |r| == n
    ensures forall k :: 0 <= k < n ==> r[k] == Event("show", if k % 2 == 0 then [x, y] else [y, x])
  {
    seq(n, k => Event("show", if k % 2 == 0 then [x, y] else [y, x]))
  }

  lemma ShownMore(n: nat, x: Word, y: Word)
    requires n > 0
    ensures Shown(n, x, y) == [Event("show", [x, y])] + Shown(n - 1, y, x)
  {
  }

  ghost predicate Answers(world: seq<Event> -> Option<Word>) {
    forall t :: world(t).Some?
  }

  /** The loop is about to be entered with these values for i, x and y. */
  predicate OnEdge(env: Env, prev: nat, i: Word, x: Word, y: Word) {
    if prev == 0 then
      Src(0) in env && Src(1) in env && Src(2) in env && env[Src(0)] == i && env[Src(1)] == x && env[Src(2)] == y
    else
      prev == 1 && Src(6) in env && Src(5) in env && Src(4) in env && env[Src(6)] == i && env[Src(5)] == x
      && env[Src(4)] == y
  }

  lemma HeadsRead(env: Env, prev: nat, i: Word, x: Word, y: Word)
    requires OnEdge(env, prev, i, x, y)
    ensures PhiEnv(Heads(), prev, env, env) == Some(env[Src(3) := i][Src(4) := x][Src(5) := y])
  {
    var hs := Heads();
    var ops := if prev == 0 then [Src(0), Src(1), Src(2)] else [Src(6), Src(5), Src(4)];
    assert Incoming(hs[0].incoming, prev) == Some(Var(ops[0])) && Incoming(hs[1].incoming, prev) == Some(Var(ops[1]))
           && Incoming(hs[2].incoming, prev) == Some(Var(ops[2])) by {
      assert hs[0].incoming[1..][0].0 == 1 && hs[1].incoming[1..][0].0 == 1 && hs[2].incoming[1..][0].0 == 1;
    }
    var e1 := env[Src(3) := i];
    var e2 := e1[Src(4) := x];
    assert hs[2..][1..] == [] && hs[1..][1..] == hs[2..];
    assert PhiEnv(hs[2..], prev, env, e2) == Some(e2[Src(5) := y]);
    assert PhiEnv(hs[1..], prev, env, e1) == PhiEnv(hs[2..], prev, env, e2);
  }

  /** The word behind `i - 1` for a positive word. */
  lemma CountsDown(i: Word)
    requires 0 < i < 0x1_0000_0000
    ensures EvalBin(Sub, 32, i, 1) == Some(i - 1) && (EvalPred(NE, 32, i - 1, 0) == if i == 1 then 0 else 1)
  {
    Hash.WordIsPow();
  }

  lemma RoundInsts(m: Module, cfg: Config, env: Env, st: St, fuel: nat, i: Word, x: Word, y: Word)
    returns (env': Env, st': St)
    requires Answers(cfg.world) && 0 < i < 0x1_0000_0000
    requires Src(3) in env && Src(4) in env && Src(5) in env && env[Src(3)] == i && env[Src(4)] == x && env[Src(5)] == y
    ensures Exec(m, cfg, 0, Round(), env, st, fuel) == Next(env', st')
    ensures OnEdge(env', 1, i - 1, y, x) && Src(8) in env' && (env'[Src(8)] == if i == 1 then 0 else 1)
    ensures st'.trace == st.trace + [Event("show", [x, y])]
  {
    var b := Round();
    var shown := st.(trace := st.trace + [Event("show", [x, y])]);
    OperandsRead(env, Src(4), Src(5), x, y);
    var e1 := env[Src(7) := cfg.world(shown.trace).value];
    assert StepSimple(cfg, 0, b[0], env, st) == Next(e1, shown);
    CountsDown(i);
    st' := shown.(ops := shown.ops + [OpEvent(0, Src(6), Sub, 32, i, 1, |shown.trace|)]);
    var e2 := e1[Src(6) := i - 1];
    assert StepSimple(cfg, 0, b[1], e1, shown) == Next(e2, st');
    env' := e2[Src(8) := EvalPred(NE, 32, i - 1, 0)];
    assert StepSimple(cfg, 0, b[2], e2, st') == Next(env', st');
    ThreeSteps(m, cfg, b, env, st, fuel, e1, shown, e2, st', env', st');
  }

  lemma ThreeSteps(m: Module, cfg: Config, b: seq<Inst>, env: Env, st: St, fuel: nat, e1: Env, s1: St, e2: Env, s2: St,
                   e3: Env, s3: St)
    requires |b| == 3 && !b[0].Call? && !b[1].Call? && !b[2].Call?
    requires StepSimple(cfg, 0, b[0], env, st) == Next(e1, s1)
    requires StepSimple(cfg, 0, b[1], e1, s1) == Next(e2, s2)
    requires StepSimple(cfg, 0, b[2], e2, s2) == Next(e3, s3)
    ensures Exec(m, cfg, 0, b, env, st, fuel) == Next(e3, s3)
  {
    assert b[1..][1..] == b[2..] && b[2..][1..] == [];
    assert Exec(m, cfg, 0, b[2..], e2, s2, fuel) == Next(e3, s3);
    assert Exec(m, cfg, 0, b[1..], e1, s1, fuel) == Next(e3, s3);
  }

  /** One round: the block runs to its branch. */
  lemma RoundRuns(m: Module, cfg: Config, prev: nat, env: Env, st: St, fuel: nat, i: Word, x: Word, y: Word)
    returns (env': Env, st': St)
    requires |m| > 0 && m[0] == SwapFn() && Answers(cfg.world) && 0 < i < 0x1_0000_0000 && OnEdge(env, prev, i, x, y)
    ensures RunBlock(m, cfg, 0, prev, 1, env, st, fuel) ==
            Jump(m, cfg, 0, 1, if i == 1 then 2 else 1, env', st', fuel)
    ensures OnEdge(env', 1, i - 1, y, x) && st'.trace == st.trace + [Event("show", [x, y])]
  {
    HeadsRead(env, prev, i, x, y);
    var e := env[Src(3) := i][Src(4) := x][Src(5) := y];
    env', st' := RoundInsts(m, cfg, e, st, fuel, i, x, y);
    assert m[0].blocks[1] == Block(Heads(), Round(), CondBr(Var(Src(8)), 1, 2));
    assert RunBlock(m, cfg, 0, prev, 1, env, st, fuel) ==
           RunTerm(m, cfg, 0, 1, CondBr(Var(Src(8)), 1, 2), env', st', fuel);
  }

  lemma {:induction false} LoopRuns(m: Module, cfg: Config, prev: nat, env: Env, st: St, fuel: nat, i: Word, x: Word,
                                    y: Word)
    requires |m| > 0 && m[0] == SwapFn() && Answers(cfg.world) && 0 < i < 0x1_0000_0000 && OnEdge(env, prev, i, x, y)
    requires fuel >= i
    ensures var o := RunBlock(m, cfg, 0, prev, 1, env, st, fuel);
            o.res == Ret(if i % 2 == 1 then x else y) && o.st.trace == st.trace + Shown(i, x, y)
    decreases i
  {
    var env', st' := RoundRuns(m, cfg, prev, env, st, fuel, i, x, y);
    ShownMore(i, x, y);
    if i == 1 {
      assert m[0].blocks[2] == Block([], [], Return(Some(Var(Src(4))), None));
      assert RunBlock(m, cfg, 0, 1, 2, env', st', fuel - 1) == Out(Ret(x), st');
    } else {
      LoopRuns(m, cfg, 1, env', st', fuel - 1, i - 1, y, x);
      Rejoined(st.trace, Event("show", [x, y]), Shown(i - 1, y, x));
    }
  }

  lemma Rejoined(a: seq<Event>, e: Event, b: seq<Event>)
    ensures (a + [e]) + b == a + ([e] + b)
  {
  }

  /** The program as a whole, for every count and in every world that answers: parameters, phis that
      swap, effects in order, arithmetic, a branch taken `n - 1` times, a call and its result. */
  lemma CallerRuns(cfg: Config, n: Word, fuel: nat)
    requires Answers(cfg.world) && 0 < n < 0x1_0000_0000 && fuel >= n + 2
    ensures var o := RunFn([SwapFn(), CallerFn()], cfg, 1, [n], START, fuel);
            o.res == Ret(if n % 2 == 1 then 7 else 9) && o.st.trace == Shown(n, 7, 9)
  {
    var m := [SwapFn(), CallerFn()];
    SwapRuns(m, cfg, n, fuel - 1);
    CallerCalls(m, cfg, n, fuel, RunFn(m, cfg, 0, [n, 7, 9], START, fuel - 1));
  }

  lemma EntryJumps(m: Module, cfg: Config, env: Env, fuel: nat)
    requires |m| > 0 && m[0] == SwapFn()
    ensures RunBlock(m, cfg, 0, 0, 0, env, START, fuel) == Jump(m, cfg, 0, 0, 1, env, START, fuel)
  {
    assert m[0].blocks[0] == Block([], [], Br(1));
    assert Exec(m, cfg, 0, [], env, START, fuel) == Next(env, START);
    assert RunTerm(m, cfg, 0, 0, Br(1), env, START, fuel) == Jump(m, cfg, 0, 0, 1, env, START, fuel);
  }

  lemma SwapRuns(m: Module, cfg: Config, n: Word, fuel: nat)
    requires |m| > 0 && m[0] == SwapFn() && Answers(cfg.world) && 0 < n < 0x1_0000_0000 && fuel >= n + 1
    ensures var o := RunFn(m, cfg, 0, [n, 7, 9], START, fuel);
            o.res == Ret(if n % 2 == 1 then 7 else 9) && o.st.trace == Shown(n, 7, 9)
  {
    var params, args := [Src(0), Src(1), Src(2)], [n, 7, 9];
    var env := Bind(params, args);
    BindExact(params, args, 0);
    BindExact(params, args, 1);
    BindExact(params, args, 2);
    EntryJumps(m, cfg, env, fuel);
    LoopRuns(m, cfg, 0, env, START, fuel - 1, n, 7, 9);
    assert [] + Shown(n, 7, 9) == Shown(n, 7, 9);
  }

  lemma CallerCalls(m: Module, cfg: Config, n: Word, fuel: nat, o: Out)
    requires |m| > 1 && m[1] == CallerFn() && fuel > 0 && o == RunFn(m, cfg, 0, [n, 7, 9], START, fuel - 1)
    requires o.res.Ret?
    ensures RunFn(m, cfg, 1, [n], START, fuel) == o
  {
    var env := Bind([Src(0)], [n]);
    BindExact([Src(0)], [n], 0);
    var call := Call(Src(1), 0, [Var(Src(0)), Const(32, 7), Const(32, 9)]);
    ArgsRead(env, n);
    ExecOfCall(m, cfg, call, env, START, fuel, [n, 7, 9], o);
    ExecSingle(m, cfg, 1, call, env, START, fuel);
    assert m[1].blocks[0] == Block([], [call], Return(Some(Var(Src(1))), None));
    assert RunTerm(m, cfg, 1, 0, m[1].blocks[0].term, env[Src(1) := o.res.value], o.st, fuel) == o;
    assert RunBlock(m, cfg, 1, 0, 0, env, START, fuel) == o;
  }

  lemma ArgsRead(env: Env, n: Word)
    requires Src(0) in env && env[Src(0)] == n
    ensures EvalAll(env, [Var(Src(0)), Const(32, 7), Const(32, 9)]) == Some([n, 7, 9])
  {
    var ops := [Var(Src(0)), Const(32, 7), Const(32, 9)];
    assert ops[2..][1..] == [] && ops[1..][1..] == ops[2..] && ops[2..] != [] && ops[1..] != [];
    assert ops[2..][0] == Const(32, 9) && ops[1..][0] == Const(32, 7);
    FirstValue(env, ops[2..], 9, []);
    FirstValue(env, ops[1..], 7, [9] + []);
    FirstValue(env, ops, n, [7] + ([9] + []));
    assert [n] + ([7] + ([9] + [])) == [n, 7, 9];
  }
}
