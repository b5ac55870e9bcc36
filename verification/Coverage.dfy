/** Why an uncovered mutant need not be run: a mutant whose id was never handed to
    `mulation_active` cannot influence the run. */
module Coverage {
  import opened Scalars
  import opened IR

  /** Neither id occurs among the hits. */
  predicate Untouched(hits: seq<u32>, a: u32, b: u32) {
    a !in hits && b !in hits
  }

  lemma UntouchedPrefix(x: seq<u32>, y: seq<u32>, a: u32, b: u32)
    requires x <= y && Untouched(y, a, b)
    ensures Untouched(x, a, b)
  {
    forall h | h in x
      ensures h in y
    {
      var j :| 0 <= j < |x| && x[j] == h;
      assert y[j] == h;
    }
  }

  lemma {:induction false} SameExec(m: Module, c: Config, b: u32, fi: nat, insts: seq<Inst>, env: Env, st: St,
                                    fuel: nat)
    requires Untouched(StepSt(Exec(m, c, fi, insts, env, st, fuel)).hits, c.active, b)
    ensures Exec(m, c.(active := b), fi, insts, env, st, fuel) == Exec(m, c, fi, insts, env, st, fuel)
    decreases fuel, 1, |insts|
  {
    if insts != [] {
      var s := ExecOne(m, c, fi, insts[0], env, st, fuel);
      if s.Next? {
        ExecExtends(m, c, fi, insts[1..], s.env, s.st, fuel);
        UntouchedPrefix(s.st.hits, StepSt(Exec(m, c, fi, insts, env, st, fuel)).hits, c.active, b);
      }
      SameOne(m, c, b, fi, insts[0], env, st, fuel);
      if s.Next? {
        SameExec(m, c, b, fi, insts[1..], s.env, s.st, fuel);
      }
    }
  }

  lemma {:induction false} SameOne(m: Module, c: Config, b: u32, fi: nat, i: Inst, env: Env, st: St, fuel: nat)
    requires Untouched(StepSt(ExecOne(m, c, fi, i, env, st, fuel)).hits, c.active, b)
    ensures ExecOne(m, c.(active := b), fi, i, env, st, fuel) == ExecOne(m, c, fi, i, env, st, fuel)
    decreases fuel, 0
  {
    match i
    case Active(_, id) => assert (st.hits + [id])[|st.hits|] == id;
    case Call(_, callee, args) =>
      var vs := EvalAll(env, args);
      if vs.Some? && fuel > 0 {
        assert StepSt(ExecOne(m, c, fi, i, env, st, fuel)) == RunFn(m, c, callee, vs.value, st, fuel - 1).st;
        SameFn(m, c, b, callee, vs.value, st, fuel - 1);
      }
    case _ =>
  }

  lemma {:induction false} SameJump(m: Module, c: Config, b: u32, fi: nat, bi: nat, target: nat, env: Env, st: St,
                                    fuel: nat)
    requires Untouched(Jump(m, c, fi, bi, target, env, st, fuel).st.hits, c.active, b)
    ensures Jump(m, c.(active := b), fi, bi, target, env, st, fuel) == Jump(m, c, fi, bi, target, env, st, fuel)
    decreases fuel, 2
  {
    if fuel > 0 { SameBlock(m, c, b, fi, bi, target, env, st, fuel - 1); }
  }

  lemma {:induction false} SameTerm(m: Module, c: Config, b: u32, fi: nat, bi: nat, t: Term, env: Env, st: St,
                                    fuel: nat)
    requires Untouched(RunTerm(m, c, fi, bi, t, env, st, fuel).st.hits, c.active, b)
    ensures RunTerm(m, c.(active := b), fi, bi, t, env, st, fuel) == RunTerm(m, c, fi, bi, t, env, st, fuel)
    decreases fuel, 3
  {
    match t
    case Br(target) => SameJump(m, c, b, fi, bi, target, env, st, fuel);
    case CondBr(cond, t1, t2) =>
      var v := Eval(env, cond);
      if v.Some? { SameJump(m, c, b, fi, bi, if v.value != 0 then t1 else t2, env, st, fuel); }
    case _ =>
  }

  lemma {:induction false} SameBlock(m: Module, c: Config, b: u32, fi: nat, prev: nat, bi: nat, env: Env, st: St,
                                     fuel: nat)
    requires Untouched(RunBlock(m, c, fi, prev, bi, env, st, fuel).st.hits, c.active, b)
    ensures RunBlock(m, c.(active := b), fi, prev, bi, env, st, fuel) == RunBlock(m, c, fi, prev, bi, env, st, fuel)
    decreases fuel, 4
  {
    if fi < |m| && bi < |m[fi].blocks| {
      var blk := m[fi].blocks[bi];
      var e := PhiEnv(blk.phis, prev, env, env);
      if e.Some? {
        var s := Exec(m, c, fi, blk.insts, e.value, st, fuel);
        if s.Next? {
          RunTermExtends(m, c, fi, bi, blk.term, s.env, s.st, fuel);
          UntouchedPrefix(s.st.hits, RunTerm(m, c, fi, bi, blk.term, s.env, s.st, fuel).st.hits, c.active, b);
          SameTerm(m, c, b, fi, bi, blk.term, s.env, s.st, fuel);
        }
        SameExec(m, c, b, fi, blk.insts, e.value, st, fuel);
      }
    }
  }

  /** Two selections that a run never asks about give the same run, step for step: same
      result, same effects, same hits. */
  lemma {:induction false} SameFn(m: Module, c: Config, b: u32, fi: nat, args: seq<Word>, st: St, fuel: nat)
    requires Untouched(RunFn(m, c, fi, args, st, fuel).st.hits, c.active, b)
    ensures RunFn(m, c.(active := b), fi, args, st, fuel) == RunFn(m, c, fi, args, st, fuel)
    decreases fuel, 5
  {
    if fi < |m| && |args| == |m[fi].params| {
      SameBlock(m, c, b, fi, 0, 0, Bind(m[fi].params, args), st, fuel);
    }
  }
}
