/** The instrumentation pass: three worklists are filled, then the module is edited in place,
    site by site, while ordinals are taken from the function as it stands. */
module Pass {
  import opened Scalars
  import opened IR
  import opened Rewrite
  import opened Fidelity
  import opened FirstOrder
  import opened Worklists
  import opened Hash
  import opened Keys
  import opened Ledgers
  import opened Sites
  import opened Literals
  import Ssa

  // ---------------------------------------------------------------- progress through a worklist

  /** A site on the worklists of binary operations and comparisons. */
  ghost predicate SiteUse(src: Module, u: Use) {
    IsUse(src, BinPhase, u) || IsUse(src, CmpPhase, u)
  }

  ghost predicate SitedUse(src: Module, plans: seq<Plan>, u: Use)
    requires |plans| == |src|
  {
    && SiteUse(src, u) && AtInst(src, u.pos)
    && var w, p := Wanted(InstAt(src, u.pos)), plans[u.pos.fn];
       |Ids(p, u.n)| == w && (u.n in p.chains <==> w > 0)
  }

  /** The sites in `done` have all their alternatives, and nothing else has any. */
  ghost predicate Sited(src: Module, plans: seq<Plan>, done: seq<Use>) {
    && |plans| == |src|
    && (forall fi :: 0 <= fi < |plans| ==> plans[fi].redir == plans[fi].chains.Keys && plans[fi].lits == map[])
    && (forall fi, n: nat :: 0 <= fi < |plans| && n in plans[fi].chains ==> Covered(done, fi, n))
    && (forall k :: 0 <= k < |done| ==> SitedUse(src, plans, done[k]))
  }

  predicate Covered(done: seq<Use>, fi: nat, n: nat) {
    exists k :: 0 <= k < |done| && done[k].pos.fn == fi && done[k].n == n
  }

  lemma CoveredMore(done: seq<Use>, u: Use, fi: nat, n: nat)
    requires Covered(done, fi, n) || (u.pos.fn == fi && u.n == n)
    ensures Covered(done + [u], fi, n)
  {
    if Covered(done, fi, n) {
      var k :| 0 <= k < |done| && done[k].pos.fn == fi && done[k].n == n;
      assert (done + [u])[k].pos.fn == fi;
    } else {
      assert (done + [u])[|done|].pos.fn == fi;
    }
  }

  /** A register is defined in one place. */
  lemma OneDefinition(src: Module, p: Pos, q: Pos)
    requires SrcModule(src) && AtInst(src, p) && AtInst(src, q) && p.fn == q.fn
             && InstAt(src, p).dst == InstAt(src, q).dst
    ensures p.block == q.block && p.index == q.index
  {
    assert SrcFn(src[p.fn]);
  }

  /** Two uses of one register are the same use. */
  lemma UsesApart(src: Module, u: Use, v: Use)
    requires SrcModule(src) && SiteUse(src, u) && SiteUse(src, v) && u.pos.fn == v.pos.fn && u.n == v.n
    ensures u == v
  {
    OneDefinition(src, u.pos, v.pos);
  }

  lemma SiteIsNew(src: Module, plans: seq<Plan>, done: seq<Use>, u: Use)
    requires SrcModule(src) && Sited(src, plans, done) && SiteUse(src, u) && u !in done
    ensures u.n !in plans[u.pos.fn].chains && u.n !in plans[u.pos.fn].redir && plans[u.pos.fn].lits == map[]
    ensures forall k :: 0 <= k < |done| ==> done[k].pos.fn != u.pos.fn || done[k].n != u.n
  {
    forall k | 0 <= k < |done|
      ensures done[k].pos.fn != u.pos.fn || done[k].n != u.n
    {
      assert SitedUse(src, plans, done[k]);
      if done[k].pos.fn == u.pos.fn && done[k].n == u.n { UsesApart(src, u, done[k]); }
    }
  }

  lemma SitedSkip(src: Module, plans: seq<Plan>, done: seq<Use>, u: Use)
    requires SrcModule(src) && Sited(src, plans, done) && SiteUse(src, u) && u !in done
    requires AtInst(src, u.pos) && Wanted(InstAt(src, u.pos)) == 0
    ensures Sited(src, plans, done + [u])
  {
    SiteIsNew(src, plans, done, u);
    forall fi, n: nat | 0 <= fi < |plans| && n in plans[fi].chains
      ensures Covered(done + [u], fi, n)
    {
      CoveredMore(done, u, fi, n);
    }
  }

  lemma SitedMore(src: Module, plans: seq<Plan>, done: seq<Use>, u: Use, ids: seq<u32>, plans': seq<Plan>)
    requires SrcModule(src) && Sited(src, plans, done) && SiteUse(src, u) && u !in done
    requires AtInst(src, u.pos) && |ids| == Wanted(InstAt(src, u.pos)) > 0
    requires plans' == WithChain(plans, u, ids)
    ensures Sited(src, plans', done + [u])
  {
    SiteIsNew(src, plans, done, u);
    AllCovered(src, plans, done, u, ids);
    AllSited(src, plans, done, u, ids);
    assert SitedUse(src, plans', u);
    UsesMore(src, plans', done, u);
  }

  /** The plans with a chain for the site `u`. */
  function WithChain(plans: seq<Plan>, u: Use, ids: seq<u32>): seq<Plan>
    requires u.pos.fn < |plans|
  {
    var p := plans[u.pos.fn];
    plans[u.pos.fn := p.(chains := p.chains[u.n := ids], redir := p.redir + {u.n})]
  }

  lemma AllCovered(src: Module, plans: seq<Plan>, done: seq<Use>, u: Use, ids: seq<u32>)
    requires Sited(src, plans, done) && u.pos.fn < |src|
    ensures var plans' := WithChain(plans, u, ids);
            forall fi, n: nat :: 0 <= fi < |plans'| && n in plans'[fi].chains ==> Covered(done + [u], fi, n)
  {
    var plans' := WithChain(plans, u, ids);
    forall fi, n: nat | 0 <= fi < |plans'| && n in plans'[fi].chains
      ensures Covered(done + [u], fi, n)
    {
      CoveredMore(done, u, fi, n);
    }
  }

  lemma AllSited(src: Module, plans: seq<Plan>, done: seq<Use>, u: Use, ids: seq<u32>)
    requires Sited(src, plans, done) && u.pos.fn < |src|
    requires forall k :: 0 <= k < |done| ==> done[k].pos.fn != u.pos.fn || done[k].n != u.n
    ensures forall k :: 0 <= k < |done| ==> SitedUse(src, WithChain(plans, u, ids), done[k])
  {
    forall k | 0 <= k < |done|
      ensures SitedUse(src, WithChain(plans, u, ids), done[k])
    {
      StillSited(src, plans, WithChain(plans, u, ids), done[k], u, ids);
    }
  }

  lemma UsesMore(src: Module, plans: seq<Plan>, done: seq<Use>, u: Use)
    requires |plans| == |src| && SitedUse(src, plans, u)
    requires forall k :: 0 <= k < |done| ==> SitedUse(src, plans, done[k])
    ensures forall k :: 0 <= k <= |done| ==> SitedUse(src, plans, (done + [u])[k])
  {
  }

  lemma StillSited(src: Module, plans: seq<Plan>, plans': seq<Plan>, v: Use, u: Use, ids: seq<u32>)
    requires |plans| == |src| && SitedUse(src, plans, v) && u.pos.fn < |src| && (v.pos.fn != u.pos.fn || v.n != u.n)
    requires plans' == WithChain(plans, u, ids)
    ensures SitedUse(src, plans', v)
  {
  }

  lemma SitedNext(src: Module, led: Ledger, led': Ledger, done: seq<Use>, ph: Phase, u: Use)
    requires SrcModule(src) && Sited(src, led.plans, done) && SiteUse(src, u) && u !in done && AtInst(src, u.pos)
    requires SiteFinished(src, led, led', ph, u)
    ensures Sited(src, led'.plans, done + [u])
  {
    var w := Wanted(InstAt(src, u.pos));
    if w == 0 {
      SitedSkip(src, led.plans, done, u);
    } else {
      var p := led.plans[u.pos.fn];
      var ids: seq<u32> :| |ids| == w &&
        led'.plans == led.plans[u.pos.fn := p.(chains := p.chains[u.n := ids], redir := p.redir + {u.n})];
      SitedMore(src, led.plans, done, u, ids, led'.plans);
    }
  }

  // ---------------------------------------------------------------- the loops over sites

  ghost predicate NoEntries(led: Ledger, ph: Phase) {
    forall x :: 0 <= x < |led.entries| ==> led.entries[x].phase != ph
  }

  lemma UseInWorklist(src: Module, ph: Phase, list: seq<Use>, earlier: seq<Use>, k: nat)
    requires Worklist(src, ph, list) && !ph.LitPhase? && k < |list|
    requires forall v :: v in earlier ==> ph.CmpPhase? && IsUse(src, BinPhase, v)
    ensures IsUse(src, ph, list[k]) && AtInst(src, list[k].pos) && list[k] !in earlier + list[..k]
  {
  }

  lemma OthersStay(src: Module, led: Ledger, led': Ledger, ph: Phase, u: Use)
    requires |led.plans| == |src| && AtInst(src, u.pos) && SiteFinished(src, led, led', ph, u)
    ensures forall other :: other != ph && NoEntries(led, other) ==> NoEntries(led', other)
    ensures Phased(led, ph) ==> Phased(led', ph)
  {
  }

  /** The position of the next worklist entry, or the end of the module. */
  function Next(src: Module, list: seq<Use>, k: nat): Pos {
    if k < |list| then list[k].pos else Pos(|src|, 0, 0, 0)
  }

  lemma NextIsLater(src: Module, ph: Phase, list: seq<Use>, k: nat)
    requires Worklist(src, ph, list) && k < |list|
    ensures Less(list[k].pos, Next(src, list, k + 1))
  {
  }

  /** The loop over one of the first two worklists. */
  method InstrumentSites(ghost src: Module, fns: Module, recs: seq<Mutant>, ghost led: Ledger, ghost ph: Phase,
                         list: seq<Use>, ghost earlier: seq<Use>)
    returns (fns': Module, recs': seq<Mutant>, ghost led': Ledger)
    requires DistinctNames(src) && State(src, fns, recs, led) && Worklist(src, ph, list) && !ph.LitPhase?
    requires forall v :: v in earlier ==> ph.CmpPhase? && IsUse(src, BinPhase, v)
    requires Sited(src, led.plans, earlier) && NoEntries(led, ph) && Phased(led, ph)
    ensures State(src, fns', recs', led') && Sited(src, led'.plans, earlier + list) && Phased(led', ph)
    ensures forall other :: other != ph && NoEntries(led, other) ==> NoEntries(led', other)
  {
    fns', recs', led' := fns, recs, led;
    assert earlier + list[..0] == earlier;
    for k := 0 to |list|
      invariant State(src, fns', recs', led') && Sited(src, led'.plans, earlier + list[..k])
      invariant EntriesBefore(src, led', ph, Next(src, list, k)) && Phased(led', ph)
      invariant forall other :: other != ph && NoEntries(led, other) ==> NoEntries(led', other)
    {
      UseInWorklist(src, ph, list, earlier, k);
      SiteIsNew(src, led'.plans, earlier + list[..k], list[k]);
      NextIsLater(src, ph, list, k);
      ghost var was := led';
      fns', recs', led' := InstrumentSite(src, fns', recs', led', ph, list[k]);
      SitedNext(src, was, led', earlier + list[..k], ph, list[k]);
      OneFurther(earlier, list, k);
      OthersStay(src, was, led', ph, list[k]);
    }
    assert list[..|list|] == list;
  }

  lemma OneFurther(earlier: seq<Use>, list: seq<Use>, k: nat)
    requires k < |list|
    ensures earlier + list[..k] + [list[k]] == earlier + list[..k + 1]
  {
  }

  // ---------------------------------------------------------------- the loop over literals

  ghost predicate LitDone(src: Module, plans: seq<Plan>, u: Use)
    requires |plans| == |src|
  {
    IsUse(src, LitPhase, u) && (LitSiteOf(src, u) in plans[u.pos.fn].lits <==> LocAt(src, u).Some?)
  }

  /** The literals in `done` are selected, and no others are. */
  ghost predicate LitsSited(src: Module, base: seq<Plan>, plans: seq<Plan>, done: seq<Use>) {
    && |plans| == |base| == |src|
    && (forall fi :: 0 <= fi < |plans| ==> plans[fi].redir == base[fi].redir && plans[fi].chains == base[fi].chains)
    && (forall fi, at :: 0 <= fi < |plans| && at in plans[fi].lits ==> LitCovered(src, done, fi, at))
    && (forall k :: 0 <= k < |done| ==> LitDone(src, plans, done[k]))
  }

  predicate LitCovered(src: Module, done: seq<Use>, fi: nat, at: LitSite) {
    exists k ::
      0 <= k < |done| && done[k].pos.fn == fi && IsUse(src, LitPhase, done[k]) && LitSiteOf(src, done[k]) == at
  }

  /** A literal is identified by its function and its place in the function. */
  lemma LitsApart(src: Module, u: Use, v: Use)
    requires SrcModule(src) && IsUse(src, LitPhase, u) && IsUse(src, LitPhase, v)
    requires u.pos.fn == v.pos.fn && LitSiteOf(src, u) == LitSiteOf(src, v)
    ensures u == v
  {
    if AtInst(src, u.pos) { OneDefinition(src, u.pos, v.pos); }
  }

  lemma LitIsNew(src: Module, base: seq<Plan>, plans: seq<Plan>, list: seq<Use>, k: nat)
    requires SrcModule(src) && Worklist(src, LitPhase, list) && k < |list| && LitsSited(src, base, plans, list[..k])
    ensures IsUse(src, LitPhase, list[k]) && LitReady(src, plans, list[k])
    ensures forall j :: 0 <= j < k ==>
              list[j].pos.fn != list[k].pos.fn || LitSiteOf(src, list[j]) != LitSiteOf(src, list[k])
  {
    var u, fi := list[k], list[k].pos.fn;
    forall j | 0 <= j < k
      ensures list[j].pos.fn != fi || LitSiteOf(src, list[j]) != LitSiteOf(src, u)
    {
      if list[j].pos.fn == fi && LitSiteOf(src, list[j]) == LitSiteOf(src, u) { LitsApart(src, list[j], u); }
    }
    if AtInst(src, u.pos) && u.pos.sub == 0 && CmpLit(u.n, 1) in plans[fi].lits {
      var j :| 0 <= j < |list[..k]| && list[..k][j].pos.fn == fi && IsUse(src, LitPhase, list[..k][j])
               && LitSiteOf(src, list[..k][j]) == CmpLit(u.n, 1);
      OneDefinition(src, list[j].pos, u.pos);
    }
  }

  lemma LitsNext(src: Module, base: seq<Plan>, led: Ledger, led': Ledger, list: seq<Use>, k: nat)
    requires SrcModule(src) && Worklist(src, LitPhase, list) && k < |list| && LitsSited(src, base, led.plans, list[..k])
    requires IsUse(src, LitPhase, list[k]) && LitFinished(src, led, led', list[k])
    ensures LitsSited(src, base, led'.plans, list[..k + 1])
  {
    LitIsNew(src, base, led.plans, list, k);
    forall fi, at | 0 <= fi < |led'.plans| && at in led'.plans[fi].lits
      ensures LitCovered(src, list[..k + 1], fi, at)
    {
      LitCoveredMore(src, list, k, led.plans[fi], led'.plans[fi], fi, at);
    }
    AllDone(src, base, led, led', list, k);
  }

  lemma AllDone(src: Module, base: seq<Plan>, led: Ledger, led': Ledger, list: seq<Use>, k: nat)
    requires k < |list| && LitsSited(src, base, led.plans, list[..k])
    requires IsUse(src, LitPhase, list[k]) && LitFinished(src, led, led', list[k])
    requires forall j :: 0 <= j < k ==>
               list[j].pos.fn != list[k].pos.fn || LitSiteOf(src, list[j]) != LitSiteOf(src, list[k])
    ensures forall j :: 0 <= j <= k ==> LitDone(src, led'.plans, list[j])
  {
    forall j | 0 <= j <= k
      ensures LitDone(src, led'.plans, list[j])
    {
      if j < k {
        assert list[..k][j] == list[j];
        StillDone(src, led.plans, led'.plans, list[j], list[k]);
      }
    }
  }

  lemma LitCoveredMore(src: Module, list: seq<Use>, k: nat, p: Plan, q: Plan, fi: nat, at: LitSite)
    requires k < |list| && IsUse(src, LitPhase, list[k]) && at in q.lits
    requires at in p.lits ==> LitCovered(src, list[..k], fi, at)
    requires at !in p.lits ==> list[k].pos.fn == fi && LitSiteOf(src, list[k]) == at
    ensures LitCovered(src, list[..k + 1], fi, at)
  {
    if at in p.lits {
      var j :| 0 <= j < k && list[..k][j].pos.fn == fi && IsUse(src, LitPhase, list[..k][j])
               && LitSiteOf(src, list[..k][j]) == at;
      assert list[..k + 1][j] == list[..k][j];
    } else {
      assert list[..k + 1][k] == list[k];
    }
  }

  lemma StillDone(src: Module, plans: seq<Plan>, plans': seq<Plan>, v: Use, u: Use)
    requires |plans| == |src| == |plans'| && LitDone(src, plans, v)
             && (plans' == plans || exists id: u32 :: AddsLit(src, plans, plans', u, id))
    requires v.pos.fn != u.pos.fn || LitSiteOf(src, v) != LitSiteOf(src, u)
    ensures LitDone(src, plans', v)
  {
  }

  method InstrumentLits(src: Module, fns: Module, recs: seq<Mutant>, ghost led: Ledger, list: seq<Use>)
    returns (fns': Module, recs': seq<Mutant>, ghost led': Ledger)
    requires DistinctNames(src) && State(src, fns, recs, led) && Worklist(src, LitPhase, list)
             && NoEntries(led, LitPhase)
    requires forall fi :: 0 <= fi < |led.plans| ==> led.plans[fi].lits == map[]
    ensures State(src, fns', recs', led') && LitsSited(src, led.plans, led'.plans, list)
  {
    fns', recs', led' := fns, recs, led;
    for k := 0 to |list|
      invariant State(src, fns', recs', led') && LitsSited(src, led.plans, led'.plans, list[..k])
      invariant EntriesBefore(src, led', LitPhase, Next(src, list, k))
    {
      LitIsNew(src, led.plans, led'.plans, list, k);
      NextIsLater(src, LitPhase, list, k);
      ghost var was := led';
      fns', recs', led' := InstrumentLit(src, fns', recs', led', list[k], !AtInst(src, list[k].pos));
      LitsNext(src, led.plans, was, led', list, k);
    }
    assert list[..|list|] == list;
  }

  // ---------------------------------------------------------------- nothing done yet

  lemma {:induction false} EmptyOps(ops: seq<Operand>)
    ensures SubstAll(NO_PLAN, ops) == ops
  {
    if ops != [] { EmptyOps(ops[1..]); }
  }

  lemma {:induction false} EmptyIncoming(inc: seq<(nat, Operand)>)
    ensures SubstIncoming(NO_PLAN, inc) == inc
  {
    if inc != [] { EmptyIncoming(inc[1..]); }
  }

  lemma {:induction false} EmptyPhis(phis: seq<Phi>)
    ensures SubstPhis(NO_PLAN, phis) == phis
  {
    if phis != [] {
      EmptyIncoming(phis[0].incoming);
      EmptyPhis(phis[1..]);
    }
  }

  lemma EmptyExpand(i: Inst)
    ensures Expand(NO_PLAN, i) == [i]
  {
    if i.Call? || i.Effect? { EmptyOps(i.args); }
  }

  lemma {:induction false} EmptyInsts(insts: seq<Inst>)
    ensures ExpandAll(NO_PLAN, insts) == insts
  {
    if insts != [] {
      EmptyExpand(insts[0]);
      EmptyInsts(insts[1..]);
    }
  }

  lemma EmptyFn(f: Function)
    ensures RewriteFn(NO_PLAN, f) == f
  {
    forall bi | 0 <= bi < |f.blocks|
      ensures RewriteBlock(NO_PLAN, bi, f.blocks[bi]) == f.blocks[bi]
    {
      EmptyPhis(f.blocks[bi].phis);
      EmptyInsts(f.blocks[bi].insts);
      assert f.blocks[bi].insts + [] == f.blocks[bi].insts;
    }
    assert RewriteFn(NO_PLAN, f).blocks == f.blocks;
  }

  function NoPlans(n: nat): (plans: seq<Plan>)
    ensures |plans| == n && forall i :: 0 <= i < n ==> plans[i] == NO_PLAN
  {
    seq(n, i => NO_PLAN)
  }

  lemma EmptyState(m: Module)
    requires SrcModule(m)
    ensures State(m, m, [], Ledger(NoPlans(|m|), [])) && Sited(m, NoPlans(|m|), [])
  {
    forall i | 0 <= i < |m|
      ensures RewriteFn(NO_PLAN, m[i]) == m[i]
    {
      EmptyFn(m[i]);
    }
    assert RewriteModule(NoPlans(|m|), m) == m;
  }

  // ---------------------------------------------------------------- the finished plan

  /** Every alternative and literal of the function has been instrumented, and no other. */
  ghost predicate CompleteInst(p: Plan, i: Inst) {
    && i.dst.Src? && |Ids(p, i.dst.n)| == Wanted(i) && (i.dst.n in p.redir <==> Wanted(i) > 0)
    && (i.Cmp? ==> (CmpLit(i.dst.n, 0) in p.lits <==> IsLit(i.a) && i.loc.Some?))
    && (i.Cmp? ==> (CmpLit(i.dst.n, 1) in p.lits <==> IsLit(i.b) && i.loc.Some?))
  }

  ghost predicate CompleteFn(p: Plan, f: Function) {
    && (!Eligible(f) ==> p == NO_PLAN)
    && (Eligible(f) ==> forall bi, j | 0 <= bi < |f.blocks| && 0 <= j < |f.blocks[bi].insts| ::
          CompleteInst(p, f.blocks[bi].insts[j]))
    && (Eligible(f) ==> forall bi: nat | bi < |f.blocks| ::
          RetLit(bi) in p.lits <==>
            var t := f.blocks[bi].term; t.Return? && t.value.Some? && IsLit(t.value.value) && t.loc.Some?)
    && (forall n :: n in p.redir ==>
          exists bi, j :: 0 <= bi < |f.blocks| && 0 <= j < |f.blocks[bi].insts| && f.blocks[bi].insts[j].dst == Src(n))
  }

  ghost predicate Complete(plans: seq<Plan>, m: Module) {
    && |plans| == |m|
    && forall fi {:trigger CompleteFn(plans[fi], m[fi])} :: 0 <= fi < |m| ==> CompleteFn(plans[fi], m[fi])
  }

  /** All three worklists are done: `base` are the plans before the literals. */
  ghost predicate Done(src: Module, base: seq<Plan>, plans: seq<Plan>, bins: seq<Use>, cmps: seq<Use>, lits: seq<Use>) {
    && SrcModule(src) && Worklist(src, BinPhase, bins) && Worklist(src, CmpPhase, cmps) && Worklist(src, LitPhase, lits)
    && Sited(src, base, bins + cmps) && LitsSited(src, base, plans, lits)
  }

  lemma DoneSite(src: Module, base: seq<Plan>, plans: seq<Plan>, bins: seq<Use>, cmps: seq<Use>, lits: seq<Use>, u: Use)
    requires Done(src, base, plans, bins, cmps, lits) && SiteUse(src, u)
    ensures SitedUse(src, base, u)
  {
    var all := bins + cmps;
    if IsUse(src, BinPhase, u) {
      var k :| 0 <= k < |bins| && bins[k] == u;
      assert all[k] == u;
    } else {
      var k :| 0 <= k < |cmps| && cmps[k] == u;
      assert all[|bins| + k] == u;
    }
  }

  lemma DoneOther(src: Module, base: seq<Plan>, plans: seq<Plan>, bins: seq<Use>, cmps: seq<Use>, lits: seq<Use>,
                  fi: nat, n: nat)
    returns (u: Use)
    requires Done(src, base, plans, bins, cmps, lits) && fi < |src| && n in base[fi].chains
    ensures u.pos.fn == fi && u.n == n && SitedUse(src, base, u)
  {
    assert Covered(bins + cmps, fi, n);
    var k :| 0 <= k < |bins + cmps| && (bins + cmps)[k].pos.fn == fi && (bins + cmps)[k].n == n;
    u := (bins + cmps)[k];
  }

  lemma DoneInst(src: Module, base: seq<Plan>, plans: seq<Plan>, bins: seq<Use>, cmps: seq<Use>, lits: seq<Use>,
                 pos: Pos, i: Inst)
    requires Done(src, base, plans, bins, cmps, lits) && AtInst(src, pos) && pos.sub == 0 && i == InstAt(src, pos)
    ensures var p := plans[pos.fn];
            i.dst.Src? && |Ids(p, i.dst.n)| == Wanted(i) && (i.dst.n in p.redir <==> Wanted(i) > 0)
  {
    assert SrcFn(src[pos.fn]) && SrcBlock(src[pos.fn].blocks[pos.block]) && SrcInst(i);
    var n := i.dst.n;
    if IsSite(i) {
      DoneSite(src, base, plans, bins, cmps, lits, Use(pos, n));
    } else if n in base[pos.fn].chains {
      var u := DoneOther(src, base, plans, bins, cmps, lits, pos.fn, n);
      OneDefinition(src, u.pos, pos);
    }
  }

  lemma DoneLit(src: Module, base: seq<Plan>, plans: seq<Plan>, bins: seq<Use>, cmps: seq<Use>, lits: seq<Use>, u: Use)
    requires Done(src, base, plans, bins, cmps, lits) && IsUse(src, LitPhase, u)
    ensures LitSiteOf(src, u) in plans[u.pos.fn].lits <==> LocAt(src, u).Some?
  {
    var k :| 0 <= k < |lits| && lits[k] == u;
    assert LitDone(src, plans, lits[k]);
  }

  lemma LitFrom(src: Module, base: seq<Plan>, plans: seq<Plan>, lits: seq<Use>, fi: nat, at: LitSite) returns (u: Use)
    requires LitsSited(src, base, plans, lits) && fi < |src| && at in plans[fi].lits
    ensures u.pos.fn == fi && IsUse(src, LitPhase, u) && LitSiteOf(src, u) == at
  {
    assert LitCovered(src, lits, fi, at);
    var k :| 0 <= k < |lits| && lits[k].pos.fn == fi && IsUse(src, LitPhase, lits[k]) && LitSiteOf(src, lits[k]) == at;
    u := lits[k];
  }

  lemma DoneOperand(src: Module, base: seq<Plan>, plans: seq<Plan>, bins: seq<Use>, cmps: seq<Use>, lits: seq<Use>,
                    pos: Pos, i: Inst, oi: nat)
    requires Done(src, base, plans, bins, cmps, lits) && AtInst(src, pos) && i == InstAt(src, pos) && i.Cmp?
             && i.dst.Src? && oi < 2
    ensures CmpLit(i.dst.n, oi) in plans[pos.fn].lits <==> IsLit(if oi == 0 then i.a else i.b) && i.loc.Some?
  {
    var u := Use(pos.(sub := oi), i.dst.n);
    if IsLit(if oi == 0 then i.a else i.b) {
      DoneLit(src, base, plans, bins, cmps, lits, u);
    } else if CmpLit(i.dst.n, oi) in plans[pos.fn].lits {
      var v := LitFrom(src, base, plans, lits, pos.fn, CmpLit(i.dst.n, oi));
      OneDefinition(src, v.pos, pos);
    }
  }

  lemma DoneReturn(src: Module, base: seq<Plan>, plans: seq<Plan>, bins: seq<Use>, cmps: seq<Use>, lits: seq<Use>,
                   fi: nat, bi: nat)
    requires Done(src, base, plans, bins, cmps, lits) && fi < |src| && Eligible(src[fi]) && bi < |src[fi].blocks|
    ensures var t := src[fi].blocks[bi].term;
            RetLit(bi) in plans[fi].lits <==> t.Return? && t.value.Some? && IsLit(t.value.value) && t.loc.Some?
  {
    var t, u := src[fi].blocks[bi].term, Use(Pos(fi, bi, |src[fi].blocks[bi].insts|, 0), bi);
    if t.Return? && t.value.Some? && IsLit(t.value.value) {
      DoneLit(src, base, plans, bins, cmps, lits, u);
    } else if RetLit(bi) in plans[fi].lits {
      var v := LitFrom(src, base, plans, lits, fi, RetLit(bi));
    }
  }

  lemma DoneSkipped(src: Module, base: seq<Plan>, plans: seq<Plan>, bins: seq<Use>, cmps: seq<Use>, lits: seq<Use>,
                    fi: nat)
    requires Done(src, base, plans, bins, cmps, lits) && fi < |src| && !Eligible(src[fi])
    ensures plans[fi] == NO_PLAN
  {
    forall n: nat | n in plans[fi].chains
      ensures false
    {
      var u := DoneOther(src, base, plans, bins, cmps, lits, fi, n);
    }
    forall at | at in plans[fi].lits
      ensures false
    {
      var u := LitFrom(src, base, plans, lits, fi, at);
    }
    assert plans[fi].chains == map[] && plans[fi].lits == map[];
  }

  lemma DoneInsts(src: Module, base: seq<Plan>, plans: seq<Plan>, bins: seq<Use>, cmps: seq<Use>, lits: seq<Use>,
                  fi: nat, bi: nat, j: nat)
    requires Done(src, base, plans, bins, cmps, lits) && fi < |src| && Eligible(src[fi])
    requires bi < |src[fi].blocks| && j < |src[fi].blocks[bi].insts|
    ensures CompleteInst(plans[fi], src[fi].blocks[bi].insts[j])
  {
    var i, pos := src[fi].blocks[bi].insts[j], Pos(fi, bi, j, 0);
    DoneInst(src, base, plans, bins, cmps, lits, pos, i);
    if i.Cmp? {
      DoneOperand(src, base, plans, bins, cmps, lits, pos, i, 0);
      DoneOperand(src, base, plans, bins, cmps, lits, pos, i, 1);
    }
  }

  lemma DoneComplete(src: Module, base: seq<Plan>, plans: seq<Plan>, bins: seq<Use>, cmps: seq<Use>, lits: seq<Use>)
    requires Done(src, base, plans, bins, cmps, lits)
    ensures Complete(plans, src)
  {
    forall fi | 0 <= fi < |src|
      ensures CompleteFn(plans[fi], src[fi])
    {
      if Eligible(src[fi]) {
        forall bi, j | 0 <= bi < |src[fi].blocks| && 0 <= j < |src[fi].blocks[bi].insts|
          ensures CompleteInst(plans[fi], src[fi].blocks[bi].insts[j])
        {
          DoneInsts(src, base, plans, bins, cmps, lits, fi, bi, j);
        }
        forall bi: nat | bi < |src[fi].blocks|
          ensures var t := src[fi].blocks[bi].term;
                  RetLit(bi) in plans[fi].lits <==> t.Return? && t.value.Some? && IsLit(t.value.value) && t.loc.Some?
        {
          DoneReturn(src, base, plans, bins, cmps, lits, fi, bi);
        }
      } else {
        DoneSkipped(src, base, plans, bins, cmps, lits, fi);
      }
      forall n | n in plans[fi].redir
        ensures exists bi, j ::
                  0 <= bi < |src[fi].blocks| && 0 <= j < |src[fi].blocks[bi].insts|
                  && src[fi].blocks[bi].insts[j].dst == Src(n)
      {
        var u := DoneOther(src, base, plans, bins, cmps, lits, fi, n);
        assert src[fi].blocks[u.pos.block].insts[u.pos.index].dst == Src(n);
      }
    }
  }

  lemma OfPhase(src: Module, ph: Phase, list: seq<Use>)
    requires Worklist(src, ph, list)
    ensures [] + list == list && forall v :: v in list ==> IsUse(src, ph, v)
  {
  }

  /** The whole pass: what it makes of the module, which sites it instruments, and the records
      it emits, one for every instrumented alternative and literal, with pairwise different keys. */
  method Instrument(m: Module) returns (fns: Module, recs: seq<Mutant>, ghost led: Ledger)
    requires SrcModule(m) && DistinctNames(m)
    ensures State(m, fns, recs, led) && Complete(led.plans, m)
  {
    var bins, cmps, lits := Collect(m);
    fns, recs, led := m, [], Ledger(NoPlans(|m|), []);
    EmptyState(m);
    fns, recs, led := InstrumentSites(m, fns, recs, led, BinPhase, bins, []);
    OfPhase(m, BinPhase, bins);
    fns, recs, led := InstrumentSites(m, fns, recs, led, CmpPhase, cmps, bins);
    ghost var base := led.plans;
    fns, recs, led := InstrumentLits(m, fns, recs, led, lits);
    DoneComplete(m, base, led.plans, bins, cmps, lits);
  }

  // ---------------------------------------------------------------- consequences

  lemma CompleteFitsInst(p: Plan, i: Inst)
    requires CompleteInst(p, i)
    ensures FitsInst(p, i)
  {
  }

  lemma CompletePlain(p: Plan, f: Function, r: Reg)
    requires CompleteFn(p, f) && r.Src?
    requires forall bi, j | 0 <= bi < |f.blocks| && 0 <= j < |f.blocks[bi].insts| :: f.blocks[bi].insts[j].dst != r
    ensures Plain(p, r)
  {
  }

  lemma CompleteFitsFn(p: Plan, f: Function)
    requires SrcFn(f) && CompleteFn(p, f)
    ensures FitsFn(p, f)
  {
    forall j | 0 <= j < |f.params|
      ensures Plain(p, f.params[j])
    {
      CompletePlain(p, f, f.params[j]);
    }
    forall bi | 0 <= bi < |f.blocks|
      ensures FitsBlock(p, f.blocks[bi])
    {
      assert SrcBlock(f.blocks[bi]);
      forall j | 0 <= j < |f.blocks[bi].phis|
        ensures Plain(p, f.blocks[bi].phis[j].dst)
      {
        assert SrcPhi(f.blocks[bi].phis[j]);
        CompletePlain(p, f, f.blocks[bi].phis[j].dst);
      }
      forall j | 0 <= j < |f.blocks[bi].insts|
        ensures FitsInst(p, f.blocks[bi].insts[j])
      {
        assert SrcInst(f.blocks[bi].insts[j]);
        if Eligible(f) { CompleteFitsInst(p, f.blocks[bi].insts[j]); }
      }
    }
  }

  /** The pass only makes plans for which the fidelity theorems hold. */
  lemma CompleteFits(plans: seq<Plan>, m: Module)
    requires SrcModule(m) && Complete(plans, m)
    ensures Fits(plans, m)
  {
    forall fi | 0 <= fi < |m|
      ensures FitsFn(plans[fi], m[fi])
    {
      assert SrcFn(m[fi]) && CompleteFn(plans[fi], m[fi]);
      CompleteFitsFn(plans[fi], m[fi]);
    }
  }

  ghost predicate ColonFreeNames(m: Module) {
    forall fi :: 0 <= fi < |m| ==> NoColon(m[fi].name)
  }

  lemma EntryOf(m: Module, led: Ledger, r: MutantRef) returns (x: nat)
    requires LedgerOk(m, led) && Listed(led.plans, r)
    ensures x < |led.entries| && led.entries[x].ref == r && IdOf(led.plans, r) == IdOfKey(led.entries[x].key)
    ensures ColonFreeNames(m) ==> Decodable(led.entries[x].key)
  {
    x :| 0 <= x < |led.entries| && led.entries[x].ref == r;
    assert EntryOk(m, led.plans, led.entries[x]);
  }

  /** Two listed mutants share an id only when two different key texts collide under FNV-1a. */
  lemma CollisionsOnly(m: Module, led: Ledger, r: MutantRef, s: MutantRef)
    requires LedgerOk(m, led) && ColonFreeNames(m)
    requires Listed(led.plans, r) && Listed(led.plans, s) && r != s && IdOf(led.plans, r) == IdOf(led.plans, s)
    ensures exists x, y :: 0 <= x < |led.entries| && 0 <= y < |led.entries|
              && led.entries[x].ref == r && led.entries[y].ref == s
              && KeyText(led.entries[x].key) != KeyText(led.entries[y].key)
              && Fnv1a(KeyText(led.entries[x].key)) == Fnv1a(KeyText(led.entries[y].key))
  {
    var x := EntryOf(m, led, r);
    var y := EntryOf(m, led, s);
    if KeyText(led.entries[x].key) == KeyText(led.entries[y].key) {
      KeyTextInjective(led.entries[x].key, led.entries[y].key);
    }
  }

  /** When the ids of the emitted records differ, so do the ids of all listed mutants. */
  lemma DistinctRecords(m: Module, fns: Module, recs: seq<Mutant>, led: Ledger)
    requires State(m, fns, recs, led)
    requires forall x, y :: 0 <= x < y < |recs| ==> recs[x].id != recs[y].id
    ensures DistinctIds(led.plans)
  {
    forall r, s | Listed(led.plans, r) && Listed(led.plans, s) && IdOf(led.plans, r) == IdOf(led.plans, s)
      ensures r == s
    {
      SameRecord(m, fns, recs, led, r, s);
    }
  }

  /** The record of a listed mutant. */
  lemma RecordOfRef(m: Module, fns: Module, recs: seq<Mutant>, led: Ledger, r: MutantRef) returns (x: nat)
    requires State(m, fns, recs, led) && Listed(led.plans, r)
    ensures x < |recs| == |led.entries| && led.entries[x].ref == r && recs[x].id == IdOf(led.plans, r)
  {
    x := EntryOf(m, led, r);
    assert recs[x] == RecordOf(led.entries[x].key);
  }

  lemma SameRecord(m: Module, fns: Module, recs: seq<Mutant>, led: Ledger, r: MutantRef, s: MutantRef)
    requires State(m, fns, recs, led) && Listed(led.plans, r) && Listed(led.plans, s)
    requires forall x, y :: 0 <= x < y < |recs| ==> recs[x].id != recs[y].id
    requires IdOf(led.plans, r) == IdOf(led.plans, s)
    ensures r == s
  {
    var x := RecordOfRef(m, fns, recs, led, r);
    var y := RecordOfRef(m, fns, recs, led, s);
  }

  /** No mutant has id 0, the empty mark of the hit table. */
  lemma NoZeroIds(m: Module, led: Ledger, r: MutantRef)
    requires LedgerOk(m, led) && Listed(led.plans, r)
    ensures IdOf(led.plans, r) != 0
  {
    var x := EntryOf(m, led, r);
  }

  /** End to end: run the output of the pass with the id of record `x` active, and it behaves
      like the source with just that record's operator, predicate or literal replaced. */
  lemma RecordedMutantRuns(m: Module, fns: Module, recs: seq<Mutant>, led: Ledger, x: nat,
                           world: seq<Event> -> Option<Word>, fi: nat, args: seq<Word>, fuel: nat)
    requires State(m, fns, recs, led) && Complete(led.plans, m) && x < |recs|
    requires forall x, y :: 0 <= x < y < |recs| ==> recs[x].id != recs[y].id
    ensures led.entries[x].ref.fn < |m|
    ensures var cfg := Config(recs[x].id, world);
            var o := RunFn(Apply(m, led.entries[x].ref), cfg, fi, args, START, fuel);
            var o' := RunFn(fns, cfg, fi, args, START, fuel);
            if forall e :: e in o.st.ops ==> !Diverges(led.plans, m, e)
            then o'.res == o.res && o'.st.trace == o.st.trace
            else o'.res == Trap && StopsFirst(led.plans, m, o.st, o'.st.trace)
  {
    assert EntryOk(m, led.plans, led.entries[x]);
    CompleteFits(led.plans, m);
    DistinctRecords(m, fns, recs, led);
    InstrumentedIsMutant(led.plans, m, led.entries[x].ref, world, fi, args, fuel);
  }

  lemma NotListed(m: Module, fns: Module, recs: seq<Mutant>, led: Ledger, a: u32, r: MutantRef)
    requires State(m, fns, recs, led) && Listed(led.plans, r)
    requires forall x :: 0 <= x < |recs| ==> recs[x].id != a
    ensures IdOf(led.plans, r) != a
  {
    var x := RecordOfRef(m, fns, recs, led, r);
  }

  lemma UnusedId(m: Module, fns: Module, recs: seq<Mutant>, led: Ledger, a: u32)
    requires State(m, fns, recs, led) && forall x :: 0 <= x < |recs| ==> recs[x].id != a
    ensures Unused(led.plans, a)
  {
    forall fi, n: nat, k | 0 <= fi < |led.plans| && n in led.plans[fi].chains && 0 <= k < |led.plans[fi].chains[n]|
      ensures led.plans[fi].chains[n][k] != a
    {
      NotListed(m, fns, recs, led, a, AltRef(fi, n, k));
    }
    forall fi, at | 0 <= fi < |led.plans| && at in led.plans[fi].lits
      ensures led.plans[fi].lits[at] != a
    {
      NotListed(m, fns, recs, led, a, LitRef(fi, at));
    }
  }

  /** End to end, without a mutant: with an id selected that no record carries, such as the
      reserved one of the baseline, the output of the pass runs as the source, except for the
      traps of multiplications. */
  lemma BaselineRuns(m: Module, fns: Module, recs: seq<Mutant>, led: Ledger, a: u32,
                     world: seq<Event> -> Option<Word>, fi: nat, args: seq<Word>, fuel: nat)
    requires State(m, fns, recs, led) && Complete(led.plans, m)
    requires forall x :: 0 <= x < |recs| ==> recs[x].id != a
    ensures var cfg := Config(a, world);
            var o := RunFn(m, cfg, fi, args, START, fuel);
            var o' := RunFn(fns, cfg, fi, args, START, fuel);
            if forall e :: e in o.st.ops ==> !BadMul(led.plans, m, e)
            then o'.res == o.res && o'.st.trace == o.st.trace
            else o'.res == Trap && StopsAtMul(led.plans, m, o.st, o'.st.trace)
  {
    CompleteFits(led.plans, m);
    UnusedId(m, fns, recs, led, a);
    BaselinePreserved(led.plans, m, Config(a, world), fi, args, fuel);
  }

  /** Every function that the pass returns is well-formed SSA if it was before. */
  lemma OutputIsSsa(m: Module, fns: Module, recs: seq<Mutant>, led: Ledger, fi: nat)
    requires State(m, fns, recs, led) && Complete(led.plans, m) && fi < |m|
    requires Ssa.SingleDefs(m[fi]) && Ssa.UsesDominated(m[fi])
    ensures fi < |fns| && Ssa.SingleDefs(fns[fi]) && Ssa.UsesDominated(fns[fi])
  {
    CompleteFits(led.plans, m);
    FunctionNow(m, fns, led.plans, fi);
    assert SrcFn(m[fi]) && FitsFn(led.plans[fi], m[fi]);
    Ssa.SingleDefsPreserved(led.plans[fi], m[fi]);
    Ssa.UsesStayDominated(led.plans[fi], m[fi]);
  }
}
