/** Concrete programs on which a promise of the tool fails, each instrumented by the pass itself:
    the claims hold of whatever the pass makes of them. */
module Counterexamples {
  import opened Scalars
  import opened IR
  import opened Mutants
  import opened Rewrite
  import opened Fidelity
  import opened FirstOrder
  import opened Hash
  import opened KnownIds
  import opened Ordinals
  import opened Seqs
  import opened Keys
  import opened Report
  import opened Worklists
  import opened Ledgers
  import opened Suites
  import opened Campaign
  import opened Builds
  import opened Toolchain
  import Bits
  import Catalog
  import Merge
  import Pass
  import Runtime

  // ---------------------------------------------------------------- functions of one operation

  function Site(op: BinOp): Inst {
    Bin(Src(2), op, 32, Var(Src(0)), Var(Src(1)), Some(Loc(FILE, 1, 1)))
  }

  /** Applies the operation to both arguments and returns the value. */
  function OpFn(name: string, op: BinOp): Function {
    Function(name, [Src(0), Src(1)], [Block([], [Site(op)], Return(Some(Var(Src(2))), None))])
  }

  function Args(x: Word, y: Word): Env {
    map[Src(0) := x, Src(1) := y]
  }

  function OpSt(fi: nat, op: BinOp, x: Word, y: Word): St {
    START.(ops := [OpEvent(fi, Src(2), op, 32, x, y, 0)])
  }

  lemma SiteRun(m: Module, cfg: Config, fi: nat, op: BinOp, x: Word, y: Word, fuel: nat)
    ensures Bind([Src(0), Src(1)], [x, y]) == Args(x, y)
    ensures Exec(m, cfg, fi, [Site(op)], Args(x, y), START, fuel) ==
            var v := EvalBin(op, 32, x, y);
            if v.None? then Stop(Trap, OpSt(fi, op, x, y)) else Next(Args(x, y)[Src(2) := v.value], OpSt(fi, op, x, y))
  {
    assert [x, y][1..] == [y] && [Src(0), Src(1)][1..] == [Src(1)];
    assert Bind([Src(1)], [y]) == map[Src(1) := y];
    ExecSingle(m, cfg, fi, Site(op), Args(x, y), START, fuel);
    assert [] + OpSt(fi, op, x, y).ops == OpSt(fi, op, x, y).ops;
  }

  lemma OpRun(m: Module, cfg: Config, fi: nat, name: string, op: BinOp, x: Word, y: Word, fuel: nat)
    requires fi < |m| && m[fi] == OpFn(name, op)
    ensures RunFn(m, cfg, fi, [x, y], START, fuel) ==
            var v := EvalBin(op, 32, x, y);
            Out(if v.None? then Trap else Ret(v.value), OpSt(fi, op, x, y))
  {
    SiteRun(m, cfg, fi, op, x, y, fuel);
    OpBlock(m, cfg, fi, name, op, Args(x, y), fuel);
    var v := EvalBin(op, 32, x, y);
    if v.Some? { OpReturn(m, cfg, fi, Args(x, y)[Src(2) := v.value], OpSt(fi, op, x, y), v.value, fuel); }
  }

  lemma OpBlock(m: Module, cfg: Config, fi: nat, name: string, op: BinOp, env: Env, fuel: nat)
    requires fi < |m| && m[fi] == OpFn(name, op)
    ensures RunBlock(m, cfg, fi, 0, 0, env, START, fuel) ==
            var s := Exec(m, cfg, fi, [Site(op)], env, START, fuel);
            if s.Halt? then s.out else RunTerm(m, cfg, fi, 0, Return(Some(Var(Src(2))), None), s.env, s.st, fuel)
  {
  }

  lemma OpReturn(m: Module, cfg: Config, fi: nat, env: Env, st: St, v: Word, fuel: nat)
    requires Src(2) in env && env[Src(2)] == v
    ensures RunTerm(m, cfg, fi, 0, Return(Some(Var(Src(2))), None), env, st, fuel) == Out(Ret(v), st)
  {
  }

  lemma OpIsSource(name: string, op: BinOp)
    ensures SrcFn(OpFn(name, op)) && HasInst(OpFn(name, op), Site(op))
  {
    assert Site(op) in OpFn(name, op).blocks[0].insts;
    assert SrcInst(Site(op));
  }

  /** The pass gives such a site all its alternatives. */
  lemma OpPlan(m: Module, plans: seq<Plan>, fi: nat, name: string, op: BinOp)
    requires Pass.Complete(plans, m) && fi < |m| && m[fi] == OpFn(name, op) && Eligible(m[fi])
    ensures |Ids(plans[fi], 2)| == |BinAlts(op, 32)| == Arity(plans[fi], Site(op))
  {
    assert Pass.CompleteFn(plans[fi], m[fi]);
    assert Pass.CompleteInst(plans[fi], m[fi].blocks[0].insts[0]);
  }

  lemma OpMutant(m: Module, fi: nat, name: string, op: BinOp, k: nat)
    requires fi < |m| && m[fi] == OpFn(name, op) && k < |BinAlts(op, 32)|
    ensures Apply(m, AltRef(fi, 2, k)) == m[fi := OpFn(name, BinAlts(op, 32)[k].op)]
  {
    var r := AltRef(fi, 2, k);
    assert ApplyInsts(r, [Site(op)]) == [Site(BinAlts(op, 32)[k].op)];
    assert ApplyFn(r, m[fi]).blocks == OpFn(name, BinAlts(op, 32)[k].op).blocks;
  }

  lemma {:induction false} WideEnough(w: nat)
    requires w >= 5
    ensures Bits.Pow(w) >= 32
  {
    if w == 5 {
      assert Bits.Pow(5) == 32;
    } else {
      WideEnough(w - 1);
    }
  }

  lemma BelowDivisor(n: nat, d: nat)
    requires n < d
    ensures n % d == n
  {
  }

  lemma Small(w: nat, n: nat)
    requires n < 16 && w >= 5
    ensures Wrap(w, n) == n && Signed(w, n) == n
  {
    WideEnough(w);
    BelowDivisor(n, Bits.Pow(w));
  }

  // ---------------------------------------------------------------- their records

  const PRODUCT_ID: u32 := 0xfcfffb46
  const AND_ID: u32 := 0xc0170706
  const OR_ID: u32 := 0xc6352a61

  predicate NoLiteral(t: Term) {
    t.Return? && t.value.Some? ==> !IsLit(t.value.value)
  }

  /** The operation is the first instruction of the function and its only site. */
  predicate OneSite(f: Function, op: BinOp) {
    && |f.blocks| > 0 && f.blocks[0].phis == [] && f.blocks[0].insts == [Site(op)]
    && (forall b :: 0 < b < |f.blocks| ==> f.blocks[b].insts == [])
    && forall b :: 0 <= b < |f.blocks| ==> NoLiteral(f.blocks[b].term)
  }

  lemma FirstOrdinal(p: Plan, f: Function, op: BinOp)
    requires OneSite(f, op)
    ensures SiteOrdinal(p, f, 0, 0) == 0
  {
    assert f.blocks[0].insts[..0] == [];
    assert RewriteFn(p, f).blocks[0].phis == [];
  }

  /** A record about such a function is about its operation, and its key carries the ordinal 0. */
  lemma OpRecord(m: Module, led: Ledger, x: nat, op: BinOp) returns (k: nat)
    requires LedgerOk(m, led) && x < |led.entries|
    requires var fi := led.entries[x].pos.fn; fi < |m| && OneSite(m[fi], op)
    ensures var e := led.entries[x];
            && k < |BinAlts(op, 32)| && e.ref == AltRef(e.pos.fn, 2, k)
            && e.key == SiteKey(m[e.pos.fn].name, Site(op), k, 0)
  {
    var e := led.entries[x];
    assert EntryOk(m, led.plans, e);
    assert LiveOrdinal(m, led.entries, x);
    SiteOfRecord(m, led.plans, e, op);
    FirstOrdinal(Inserted(led.entries[..x], e.pos.fn), m[e.pos.fn], op);
    k := e.ref.k;
  }

  lemma SiteOfRecord(m: Module, plans: seq<Plan>, e: Entry, op: BinOp)
    requires EntryOk(m, plans, e) && OneSite(m[e.pos.fn], op)
    ensures e.ref.AltRef? && e.pos.block == 0 && e.pos.index == 0
    ensures e.ref.k < |BinAlts(op, 32)| && e.ref == AltRef(e.pos.fn, 2, e.ref.k)
    ensures e.key == SiteKey(m[e.pos.fn].name, Site(op), e.ref.k, e.key.ord)
  {
  }

  lemma OpRecordId(m: Module, fns: Module, recs: seq<Mutant>, led: Ledger, x: nat, name: string, op: BinOp)
    returns (k: nat, key: Key)
    requires State(m, fns, recs, led) && x < |recs|
    requires var fi := led.entries[x].pos.fn; fi < |m| && OneSite(m[fi], op) && m[fi].name == name
    ensures k < |BinAlts(op, 32)| && led.entries[x].ref == AltRef(led.entries[x].pos.fn, 2, k)
    ensures key == SiteKey(name, Site(op), k, 0) && recs[x].id == IdOfKey(key)
  {
    k := OpRecord(m, led, x, op);
    key := led.entries[x].key;
    assert recs[x] == RecordOf(key);
  }

  lemma EntryInside(m: Module, led: Ledger, x: nat)
    requires LedgerOk(m, led) && x < |led.entries|
    ensures led.entries[x].pos.fn < |m| && led.entries[x].ref.fn == led.entries[x].pos.fn
  {
    assert EntryOk(m, led.plans, led.entries[x]);
  }

  lemma SumKeyId(k: nat, key: Key)
    requires k < 2 && key == SiteKey("f", Site(Add), k, 0)
    ensures IdOfKey(key) == if k == 0 then NO_MUTANT else PRODUCT_ID
  {
    if k == 0 {
      DifferenceId();
      assert key == KeyIn("f", "AOR", "+", "-");
    } else {
      ProductId();
      assert key == KeyIn("f", "AOR", "+", "*");
    }
  }

  lemma ProductKeyId(k: nat, key: Key)
    requires k < 2 && key == SiteKey("f", Site(Mul), k, 0)
    ensures IdOfKey(key) != NO_MUTANT
  {
    if k == 0 {
      QuotientId();
      assert key == KeyIn("f", "AOR", "*", "/");
    } else {
      SumId();
      assert key == KeyIn("f", "AOR", "*", "+");
    }
  }

  lemma AndKeyId(key: Key)
    requires key == SiteKey("f", Site(And), 0, 0)
    ensures IdOfKey(key) == AND_ID
  {
    OrId();
    assert key == KeyIn("f", "BOR", "&", "|");
  }

  lemma OrKeyId(key: Key)
    requires key == SiteKey("g", Site(Or), 0, 0)
    ensures IdOfKey(key) == OR_ID
  {
    AndId();
    assert key == KeyIn("g", "BOR", "|", "&");
  }

  /** Two records are never about the same mutant. */
  lemma RefsApart(m: Module, led: Ledger, x: nat, y: nat)
    requires LedgerOk(m, led) && x < y < |led.entries|
    ensures led.entries[x].ref != led.entries[y].ref
  {
  }

  // ---------------------------------------------------------------- no mutant selected, yet not the source

  const PRODUCT: Module := [OpFn("f", Mul)]

  /** The pass accepts it. */
  lemma ProductIsSource()
    ensures SrcModule(PRODUCT) && DistinctNames(PRODUCT)
  {
    OpIsSource("f", Mul);
  }

  lemma ProductIds(fns: Module, recs: seq<Mutant>, led: Ledger, x: nat)
    requires State(PRODUCT, fns, recs, led) && x < |recs|
    ensures recs[x].id != NO_MUTANT
  {
    EntryInside(PRODUCT, led, x);
    var k, key := OpRecordId(PRODUCT, fns, recs, led, x, "f", Mul);
    ProductKeyId(k, key);
  }

  /** The header promises production-equivalent behaviour when no mutant is selected.  A function
      that multiplies its arguments returns 0 for (5, 0); instrumented it traps. */
  lemma EagerDivisionTraps(fns: Module, recs: seq<Mutant>, led: Ledger, world: seq<Event> -> Option<Word>)
    requires State(PRODUCT, fns, recs, led) && Pass.Complete(led.plans, PRODUCT)
    ensures RunFn(PRODUCT, Config(NO_MUTANT, world), 0, [5, 0], START, 0).res == Ret(0)
    ensures RunFn(fns, Config(NO_MUTANT, world), 0, [5, 0], START, 0).res == Trap
  {
    var ev := OpEvent(0, Src(2), Mul, 32, 5, 0, 0);
    Small(32, 0);
    OpRun(PRODUCT, Config(NO_MUTANT, world), 0, "f", Mul, 5, 0, 0);
    OpPlan(PRODUCT, led.plans, 0, "f", Mul);
    OpIsSource("f", Mul);
    assert Executes(Site(Mul), ev);
    assert BadMul(led.plans, PRODUCT, ev);
    assert ev in OpSt(0, Mul, 5, 0).ops;
    forall x | 0 <= x < |recs|
      ensures recs[x].id != NO_MUTANT
    {
      ProductIds(fns, recs, led, x);
    }
    Pass.BaselineRuns(PRODUCT, fns, recs, led, NO_MUTANT, world, 0, [5, 0], 0);
  }

  /** What the pass makes of it. */
  method InstrumentProduct(world: seq<Event> -> Option<Word>) returns (fns: Module)
    ensures RunFn(PRODUCT, Config(NO_MUTANT, world), 0, [5, 0], START, 0).res == Ret(0)
    ensures RunFn(fns, Config(NO_MUTANT, world), 0, [5, 0], START, 0).res == Trap
  {
    ProductIsSource();
    var recs;
    ghost var led;
    fns, recs, led := Pass.Instrument(PRODUCT);
    EagerDivisionTraps(fns, recs, led, world);
  }

  // ---------------------------------------------------------------- a record with the reserved id

  const SUM: Module := [OpFn("f", Add)]

  /** The pass accepts it. */
  lemma SumIsSource()
    ensures SrcModule(SUM) && DistinctNames(SUM)
  {
    OpIsSource("f", Add);
  }

  /** Sums, conjunctions and disjunctions never trap, nor do their alternatives. */
  predicate Harmless(op: BinOp) {
    op == Add || op == And || op == Or
  }

  lemma NeverDiverges(plans: seq<Plan>, m: Module, name: string, op: BinOp, e: OpEvent)
    requires |plans| == |m| && e.fn < |m| && m[e.fn] == OpFn(name, op) && Harmless(op)
    ensures !Diverges(plans, m, e) && !BadMul(plans, m, e)
  {
  }

  /** The function as the pass leaves it, with the id of one of its records selected. */
  lemma RecordedOp(m: Module, fns: Module, recs: seq<Mutant>, led: Ledger, x: nat, name: string, op: BinOp,
                   a: Word, b: Word, world: seq<Event> -> Option<Word>, fuel: nat)
    returns (k: nat)
    requires State(m, fns, recs, led) && Pass.Complete(led.plans, m) && x < |recs|
    requires forall y, z :: 0 <= y < z < |recs| ==> recs[y].id != recs[z].id
    requires var fi := led.entries[x].pos.fn; fi < |m| && m[fi] == OpFn(name, op) && Harmless(op)
    ensures k < |BinAlts(op, 32)| && led.entries[x].ref == AltRef(led.entries[x].pos.fn, 2, k)
    ensures var v := EvalBin(BinAlts(op, 32)[k].op, 32, a, b);
            var o := RunFn(fns, Config(recs[x].id, world), led.entries[x].pos.fn, [a, b], START, fuel);
            v.Some? && o.res == Ret(v.value)
  {
    var fi, id := led.entries[x].pos.fn, recs[x].id;
    assert EntryOk(m, led.plans, led.entries[x]);
    k := OpRecord(m, led, x, op);
    var o := MutatedOp(m, led.plans, Config(id, world), fi, name, op, k, a, b, fuel);
    Pass.RecordedMutantRuns(m, fns, recs, led, x, world, fi, [a, b], fuel);
  }

  /** The function with one alternative put in place of its operation. */
  lemma MutatedOp(m: Module, plans: seq<Plan>, cfg: Config, fi: nat, name: string, op: BinOp, k: nat, a: Word, b: Word,
                  fuel: nat)
    returns (o: Out)
    requires |plans| == |m| && fi < |m| && m[fi] == OpFn(name, op) && Harmless(op) && k < |BinAlts(op, 32)|
    ensures o == RunFn(Apply(m, AltRef(fi, 2, k)), cfg, fi, [a, b], START, fuel)
    ensures var v := EvalBin(BinAlts(op, 32)[k].op, 32, a, b); v.Some? && o.res == Ret(v.value)
    ensures forall e :: e in o.st.ops ==> !Diverges(plans, m, e)
  {
    var alt := BinAlts(op, 32)[k].op;
    OpMutant(m, fi, name, op, k);
    OpRun(Apply(m, AltRef(fi, 2, k)), cfg, fi, name, alt, a, b, fuel);
    NeverDiverges(plans, m, name, op, OpEvent(fi, Src(2), alt, 32, a, b, 0));
    o := RunFn(Apply(m, AltRef(fi, 2, k)), cfg, fi, [a, b], START, fuel);
  }

  /** And with an id that no record carries. */
  lemma PlainOp(m: Module, fns: Module, recs: seq<Mutant>, led: Ledger, id: u32, fi: nat, name: string, op: BinOp,
                a: Word, b: Word, world: seq<Event> -> Option<Word>, fuel: nat)
    requires State(m, fns, recs, led) && Pass.Complete(led.plans, m) && forall x :: 0 <= x < |recs| ==> recs[x].id != id
    requires fi < |m| && m[fi] == OpFn(name, op) && Harmless(op)
    ensures var v := EvalBin(op, 32, a, b);
            v.Some? && RunFn(fns, Config(id, world), fi, [a, b], START, fuel).res == Ret(v.value)
  {
    OpRun(m, Config(id, world), fi, name, op, a, b, fuel);
    NeverDiverges(led.plans, m, name, op, OpEvent(fi, Src(2), op, 32, a, b, 0));
    Pass.BaselineRuns(m, fns, recs, led, id, world, fi, [a, b], fuel);
  }

  lemma NotAsked(m: Module, fns: Module, recs: seq<Mutant>, led: Ledger, cfg: Config, fi: nat, args: seq<Word>, b: u32)
    requires State(m, fns, recs, led) && Pass.Complete(led.plans, m)
    requires !Asks(m, b) && forall x :: 0 <= x < |recs| ==> recs[x].id != b
    ensures b !in RunFn(fns, cfg, fi, args, START, 0).st.hits
  {
    RunFnExtends(fns, cfg, fi, args, START, 0);
    MadeIsBuilt(m, fns, recs, led);
    if Asks(fns, b) { BuildAsks(OfPass(m, recs, led), b); }
  }

  lemma SumIds(fns: Module, recs: seq<Mutant>, led: Ledger, x: nat) returns (k: nat)
    requires State(SUM, fns, recs, led) && x < |recs|
    ensures led.entries[x].pos.fn == 0 && led.entries[x].ref == AltRef(0, 2, k) && k < 2
    ensures recs[x].id == if k == 0 then NO_MUTANT else PRODUCT_ID
  {
    EntryInside(SUM, led, x);
    var key;
    k, key := OpRecordId(SUM, fns, recs, led, x, "f", Add);
    SumKeyId(k, key);
  }

  lemma SumIdsDiffer(fns: Module, recs: seq<Mutant>, led: Ledger)
    requires State(SUM, fns, recs, led)
    ensures DistinctRecs(recs)
  {
    forall x, y | 0 <= x < y < |recs|
      ensures recs[x].id != recs[y].id
    {
      var j := SumIds(fns, recs, led, x);
      var k := SumIds(fns, recs, led, y);
      RefsApart(SUM, led, x, y);
    }
  }

  lemma Sums()
    ensures EvalBin(Add, 32, 5, 3) == Some(8) && EvalBin(Sub, 32, 5, 3) == Some(2)
  {
    Small(32, 8);
    Small(32, 2);
  }

  /** The pass gives the mutant that subtracts the id 0xFFFFFFFF. */
  lemma ReservedRecord(fns: Module, recs: seq<Mutant>, led: Ledger) returns (x: nat)
    requires State(SUM, fns, recs, led) && Pass.Complete(led.plans, SUM)
    ensures x < |recs| && recs[x].id == NO_MUTANT && led.entries[x].ref == AltRef(0, 2, 0)
  {
    OpPlan(SUM, led.plans, 0, "f", Add);
    x := Pass.RecordOfRef(SUM, fns, recs, led, AltRef(0, 2, 0));
    var k := SumIds(fns, recs, led, x);
  }

  lemma SumOfReserved(fns: Module, recs: seq<Mutant>, led: Ledger, world: seq<Event> -> Option<Word>)
    requires State(SUM, fns, recs, led) && Pass.Complete(led.plans, SUM)
    ensures RunFn(fns, Config(NO_MUTANT, world), 0, [5, 3], START, 0).res == Ret(2)
  {
    var x := ReservedRecord(fns, recs, led);
    SumIdsDiffer(fns, recs, led);
    assert EntryOk(SUM, led.plans, led.entries[x]);
    var k := RecordedOp(SUM, fns, recs, led, x, "f", Add, 5, 3, world, 0);
    Sums();
  }

  lemma SumOfOther(fns: Module, recs: seq<Mutant>, led: Ledger, b: u32, world: seq<Event> -> Option<Word>)
    requires State(SUM, fns, recs, led) && Pass.Complete(led.plans, SUM) && b != NO_MUTANT && b != PRODUCT_ID
    ensures RunFn(fns, Config(b, world), 0, [5, 3], START, 0).res == Ret(8)
    ensures b !in RunFn(fns, Config(NO_MUTANT, world), 0, [5, 3], START, 0).st.hits
  {
    forall x | 0 <= x < |recs|
      ensures recs[x].id != b
    {
      var k := SumIds(fns, recs, led, x);
    }
    PlainOp(SUM, fns, recs, led, b, 0, "f", Add, 5, 3, world, 0);
    NotAsked(SUM, fns, recs, led, Config(NO_MUTANT, world), 0, [5, 3], b);
    Sums();
  }

  /** The 0xFFFFFFFF of "no mutant" is an id like any other, and the pass gives it to a mutant of
      this function.  In the baseline that mutant is active: 5 + 3 gives 2, while an id of no mutant,
      which nobody asks about, gives the 8 of the source. */
  lemma NoMutantIdIsActive(fns: Module, recs: seq<Mutant>, led: Ledger, b: u32, world: seq<Event> -> Option<Word>)
    requires State(SUM, fns, recs, led) && Pass.Complete(led.plans, SUM) && b != NO_MUTANT && b != PRODUCT_ID
    ensures RunFn(SUM, Config(NO_MUTANT, world), 0, [5, 3], START, 0).res == Ret(8)
    ensures var base := RunFn(fns, Config(NO_MUTANT, world), 0, [5, 3], START, 0);
            base.res == Ret(2) && b !in base.st.hits
    ensures RunFn(fns, Config(b, world), 0, [5, 3], START, 0).res == Ret(8)
  {
    OpRun(SUM, Config(NO_MUTANT, world), 0, "f", Add, 5, 3, 0);
    Sums();
    SumOfReserved(fns, recs, led, world);
    SumOfOther(fns, recs, led, b, world);
  }

  /** What the pass makes of it. */
  method InstrumentSum(world: seq<Event> -> Option<Word>) returns (fns: Module, recs: seq<Mutant>)
    ensures exists x :: 0 <= x < |recs| && recs[x].id == NO_MUTANT
    ensures RunFn(SUM, Config(NO_MUTANT, world), 0, [5, 3], START, 0).res == Ret(8)
    ensures RunFn(fns, Config(NO_MUTANT, world), 0, [5, 3], START, 0).res == Ret(2)
  {
    SumIsSource();
    ghost var led;
    fns, recs, led := Pass.Instrument(SUM);
    ghost var x := ReservedRecord(fns, recs, led);
    NoMutantIdIsActive(fns, recs, led, 0, world);
  }

  // ---------------------------------------------------------------- the death test

  /** Aborts when the operation gives 0. */
  function GuardFn(op: BinOp): Function {
    Function("f", [Src(0), Src(1)],
             [Block([], [Site(op)], CondBr(Var(Src(2)), 1, 2)),
              Block([], [], Return(None, None)),
              Block([], [], Unreachable)])
  }

  const DEATH: Module := [GuardFn(And), OpFn("g", Or)]

  /** The first process calls `f`, which is to abort, the second calls `g`; both with (1, 2). */
  function DeathSuite(world: seq<Event> -> Option<Word>): Suite {
    Suite((seen: seq<Obs>) => if |seen| < 2 then Some(Test(world, |seen|, [1, 2], 1)) else None,
          (seen: seq<Obs>) => if seen != [] && seen[0].res == Trap then RunStatus.Pass else Fail,
          2)
  }

  lemma TwoProcesses(m: Module, id: u32, world: seq<Event> -> Option<Word>)
    ensures var f := RunFn(m, Config(id, world), 0, [1, 2], START, 1);
            var g := RunFn(m, Config(id, world), 1, [1, 2], START, 1);
            && Command(m, id, DeathSuite(world)) == [f, g]
            && StatusOf(m, id, DeathSuite(world)) == if f.res == Trap then RunStatus.Pass else Fail
  {
    var suite := DeathSuite(world);
    var f, g := RunFn(m, Config(id, world), 0, [1, 2], START, 1), RunFn(m, Config(id, world), 1, [1, 2], START, 1);
    assert [] + [Show(f)] == [Show(f)];
    assert RunSuite(m, id, suite, [Show(f)] + [Show(g)], 0) == [];
    assert RunSuite(m, id, suite, [Show(f)], 1) == [g];
    assert RunSuite(m, id, suite, [], 2) == [f, g];
    assert ShowAll([f, g])[0] == Show(f);
  }

  /** Code with a single instruction defines its register once. */
  lemma OneInstruction(f: Function)
    requires forall q :: 0 <= q < |f.params| ==> f.params[q] != Src(2)
    requires forall b :: 0 <= b < |f.blocks| ==> f.blocks[b].phis == []
    requires forall b, j :: 0 <= b < |f.blocks| && 0 <= j < |f.blocks[b].insts| ==>
               b == 0 && j == 0 && f.blocks[b].insts[j].dst == Src(2)
    ensures UniqueInsts(f)
  {
  }

  lemma GuardBlocks(f: Function, op: BinOp)
    requires f == GuardFn(op)
    ensures forall b :: 0 <= b < |f.blocks| ==> f.blocks[b].phis == [] && SrcTerm(f.blocks[b].term)
    ensures forall b, j :: 0 <= b < |f.blocks| && 0 <= j < |f.blocks[b].insts| ==>
              b == 0 && j == 0 && f.blocks[b].insts[j] == Site(op)
  {
  }

  lemma GuardIsSource(f: Function, op: BinOp)
    requires f == GuardFn(op)
    ensures SrcFn(f)
  {
    assert f.params == [Src(0), Src(1)] && SrcInst(Site(op));
    GuardBlocks(f, op);
    OneInstruction(f);
  }

  /** The pass accepts it. */
  lemma DeathIsSource()
    ensures SrcModule(DEATH) && DistinctNames(DEATH)
  {
    OpIsSource("g", Or);
    GuardIsSource(DEATH[0], And);
    assert DEATH[0].name[0] != DEATH[1].name[0];
  }

  lemma DeathIsPlain()
    ensures PlainLocs(DEATH)
  {
    forall fi, bi | 0 <= fi < |DEATH| && 0 <= bi < |DEATH[fi].blocks|
      ensures PlainBlock(DEATH[fi].blocks[bi])
    {
      assert forall i :: i in DEATH[fi].blocks[bi].insts ==> i == Site(And) || i == Site(Or);
    }
  }

  lemma GuardRun(m: Module, cfg: Config, fi: nat, op: BinOp, x: Word, y: Word, v: Word)
    requires fi < |m| && m[fi] == GuardFn(op) && EvalBin(op, 32, x, y) == Some(v)
    ensures RunFn(m, cfg, fi, [x, y], START, 1) == Out(if v == 0 then Trap else Ret(0), OpSt(fi, op, x, y))
  {
    SiteRun(m, cfg, fi, op, x, y, 1);
    GuardBlock(m, cfg, fi, op, Args(x, y), START);
    GuardEnd(m, cfg, fi, op, Args(x, y)[Src(2) := v], OpSt(fi, op, x, y), v);
  }

  lemma GuardBlock(m: Module, cfg: Config, fi: nat, op: BinOp, env: Env, st: St)
    requires fi < |m| && m[fi] == GuardFn(op)
    ensures RunBlock(m, cfg, fi, 0, 0, env, st, 1) ==
            var s := Exec(m, cfg, fi, [Site(op)], env, st, 1);
            if s.Halt? then s.out else RunTerm(m, cfg, fi, 0, CondBr(Var(Src(2)), 1, 2), s.env, s.st, 1)
  {
  }

  lemma GuardEnd(m: Module, cfg: Config, fi: nat, op: BinOp, env: Env, st: St, v: Word)
    requires fi < |m| && m[fi] == GuardFn(op) && Src(2) in env && env[Src(2)] == v
    ensures RunTerm(m, cfg, fi, 0, CondBr(Var(Src(2)), 1, 2), env, st, 1) == Out(if v == 0 then Trap else Ret(0), st)
  {
    assert RunBlock(m, cfg, fi, 0, 1, env, st, 0) == Out(Ret(0), st);
    assert RunBlock(m, cfg, fi, 0, 2, env, st, 0) == Out(Trap, st);
  }

  lemma GuardMutant(m: Module, fi: nat)
    requires fi < |m| && m[fi] == GuardFn(And)
    ensures Apply(m, AltRef(fi, 2, 0)) == m[fi := GuardFn(Or)]
  {
    var r := AltRef(fi, 2, 0);
    assert ApplyInsts(r, [Site(And)]) == [Site(Or)];
    assert ApplyFn(r, m[fi]).blocks == GuardFn(Or).blocks;
  }

  lemma OneAndTwo()
    ensures EvalBin(And, 32, 1, 2) == Some(0) && EvalBin(Or, 32, 1, 2) == Some(3)
  {
    Small(32, 1);
    Small(32, 2);
    assert BitAnd(0, 1) == 0 && BitOr(0, 1) == 1;
  }

  /** The ids that straight-line code asks about, in order. */
  function AskedIds(insts: seq<Inst>): seq<u32> {
    if insts == [] then [] else (if insts[0].Active? then [insts[0].id] else []) + AskedIds(insts[1..])
  }

  lemma StepHits(cfg: Config, fi: nat, i: Inst, env: Env, st: St)
    requires !i.Call?
    ensures var s := StepSimple(cfg, fi, i, env, st);
            if s.Next? then s.st.hits == st.hits + (if i.Active? then [i.id] else []) else !s.out.res.Ret?
  {
  }

  lemma {:induction false} StraightHits(m: Module, cfg: Config, fi: nat, insts: seq<Inst>, env: Env, st: St, fuel: nat)
    requires forall i :: i in insts ==> !i.Call?
    ensures var s := Exec(m, cfg, fi, insts, env, st, fuel);
            if s.Next? then s.st.hits == st.hits + AskedIds(insts) else !s.out.res.Ret?
    decreases |insts|
  {
    if insts != [] {
      StepHits(cfg, fi, insts[0], env, st);
      var s := StepSimple(cfg, fi, insts[0], env, st);
      if s.Next? {
        StraightHits(m, cfg, fi, insts[1..], s.env, s.st, fuel);
        Assoc(st.hits, if insts[0].Active? then [insts[0].id] else [], AskedIds(insts[1..]));
      }
    }
  }

  /** What a call of a function that returns from its first block leaves behind. */
  lemma FirstBlock(m: Module, cfg: Config, fi: nat, args: seq<Word>, fuel: nat)
    requires fi < |m| && |args| == |m[fi].params| && |m[fi].blocks| > 0
    requires m[fi].blocks[0].phis == [] && m[fi].blocks[0].term.Return?
    ensures var o := RunFn(m, cfg, fi, args, START, fuel);
            var s := Exec(m, cfg, fi, m[fi].blocks[0].insts, Bind(m[fi].params, args), START, fuel);
            if s.Halt? then o == s.out else o.st == s.st
  {
    var env := Bind(m[fi].params, args);
    assert PhiEnv([], 0, env, env) == Some(env);
    var s := Exec(m, cfg, fi, m[fi].blocks[0].insts, env, START, fuel);
    if s.Next? {
      var o := RunTerm(m, cfg, fi, 0, m[fi].blocks[0].term, s.env, s.st, fuel);
      assert o.st == s.st;
      assert RunBlock(m, cfg, fi, 0, 0, env, START, fuel) == o;
    }
  }

  lemma ChainAskedIds(p: Plan, b: u32)
    requires Ids(p, 2) == [b]
    ensures AskedIds(ExpandAll(p, [Site(Or)])) == [b] && forall i :: i in ExpandAll(p, [Site(Or)]) ==> !i.Call?
  {
    var copies := Copies(p, Site(Or));
    assert Chain(2, copies, [b], 1) == Link(2, 0, copies[0], b);
    var select := Select(Sel(2, 0), Var(On(2, 0)), Var(Mut(2, 0)), Var(Cur(2, 0)));
    var code := [Core(p, Site(Or)), copies[0], Active(On(2, 0), b), select];
    assert ExpandAll(p, [Site(Or)]) == code;
    assert code[1..] == [copies[0], Active(On(2, 0), b), select] && code[2..] == [Active(On(2, 0), b), select];
    assert AskedIds([select]) == [] && AskedIds(code[2..]) == [b];
    assert code[1..][1..] == code[2..];
    assert AskedIds(code[1..]) == [b];
  }

  /** An instrumented function of one operation that returns has asked about its mutant only. */
  lemma OneHit(m: Module, cfg: Config, fi: nat, p: Plan, name: string, b: u32, x: Word, y: Word, fuel: nat)
    requires fi < |m| && m[fi] == RewriteFn(p, OpFn(name, Or)) && Ids(p, 2) == [b]
    requires RunFn(m, cfg, fi, [x, y], START, fuel).res.Ret?
    ensures RunFn(m, cfg, fi, [x, y], START, fuel).st.hits == [b]
  {
    var code := ExpandAll(p, [Site(Or)]);
    assert m[fi].blocks[0].insts == code + [] == code;
    FirstBlock(m, cfg, fi, [x, y], fuel);
    ChainAskedIds(p, b);
    StraightHits(m, cfg, fi, code, Bind(m[fi].params, [x, y]), START, fuel);
    assert [] + [b] == [b];
  }

  /** The records of the two operators. */
  lemma DeathRecords(fns: Module, recs: seq<Mutant>, led: Ledger) returns (x: nat, b: u32)
    requires State(DEATH, fns, recs, led) && Pass.Complete(led.plans, DEATH) && GoodIds(recs)
    ensures x < |recs| && led.entries[x].ref == AltRef(0, 2, 0)
    ensures Ids(led.plans[1], 2) == [b] && b != 0 && recs[x].id != b
  {
    var f, g := AltRef(0, 2, 0), AltRef(1, 2, 0);
    GuardPlan(DEATH, led.plans, 0);
    OpPlan(DEATH, led.plans, 1, "g", Or);
    x := Pass.EntryOf(DEATH, led, f);
    var y := Pass.EntryOf(DEATH, led, g);
    Pass.NoZeroIds(DEATH, led, g);
    b := recs[y].id;
  }

  lemma GuardPlan(m: Module, plans: seq<Plan>, fi: nat)
    requires Pass.Complete(plans, m) && fi < |m| && m[fi] == GuardFn(And)
    ensures |Ids(plans[fi], 2)| == 1
  {
    assert Pass.CompleteFn(plans[fi], m[fi]);
    assert Pass.CompleteInst(plans[fi], m[fi].blocks[0].insts[0]);
  }

  lemma GuardCalm(plans: seq<Plan>, m: Module, e: OpEvent)
    requires |plans| == |m| && e.fn < |m| && m[e.fn] == GuardFn(And)
    ensures !Diverges(plans, m, e) && !BadMul(plans, m, e)
  {
    GuardBlocks(m[e.fn], And);
  }

  /** Without a mutant `f` aborts, and `g` returns after one question. */
  lemma DeathBaseline(fns: Module, recs: seq<Mutant>, led: Ledger, b: u32, world: seq<Event> -> Option<Word>)
    requires State(DEATH, fns, recs, led) && Pass.Complete(led.plans, DEATH) && GoodIds(recs)
             && Ids(led.plans[1], 2) == [b]
    ensures RunFn(fns, Config(NO_MUTANT, world), 0, [1, 2], START, 1).res == Trap
    ensures var g := RunFn(fns, Config(NO_MUTANT, world), 1, [1, 2], START, 1); g.res.Ret? && g.st.hits == [b]
  {
    OneAndTwo();
    GuardRun(DEATH, Config(NO_MUTANT, world), 0, And, 1, 2, 0);
    GuardCalm(led.plans, DEATH, OpEvent(0, Src(2), And, 32, 1, 2, 0));
    Pass.BaselineRuns(DEATH, fns, recs, led, NO_MUTANT, world, 0, [1, 2], 1);
    PlainOp(DEATH, fns, recs, led, NO_MUTANT, 1, "g", Or, 1, 2, world, 1);
    OneHit(fns, Config(NO_MUTANT, world), 1, led.plans[1], "g", b, 1, 2, 1);
  }

  /** With the mutant of `f` it returns. */
  lemma DeathMutant(fns: Module, recs: seq<Mutant>, led: Ledger, x: nat, world: seq<Event> -> Option<Word>)
    requires State(DEATH, fns, recs, led) && Pass.Complete(led.plans, DEATH) && GoodIds(recs)
    requires x < |recs| && led.entries[x].ref == AltRef(0, 2, 0)
    ensures RunFn(fns, Config(recs[x].id, world), 0, [1, 2], START, 1).res == Ret(0)
  {
    OneAndTwo();
    GuardMutant(DEATH, 0);
    GuardRun(Apply(DEATH, AltRef(0, 2, 0)), Config(recs[x].id, world), 0, Or, 1, 2, 3);
    GuardCalm(led.plans, DEATH, OpEvent(0, Src(2), Or, 32, 1, 2, 0));
    Pass.RecordedMutantRuns(DEATH, fns, recs, led, x, world, 0, [1, 2], 1);
  }

  /** Only the process that exits is in the log. */
  lemma OneLogged(f: Out, g: Out, b: u32)
    requires !Exits(f) && Exits(g) && g.st.hits == [b] && b != 0
    ensures CoveredBy([f, g]) == {b}
  {
    var outs := [f, g];
    assert HitsOf(g) == {b};
    FewKept(g, b);
    assert outs[1] == g;
    HitsAreCovered(outs, b);
    forall id | id in CoveredBy(outs)
      ensures id == b
    {
      HitsAreCovered(outs, id);
      Runtime.LoggedWereHit(HitHash, Runtime.NoHits(), g.st.hits, id);
    }
  }

  lemma DeathRuns(fns: Module, recs: seq<Mutant>, led: Ledger, x: nat, b: u32, world: seq<Event> -> Option<Word>)
    requires State(DEATH, fns, recs, led) && Pass.Complete(led.plans, DEATH) && GoodIds(recs)
    requires x < |recs| && led.entries[x].ref == AltRef(0, 2, 0) && Ids(led.plans[1], 2) == [b] && b != 0
    ensures StatusOf(fns, NO_MUTANT, DeathSuite(world)) == RunStatus.Pass
    ensures StatusOf(fns, recs[x].id, DeathSuite(world)) == Fail
    ensures CoveredBy(Command(fns, NO_MUTANT, DeathSuite(world))) == {b}
  {
    TwoProcesses(fns, NO_MUTANT, world);
    TwoProcesses(fns, recs[x].id, world);
    DeathBaseline(fns, recs, led, b, world);
    DeathMutant(fns, recs, led, x, world);
    var outs := Command(fns, NO_MUTANT, DeathSuite(world));
    assert outs == [outs[0], outs[1]];
    OneLogged(outs[0], outs[1], b);
  }

  lemma LostBeside(fns: Module, suite: Suite, ms: seq<Mutant>, x: Mutant, b: u32)
    requires StatusOf(fns, NO_MUTANT, suite) == RunStatus.Pass && StatusOf(fns, x.id, suite) == Fail
    requires CoveredBy(Command(fns, NO_MUTANT, suite)) == {b} && x in ms && x.id != b
    ensures LosesKill(fns, suite, ms, x)
  {
    KillLost(fns, suite, ms, x);
  }

  /** The ids that the pass gives to the two mutants. */
  lemma DeathIds(fns: Module, recs: seq<Mutant>, led: Ledger, x: nat)
    requires State(DEATH, fns, recs, led) && x < |recs|
    ensures var fi := led.entries[x].pos.fn;
            fi < 2 && led.entries[x].ref == AltRef(fi, 2, 0) && recs[x].id == if fi == 0 then AND_ID else OR_ID
  {
    var fi := led.entries[x].pos.fn;
    EntryInside(DEATH, led, x);
    if fi == 0 { DeathIdOfF(fns, recs, led, x); } else { DeathIdOfG(fns, recs, led, x); }
  }

  lemma DeathIdOfF(fns: Module, recs: seq<Mutant>, led: Ledger, x: nat)
    requires State(DEATH, fns, recs, led) && x < |recs| && led.entries[x].pos.fn == 0
    ensures led.entries[x].ref == AltRef(0, 2, 0) && recs[x].id == AND_ID
  {
    var k, key := OpRecordId(DEATH, fns, recs, led, x, "f", And);
    AndKeyId(key);
  }

  lemma DeathIdOfG(fns: Module, recs: seq<Mutant>, led: Ledger, x: nat)
    requires State(DEATH, fns, recs, led) && x < |recs| && led.entries[x].pos.fn == 1
    ensures led.entries[x].ref == AltRef(1, 2, 0) && recs[x].id == OR_ID
  {
    var k, key := OpRecordId(DEATH, fns, recs, led, x, "g", Or);
    OrKeyId(key);
  }

  lemma DeathIdsGood(fns: Module, recs: seq<Mutant>, led: Ledger)
    requires State(DEATH, fns, recs, led)
    ensures GoodIds(recs)
  {
    forall x, y | 0 <= x < y < |recs|
      ensures recs[x].id != recs[y].id
    {
      DeathIds(fns, recs, led, x);
      DeathIds(fns, recs, led, y);
      RefsApart(DEATH, led, x, y);
    }
    forall x | 0 <= x < |recs|
      ensures recs[x].id != NO_MUTANT
    {
      DeathIds(fns, recs, led, x);
    }
  }

  lemma DeathListed(b: Build, x: Mutant)
    requires UnitOk(b) && DistinctRecs(b.recs) && x in b.recs
    ensures x in MutantsIn([b])
  {
    ProgramOne(b);
    EachMutant([b], x);
  }

  /** The hit log is written when a process exits, and the run that a death test provokes does not.
      So the mutant of `f` is not covered, although the suite kills it: the pruned campaign
      reports it as a survivor. */
  lemma DeathTest(b: Build, world: seq<Event> -> Option<Word>) returns (x: Mutant)
    requires UnitOk(b) && b.src == DEATH
    ensures x in b.recs && LosesKill(Binary(b), DeathSuite(world), MutantsIn([b]), x)
  {
    var led :|
      State(b.src, Binary(b), b.recs, led) && Pass.Complete(led.plans, b.src) && b == OfPass(b.src, b.recs, led);
    var k, id := DeathFacts(Binary(b), b.recs, led, world);
    x := b.recs[k];
    DeathListed(b, x);
    LostBeside(Binary(b), DeathSuite(world), MutantsIn([b]), x, id);
  }

  lemma DeathFacts(fns: Module, recs: seq<Mutant>, led: Ledger, world: seq<Event> -> Option<Word>)
    returns (x: nat, b: u32)
    requires State(DEATH, fns, recs, led) && Pass.Complete(led.plans, DEATH)
    ensures DistinctRecs(recs) && x < |recs| && recs[x].id != b
    ensures StatusOf(fns, NO_MUTANT, DeathSuite(world)) == RunStatus.Pass
    ensures StatusOf(fns, recs[x].id, DeathSuite(world)) == Fail
    ensures CoveredBy(Command(fns, NO_MUTANT, DeathSuite(world))) == {b}
  {
    DeathIdsGood(fns, recs, led);
    x, b := DeathRecords(fns, recs, led);
    DeathRuns(fns, recs, led, x, b, world);
  }

  /** The same with the tools in a row: the suite kills `x`, the first report lists it among the
      uncovered survivors, and the report without pruning is another one. */
  method RunDeathTest(world: seq<Event> -> Option<Word>)
    returns (fns: Module, pruned: Option<Summary>, full: Option<Summary>, ghost x: Mutant)
    ensures StatusOf(fns, x.id, DeathSuite(world)) != RunStatus.Pass
    ensures pruned.Some? && full.Some? && x in pruned.value.uncovered && !SameReport(pruned.value, full.value)
  {
    DeathIsSource();
    DeathIsPlain();
    var section;
    ghost var b;
    fns, section, b := BuildUnit(DEATH);
    var read := Catalog.ReadSections([section]);
    var mutants := Merge.MergeMutants([read]);
    assert Catalog.OwnSections(RecordLists([b])) == [section];
    x := DeathTest(b, world);
    pruned := RunCampaign(fns, DeathSuite(world), mutants, false);
    full := RunCampaign(fns, DeathSuite(world), mutants, true);
  }
}
