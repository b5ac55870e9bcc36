/** The whole chain, from a source program to the report about its mutants. */
module Toolchain {
  import opened Scalars
  import opened IR
  import opened Mutants
  import opened Rewrite
  import opened Fidelity
  import opened FirstOrder
  import opened Keys
  import opened Report
  import opened Ledgers
  import opened Builds
  import opened Suites
  import opened Campaign
  import Catalog
  import Escape
  import Merge
  import Pass
  import Seqs

  // ---------------------------------------------------------------- from the pass to the list of mutants

  /** `locOf` delivers nonempty file names, here without carriage returns and other controls. */
  ghost predicate PlainLocs(m: Module) {
    forall fi, bi :: 0 <= fi < |m| && 0 <= bi < |m[fi].blocks| ==> PlainBlock(m[fi].blocks[bi])
  }

  predicate PlainLoc(loc: Option<Loc>) {
    loc.Some? ==> loc.value.file != "" && Escape.Plain(loc.value.file)
  }

  predicate PlainBlock(b: Block) {
    && (forall j :: 0 <= j < |b.insts| && IsSite(b.insts[j]) ==> PlainLoc(b.insts[j].loc))
    && (b.term.Return? ==> PlainLoc(b.term.loc))
  }

  lemma BinNamesPlain(op: BinOp, w: nat)
    ensures Escape.Plain(BinName(op, w))
    ensures forall k :: 0 <= k < |BinAlts(op, w)| ==> Escape.Plain(BinAlts(op, w)[k].kind)
  {
  }

  lemma PredNamePlain(p: Pred)
    ensures Escape.Plain(PredName(p))
  {
  }

  lemma NamesPlain(i: Inst, k: nat)
    requires IsSite(i) && k < AltCount(i)
    ensures Escape.Plain(AltKind(i, k)) && Escape.Plain(SiteName(i)) && Escape.Plain(AltName(i, k))
  {
    if i.Bin? {
      BinNamesPlain(i.bop, i.width);
      BinNamesPlain(BinAlts(i.bop, i.width)[k].op, i.width);
    } else {
      PredNamePlain(i.pred);
      PredNamePlain(PredAlts(i.pred)[k]);
    }
  }

  lemma EntryClean(m: Module, plans: seq<Plan>, e: Entry)
    requires PlainLocs(m) && EntryOk(m, plans, e)
    ensures Catalog.Clean(RecordOf(e.key))
  {
    assert PlainBlock(m[e.pos.fn].blocks[e.pos.block]);
    if e.ref.AltRef? {
      NamesPlain(m[e.pos.fn].blocks[e.pos.block].insts[e.pos.index], e.ref.k);
    }
  }

  /** A unit as the pass leaves it. */
  ghost predicate UnitOk(b: Build) {
    Made(b) && PlainLocs(b.src)
  }

  ghost predicate UnitsOk(units: seq<Build>) {
    forall k {:trigger UnitOk(units[k])} :: 0 <= k < |units| ==> UnitOk(units[k])
  }

  predicate Printable(recs: seq<Mutant>) {
    forall k :: 0 <= k < |recs| ==> Catalog.Clean(recs[k])
  }

  lemma UnitFacts(b: Build)
    requires UnitOk(b)
    ensures Built(b) && Printable(b.recs)
  {
    var led :|
      State(b.src, Binary(b), b.recs, led) && Pass.Complete(led.plans, b.src) && b == OfPass(b.src, b.recs, led);
    MadeIsBuilt(b.src, Binary(b), b.recs, led);
    forall k | 0 <= k < |b.recs|
      ensures Catalog.Clean(b.recs[k])
    {
      assert EntryOk(b.src, led.plans, led.entries[k]);
      EntryClean(b.src, led.plans, led.entries[k]);
    }
  }

  lemma UnitsBuilt(units: seq<Build>)
    requires UnitsOk(units)
    ensures Built(Program(units))
  {
    forall k | 0 <= k < |units|
      ensures Built(units[k])
    {
      assert UnitOk(units[k]);
      UnitFacts(units[k]);
    }
    ProgramBuilt(units);
  }

  // ---------------------------------------------------------------- the catalog of a linked binary

  function RecordLists(units: seq<Build>): (r: seq<seq<Mutant>>)
    ensures |r| == |units| && forall k :: 0 <= k < |r| ==> r[k] == units[k].recs
  {
    seq(|units|, k requires 0 <= k < |units| => units[k].recs)
  }

  /** What the runner reads out of a binary that is linked from these units, each of which has put
      its records into a section of its own. */
  function CatalogIn(units: seq<Build>): seq<Mutant> {
    Catalog.ParseNdjson(Catalog.Blob(Catalog.OwnSections(RecordLists(units))))
  }

  /** The mutants that the runner then works with. */
  function MutantsIn(units: seq<Build>): seq<Mutant> {
    Merge.Merged([CatalogIn(units)])
  }

  lemma KeptOfUnit(b: Build)
    requires UnitOk(b)
    ensures Catalog.Kept(b.recs) == b.recs
  {
    UnitFacts(b);
    Catalog.KeptExact(b.recs);
  }

  lemma UnitsMore(units: seq<Build>, b: Build)
    requires UnitsOk(units) && UnitOk(b)
    ensures UnitsOk(units + [b])
  {
    forall k | 0 <= k <= |units|
      ensures UnitOk((units + [b])[k])
    {
      if k < |units| { assert UnitOk(units[k]); }
    }
  }

  lemma KeptOfUnits(units: seq<Build>)
    requires forall k :: 0 <= k < |units| ==> Catalog.Kept(units[k].recs) == units[k].recs
    ensures Catalog.KeptAll(RecordLists(units)) == Program(units).recs
  {
    AllKept(RecordLists(units));
    ProgramRecords(units);
  }

  lemma {:induction false} AllKept(groups: seq<seq<Mutant>>)
    requires forall k :: 0 <= k < |groups| ==> Catalog.Kept(groups[k]) == groups[k]
    ensures Catalog.KeptAll(groups) == Merge.Concat(groups)
  {
    if groups != [] {
      var front, last := groups[..|groups| - 1], groups[|groups| - 1];
      AllKept(front);
      OneMoreKept(front, last);
      Seqs.FrontLast(groups);
    }
  }

  lemma OneMoreKept(front: seq<seq<Mutant>>, last: seq<Mutant>)
    requires Catalog.KeptAll(front) == Merge.Concat(front) && Catalog.Kept(last) == last
    ensures Catalog.KeptAll(front + [last]) == Merge.Concat(front + [last])
  {
    Catalog.KeptMore(front, last);
    assert (front + [last])[..|front|] == front;
  }

  lemma {:induction false} ProgramRecords(units: seq<Build>)
    ensures Program(units).recs == Merge.Concat(RecordLists(units))
  {
    if units != [] {
      var front := units[..|units| - 1];
      ProgramRecords(front);
      assert RecordLists(units)[..|units| - 1] == RecordLists(front);
    }
  }

  /** What the pass puts into the binary is what the runner reads out of it, record for record and
      unit for unit. */
  lemma CatalogOfPass(units: seq<Build>)
    requires UnitsOk(units)
    ensures CatalogIn(units) == Program(units).recs
  {
    forall k | 0 <= k < |units|
      ensures Catalog.Kept(units[k].recs) == units[k].recs
    {
      assert UnitOk(units[k]);
      KeptOfUnit(units[k]);
    }
    Catalog.SeparateSections(RecordLists(units));
    KeptOfUnits(units);
  }

  /** And what it then runs are the emitted mutants, one per id, in report order. */
  lemma MutantsOfPass(units: seq<Build>)
    requires UnitsOk(units)
    ensures var ms, recs := MutantsIn(units), Program(units).recs;
            && Merge.Sorted(ms) && Merge.UniqueIds(ms) && Merge.Ids(ms) == Merge.Ids(recs)
            && (forall x :: x in ms ==> x in recs) && (ms == [] <==> recs == [])
  {
    CatalogOfPass(units);
    Merge.MergeOne(Program(units).recs);
  }

  /** All of them, when the ids tell the records apart. */
  lemma EachMutant(units: seq<Build>, x: Mutant)
    requires UnitsOk(units) && DistinctRecs(Program(units).recs) && x in Program(units).recs
    ensures x in MutantsIn(units)
  {
    CatalogOfPass(units);
    Merge.MergeKeeps(Program(units).recs, x);
  }

  // ---------------------------------------------------------------- what a verdict is about

  ghost predicate NoDivergence(plans: seq<Plan>, m: Module, outs: seq<Out>)
    requires |plans| == |m|
  {
    forall k, e :: 0 <= k < |outs| && e in outs[k].st.ops ==> !Diverges(plans, m, e)
  }

  /** Two programs that show the same in every process that is started show the same suite. */
  lemma {:induction false} SameShows(a: Module, b: Module, id: u32, suite: Suite, seen: seq<Obs>, n: nat)
    requires forall t {:trigger Process(a, id, t)} ::
               Process(a, id, t) in RunSuite(a, id, suite, seen, n) ==>
                 Show(Process(a, id, t)) == Show(Process(b, id, t))
    ensures ShowAll(RunSuite(a, id, suite, seen, n)) == ShowAll(RunSuite(b, id, suite, seen, n))
    decreases n
  {
    if n > 0 && suite.next(seen).Some? {
      var o := Process(a, id, suite.next(seen).value);
      assert RunSuite(a, id, suite, seen, n)[0] == o;
      SameShows(a, b, id, suite, seen + [Show(o)], n - 1);
    }
  }

  /** The status the runner sees for a catalogued mutant is the status of the suite on that
      first-order mutant of the source, unless eager evaluation traps somewhere. */
  lemma StatusOfMutant(b: Build, x: nat, suite: Suite)
    requires Built(b) && DistinctRecs(b.recs) && x < |b.recs| && b.refs[x].fn < |b.src|
    requires NoDivergence(b.plans, b.src, Command(Apply(b.src, b.refs[x]), b.recs[x].id, suite))
    ensures StatusOf(Binary(b), b.recs[x].id, suite) == StatusOf(Apply(b.src, b.refs[x]), b.recs[x].id, suite)
  {
    var id, mut := b.recs[x].id, Apply(b.src, b.refs[x]);
    forall t | Process(mut, id, t) in Command(mut, id, suite)
      ensures Show(Process(mut, id, t)) == Show(Process(Binary(b), id, t))
    {
      RecordRuns(b, x, t.world, t.fn, t.args, t.fuel);
    }
    SameShows(mut, Binary(b), id, suite, [], suite.limit);
  }

  // ---------------------------------------------------------------- what a suite can ask about

  lemma {:induction false} SuiteAsks(m: Module, active: u32, suite: Suite, seen: seq<Obs>, n: nat, id: u32)
    requires id in AllHits(RunSuite(m, active, suite, seen, n))
    ensures Asks(m, id)
    decreases n
  {
    var outs := RunSuite(m, active, suite, seen, n);
    var k :| 0 <= k < |outs| && id in outs[k].st.hits;
    var t := suite.next(seen).value;
    var o := Process(m, active, t);
    if k == 0 {
      RunFnExtends(m, Config(active, t.world), t.fn, t.args, START, t.fuel);
    } else {
      var rest := RunSuite(m, active, suite, seen + [Show(o)], n - 1);
      assert outs[k] == rest[k - 1];
      SuiteAsks(m, active, suite, seen + [Show(o)], n - 1, id);
    }
  }

  /** Every hit of a suite run on an instrumented program is the id of a record, or the source asked
      about it. */
  lemma HitsOfPass(b: Build, active: u32, suite: Suite, id: u32)
    requires Built(b) && id in AllHits(Command(Binary(b), active, suite))
    ensures Asks(b.src, id) || exists x :: 0 <= x < |b.recs| && b.recs[x].id == id
  {
    SuiteAsks(Binary(b), active, suite, [], suite.limit, id);
    BuildAsks(b, id);
  }

  // ---------------------------------------------------------------- from the source to the report

  /** The ids tell the records apart, and none is the reserved one. */
  predicate GoodIds(recs: seq<Mutant>) {
    DistinctRecs(recs) && forall x :: 0 <= x < |recs| ==> recs[x].id != NO_MUTANT
  }

  /** Running the suite on the source and on each of its recorded mutants meets no operation
      whose eager evaluation traps. */
  ghost predicate NoEagerTraps(b: Build, suite: Suite) {
    && NoBadMul(b, Command(b.src, NO_MUTANT, suite))
    && forall x {:trigger b.refs[x]} :: 0 <= x < |b.recs| && b.refs[x].fn < |b.src| ==>
         NoDivergence(b.plans, b.src, Command(Apply(b.src, b.refs[x]), b.recs[x].id, suite))
  }

  ghost predicate NoBadMul(b: Build, outs: seq<Out>) {
    forall k, e :: 0 <= k < |outs| && e in outs[k].st.ops ==> !BadMul(b.plans, b.src, e)
  }

  /** `oracle` tells how the suite ends on each first-order mutant of the source. */
  ghost predicate Judges(oracle: Oracle, b: Build, suite: Suite) {
    forall x {:trigger b.refs[x]} :: 0 <= x < |b.recs| ==>
      b.refs[x].fn < |b.src| && oracle(b.recs[x].id) == StatusOf(Apply(b.src, b.refs[x]), b.recs[x].id, suite)
  }

  lemma {:induction false} SameVerdicts(ms: seq<Mutant>, a: Oracle, b: Oracle, want: set<RunStatus>)
    requires forall k :: 0 <= k < |ms| ==> a(ms[k].id) == b(ms[k].id)
    ensures CountOf(ms, a, want) == CountOf(ms, b, want) && Passing(ms, a) == Passing(ms, b)
  {
    if ms != [] { SameVerdicts(ms[..|ms| - 1], a, b, want); }
  }

  lemma SameSummary(ms: seq<Mutant>, a: Oracle, b: Oracle)
    requires forall k :: 0 <= k < |ms| ==> a(ms[k].id) == b(ms[k].id)
    ensures SummaryOf(ms, [], a) == SummaryOf(ms, [], b)
  {
    SameVerdicts(ms, a, b, KILLS);
    SameVerdicts(ms, a, b, {Pass});
    SameVerdicts(ms, a, b, {Timeout});
  }

  /** The baseline sees the source. */
  lemma BaselineStatus(b: Build, suite: Suite)
    requires Built(b) && GoodIds(b.recs) && NoBadMul(b, Command(b.src, NO_MUTANT, suite))
    ensures StatusOf(Binary(b), NO_MUTANT, suite) == StatusOf(b.src, NO_MUTANT, suite)
  {
    forall t | Process(b.src, NO_MUTANT, t) in Command(b.src, NO_MUTANT, suite)
      ensures Show(Process(b.src, NO_MUTANT, t)) == Show(Process(Binary(b), NO_MUTANT, t))
    {
      PlainRuns(b, NO_MUTANT, t.world, t.fn, t.args, t.fuel);
    }
    SameShows(b.src, Binary(b), NO_MUTANT, suite, [], suite.limit);
  }

  /** The campaign on the binary reports exactly when the suite passes on the source. */
  lemma GreenSource(b: Build, suite: Suite, ms: seq<Mutant>, noCoverage: bool)
    requires Built(b) && GoodIds(b.recs) && NoBadMul(b, Command(b.src, NO_MUTANT, suite))
    ensures CampaignOf(Binary(b), suite, ms, noCoverage).Some? <==> StatusOf(b.src, NO_MUTANT, suite) == Report.Pass
  {
    BaselineStatus(b, suite);
    GreenExactly(Binary(b), suite, ms, noCoverage, {});
  }

  lemma VerdictsAgree(b: Build, suite: Suite, oracle: Oracle, x: Mutant)
    requires Built(b) && GoodIds(b.recs) && NoEagerTraps(b, suite) && Judges(oracle, b, suite) && x in b.recs
    ensures OracleOf(Binary(b), suite)(x.id) == oracle(x.id)
  {
    var k :| 0 <= k < |b.recs| && b.recs[k] == x;
    assert b.refs[k].fn < |b.src|;
    StatusOfMutant(b, k, suite);
  }

  /** The reserved id is not among the hits. */
  lemma ReservedNotHit(b: Build, suite: Suite)
    requires Built(b) && GoodIds(b.recs) && !Asks(b.src, NO_MUTANT)
    ensures NO_MUTANT !in AllHits(Command(Binary(b), NO_MUTANT, suite))
  {
    if NO_MUTANT in AllHits(Command(Binary(b), NO_MUTANT, suite)) {
      HitsOfPass(b, NO_MUTANT, suite, NO_MUTANT);
    }
  }

  /** From the source to the report, for a program of any number of units.  The suite passes on the
      source; the ids are good, no eager evaluation traps, and the coverage run loses no hit.  Then
      the campaign on the instrumented binary, with coverage pruning, reports what running the
      suite on every first-order mutant of the source would report. */
  lemma EndToEnd(units: seq<Build>, suite: Suite, oracle: Oracle)
    requires UnitsOk(units)
    requires var b := Program(units);
             && GoodIds(b.recs) && !Asks(b.src, NO_MUTANT) && NoEagerTraps(b, suite) && Judges(oracle, b, suite)
             && StatusOf(b.src, NO_MUTANT, suite) == Report.Pass && NothingLost(Command(Binary(b), NO_MUTANT, suite))
    ensures var ms := MutantsIn(units);
            var report := CampaignOf(Binary(Program(units)), suite, ms, false);
            report.Some? && SameReport(report.value, SummaryOf(ms, [], oracle))
  {
    MutantsOfPass(units);
    UnitsBuilt(units);
    ReportOfBuild(Program(units), MutantsIn(units), suite, oracle);
  }

  lemma ReportOfBuild(b: Build, ms: seq<Mutant>, suite: Suite, oracle: Oracle)
    requires Built(b) && GoodIds(b.recs) && !Asks(b.src, NO_MUTANT) && NoEagerTraps(b, suite)
             && Judges(oracle, b, suite)
    requires StatusOf(b.src, NO_MUTANT, suite) == Report.Pass && NothingLost(Command(Binary(b), NO_MUTANT, suite))
    requires forall x :: x in ms ==> x in b.recs
    ensures var report := CampaignOf(Binary(b), suite, ms, false);
            report.Some? && SameReport(report.value, SummaryOf(ms, [], oracle))
  {
    BaselineStatus(b, suite);
    ReservedNotHit(b, suite);
    PruningSound(Binary(b), suite, ms);
    FullCampaign(Binary(b), suite, ms);
    forall k | 0 <= k < |ms|
      ensures OracleOf(Binary(b), suite)(ms[k].id) == oracle(ms[k].id)
    {
      VerdictsAgree(b, suite, oracle, ms[k]);
    }
    SameSummary(ms, OracleOf(Binary(b), suite), oracle);
  }

  // ---------------------------------------------------------------- the tools in a row

  lemma UnitOfPass(m: Module, fns: Module, recs: seq<Mutant>, led: Ledger)
    requires State(m, fns, recs, led) && Pass.Complete(led.plans, m) && PlainLocs(m)
    ensures UnitOk(OfPass(m, recs, led)) && Binary(OfPass(m, recs, led)) == fns
  {
    var b := OfPass(m, recs, led);
    assert State(b.src, Binary(b), b.recs, led) && b == OfPass(b.src, b.recs, led);
  }

  lemma SectionsMore(units: seq<Build>, b: Build)
    ensures Catalog.OwnSections(RecordLists(units + [b])) ==
            Catalog.OwnSections(RecordLists(units)) + [Catalog.Chunk(b.recs)]
  {
    assert RecordLists(units + [b]) == RecordLists(units) + [b.recs];
  }

  /** One unit: its instrumented code and its section. */
  method BuildUnit(m: Module) returns (fns: Module, section: string, ghost b: Build)
    requires SrcModule(m) && DistinctNames(m) && PlainLocs(m)
    ensures UnitOk(b) && b.src == m && fns == Binary(b) && section == Catalog.Chunk(b.recs)
  {
    var recs;
    ghost var led;
    fns, recs, led := Pass.Instrument(m);
    var json := Catalog.ToNdjson(recs);
    section := json + Catalog.NUL;
    UnitOfPass(m, fns, recs, led);
    b := OfPass(m, recs, led);
  }

  ghost predicate FromSources(srcs: seq<Module>, units: seq<Build>) {
    |units| <= |srcs| && forall k :: 0 <= k < |units| ==> units[k].src == srcs[k]
  }

  /** These units are made from the first sources, in order; this is their code and these their sections. */
  ghost predicate Laid(srcs: seq<Module>, units: seq<Build>, fns: Module, sections: seq<string>) {
    && FromSources(srcs, units) && UnitsOk(units)
    && fns == Binary(Program(units)) && sections == Catalog.OwnSections(RecordLists(units))
  }

  lemma SourcesMore(srcs: seq<Module>, units: seq<Build>, b: Build)
    requires FromSources(srcs, units) && |units| < |srcs| && b.src == srcs[|units|]
    ensures FromSources(srcs, units + [b])
  {
  }

  lemma LaidMore(srcs: seq<Module>, units: seq<Build>, fns: Module, sections: seq<string>, b: Build)
    requires Laid(srcs, units, fns, sections) && |units| < |srcs| && UnitsOk(units + [b]) && b.src == srcs[|units|]
    ensures Laid(srcs, units + [b], fns + Binary(b), sections + [Catalog.Chunk(b.recs)])
  {
    SourcesMore(srcs, units, b);
    ProgramMore(units, b);
    SectionsMore(units, b);
  }

  method BuildUnits(srcs: seq<Module>) returns (fns: Module, sections: seq<string>, ghost units: seq<Build>)
    requires forall k :: 0 <= k < |srcs| ==> SrcModule(srcs[k]) && DistinctNames(srcs[k]) && PlainLocs(srcs[k])
    ensures |units| == |srcs| && Laid(srcs, units, fns, sections)
  {
    fns, sections, units := [], [], [];
    for k := 0 to |srcs|
      invariant |units| == k && Laid(srcs, units, fns, sections)
    {
      var out, section;
      ghost var b;
      out, section, b := BuildUnit(srcs[k]);
      UnitsMore(units, b);
      LaidMore(srcs, units, fns, sections, b);
      fns, sections, units := fns + out, sections + [section], units + [b];
    }
  }

  /** The tools one after the other: instrument every unit and give it a section with its catalog,
      link, read the sections back, merge, and run the campaign unless there is nothing to run. */
  method BuildAndRun(srcs: seq<Module>, suite: Suite, noCoverage: bool)
    returns (fns: Module, report: Option<Summary>, ghost units: seq<Build>)
    requires forall k :: 0 <= k < |srcs| ==> SrcModule(srcs[k]) && DistinctNames(srcs[k]) && PlainLocs(srcs[k])
    ensures |units| == |srcs| && UnitsOk(units) && forall k :: 0 <= k < |units| ==> units[k].src == srcs[k]
    ensures fns == Binary(Program(units))
    ensures report == if Program(units).recs == [] then None else CampaignOf(fns, suite, MutantsIn(units), noCoverage)
    ensures var b := Program(units);
            GoodIds(b.recs) && NoBadMul(b, Command(b.src, NO_MUTANT, suite)) ==>
              (report.Some? <==> b.recs != [] && StatusOf(b.src, NO_MUTANT, suite) == Report.Pass)
  {
    var sections;
    fns, sections, units := BuildUnits(srcs);
    var read := Catalog.ReadSections(sections);
    var mutants := Merge.MergeMutants([read]);
    MutantsOfPass(units);
    if |mutants| == 0 {
      return fns, None, units;
    }
    report := RunCampaign(fns, suite, mutants, noCoverage);
    UnitsBuilt(units);
    ghost var b := Program(units);
    if GoodIds(b.recs) && NoBadMul(b, Command(b.src, NO_MUTANT, suite)) {
      GreenSource(b, suite, mutants, noCoverage);
    }
  }
}
