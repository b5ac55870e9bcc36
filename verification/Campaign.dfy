/** The campaign: a suite is run on the instrumented program, once without a mutant and once per
    mutant, and mutants that the hit log does not name are counted as survived without being run. */
module Campaign {
  import opened Scalars
  import opened IR
  import opened Keys
  import opened Report
  import opened Suites
  import Flush
  import Pool

  // ---------------------------------------------------------------- the partition

  predicate Pruned(noCoverage: bool, covered: set<u32>, m: Mutant) {
    !noCoverage && covered != {} && m.id !in covered
  }

  function Uncovered(ms: seq<Mutant>, noCoverage: bool, covered: set<u32>): seq<Mutant> {
    if ms == [] then [] else
      var last := ms[|ms| - 1];
      Uncovered(ms[..|ms| - 1], noCoverage, covered) + if Pruned(noCoverage, covered, last) then [last] else []
  }

  function Todo(ms: seq<Mutant>, noCoverage: bool, covered: set<u32>): seq<Mutant> {
    if ms == [] then [] else
      var last := ms[|ms| - 1];
      Todo(ms[..|ms| - 1], noCoverage, covered) + if Pruned(noCoverage, covered, last) then [] else [last]
  }

  method Partition(ms: seq<Mutant>, noCoverage: bool, covered: set<u32>)
    returns (uncovered: seq<Mutant>, todo: seq<Mutant>)
    ensures uncovered == Uncovered(ms, noCoverage, covered) && todo == Todo(ms, noCoverage, covered)
  {
    uncovered, todo := [], [];
    for i := 0 to |ms|
      invariant uncovered == Uncovered(ms[..i], noCoverage, covered) && todo == Todo(ms[..i], noCoverage, covered)
    {
      assert ms[..i + 1][..i] == ms[..i];
      if !noCoverage && covered != {} && ms[i].id !in covered {
        uncovered := uncovered + [ms[i]];
      } else {
        todo := todo + [ms[i]];
      }
    }
    assert ms[..|ms|] == ms;
  }

  lemma {:induction false} PartitionCounts(ms: seq<Mutant>, noCoverage: bool, covered: set<u32>, oracle: Oracle,
                                           want: set<RunStatus>)
    ensures CountOf(ms, oracle, want) ==
            CountOf(Todo(ms, noCoverage, covered), oracle, want)
              + CountOf(Uncovered(ms, noCoverage, covered), oracle, want)
    ensures |ms| == |Todo(ms, noCoverage, covered)| + |Uncovered(ms, noCoverage, covered)|
  {
    if ms != [] {
      var front, last := ms[..|ms| - 1], ms[|ms| - 1];
      PartitionCounts(front, noCoverage, covered, oracle, want);
      var todo, skipped := Todo(front, noCoverage, covered), Uncovered(front, noCoverage, covered);
      CountMore(todo, last, oracle, want);
      CountMore(skipped, last, oracle, want);
      if Pruned(noCoverage, covered, last) {
        assert Todo(ms, noCoverage, covered) == todo;
      } else {
        assert Uncovered(ms, noCoverage, covered) == skipped;
      }
    }
  }

  lemma CountMore(ms: seq<Mutant>, x: Mutant, oracle: Oracle, want: set<RunStatus>)
    ensures CountOf(ms + [x], oracle, want) == CountOf(ms, oracle, want) + if oracle(x.id) in want then 1 else 0
  {
    assert (ms + [x])[..|ms|] == ms;
  }

  lemma {:induction false} PartitionPassing(ms: seq<Mutant>, noCoverage: bool, covered: set<u32>, oracle: Oracle)
    ensures multiset(Passing(ms, oracle)) ==
            multiset(Passing(Todo(ms, noCoverage, covered), oracle))
              + multiset(Passing(Uncovered(ms, noCoverage, covered), oracle))
  {
    if ms != [] {
      var front, last := ms[..|ms| - 1], ms[|ms| - 1];
      PartitionPassing(front, noCoverage, covered, oracle);
      var more := if oracle(last.id) == Pass then [last] else [];
      PassingMore(Todo(front, noCoverage, covered), last, oracle);
      PassingMore(Uncovered(front, noCoverage, covered), last, oracle);
      AddToEither(Passing(front, oracle), Passing(Todo(front, noCoverage, covered), oracle),
                  Passing(Uncovered(front, noCoverage, covered), oracle), more);
      if Pruned(noCoverage, covered, last) {
        assert Todo(ms, noCoverage, covered) == Todo(front, noCoverage, covered);
      } else {
        assert Uncovered(ms, noCoverage, covered) == Uncovered(front, noCoverage, covered);
      }
    }
  }

  lemma PassingMore(ms: seq<Mutant>, x: Mutant, oracle: Oracle)
    ensures Passing(ms + [x], oracle) == Passing(ms, oracle) + if oracle(x.id) == Pass then [x] else []
  {
    assert (ms + [x])[..|ms|] == ms;
  }

  lemma AddToEither(all: seq<Mutant>, a: seq<Mutant>, b: seq<Mutant>, more: seq<Mutant>)
    requires multiset(all) == multiset(a) + multiset(b)
    ensures multiset(all + more) == multiset(a + more) + multiset(b)
    ensures multiset(all + more) == multiset(a) + multiset(b + more)
  {
  }

  predicate AllPass(ms: seq<Mutant>, oracle: Oracle) {
    forall k :: 0 <= k < |ms| ==> oracle(ms[k].id) == Pass
  }

  lemma AllPassMore(ms: seq<Mutant>, oracle: Oracle)
    requires ms != []
    ensures AllPass(ms, oracle) <==> AllPass(ms[..|ms| - 1], oracle) && oracle(ms[|ms| - 1].id) == Pass
  {
  }

  lemma {:induction false} AllPassCount(ms: seq<Mutant>, oracle: Oracle)
    ensures CountOf(ms, oracle, {Pass}) <= |ms|
    ensures AllPass(ms, oracle) <==> CountOf(ms, oracle, {Pass}) == |ms|
  {
    if ms != [] {
      AllPassCount(ms[..|ms| - 1], oracle);
      AllPassMore(ms, oracle);
    }
  }

  lemma {:induction false} AllPassListed(ms: seq<Mutant>, oracle: Oracle)
    requires AllPass(ms, oracle)
    ensures Passing(ms, oracle) == ms
  {
    if ms != [] {
      AllPassMore(ms, oracle);
      AllPassListed(ms[..|ms| - 1], oracle);
      assert ms == ms[..|ms| - 1] + [ms[|ms| - 1]];
    }
  }

  /** The same counts and score, and the same survivors up to their order. */
  ghost predicate SameReport(a: Summary, b: Summary) {
    && a.killed == b.killed && a.survived == b.survived && a.timeout == b.timeout
    && multiset(a.survivors + a.uncovered) == multiset(b.survivors + b.uncovered)
  }

  /** Skipping mutants is right exactly when every skipped mutant would have survived. */
  lemma PruningExact(ms: seq<Mutant>, noCoverage: bool, covered: set<u32>, oracle: Oracle)
    ensures var todo, skipped := Todo(ms, noCoverage, covered), Uncovered(ms, noCoverage, covered);
            SameReport(SummaryOf(todo, skipped, oracle), SummaryOf(ms, [], oracle)) <==> AllPass(skipped, oracle)
  {
    var todo, skipped := Todo(ms, noCoverage, covered), Uncovered(ms, noCoverage, covered);
    PartitionCounts(ms, noCoverage, covered, oracle, KILLS);
    PartitionCounts(ms, noCoverage, covered, oracle, {Pass});
    PartitionCounts(ms, noCoverage, covered, oracle, {Timeout});
    PartitionPassing(ms, noCoverage, covered, oracle);
    SkippedExact(ms, todo, skipped, oracle);
  }

  lemma SkippedExact(ms: seq<Mutant>, todo: seq<Mutant>, skipped: seq<Mutant>, oracle: Oracle)
    requires CountOf(ms, oracle, KILLS) == CountOf(todo, oracle, KILLS) + CountOf(skipped, oracle, KILLS)
    requires CountOf(ms, oracle, {Pass}) == CountOf(todo, oracle, {Pass}) + CountOf(skipped, oracle, {Pass})
    requires CountOf(ms, oracle, {Timeout}) == CountOf(todo, oracle, {Timeout}) + CountOf(skipped, oracle, {Timeout})
    requires multiset(Passing(ms, oracle)) == multiset(Passing(todo, oracle)) + multiset(Passing(skipped, oracle))
    ensures AllPass(skipped, oracle) ==> SameReport(SummaryOf(todo, skipped, oracle), SummaryOf(ms, [], oracle))
    ensures SameReport(SummaryOf(todo, skipped, oracle), SummaryOf(ms, [], oracle)) ==> AllPass(skipped, oracle)
  {
    AllPassCount(skipped, oracle);
    CountsAddUp(skipped, oracle);
    if AllPass(skipped, oracle) {
      AllPassListed(skipped, oracle);
      Joined(Passing(ms, oracle), Passing(todo, oracle), skipped);
    }
  }

  lemma Joined(all: seq<Mutant>, a: seq<Mutant>, b: seq<Mutant>)
    requires multiset(all) == multiset(a) + multiset(b)
    ensures multiset(all + []) == multiset(a + b)
  {
    assert all + [] == all;
  }

  lemma {:induction false} SkippedMember(ms: seq<Mutant>, noCoverage: bool, covered: set<u32>, m: Mutant)
    ensures m in Uncovered(ms, noCoverage, covered) <==>
              m in ms && !noCoverage && covered != {} && m.id !in covered
    ensures m in Todo(ms, noCoverage, covered) <==> m in ms && (noCoverage || covered == {} || m.id in covered)
  {
    if ms != [] {
      var front, last := ms[..|ms| - 1], ms[|ms| - 1];
      SkippedMember(front, noCoverage, covered, m);
      assert ms == front + [last];
    }
  }

  // ---------------------------------------------------------------- the campaign

  /** The report of a campaign with these ids covered, or None when the baseline is not green. */
  function CampaignWith(fns: Module, suite: Suite, ms: seq<Mutant>, noCoverage: bool,
                        covered: set<u32>): Option<Summary> {
    if StatusOf(fns, NO_MUTANT, suite) != Pass then None else
      Some(SummaryOf(Todo(ms, noCoverage, covered), Uncovered(ms, noCoverage, covered), OracleOf(fns, suite)))
  }

  function CampaignOf(fns: Module, suite: Suite, ms: seq<Mutant>, noCoverage: bool): Option<Summary> {
    CampaignWith(fns, suite, ms, noCoverage, if noCoverage then {} else CoveredBy(Command(fns, NO_MUTANT, suite)))
  }

  method RunCampaign(fns: Module, suite: Suite, ms: seq<Mutant>, noCoverage: bool) returns (r: Option<Summary>)
    ensures r == CampaignOf(fns, suite, ms, noCoverage)
    ensures r.Some? <==> StatusOf(fns, NO_MUTANT, suite) == Pass
  {
    if StatusOf(fns, NO_MUTANT, suite) != Pass {
      return None;
    }
    var covered := {};
    if !noCoverage {
      covered := Flush.LoadHitlog(HitLog(Flushes(Command(fns, NO_MUTANT, suite))));
    }
    var uncovered, todo := Partition(ms, noCoverage, covered);
    var outcomes := Pool.Work(todo, OracleOf(fns, suite));
    var summary := Summarize(outcomes, uncovered, todo, OracleOf(fns, suite));
    return Some(summary);
  }

  /** There is a report exactly when the suite passes without a mutant. */
  lemma GreenExactly(fns: Module, suite: Suite, ms: seq<Mutant>, noCoverage: bool, covered: set<u32>)
    ensures CampaignWith(fns, suite, ms, noCoverage, covered).Some? <==>
              suite.verdict(ShowAll(Command(fns, NO_MUTANT, suite))) == Pass
    ensures CampaignOf(fns, suite, ms, noCoverage).Some? <==>
              suite.verdict(ShowAll(Command(fns, NO_MUTANT, suite))) == Pass
  {
  }

  lemma InPassing(ms: seq<Mutant>, oracle: Oracle, m: Mutant)
    ensures m in Passing(ms, oracle) <==> m in ms && oracle(m.id) == Pass
  {
    PassingExact(ms, oracle, m);
    assert m in Passing(ms, oracle) <==> m in multiset(Passing(ms, oracle));
    assert m in ms <==> m in multiset(ms);
  }

  /** What a report says: it is about the mutants that are run and those that are skipped, which
      survive when they are run, and every mutant counts once. */
  lemma ReportMeans(fns: Module, suite: Suite, ms: seq<Mutant>, noCoverage: bool, covered: set<u32>, m: Mutant)
    returns (run: seq<Mutant>)
    requires CampaignWith(fns, suite, ms, noCoverage, covered).Some?
    ensures var r := CampaignWith(fns, suite, ms, noCoverage, covered).value;
            var skipped := !noCoverage && covered != {} && m.id !in covered;
            && r == SummaryOf(run, r.uncovered, OracleOf(fns, suite)) && |run| + |r.uncovered| == |ms|
            && (m in run <==> m in ms && !skipped)
            && (m in r.uncovered <==> m in ms && skipped)
            && (m in r.survivors <==> m in run && suite.verdict(ShowAll(Command(fns, m.id, suite))) == Pass)
            && r.killed + r.survived + r.timeout == |ms|
  {
    run := Todo(ms, noCoverage, covered);
    SkippedMember(ms, noCoverage, covered, m);
    InPassing(run, OracleOf(fns, suite), m);
    CountsAddUp(run, OracleOf(fns, suite));
    PartitionCounts(ms, noCoverage, covered, OracleOf(fns, suite), KILLS);
  }

  /** With any number of jobs and any schedule of the workers, the outcomes that are tallied are
      those of the report above. */
  lemma AnySchedule(fns: Module, suite: Suite, todo: seq<Mutant>, jobs: int, schedule: seq<nat>)
    requires Pool.Feasible(Pool.Start(todo, Pool.PoolSize(jobs, |todo|)), todo, OracleOf(fns, suite), schedule)
    requires |schedule| == 3 * |todo| + Pool.PoolSize(jobs, |todo|)
    ensures Pool.Run(Pool.Start(todo, Pool.PoolSize(jobs, |todo|)), todo, OracleOf(fns, suite), schedule).outcomes
            == Expected(todo, OracleOf(fns, suite))
  {
    Pool.StepsFromStart(todo, OracleOf(fns, suite), Pool.PoolSize(jobs, |todo|), schedule);
    Pool.ScheduleIndependence(todo, OracleOf(fns, suite), Pool.PoolSize(jobs, |todo|), schedule);
  }

  lemma SameScore(a: Summary, b: Summary)
    requires SameReport(a, b)
    ensures ScoreOf(a) == ScoreOf(b)
  {
  }

  lemma FullCampaign(fns: Module, suite: Suite, ms: seq<Mutant>)
    requires StatusOf(fns, NO_MUTANT, suite) == Pass
    ensures CampaignOf(fns, suite, ms, true) == Some(SummaryOf(ms, [], OracleOf(fns, suite)))
  {
    NothingPruned(ms, {});
  }

  lemma {:induction false} NothingPruned(ms: seq<Mutant>, covered: set<u32>)
    ensures Todo(ms, true, covered) == ms && Uncovered(ms, true, covered) == []
  {
    if ms != [] {
      NothingPruned(ms[..|ms| - 1], covered);
      assert ms == ms[..|ms| - 1] + [ms[|ms| - 1]];
    }
  }

  /** A process asked about the mutant, but the log does not name it, so it is skipped. */
  predicate Lost(outs: seq<Out>, covered: set<u32>, m: Mutant) {
    covered != {} && m.id in AllHits(outs) && m.id !in covered
  }

  /** A skipped mutant survives unless it was lost. */
  lemma SkippedPass(fns: Module, suite: Suite, ms: seq<Mutant>, covered: set<u32>)
    requires StatusOf(fns, NO_MUTANT, suite) == Pass && NO_MUTANT !in AllHits(Command(fns, NO_MUTANT, suite))
    ensures AllPass(Uncovered(ms, false, covered), OracleOf(fns, suite)) <==>
            forall m :: m in ms && Lost(Command(fns, NO_MUTANT, suite), covered, m) ==>
              StatusOf(fns, m.id, suite) == Pass
  {
    var skipped, outs, oracle := Uncovered(ms, false, covered), Command(fns, NO_MUTANT, suite), OracleOf(fns, suite);
    if AllPass(skipped, oracle) {
      forall m | m in ms && Lost(outs, covered, m)
        ensures StatusOf(fns, m.id, suite) == Pass
      {
        SkippedMember(ms, false, covered, m);
        var k :| 0 <= k < |skipped| && skipped[k] == m;
        assert oracle(skipped[k].id) == Pass;
      }
    }
    if forall m :: m in ms && Lost(outs, covered, m) ==> StatusOf(fns, m.id, suite) == Pass {
      forall k | 0 <= k < |skipped|
        ensures oracle(skipped[k].id) == Pass
      {
        SkippedMember(ms, false, covered, skipped[k]);
        if skipped[k].id !in AllHits(outs) { UnhitIsIdle(fns, suite, skipped[k].id); }
      }
    }
  }

  /** When coverage pruning is right: the pruned campaign reports what the full one reports if and
      only if every mutant whose hit was lost would have survived.  Which hits are lost is known
      before any mutant is run. */
  lemma PruningRightExactly(fns: Module, suite: Suite, ms: seq<Mutant>, covered: set<u32>)
    requires StatusOf(fns, NO_MUTANT, suite) == Pass && NO_MUTANT !in AllHits(Command(fns, NO_MUTANT, suite))
    ensures var pruned, full := CampaignWith(fns, suite, ms, false, covered), CampaignOf(fns, suite, ms, true);
            && pruned.Some? && full.Some?
            && (SameReport(pruned.value, full.value) <==>
                forall m :: m in ms && Lost(Command(fns, NO_MUTANT, suite), covered, m) ==>
                  StatusOf(fns, m.id, suite) == Pass)
  {
    SkippedPass(fns, suite, ms, covered);
    PruningExact(ms, false, covered, OracleOf(fns, suite));
    FullCampaign(fns, suite, ms);
  }

  // ---------------------------------------------------------------- whatever the verdict

  /** The same processes, judged otherwise. */
  function Judged(suite: Suite, verdict: seq<Obs> -> RunStatus): Suite {
    suite.(verdict := verdict)
  }

  lemma {:induction false} SameRuns(fns: Module, active: u32, suite: Suite, verdict: seq<Obs> -> RunStatus,
                                    seen: seq<Obs>, n: nat)
    ensures RunSuite(fns, active, Judged(suite, verdict), seen, n) == RunSuite(fns, active, suite, seen, n)
    decreases n
  {
    if n > 0 && suite.next(seen).Some? {
      SameRuns(fns, active, suite, verdict, seen + [Show(Process(fns, active, suite.next(seen).value))], n - 1);
    }
  }

  function Shown(fns: Module, active: u32, suite: Suite): seq<Obs> {
    ShowAll(Command(fns, active, suite))
  }

  /** The pruned campaign reports what the full one reports. */
  ghost predicate RightWith(fns: Module, suite: Suite, ms: seq<Mutant>, covered: set<u32>) {
    var pruned, full := CampaignWith(fns, suite, ms, false, covered), CampaignOf(fns, suite, ms, true);
    pruned.Some? && full.Some? && SameReport(pruned.value, full.value)
  }

  /** Every lost mutant shows what the baseline shows. */
  ghost predicate LostShowNothing(fns: Module, suite: Suite, ms: seq<Mutant>, covered: set<u32>) {
    forall m :: m in ms && Lost(Command(fns, NO_MUTANT, suite), covered, m) ==>
      Shown(fns, m.id, suite) == Shown(fns, NO_MUTANT, suite)
  }

  lemma JudgedStatus(fns: Module, active: u32, suite: Suite, verdict: seq<Obs> -> RunStatus)
    ensures Command(fns, active, Judged(suite, verdict)) == Command(fns, active, suite)
    ensures StatusOf(fns, active, Judged(suite, verdict)) == verdict(Shown(fns, active, suite))
  {
    SameRuns(fns, active, suite, verdict, [], suite.limit);
  }

  lemma RightWhenJudged(fns: Module, suite: Suite, ms: seq<Mutant>, covered: set<u32>, verdict: seq<Obs> -> RunStatus)
    requires NO_MUTANT !in AllHits(Command(fns, NO_MUTANT, suite))
    requires StatusOf(fns, NO_MUTANT, Judged(suite, verdict)) == Pass
    ensures RightWith(fns, Judged(suite, verdict), ms, covered) <==>
              forall m :: m in ms && Lost(Command(fns, NO_MUTANT, suite), covered, m) ==>
                verdict(Shown(fns, m.id, suite)) == Pass
  {
    JudgedStatus(fns, NO_MUTANT, suite, verdict);
    PruningRightExactly(fns, Judged(suite, verdict), ms, covered);
    forall m | m in ms
      ensures StatusOf(fns, m.id, Judged(suite, verdict)) == verdict(Shown(fns, m.id, suite))
    {
      JudgedStatus(fns, m.id, suite, verdict);
    }
  }

  /** When coverage pruning is right for these processes, however they are judged: the pruned report
      is right for every verdict that accepts the baseline, if and only if every mutant whose hit was
      lost shows exactly what the baseline shows. */
  lemma PruningRightAlways(fns: Module, suite: Suite, ms: seq<Mutant>, covered: set<u32>)
    requires NO_MUTANT !in AllHits(Command(fns, NO_MUTANT, suite))
    ensures (forall verdict: seq<Obs> -> RunStatus {:trigger Judged(suite, verdict)} ::
               StatusOf(fns, NO_MUTANT, Judged(suite, verdict)) == Pass ==>
                 RightWith(fns, Judged(suite, verdict), ms, covered))
            <==> LostShowNothing(fns, suite, ms, covered)
  {
    if LostShowNothing(fns, suite, ms, covered) {
      forall verdict: seq<Obs> -> RunStatus | StatusOf(fns, NO_MUTANT, Judged(suite, verdict)) == Pass
        ensures RightWith(fns, Judged(suite, verdict), ms, covered)
      {
        JudgedStatus(fns, NO_MUTANT, suite, verdict);
        RightWhenJudged(fns, suite, ms, covered, verdict);
      }
    } else {
      var base := Shown(fns, NO_MUTANT, suite);
      var strict: seq<Obs> -> RunStatus := (seen: seq<Obs>) => if seen == base then Pass else Fail;
      JudgedStatus(fns, NO_MUTANT, suite, strict);
      RightWhenJudged(fns, suite, ms, covered, strict);
    }
  }

  // ---------------------------------------------------------------- lost kills and sound campaigns

  /** The suite kills the mutant, the pruned campaign reports it as a survivor, and so differs
      from the full one. */
  ghost predicate LosesKill(fns: Module, suite: Suite, ms: seq<Mutant>, x: Mutant) {
    var pruned, full := CampaignOf(fns, suite, ms, false), CampaignOf(fns, suite, ms, true);
    && StatusOf(fns, x.id, suite) != Pass
    && pruned.Some? && full.Some? && x in pruned.value.uncovered && !SameReport(pruned.value, full.value)
  }

  lemma KillLost(fns: Module, suite: Suite, ms: seq<Mutant>, x: Mutant)
    requires StatusOf(fns, NO_MUTANT, suite) == Pass && StatusOf(fns, x.id, suite) != Pass
    requires var covered := CoveredBy(Command(fns, NO_MUTANT, suite)); x in ms && covered != {} && x.id !in covered
    ensures LosesKill(fns, suite, ms, x)
  {
    var covered, oracle := CoveredBy(Command(fns, NO_MUTANT, suite)), OracleOf(fns, suite);
    var skipped := Uncovered(ms, false, covered);
    SkippedMember(ms, false, covered, x);
    var k :| 0 <= k < |skipped| && skipped[k] == x;
    assert oracle(skipped[k].id) != Pass;
    PruningExact(ms, false, covered, oracle);
    FullCampaign(fns, suite, ms);
  }

  /** Coverage pruning is sound when the log misses no hit and nobody asked about the reserved id:
      then the pruned campaign reports what the full one reports. */
  lemma PruningSoundWith(fns: Module, suite: Suite, ms: seq<Mutant>, covered: set<u32>)
    requires StatusOf(fns, NO_MUTANT, suite) == Pass
    requires var hits := AllHits(Command(fns, NO_MUTANT, suite)); NO_MUTANT !in hits && hits <= covered
    ensures var pruned, full := CampaignWith(fns, suite, ms, false, covered), CampaignOf(fns, suite, ms, true);
            pruned.Some? && full.Some? && SameReport(pruned.value, full.value)
            && ScoreOf(pruned.value) == ScoreOf(full.value)
  {
    PruningRightExactly(fns, suite, ms, covered);
    SameScore(CampaignWith(fns, suite, ms, false, covered).value, CampaignOf(fns, suite, ms, true).value);
  }

  lemma PruningSound(fns: Module, suite: Suite, ms: seq<Mutant>)
    requires StatusOf(fns, NO_MUTANT, suite) == Pass
    requires var outs := Command(fns, NO_MUTANT, suite); NothingLost(outs) && NO_MUTANT !in AllHits(outs)
    ensures var pruned, full := CampaignOf(fns, suite, ms, false), CampaignOf(fns, suite, ms, true);
            pruned.Some? && full.Some? && SameReport(pruned.value, full.value)
            && ScoreOf(pruned.value) == ScoreOf(full.value)
  {
    PruningSoundWith(fns, suite, ms, CoveredBy(Command(fns, NO_MUTANT, suite)));
  }

  /** The same for processes whose threads recorded their hits under any schedule. */
  lemma ThreadedPruningSound(fns: Module, suite: Suite, ms: seq<Mutant>, flushes: seq<seq<u32>>)
    requires StatusOf(fns, NO_MUTANT, suite) == Pass
    requires var outs := Command(fns, NO_MUTANT, suite);
             && NO_MUTANT !in AllHits(outs)
             && |flushes| == |outs| && (forall k :: 0 <= k < |outs| ==> LogsAs(outs[k], flushes[k]))
             && forall k :: 0 <= k < |outs| && outs[k].st.hits != [] ==>
                  Exits(outs[k]) && |HitsOf(outs[k])| <= 16
    ensures var pruned := CampaignWith(fns, suite, ms, false, LoggedIds(flushes));
            var full := CampaignOf(fns, suite, ms, true);
            pruned.Some? && full.Some? && SameReport(pruned.value, full.value)
  {
    ThreadedCoverage(Command(fns, NO_MUTANT, suite), flushes);
    PruningSoundWith(fns, suite, ms, LoggedIds(flushes));
  }
}
