/** A deterministic test suite as a chain of processes, and the hit log that they leave behind. */
module Suites {
  import opened Scalars
  import opened Text
  import opened IR
  import opened Coverage
  import opened Hash
  import opened Report
  import HitTable
  import Runtime
  import Flush
  import Seqs

  /** One process of the suite: the world it runs in, its entry point, and its time limit. */
  datatype Test = Test(world: seq<Event> -> Option<Word>, fn: nat, args: seq<Word>, fuel: nat)

  /** What a process shows to the outside. */
  datatype Obs = Obs(res: Result, trace: seq<Event>)

  /** Which process the suite starts next, given what the earlier ones showed, and how the
      command ends, given what all of them showed. */
  datatype Suite = Suite(next: seq<Obs> -> Option<Test>, verdict: seq<Obs> -> RunStatus, limit: nat)

  function Process(m: Module, active: u32, t: Test): Out {
    RunFn(m, Config(active, t.world), t.fn, t.args, START, t.fuel)
  }

  function Show(o: Out): Obs {
    Obs(o.res, o.st.trace)
  }

  function ShowAll(outs: seq<Out>): seq<Obs> {
    if outs == [] then [] else [Show(outs[0])] + ShowAll(outs[1..])
  }

  lemma {:induction false} ShownLength(outs: seq<Out>)
    ensures |ShowAll(outs)| == |outs|
  {
    if outs != [] { ShownLength(outs[1..]); }
  }

  /** A process shows its result and its trace, and the suite sees what each process showed, in order. */
  lemma {:induction false} ShownExactly(outs: seq<Out>, k: nat)
    requires k < |outs|
    ensures |ShowAll(outs)| == |outs|
    ensures ShowAll(outs)[k] == Obs(outs[k].res, outs[k].st.trace)
  {
    ShownLength(outs);
    if k > 0 { ShownExactly(outs[1..], k - 1); }
  }

  /** The processes that follow those in `seen`, at most `n` of them. */
  function RunSuite(m: Module, active: u32, suite: Suite, seen: seq<Obs>, n: nat): seq<Out>
    decreases n
  {
    if n == 0 || suite.next(seen).None? then [] else
      var o := Process(m, active, suite.next(seen).value);
      [o] + RunSuite(m, active, suite, seen + [Show(o)], n - 1)
  }

  /** The whole command, with `MULATION_MUTANT` selecting `active`. */
  function Command(m: Module, active: u32, suite: Suite): seq<Out> {
    RunSuite(m, active, suite, [], suite.limit)
  }

  lemma {:induction false} SuiteEnds(m: Module, active: u32, suite: Suite, seen: seq<Obs>, n: nat)
    ensures var outs := RunSuite(m, active, suite, seen, n);
            |outs| <= n && (|outs| < n ==> suite.next(seen + ShowAll(outs)).None?)
    decreases n
  {
    assert seen + [] == seen;
    if n > 0 && suite.next(seen).Some? {
      var o := Process(m, active, suite.next(seen).value);
      var rest := RunSuite(m, active, suite, seen + [Show(o)], n - 1);
      SuiteEnds(m, active, suite, seen + [Show(o)], n - 1);
      ShowFirst(seen, o, rest);
    }
  }

  lemma ShowFirst(seen: seq<Obs>, o: Out, rest: seq<Out>)
    ensures seen + ShowAll([o] + rest) == (seen + [Show(o)]) + ShowAll(rest)
  {
    assert ([o] + rest)[1..] == rest;
    Seqs.Assoc(seen, [Show(o)], ShowAll(rest));
  }

  lemma {:induction false} SuiteStarts(m: Module, active: u32, suite: Suite, seen: seq<Obs>, n: nat, k: nat)
    requires k < |RunSuite(m, active, suite, seen, n)|
    ensures var outs := RunSuite(m, active, suite, seen, n);
            suite.next(seen + ShowAll(outs[..k])).Some?
            && outs[k] == Process(m, active, suite.next(seen + ShowAll(outs[..k])).value)
    decreases n
  {
    var outs, o := RunSuite(m, active, suite, seen, n), Process(m, active, suite.next(seen).value);
    var rest := RunSuite(m, active, suite, seen + [Show(o)], n - 1);
    if k == 0 {
      assert seen + [] == seen;
    } else {
      SuiteStarts(m, active, suite, seen + [Show(o)], n - 1, k - 1);
      assert outs[..k] == [o] + rest[..k - 1];
      ShowFirst(seen, o, rest[..k - 1]);
    }
  }

  /** The command starts process after process: each is the one that the suite asks for when it has seen
      the results and traces of those before, and runs from an empty trace in its own world, with the
      mutant selected; the command goes on until the suite asks for none or its limit is reached. */
  lemma CommandRuns(m: Module, active: u32, suite: Suite, k: nat)
    ensures var outs := Command(m, active, suite);
            && |outs| <= suite.limit && (|outs| < suite.limit ==> suite.next(ShowAll(outs)).None?)
            && (k < |outs| ==>
                  && suite.next(ShowAll(outs[..k])).Some?
                  && var t := suite.next(ShowAll(outs[..k])).value;
                     outs[k] == RunFn(m, Config(active, t.world), t.fn, t.args, START, t.fuel))
  {
    var outs := Command(m, active, suite);
    SuiteEnds(m, active, suite, [], suite.limit);
    assert [] + ShowAll(outs) == ShowAll(outs);
    if k < |outs| {
      SuiteStarts(m, active, suite, [], suite.limit, k);
      assert [] + ShowAll(outs[..k]) == ShowAll(outs[..k]);
    }
  }

  function StatusOf(m: Module, active: u32, suite: Suite): RunStatus {
    suite.verdict(ShowAll(Command(m, active, suite)))
  }

  function OracleOf(m: Module, suite: Suite): Oracle {
    (id: u32) => StatusOf(m, id, suite)
  }

  /** The runner hands an id over as decimal text; the runtime reads back the same id. */
  lemma IdSurvivesEnvironment(id: u32)
    ensures Dec(id) != "" && ToUnsigned(Dec(id)) == id
  {
    ParseDec(id, "");
    assert Dec(id) + "" == Dec(id);
  }

  // ---------------------------------------------------------------- the hit log

  /** The log is written by an `atexit` handler: a process that traps, is killed by its time limit
      or ends without its handlers writes nothing. */
  predicate Exits(o: Out) {
    o.res.Ret?
  }

  function TableOf(o: Out): seq<u32> {
    Runtime.RecordAll(HitHash, Runtime.NoHits(), o.st.hits)
  }

  /** What one process appends to the hit log. */
  function FlushOf(o: Out): seq<u32> {
    if Exits(o) then Flush.Occupied(TableOf(o), HitTable.HIT_CAP) else []
  }

  function Flushes(outs: seq<Out>): (r: seq<seq<u32>>)
    ensures |r| == |outs| && forall k :: 0 <= k < |outs| ==> r[k] == FlushOf(outs[k])
  {
    seq(|outs|, k requires 0 <= k < |outs| => FlushOf(outs[k]))
  }

  function LogTexts(flushes: seq<seq<u32>>): (r: seq<string>)
    ensures |r| == |flushes| && forall k :: 0 <= k < |flushes| ==> r[k] == Flush.LogText(flushes[k])
  {
    seq(|flushes|, k requires 0 <= k < |flushes| => Flush.LogText(flushes[k]))
  }

  function HitLog(flushes: seq<seq<u32>>): string {
    Flush.Concat(LogTexts(flushes))
  }

  function LoggedIds(flushes: seq<seq<u32>>): set<u32> {
    Flush.IdsOfLines(Lines(HitLog(flushes)))
  }

  function CoveredBy(outs: seq<Out>): set<u32> {
    LoggedIds(Flushes(outs))
  }

  function HitsOf(o: Out): set<u32> {
    set id | id in o.st.hits
  }

  /** The ids that some process handed to `mulation_active`. */
  function AllHits(outs: seq<Out>): set<u32> {
    set k, id | 0 <= k < |outs| && id in outs[k].st.hits :: id
  }

  lemma LoggedExactly(flushes: seq<seq<u32>>, id: u32)
    ensures id in LoggedIds(flushes) <==> exists k :: 0 <= k < |flushes| && id in flushes[k]
  {
    Flush.ReloadUnion(flushes, LogTexts(flushes));
  }

  lemma FlushExactly(o: Out, id: u32)
    ensures id in FlushOf(o) <==> o.res.Ret? && id != 0 && id in TableOf(o)
  {
    Flush.OccupiedMember(TableOf(o), HitTable.HIT_CAP, id);
    assert TableOf(o)[..HitTable.HIT_CAP] == TableOf(o);
  }

  /** An id is covered exactly when the table of some process that exits holds it. */
  lemma HitsAreCovered(outs: seq<Out>, id: u32)
    ensures id in CoveredBy(outs) <==>
              exists k :: 0 <= k < |outs| && outs[k].res.Ret? && id != 0 && id in TableOf(outs[k])
  {
    LoggedExactly(Flushes(outs), id);
    forall k | 0 <= k < |outs|
      ensures id in Flushes(outs)[k] <==> outs[k].res.Ret? && id != 0 && id in TableOf(outs[k])
    {
      FlushExactly(outs[k], id);
    }
  }

  /** The log misses no hit. */
  predicate NothingLost(outs: seq<Out>) {
    AllHits(outs) <= CoveredBy(outs)
  }

  /** It misses none when every process that asks exits, and asks about at most 16 different ids. */
  lemma FewHitsNoDrops(outs: seq<Out>)
    requires forall k :: 0 <= k < |outs| && outs[k].st.hits != [] ==>
               Exits(outs[k]) && 0 !in outs[k].st.hits && |HitsOf(outs[k])| <= HitTable.PROBES
    ensures NothingLost(outs)
  {
    forall id | id in AllHits(outs)
      ensures id in CoveredBy(outs)
    {
      var k :| 0 <= k < |outs| && id in outs[k].st.hits;
      FewKept(outs[k], id);
      HitsAreCovered(outs, id);
    }
  }

  lemma FewKept(o: Out, id: u32)
    requires id in o.st.hits && 0 !in o.st.hits && |HitsOf(o)| <= HitTable.PROBES
    ensures id != 0 && id in TableOf(o)
  {
    Runtime.FewAreKept(HitHash, Runtime.NoHits(), o.st.hits, HitsOf(o));
    var k :| 0 <= k < |o.st.hits| && o.st.hits[k] == id;
  }

  // ---------------------------------------------------------------- processes with several threads

  /** A scan that started in the state `s` came to its end and wrote these ids. */
  ghost predicate ScannedAs(s: HitTable.Sys, ms: seq<Flush.Move>, flush: seq<u32>)
    requires |s.slots| == HitTable.HIT_CAP
  {
    var start := Flush.Scan(s, 0, [], [], s.slots);
    && Flush.Possible(HitHash, start, ms)
    && Flush.Scanned(HitHash, start, ms).next == HitTable.HIT_CAP
    && Flush.Scanned(HitHash, start, ms).out == flush
  }

  /** A flush that a process with these hits can leave: threads recorded them in some interleaving
      and returned, then the scan ran while others may have gone on. */
  ghost predicate LoggedUnder(hits: set<u32>, es: seq<HitTable.Event>, ms: seq<Flush.Move>, flush: seq<u32>) {
    && HitTable.Feasible(HitHash, HitTable.EMPTY, es)
    && var s := HitTable.Run(HitHash, HitTable.EMPTY, es);
       s.called == hits && s.threads == map[] && ScannedAs(s, ms, flush)
  }

  ghost predicate LogsAs(o: Out, flush: seq<u32>) {
    if Exits(o) then exists es, ms :: LoggedUnder(HitsOf(o), es, ms, flush) else flush == []
  }

  lemma ScanFinds(s: HitTable.Sys, ms: seq<Flush.Move>, flush: seq<u32>, id: u32)
    requires HitTable.Inv(HitHash, s) && ScannedAs(s, ms, flush) && id in s.slots && id != 0
    ensures id in flush
  {
    Flush.FlushSnapshot(HitHash, s, ms);
  }

  /** Whatever the schedule, a hit is logged unless its window is full of other ids, and with at
      most 16 different ids it always is. */
  lemma ThreadedFlush(hits: set<u32>, es: seq<HitTable.Event>, ms: seq<Flush.Move>, flush: seq<u32>, id: u32)
    requires LoggedUnder(hits, es, ms, flush) && id in hits
    ensures var s := HitTable.Run(HitHash, HitTable.EMPTY, es);
            HitTable.Passed(HitHash, s.slots, id, HitTable.PROBES) || id in flush
    ensures |hits| <= HitTable.PROBES ==> id in flush
  {
    HitTable.AllReturned(HitHash, es, id);
    var s := HitTable.Run(HitHash, HitTable.EMPTY, es);
    if id in s.slots { ScanFinds(s, ms, flush, id); }
  }

  /** So the log of such processes misses no hit either. */
  lemma ThreadedCoverage(outs: seq<Out>, flushes: seq<seq<u32>>)
    requires |flushes| == |outs| && forall k :: 0 <= k < |outs| ==> LogsAs(outs[k], flushes[k])
    requires forall k :: 0 <= k < |outs| && outs[k].st.hits != [] ==>
               Exits(outs[k]) && |HitsOf(outs[k])| <= HitTable.PROBES
    ensures AllHits(outs) <= LoggedIds(flushes)
  {
    forall id | id in AllHits(outs)
      ensures id in LoggedIds(flushes)
    {
      var k :| 0 <= k < |outs| && id in outs[k].st.hits;
      assert LogsAs(outs[k], flushes[k]);
      var es, ms :| LoggedUnder(HitsOf(outs[k]), es, ms, flushes[k]);
      ThreadedFlush(HitsOf(outs[k]), es, ms, flushes[k], id);
      LoggedExactly(flushes, id);
    }
  }

  // ---------------------------------------------------------------- mutants that no process asks about

  lemma {:induction false} SameSuite(m: Module, suite: Suite, seen: seq<Obs>, n: nat, id: u32)
    requires forall k :: 0 <= k < |RunSuite(m, NO_MUTANT, suite, seen, n)| ==>
               Untouched(RunSuite(m, NO_MUTANT, suite, seen, n)[k].st.hits, NO_MUTANT, id)
    ensures RunSuite(m, id, suite, seen, n) == RunSuite(m, NO_MUTANT, suite, seen, n)
    decreases n
  {
    if n > 0 && suite.next(seen).Some? {
      var t := suite.next(seen).value;
      var o := Process(m, NO_MUTANT, t);
      var outs := RunSuite(m, NO_MUTANT, suite, seen, n);
      var rest := RunSuite(m, NO_MUTANT, suite, seen + [Show(o)], n - 1);
      assert outs[0] == o && outs[1..] == rest;
      assert forall k :: 0 <= k < |rest| ==> rest[k] == outs[k + 1];
      SameFn(m, Config(NO_MUTANT, t.world), id, t.fn, t.args, START, t.fuel);
      SameSuite(m, suite, seen + [Show(o)], n - 1, id);
    }
  }

  /** A mutant that the baseline never asked about changes no process of the suite at all. */
  lemma UnhitIsIdle(m: Module, suite: Suite, id: u32)
    requires var hits := AllHits(Command(m, NO_MUTANT, suite)); NO_MUTANT !in hits && id !in hits
    ensures Command(m, id, suite) == Command(m, NO_MUTANT, suite)
  {
    var outs := Command(m, NO_MUTANT, suite);
    forall k | 0 <= k < |outs|
      ensures Untouched(outs[k].st.hits, NO_MUTANT, id)
    {
      assert forall h :: h in outs[k].st.hits ==> h in AllHits(outs);
    }
    SameSuite(m, suite, [], suite.limit, id);
  }

  /** When the log misses no hit, neither does one that is not covered. */
  lemma UncoveredIsIdle(m: Module, suite: Suite, id: u32)
    requires var outs := Command(m, NO_MUTANT, suite);
             NO_MUTANT !in AllHits(outs) && NothingLost(outs) && id !in CoveredBy(outs)
    ensures Command(m, id, suite) == Command(m, NO_MUTANT, suite)
  {
    UnhitIsIdle(m, suite, id);
  }
}
