/** From the status of every run to the counts, the score and the exit code of a campaign. */
module Report {
  import opened Scalars
  import opened Keys

  datatype RunStatus = Pass | Fail | Timeout | Crash

  datatype Outcome = Outcome(order: nat, m: Mutant, cls: string, isKilled: bool, isTimeout: bool, isSurvived: bool)

  /** What a worker stores for mutant `m` at place `i`, given how its run ended. */
  function Classify(i: nat, m: Mutant, status: RunStatus): Outcome {
    match status
    case Timeout => Outcome(i, m, "timeout", true, true, false)
    case Pass => Outcome(i, m, "survived", false, false, true)
    case _ => Outcome(i, m, "killed", true, false, false)
  }

  /** How a run with a given mutant selected ends. */
  type Oracle = u32 -> RunStatus

  function Expected(todo: seq<Mutant>, oracle: Oracle): (r: seq<Option<Outcome>>)
    ensures |r| == |todo|
    ensures forall i :: 0 <= i < |todo| ==> r[i] == Some(Classify(i, todo[i], oracle(todo[i].id)))
  {
    seq(|todo|, i requires 0 <= i < |todo| => Some(Classify(i, todo[i], oracle(todo[i].id))))
  }

  /** What the outcome of a mutant says about its run. */
  lemma OutcomeMeans(todo: seq<Mutant>, oracle: Oracle, i: nat)
    requires i < |todo|
    ensures var o, status := Expected(todo, oracle)[i], oracle(todo[i].id);
            && o.Some? && o.value.order == i && o.value.m == todo[i]
            && (o.value.isKilled <==> status != Pass) && (o.value.isSurvived <==> status == Pass)
            && (o.value.isTimeout <==> status == Timeout)
            && (o.value.cls == "survived" <==> status == Pass) && (o.value.cls == "timeout" <==> status == Timeout)
            && (o.value.cls == "killed" <==> status == Fail || status == Crash)
  {
    assert "survived"[0] == 's' && "timeout"[0] == 't' && "killed"[0] == 'k';
  }

  // ---------------------------------------------------------------- specification

  /** How many of the mutants end with one of the statuses in `want`. */
  function CountOf(ms: seq<Mutant>, oracle: Oracle, want: set<RunStatus>): nat {
    if ms == [] then 0
    else CountOf(ms[..|ms| - 1], oracle, want) + if oracle(ms[|ms| - 1].id) in want then 1 else 0
  }

  function Passing(ms: seq<Mutant>, oracle: Oracle): seq<Mutant> {
    if ms == [] then []
    else Passing(ms[..|ms| - 1], oracle) + if oracle(ms[|ms| - 1].id) == Pass then [ms[|ms| - 1]] else []
  }

  const KILLS: set<RunStatus> := {Fail, Crash}

  /** Every mutant ends in exactly one of three ways. */
  lemma {:induction false} CountsAddUp(ms: seq<Mutant>, oracle: Oracle)
    ensures CountOf(ms, oracle, KILLS) + CountOf(ms, oracle, {Pass}) + CountOf(ms, oracle, {Timeout}) == |ms|
    ensures |Passing(ms, oracle)| == CountOf(ms, oracle, {Pass})
  {
    if ms != [] {
      CountsAddUp(ms[..|ms| - 1], oracle);
      var status := oracle(ms[|ms| - 1].id);
      assert status in KILLS <==> status == Fail || status == Crash;
    }
  }

  /** The places of the mutants that end with one of the statuses in `want`. */
  function Ending(ms: seq<Mutant>, oracle: Oracle, want: set<RunStatus>): set<int> {
    set k | 0 <= k < |ms| && oracle(ms[k].id) in want
  }

  /** The count is the number of these places. */
  lemma {:induction false} CountExact(ms: seq<Mutant>, oracle: Oracle, want: set<RunStatus>)
    ensures CountOf(ms, oracle, want) == |Ending(ms, oracle, want)|
  {
    if ms != [] {
      var n := |ms| - 1;
      CountExact(ms[..n], oracle, want);
      assert Ending(ms, oracle, want) == Ending(ms[..n], oracle, want) + if oracle(ms[n].id) in want then {n} else {};
    }
  }

  /** The survivors are the mutants that pass, in order and as often as they are listed. */
  lemma {:induction false} PassingExact(ms: seq<Mutant>, oracle: Oracle, m: Mutant)
    ensures multiset(Passing(ms, oracle))[m] == if oracle(m.id) == Pass then multiset(ms)[m] else 0
  {
    if ms != [] {
      PassingExact(ms[..|ms| - 1], oracle, m);
      assert ms == ms[..|ms| - 1] + [ms[|ms| - 1]];
    }
  }

  lemma {:induction false} PassingSplit(a: seq<Mutant>, b: seq<Mutant>, oracle: Oracle)
    ensures Passing(a + b, oracle) == Passing(a, oracle) + Passing(b, oracle)
  {
    if b == [] {
      assert a + b == a;
    } else {
      PassingSplit(a, b[..|b| - 1], oracle);
      assert (a + b)[..|a + b| - 1] == a + b[..|b| - 1];
    }
  }

  // ---------------------------------------------------------------- the tally

  /** The loop over the outcomes: timeouts are also counted as killed, and subtracted later. */
  method Tally(outcomes: seq<Option<Outcome>>, ghost todo: seq<Mutant>, ghost oracle: Oracle)
    returns (killed: nat, survived: nat, timeouts: nat, survivors: seq<Mutant>)
    requires outcomes == Expected(todo, oracle)
    ensures killed == CountOf(todo, oracle, KILLS) + timeouts && timeouts == CountOf(todo, oracle, {Timeout})
    ensures survived == CountOf(todo, oracle, {Pass}) && survivors == Passing(todo, oracle)
  {
    killed, survived, timeouts, survivors := 0, 0, 0, [];
    for i := 0 to |outcomes|
      invariant killed == CountOf(todo[..i], oracle, KILLS) + timeouts
                && timeouts == CountOf(todo[..i], oracle, {Timeout})
      invariant survived == CountOf(todo[..i], oracle, {Pass}) && survivors == Passing(todo[..i], oracle)
    {
      assert todo[..i + 1][..i] == todo[..i];
      var o := outcomes[i];
      if o.Some? {
        if o.value.isTimeout {
          timeouts := timeouts + 1;
        }
        if o.value.isKilled {
          killed := killed + 1;
        }
        if o.value.isSurvived {
          survived := survived + 1;
          survivors := survivors + [o.value.m];
        }
      }
    }
    assert todo[..|todo|] == todo;
  }

  // ---------------------------------------------------------------- the report

  datatype Summary = Summary(killed: nat, survived: nat, timeout: nat, survivors: seq<Mutant>, uncovered: seq<Mutant>)

  /** The score in percent; 100 when nothing was scored. */
  function Score(killed: nat, denom: nat): real {
    if denom == 0 then 100.0 else 100.0 * killed as real / denom as real
  }

  method Summarize(outcomes: seq<Option<Outcome>>, uncovered: seq<Mutant>, ghost todo: seq<Mutant>,
                   ghost oracle: Oracle)
    returns (r: Summary)
    requires outcomes == Expected(todo, oracle)
    ensures r == SummaryOf(todo, uncovered, oracle)
  {
    var killed, survived, timeouts, survivors := Tally(outcomes, todo, oracle);
    survived := survived + |uncovered|;
    var killedScored := killed - timeouts;
    r := Summary(killedScored, survived, timeouts, survivors, uncovered);
  }

  function ScoreOf(r: Summary): real {
    Score(r.killed, r.killed + r.survived)
  }

  /** The report when the mutants in `todo` are run and those in `uncovered` are not. */
  function SummaryOf(todo: seq<Mutant>, uncovered: seq<Mutant>, oracle: Oracle): Summary {
    Summary(CountOf(todo, oracle, KILLS), CountOf(todo, oracle, {Pass}) + |uncovered|, CountOf(todo, oracle, {Timeout}),
            Passing(todo, oracle), uncovered)
  }

  lemma ScoreRange(killed: nat, denom: nat)
    requires killed <= denom
    ensures 0.0 <= Score(killed, denom) <= 100.0
  {
    if denom > 0 { Percent(killed as real, denom as real); }
  }

  lemma Percent(k: real, d: real)
    requires 0.0 <= k <= d && d > 0.0
    ensures 0.0 <= 100.0 * k / d <= 100.0
  {
    var q := 100.0 * k / d;
    assert q * d == 100.0 * k;
    if q > 100.0 { TimesGrows(100.0, q, d); }
    if q < 0.0 { TimesGrows(q, 0.0, d); }
  }

  lemma TimesGrows(a: real, b: real, d: real)
    requires a < b && d > 0.0
    ensures a * d < b * d
  {
  }

  /** Nothing is lost or counted twice, whatever the runs do: every mutant is killed, survives or
      times out, and the mutants that are not run survive. */
  lemma Conservation(todo: seq<Mutant>, uncovered: seq<Mutant>, oracle: Oracle)
    ensures var r := SummaryOf(todo, uncovered, oracle);
            && r.killed + r.survived + r.timeout == |todo| + |uncovered|
            && |r.survivors| + |r.uncovered| == r.survived
            && r.killed == |Ending(todo, oracle, {Fail, Crash})|
            && r.survived == |Ending(todo, oracle, {Pass})| + |uncovered|
            && r.timeout == |Ending(todo, oracle, {Timeout})|
  {
    CountsAddUp(todo, oracle);
    CountExact(todo, oracle, KILLS);
    CountExact(todo, oracle, {Pass});
    CountExact(todo, oracle, {Timeout});
  }

  lemma ScoreExact(killed: nat, survived: nat)
    ensures var scored := killed + survived; var score := Score(killed, scored);
            && 0.0 <= score <= 100.0 && score * scored as real == 100.0 * killed as real
            && (score == 100.0 <==> survived == 0) && (score == 0.0 <==> scored > 0 && killed == 0)
  {
    var scored := killed + survived;
    ScoreRange(killed, scored);
    if scored > 0 { Quotient(100.0 * killed as real, scored as real); }
  }

  /** The score is the percentage of the mutants that are scored, which are those that do not time
      out, that end the suite with a failure or a crash.  It is 100 exactly when nothing survives, and
      0 exactly when something is scored and nothing is killed. */
  lemma ScoreMeans(todo: seq<Mutant>, uncovered: seq<Mutant>, oracle: Oracle)
    ensures var score := ScoreOf(SummaryOf(todo, uncovered, oracle));
            var kills, passes := CountOf(todo, oracle, {Fail, Crash}), CountOf(todo, oracle, {Pass});
            var scored := kills + passes + |uncovered|;
            && 0.0 <= score <= 100.0 && score * scored as real == 100.0 * kills as real
            && (score == 100.0 <==> passes + |uncovered| == 0)
            && (score == 0.0 <==> scored > 0 && kills == 0)
  {
    ScoreExact(CountOf(todo, oracle, KILLS), CountOf(todo, oracle, {Pass}) + |uncovered|);
  }

  // ---------------------------------------------------------------- the gate

  /** Whether `--min-score` fails the campaign; the arithmetic is exact here. */
  predicate BelowGate(score: real, minScore: Option<int>) {
    minScore.Some? && score + 0.000000001 < minScore.value as real
  }

  lemma Scaled(a: real, b: real, d: real)
    requires d > 0.0
    ensures a < b <==> a * d < b * d
  {
  }

  /** What the tolerance means exactly. */
  lemma GateExact(killed: nat, denom: nat, n: int)
    requires denom > 0
    ensures BelowGate(Score(killed, denom), Some(n)) <==> (n * denom - 100 * killed) * 1_000_000_000 > denom
  {
    GateScaled(killed as real, denom as real, Score(killed, denom), n as real);
    GateAsIntegers(killed, denom, n);
  }

  lemma GateScaled(k: real, d: real, s: real, n: real)
    requires d > 0.0 && s == 100.0 * k / d
    ensures s + 0.000000001 < n <==> 100.0 * k + 0.000000001 * d < n * d
  {
    Quotient(100.0 * k, d);
    Scaled(s + 0.000000001, n, d);
    Distributes(s, 0.000000001, d);
  }

  lemma Quotient(a: real, d: real)
    requires d > 0.0
    ensures a / d * d == a
  {
  }

  lemma Distributes(a: real, b: real, d: real)
    ensures (a + b) * d == a * d + b * d
  {
  }

  lemma GateAsIntegers(killed: nat, denom: nat, n: int)
    ensures 100.0 * killed as real + 0.000000001 * denom as real < n as real * denom as real
            <==> (n * denom - 100 * killed) * 1_000_000_000 > denom
  {
    assert n as real * denom as real == (n * denom) as real;
    var slack := n * denom - 100 * killed;
    assert slack as real == (n * denom) as real - 100.0 * killed as real;
    assert (slack * 1_000_000_000) as real == slack as real * 1000000000.0;
  }

  /** Below a thousand million scored mutants the tolerance does not matter. */
  lemma GateMeansRatio(killed: nat, denom: nat, n: int)
    requires 0 < denom < 1_000_000_000
    ensures BelowGate(Score(killed, denom), Some(n)) <==> 100 * killed < n * denom
  {
    GateExact(killed, denom, n);
  }

  /** Above it the tolerance lets through a score that is too low. */
  lemma GateSlack()
    ensures var killed, denom, n := 10_000_000, 1_000_000_001, 1;
            100 * killed < n * denom && !BelowGate(Score(killed, denom), Some(n))
  {
    GateExact(10_000_000, 1_000_000_001, 1);
  }

  /** The gate of a campaign: without a minimum score it never fails; with one it fails by the
      percentage of kills among the scored mutants, or, when none is scored, on a minimum over 100. */
  lemma GateOfReport(todo: seq<Mutant>, uncovered: seq<Mutant>, oracle: Oracle, minScore: Option<int>)
    ensures var kills, passes := CountOf(todo, oracle, {Fail, Crash}), CountOf(todo, oracle, {Pass});
            var scored := kills + passes + |uncovered|;
            BelowGate(ScoreOf(SummaryOf(todo, uncovered, oracle)), minScore) <==>
              && minScore.Some?
              && if scored == 0 then minScore.value > 100
                 else (minScore.value * scored - 100 * kills) * 1_000_000_000 > scored
  {
    var kills, scored := CountOf(todo, oracle, {Fail, Crash}),
                         CountOf(todo, oracle, {Fail, Crash}) + CountOf(todo, oracle, {Pass}) + |uncovered|;
    if minScore.Some? {
      if scored > 0 {
        GateExact(kills, scored, minScore.value);
      } else {
        assert 100.0 + 0.000000001 < minScore.value as real <==> minScore.value > 100;
      }
    }
  }
}
