/** The worker pool: threads claim indices from one atomic counter, run the suite with that
    mutant selected, and store the outcome.  The steps of the workers interleave freely. */
module Pool {
  import opened Scalars
  import opened Keys
  import opened Report

  datatype Worker = Claiming | Running(i: nat) | Storing(i: nat, o: Outcome) | Exited

  /** `claims` and `stores` are history: who claimed and who stored which index, in order. */
  datatype Pool = Pool(next: nat, workers: seq<Worker>, outcomes: seq<Option<Outcome>>,
                       claims: seq<(nat, nat)>, stores: seq<(nat, nat)>)

  /** The number of workers: the jobs option raised to 1, lowered to the number of mutants. */
  function PoolSize(jobs: int, n: nat): (k: nat)
    ensures k >= 1
  {
    var j := if jobs < 1 then 1 else jobs;
    if j == 1 || n <= 1 then 1 else if j < n then j else n
  }

  /** The jobs, but at least 1 and at most as many as there are mutants, if there are any. */
  lemma PoolSizeExact(jobs: int, n: nat)
    ensures var k := PoolSize(jobs, n);
            && (k == 1 || (k <= jobs && k <= n))
            && (jobs <= 1 || n <= 1 ==> k == 1)
            && (jobs > 1 && n > 1 ==> k == jobs || k == n)
  {
  }

  function Start(todo: seq<Mutant>, size: nat): Pool {
    Pool(0, seq(size, w => Claiming), seq(|todo|, i => None), [], [])
  }

  predicate CanStep(p: Pool, w: nat) {
    w < |p.workers| && p.workers[w] != Exited
  }

  /** The next atomic step of worker `w`. */
  function Step(p: Pool, todo: seq<Mutant>, oracle: Oracle, w: nat): Pool
    requires CanStep(p, w)
  {
    match p.workers[w]
    case Claiming =>
      if p.next < |todo| then
        p.(next := p.next + 1, workers := p.workers[w := Running(p.next)], claims := p.claims + [(w, p.next)])
      else
        p.(next := p.next + 1, workers := p.workers[w := Exited])
    case Running(i) =>
      if i < |todo| then p.(workers := p.workers[w := Storing(i, Classify(i, todo[i], oracle(todo[i].id)))]) else p
    case Storing(i, o) =>
      if i < |p.outcomes| then
        p.(outcomes := p.outcomes[i := Some(o)], workers := p.workers[w := Claiming], stores := p.stores + [(w, i)])
      else p
    case Exited => p
  }

  // ---------------------------------------------------------------- invariant

  predicate Holds(p: Pool, w: nat, i: nat) {
    && w < |p.workers|
    && ((p.workers[w].Running? && p.workers[w].i == i) || (p.workers[w].Storing? && p.workers[w].i == i))
  }

  /** The claims are 0, 1, 2, ... in order. */
  ghost predicate ClaimsOk(p: Pool, n: nat) {
    && |p.claims| == (if p.next < n then p.next else n)
    && forall k :: 0 <= k < |p.claims| ==> p.claims[k].1 == k
  }

  /** What is stored was claimed by the worker that stored it, and is stored once. */
  ghost predicate StoresOk(p: Pool) {
    && (forall k :: 0 <= k < |p.stores| ==> p.stores[k] in p.claims)
    && (forall j, k :: 0 <= j < k < |p.stores| ==> p.stores[j].1 != p.stores[k].1)
    && (forall k :: 0 <= k < |p.stores| ==> p.stores[k].1 < |p.outcomes| && p.outcomes[p.stores[k].1].Some?)
  }

  ghost predicate HeldOk(p: Pool, todo: seq<Mutant>, oracle: Oracle) {
    forall w: nat, i: nat {:trigger Holds(p, w, i)} :: Holds(p, w, i) ==>
      && i < |todo| && i < |p.outcomes| && (w, i) in p.claims && p.outcomes[i].None?
      && (p.workers[w].Storing? ==> p.workers[w].o == Classify(i, todo[i], oracle(todo[i].id)))
  }

  ghost predicate HeldOnce(p: Pool) {
    forall v: nat, w: nat, i: nat {:trigger Holds(p, v, i), Holds(p, w, i)} ::
      Holds(p, v, i) && Holds(p, w, i) ==> v == w
  }

  /** Every claimed index is held by a worker or stored, with the right outcome. */
  ghost predicate OutcomesOk(p: Pool, todo: seq<Mutant>, oracle: Oracle) {
    && |p.outcomes| == |todo|
    && forall i: nat :: i < |todo| ==> OutcomeOk(p, todo, oracle, i)
  }

  ghost predicate OutcomeOk(p: Pool, todo: seq<Mutant>, oracle: Oracle, i: nat)
    requires i < |todo| && i < |p.outcomes|
  {
    && (p.outcomes[i].Some? ==> p.outcomes[i].value == Classify(i, todo[i], oracle(todo[i].id)))
    && (p.outcomes[i].Some? ==> exists w :: (w, i) in p.stores)
    && (p.outcomes[i].None? && i < p.next ==> exists w: nat :: Holds(p, w, i))
  }

  ghost predicate ExitsOk(p: Pool, n: nat) {
    forall w :: 0 <= w < |p.workers| && p.workers[w] == Exited ==> p.next >= n
  }

  ghost predicate Inv(p: Pool, todo: seq<Mutant>, oracle: Oracle) {
    && ClaimsOk(p, |todo|) && StoresOk(p) && HeldOk(p, todo, oracle) && HeldOnce(p)
    && OutcomesOk(p, todo, oracle) && ExitsOk(p, |todo|)
  }

  lemma StartOk(todo: seq<Mutant>, oracle: Oracle, size: nat)
    ensures Inv(Start(todo, size), todo, oracle)
  {
  }

  lemma HoldsAfter(p: Pool, w: nat, x: Worker, v: nat, i: nat)
    requires w < |p.workers|
    ensures Holds(p.(workers := p.workers[w := x]), v, i) <==>
            if v == w then (x.Running? && x.i == i) || (x.Storing? && x.i == i) else Holds(p, v, i)
  {
  }

  lemma NextIsEmpty(p: Pool, todo: seq<Mutant>, oracle: Oracle)
    requires Inv(p, todo, oracle)
    ensures p.next < |todo| ==> p.outcomes[p.next].None?
  {
    if p.next < |todo| {
      assert OutcomeOk(p, todo, oracle, p.next);
    }
  }

  lemma ClaimKeeps(p: Pool, todo: seq<Mutant>, oracle: Oracle, w: nat)
    requires Inv(p, todo, oracle) && CanStep(p, w) && p.workers[w] == Claiming
    ensures Inv(Step(p, todo, oracle, w), todo, oracle)
  {
    var q := Step(p, todo, oracle, w);
    NextIsEmpty(p, todo, oracle);
    forall v: nat, i: nat
      ensures Holds(q, v, i) <==> if v == w then p.next < |todo| && i == p.next else Holds(p, v, i)
    {
      HoldsAfter(p, w, q.workers[w], v, i);
    }
    forall i: nat | i < |todo|
      ensures OutcomeOk(q, todo, oracle, i)
    {
      assert OutcomeOk(p, todo, oracle, i);
      if i == p.next {
        assert Holds(q, w, i);
      } else if p.outcomes[i].None? && i < p.next {
        var v: nat :| Holds(p, v, i);
        assert Holds(q, v, i);
      }
    }
  }

  lemma RunKeeps(p: Pool, todo: seq<Mutant>, oracle: Oracle, w: nat)
    requires Inv(p, todo, oracle) && CanStep(p, w) && p.workers[w].Running?
    ensures Inv(Step(p, todo, oracle, w), todo, oracle)
  {
    var q := Step(p, todo, oracle, w);
    assert Holds(p, w, p.workers[w].i);
    forall v: nat, i: nat
      ensures Holds(q, v, i) <==> Holds(p, v, i)
    {
      HoldsAfter(p, w, q.workers[w], v, i);
    }
    forall i: nat | i < |todo|
      ensures OutcomeOk(q, todo, oracle, i)
    {
      assert OutcomeOk(p, todo, oracle, i);
      if p.outcomes[i].None? && i < p.next {
        var v: nat :| Holds(p, v, i);
        assert Holds(q, v, i);
      }
    }
  }

  lemma StoreKeeps(p: Pool, todo: seq<Mutant>, oracle: Oracle, w: nat)
    requires Inv(p, todo, oracle) && CanStep(p, w) && p.workers[w].Storing?
    ensures Inv(Step(p, todo, oracle, w), todo, oracle)
  {
    var q, at := Step(p, todo, oracle, w), p.workers[w].i;
    assert Holds(p, w, at);
    forall v: nat, i: nat
      ensures Holds(q, v, i) <==> v != w && Holds(p, v, i)
    {
      HoldsAfter(p, w, Claiming, v, i);
    }
    forall i: nat | i < |todo|
      ensures OutcomeOk(q, todo, oracle, i)
    {
      assert OutcomeOk(p, todo, oracle, i);
      if i == at {
        assert q.stores[|p.stores|] == (w, i);
      } else if p.outcomes[i].None? && i < p.next {
        var v: nat :| Holds(p, v, i);
        assert Holds(q, v, i);
      }
    }
  }

  lemma StepKeeps(p: Pool, todo: seq<Mutant>, oracle: Oracle, w: nat)
    requires Inv(p, todo, oracle) && CanStep(p, w)
    ensures Inv(Step(p, todo, oracle, w), todo, oracle)
  {
    match p.workers[w]
    case Claiming => ClaimKeeps(p, todo, oracle, w);
    case Running(_) => RunKeeps(p, todo, oracle, w);
    case Storing(_, _) => StoreKeeps(p, todo, oracle, w);
  }

  // ---------------------------------------------------------------- every schedule

  /** A schedule names the worker that moves next. */
  predicate Feasible(p: Pool, todo: seq<Mutant>, oracle: Oracle, schedule: seq<nat>)
    decreases |schedule|
  {
    || schedule == []
    || (CanStep(p, schedule[0]) && Feasible(Step(p, todo, oracle, schedule[0]), todo, oracle, schedule[1..]))
  }

  function Run(p: Pool, todo: seq<Mutant>, oracle: Oracle, schedule: seq<nat>): Pool
    requires Feasible(p, todo, oracle, schedule)
    decreases |schedule|
  {
    if schedule == [] then p else Run(Step(p, todo, oracle, schedule[0]), todo, oracle, schedule[1..])
  }

  lemma {:induction false} RunKeepsInv(p: Pool, todo: seq<Mutant>, oracle: Oracle, schedule: seq<nat>)
    requires Inv(p, todo, oracle) && Feasible(p, todo, oracle, schedule)
    ensures Inv(Run(p, todo, oracle, schedule), todo, oracle)
    ensures |Run(p, todo, oracle, schedule).workers| == |p.workers|
    decreases |schedule|
  {
    if schedule != [] {
      StepKeeps(p, todo, oracle, schedule[0]);
      RunKeepsInv(Step(p, todo, oracle, schedule[0]), todo, oracle, schedule[1..]);
    }
  }

  /** All threads can be joined. */
  predicate Joined(p: Pool) {
    forall w :: 0 <= w < |p.workers| ==> p.workers[w] == Exited
  }

  /** At any time of any schedule: no index is claimed twice or skipped, and an index is stored
      at most once, by its claimer. */
  lemma ClaimedOnce(todo: seq<Mutant>, oracle: Oracle, size: nat, schedule: seq<nat>, j: nat, k: nat)
    requires Feasible(Start(todo, size), todo, oracle, schedule)
    ensures var p := Run(Start(todo, size), todo, oracle, schedule);
            && (j < |p.claims| ==> p.claims[j].1 == j < |todo|)
            && (j < |p.stores| ==> p.stores[j] in p.claims)
            && (j < k < |p.stores| ==> p.stores[j].1 != p.stores[k].1)
  {
    StartOk(todo, oracle, size);
    RunKeepsInv(Start(todo, size), todo, oracle, schedule);
  }

  /** After the joins the outcomes are those of a single worker, for any number of workers and
      any schedule. */
  lemma ScheduleIndependence(todo: seq<Mutant>, oracle: Oracle, size: nat, schedule: seq<nat>)
    requires size >= 1 && Feasible(Start(todo, size), todo, oracle, schedule)
    requires Joined(Run(Start(todo, size), todo, oracle, schedule))
    ensures Run(Start(todo, size), todo, oracle, schedule).outcomes == Expected(todo, oracle)
  {
    StartOk(todo, oracle, size);
    RunKeepsInv(Start(todo, size), todo, oracle, schedule);
    var p := Run(Start(todo, size), todo, oracle, schedule);
    assert p.workers[0] == Exited;
    forall i: nat | i < |todo|
      ensures p.outcomes[i] == Some(Classify(i, todo[i], oracle(todo[i].id)))
    {
      assert OutcomeOk(p, todo, oracle, i);
    }
  }

  // ---------------------------------------------------------------- termination

  function Weight(w: Worker): nat {
    match w
    case Claiming => 1
    case Running(_) => 3
    case Storing(_, _) => 2
    case Exited => 0
  }

  function Weights(ws: seq<Worker>): nat {
    if ws == [] then 0 else Weights(ws[..|ws| - 1]) + Weight(ws[|ws| - 1])
  }

  lemma {:induction false} WeightsUpdate(ws: seq<Worker>, w: nat, x: Worker)
    requires w < |ws|
    ensures Weights(ws[w := x]) == Weights(ws) - Weight(ws[w]) + Weight(x)
    decreases |ws|
  {
    var front := ws[..|ws| - 1];
    if w == |ws| - 1 {
      assert ws[w := x][..|ws| - 1] == front;
    } else {
      assert ws[w := x][..|ws| - 1] == front[w := x];
      WeightsUpdate(front, w, x);
    }
  }

  /** The number of steps left, however they are scheduled. */
  function Left(p: Pool, n: nat): nat {
    3 * (if p.next < n then n - p.next else 0) + Weights(p.workers)
  }

  lemma StepSpends(p: Pool, todo: seq<Mutant>, oracle: Oracle, w: nat)
    requires Inv(p, todo, oracle) && CanStep(p, w)
    ensures Left(Step(p, todo, oracle, w), |todo|) == Left(p, |todo|) - 1
  {
    var q := Step(p, todo, oracle, w);
    if !p.workers[w].Claiming? { assert Holds(p, w, p.workers[w].i); }
    WeightsUpdate(p.workers, w, q.workers[w]);
  }

  /** The pool never blocks, and every schedule that goes on long enough joins it: the number
      of steps is fixed beforehand. */
  lemma {:induction false} Terminates(p: Pool, todo: seq<Mutant>, oracle: Oracle, schedule: seq<nat>)
    requires Inv(p, todo, oracle) && Feasible(p, todo, oracle, schedule)
    ensures |schedule| + Left(Run(p, todo, oracle, schedule), |todo|) == Left(p, |todo|)
    ensures |schedule| == Left(p, |todo|) ==> Joined(Run(p, todo, oracle, schedule))
    decreases |schedule|
  {
    if schedule != [] {
      StepKeeps(p, todo, oracle, schedule[0]);
      StepSpends(p, todo, oracle, schedule[0]);
      Terminates(Step(p, todo, oracle, schedule[0]), todo, oracle, schedule[1..]);
    } else if Left(p, |todo|) == 0 {
      NothingLeft(p.workers);
    }
  }

  lemma {:induction false} NothingLeft(ws: seq<Worker>)
    requires Weights(ws) == 0
    ensures forall w :: 0 <= w < |ws| ==> ws[w] == Exited
    decreases |ws|
  {
    if ws != [] {
      NothingLeft(ws[..|ws| - 1]);
      assert forall w :: 0 <= w < |ws| - 1 ==> ws[w] == ws[..|ws| - 1][w];
    }
  }

  lemma {:induction false} StartWeights(n: nat)
    ensures Weights(seq(n, w => Claiming)) == n
  {
    if n > 0 {
      StartWeights(n - 1);
      assert seq(n, w => Claiming)[..n - 1] == seq(n - 1, w => Claiming);
    }
  }

  /** A pool takes three steps for every mutant and one for every worker, in whatever order. */
  lemma StepsFromStart(todo: seq<Mutant>, oracle: Oracle, size: nat, schedule: seq<nat>)
    requires size >= 1 && Feasible(Start(todo, size), todo, oracle, schedule)
    ensures |schedule| <= 3 * |todo| + size
    ensures |schedule| == 3 * |todo| + size <==> Joined(Run(Start(todo, size), todo, oracle, schedule))
  {
    StartOk(todo, oracle, size);
    StartWeights(size);
    Terminates(Start(todo, size), todo, oracle, schedule);
    RunKeepsInv(Start(todo, size), todo, oracle, schedule);
    var p := Run(Start(todo, size), todo, oracle, schedule);
    if Joined(p) {
      AllExited(p.workers);
      assert p.workers[0] == Exited;
    }
  }

  lemma {:induction false} AllExited(ws: seq<Worker>)
    requires forall w :: 0 <= w < |ws| ==> ws[w] == Exited
    ensures Weights(ws) == 0
    decreases |ws|
  {
    if ws != [] { AllExited(ws[..|ws| - 1]); }
  }

  /** The pool never blocks: from every state of every schedule it can go on until all workers
      have exited, and every way of doing so takes the same number of steps. */
  lemma {:induction false} CanJoin(p: Pool, todo: seq<Mutant>, oracle: Oracle) returns (schedule: seq<nat>)
    requires Inv(p, todo, oracle) && p.workers != []
    ensures Feasible(p, todo, oracle, schedule) && Joined(Run(p, todo, oracle, schedule))
    ensures |schedule| == Left(p, |todo|)
    decreases Left(p, |todo|)
  {
    if Joined(p) {
      schedule := [];
      AllExited(p.workers);
      assert p.workers[0] == Exited;
    } else {
      var w :| 0 <= w < |p.workers| && p.workers[w] != Exited;
      StepKeeps(p, todo, oracle, w);
      StepSpends(p, todo, oracle, w);
      var rest := CanJoin(Step(p, todo, oracle, w), todo, oracle);
      schedule := [w] + rest;
      assert schedule[1..] == rest;
    }
  }

  lemma PoolCanJoin(todo: seq<Mutant>, oracle: Oracle, size: nat, past: seq<nat>) returns (schedule: seq<nat>)
    requires size >= 1 && Feasible(Start(todo, size), todo, oracle, past)
    ensures var p := Run(Start(todo, size), todo, oracle, past);
            Feasible(p, todo, oracle, schedule) && Joined(Run(p, todo, oracle, schedule))
    ensures |past| + |schedule| == 3 * |todo| + size
  {
    StartOk(todo, oracle, size);
    StartWeights(size);
    RunKeepsInv(Start(todo, size), todo, oracle, past);
    Terminates(Start(todo, size), todo, oracle, past);
    schedule := CanJoin(Run(Start(todo, size), todo, oracle, past), todo, oracle);
  }

  // ---------------------------------------------------------------- one worker

  /** The worker loop when nobody else claims. */
  method Work(todo: seq<Mutant>, oracle: Oracle) returns (outcomes: seq<Option<Outcome>>)
    ensures outcomes == Expected(todo, oracle)
  {
    outcomes := seq(|todo|, i => None);
    var next := 0;
    while true
      invariant next <= |todo| == |outcomes|
      invariant forall i :: 0 <= i < next ==> outcomes[i] == Some(Classify(i, todo[i], oracle(todo[i].id)))
      decreases |todo| - next
    {
      var i := next;
      if i >= |todo| {
        break;
      }
      next := next + 1;
      var status := oracle(todo[i].id);
      outcomes := outcomes[i := Some(Classify(i, todo[i], status))];
    }
  }
}
