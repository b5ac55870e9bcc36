/** The lock-free hit table: open addressing with at most 16 probes, filled by compare-and-swap.

    Threads are interleaved one atomic operation at a time; any number of them may be inside
    `record_hit` at once.  Nothing here depends on the hash function; the runtime uses
    `Hash.HitHash`. */
module HitTable {
  import opened Scalars

  const HIT_CAP: nat := 0x1_0000
  const PROBES: nat := 16

  type HashFn = u32 -> u32

  /** Slot `n` of the probe window of an id. */
  function Slot(h: HashFn, id: u32, n: nat): (i: nat)
    ensures i < HIT_CAP
  {
    (h(id) % HIT_CAP + n) % HIT_CAP
  }

  /** The window of an id: 16 neighbouring slots of a table of 65536, from the low 16 bits of its hash
      upward, and on from slot 0 behind the last one. */
  lemma NeighbouringSlots(h: HashFn, id: u32, n: nat)
    ensures PROBES == 16 && Slot(h, id, 0) == h(id) % 65536
    ensures Slot(h, id, n + 1) == if Slot(h, id, n) == 65535 then 0 else Slot(h, id, n) + 1
  {
    var home, a, b := h(id) % 65536, (h(id) % 65536 + n) / 65536, (h(id) % 65536 + n) % 65536;
    assert home + n == 65536 * a + b;
    if b == 65535 {
      assert home + (n + 1) == 65536 * (a + 1);
    } else {
      assert home + (n + 1) == 65536 * a + (b + 1);
    }
  }

  lemma SlotsDiffer(h: HashFn, id: u32, m: nat, n: nat)
    requires m < n < PROBES
    ensures Slot(h, id, m) != Slot(h, id, n)
  {
    WrapOnce(h(id) % HIT_CAP, m);
    WrapOnce(h(id) % HIT_CAP, n);
  }

  lemma WrapOnce(home: nat, n: nat)
    requires home < HIT_CAP && n < PROBES
    ensures (home + n) % HIT_CAP == if home + n < HIT_CAP then home + n else home + n - HIT_CAP
  {
  }

  // ---------------------------------------------------------------- the protocol

  /** Where a thread is: about to compare-and-swap slot `n` of its window, or about to
      increment the counter. */
  datatype PC = Probing(id: u32, n: nat) | Counting(id: u32)

  /** Threads not in the map are outside `record_hit`.  `called` and `finished` are history:
      the ids passed in so far, and those of completed calls. */
  datatype Sys = Sys(slots: seq<u32>, count: u32, threads: map<nat, PC>, called: set<u32>, finished: set<u32>)

  datatype Event = Call(tid: nat, id: u32) | Cas(tid: nat) | Add(tid: nat)

  const EMPTY := Sys(seq(HIT_CAP, i => 0), 0, map[], {}, {})

  predicate Enabled(s: Sys, e: Event) {
    match e
    case Call(t, id) => t !in s.threads && id != 0
    case Cas(t) => t in s.threads && s.threads[t].Probing?
    case Add(t) => t in s.threads && s.threads[t].Counting?
  }

  function Leave(s: Sys, t: nat, id: u32): Sys {
    s.(threads := s.threads - {t}, finished := s.finished + {id})
  }

  /** One atomic operation. */
  function Apply(h: HashFn, s: Sys, e: Event): Sys
    requires |s.slots| == HIT_CAP && Enabled(s, e)
  {
    match e
    case Call(t, id) => s.(threads := s.threads[t := Probing(id, 0)], called := s.called + {id})
    case Cas(t) =>
      var id, n := s.threads[t].id, s.threads[t].n;
      var i := Slot(h, id, n);
      if s.slots[i] == 0 then s.(slots := s.slots[i := id], threads := s.threads[t := Counting(id)])
      else if s.slots[i] == id || n + 1 >= PROBES then Leave(s, t, id)
      else s.(threads := s.threads[t := Probing(id, n + 1)])
    case Add(t) => Leave(s.(count := (s.count + 1) % 0x1_0000_0000), t, s.threads[t].id)
  }

  // ---------------------------------------------------------------- invariant

  /** The first `n` slots of the window hold other ids. */
  ghost predicate Passed(h: HashFn, slots: seq<u32>, id: u32, n: nat)
    requires |slots| == HIT_CAP
  {
    forall d: nat {:trigger Slot(h, id, d)} :: d < n ==> slots[Slot(h, id, d)] != 0 && slots[Slot(h, id, d)] != id
  }

  ghost predicate At(h: HashFn, slots: seq<u32>, id: u32, d: nat)
    requires |slots| == HIT_CAP
  {
    d < PROBES && slots[Slot(h, id, d)] == id && Passed(h, slots, id, d)
  }

  ghost predicate Recorded(h: HashFn, slots: seq<u32>, id: u32)
    requires |slots| == HIT_CAP
  {
    exists d: nat :: At(h, slots, id, d)
  }

  /** Each occupied slot is the place of its id: `d` slots into its window, behind `d` others. */
  ghost predicate Placed(h: HashFn, slots: seq<u32>)
    requires |slots| == HIT_CAP
  {
    forall i: nat :: i < HIT_CAP && slots[i] != 0 ==> PlacedAt(h, slots, i)
  }

  ghost predicate PlacedAt(h: HashFn, slots: seq<u32>, i: nat)
    requires |slots| == HIT_CAP && i < HIT_CAP
  {
    exists d: nat :: At(h, slots, slots[i], d) && Slot(h, slots[i], d) == i
  }

  ghost predicate ThreadOk(h: HashFn, s: Sys, t: nat)
    requires |s.slots| == HIT_CAP && t in s.threads
  {
    var pc := s.threads[t];
    && pc.id != 0 && pc.id in s.called
    && (pc.Probing? ==> pc.n < PROBES && Passed(h, s.slots, pc.id, pc.n))
    && (pc.Counting? ==> Recorded(h, s.slots, pc.id))
  }

  function Used(slots: seq<u32>): set<nat> {
    set i: nat | i < |slots| && slots[i] != 0
  }

  function Pending(threads: map<nat, PC>): set<nat> {
    set t | t in threads && threads[t].Counting?
  }

  ghost predicate ThreadsOk(h: HashFn, s: Sys)
    requires |s.slots| == HIT_CAP
  {
    forall t {:trigger ThreadOk(h, s, t)} :: t in s.threads ==> ThreadOk(h, s, t)
  }

  /** Slots hold ids that were passed in. */
  ghost predicate SlotsCalled(s: Sys) {
    forall i: nat :: i < |s.slots| && s.slots[i] != 0 ==> s.slots[i] in s.called
  }

  /** A completed call left its id in the table, or found its whole window taken by others. */
  ghost predicate Settled(h: HashFn, slots: seq<u32>, id: u32)
    requires |slots| == HIT_CAP
  {
    id != 0 && (Recorded(h, slots, id) || Passed(h, slots, id, PROBES))
  }

  ghost predicate AllSettled(h: HashFn, s: Sys)
    requires |s.slots| == HIT_CAP
  {
    && s.finished <= s.called
    && forall id {:trigger Settled(h, s.slots, id)} :: id in s.finished ==> Settled(h, s.slots, id)
  }

  ghost predicate Counted(s: Sys) {
    s.count + |Pending(s.threads)| == |Used(s.slots)|
  }

  ghost predicate Inv(h: HashFn, s: Sys) {
    |s.slots| == HIT_CAP && Placed(h, s.slots) && ThreadsOk(h, s) && SlotsCalled(s) && AllSettled(h, s) && Counted(s)
  }

  /** No id is in two slots. */
  lemma NoDuplicates(h: HashFn, slots: seq<u32>, i: nat, j: nat)
    requires |slots| == HIT_CAP && Placed(h, slots) && i < HIT_CAP && j < HIT_CAP
    ensures slots[i] == slots[j] != 0 ==> i == j
  {
    if slots[i] == slots[j] != 0 {
      assert PlacedAt(h, slots, i) && PlacedAt(h, slots, j);
      var id := slots[i];
      var d: nat :| At(h, slots, id, d) && Slot(h, id, d) == i;
      var e: nat :| At(h, slots, id, e) && Slot(h, id, e) == j;
      assert d == e;
    }
  }

  // ---------------------------------------------------------------- one slot is filled

  lemma PassedStays(h: HashFn, slots: seq<u32>, i: nat, id: u32, other: u32, n: nat)
    requires |slots| == HIT_CAP && i < HIT_CAP && slots[i] == 0 && Passed(h, slots, other, n)
    ensures Passed(h, slots[i := id], other, n)
  {
  }

  lemma RecordedStays(h: HashFn, slots: seq<u32>, i: nat, id: u32, other: u32)
    requires |slots| == HIT_CAP && i < HIT_CAP && slots[i] == 0 && other != 0 && Recorded(h, slots, other)
    ensures Recorded(h, slots[i := id], other)
  {
    var d: nat :| At(h, slots, other, d);
    PassedStays(h, slots, i, id, other, d);
    assert At(h, slots[i := id], other, d);
  }

  lemma Fill(h: HashFn, slots: seq<u32>, id: u32, n: nat)
    requires |slots| == HIT_CAP && Placed(h, slots) && id != 0 && n < PROBES
    requires slots[Slot(h, id, n)] == 0 && Passed(h, slots, id, n)
    ensures var filled := slots[Slot(h, id, n) := id]; Placed(h, filled) && At(h, filled, id, n)
  {
    var at := Slot(h, id, n);
    var filled := slots[at := id];
    PassedStays(h, slots, at, id, id, n);
    assert At(h, filled, id, n);
    forall i: nat | i < HIT_CAP && filled[i] != 0
      ensures PlacedAt(h, filled, i)
    {
      if i != at {
        assert PlacedAt(h, slots, i);
        var d: nat :| At(h, slots, slots[i], d) && Slot(h, slots[i], d) == i;
        PassedStays(h, slots, at, id, slots[i], d);
        assert At(h, filled, filled[i], d);
      }
    }
  }

  lemma UsedMore(slots: seq<u32>, i: nat, id: u32)
    requires i < |slots| && slots[i] == 0 && id != 0
    ensures |Used(slots[i := id])| == |Used(slots)| + 1
  {
    assert Used(slots[i := id]) == Used(slots) + {i};
  }

  lemma {:induction false} UsedBound(slots: seq<u32>)
    ensures |Used(slots)| <= |slots|
  {
    if slots != [] {
      var front := slots[..|slots| - 1];
      UsedBound(front);
      assert Used(slots) == Used(front) + if slots[|front|] != 0 then {|front|} else {};
    }
  }

  lemma {:induction false} Subset<T>(a: set<T>, b: set<T>)
    requires a <= b
    ensures |a| <= |b|
    decreases a
  {
    if a != {} {
      var x :| x in a;
      Subset(a - {x}, b - {x});
    }
  }

  // ---------------------------------------------------------------- every run

  lemma EmptyOk(h: HashFn)
    ensures Inv(h, EMPTY)
  {
    assert Used(EMPTY.slots) == {} && Pending(EMPTY.threads) == {};
  }

  lemma PendingAfter(threads: map<nat, PC>, t: nat, pc: PC)
    ensures Pending(threads[t := pc]) == Pending(threads) - {t} + if pc.Counting? then {t} else {}
    ensures Pending(threads - {t}) == Pending(threads) - {t}
  {
  }

  predicate Fills(slots: seq<u32>, slots': seq<u32>, i: nat, id: u32) {
    i < |slots| && slots[i] == 0 && slots' == slots[i := id]
  }

  /** Other threads and finished calls rely on nothing that a filled slot could break. */
  lemma ThreadStays(h: HashFn, s: Sys, s': Sys, t: nat)
    requires |s.slots| == HIT_CAP && ThreadsOk(h, s) && t in s.threads && t in s'.threads
             && s'.threads[t] == s.threads[t]
    requires s.called <= s'.called
    requires s'.slots == s.slots || exists i: nat, id: u32 :: Fills(s.slots, s'.slots, i, id)
    ensures ThreadOk(h, s', t)
  {
    assert ThreadOk(h, s, t);
    if s'.slots != s.slots {
      var i: nat, id: u32 :| Fills(s.slots, s'.slots, i, id);
      if s.threads[t].Counting? { RecordedStays(h, s.slots, i, id, s.threads[t].id); }
    }
  }

  lemma SettledStays(h: HashFn, slots: seq<u32>, i: nat, id: u32, f: u32)
    requires |slots| == HIT_CAP && i < HIT_CAP && slots[i] == 0 && Settled(h, slots, f)
    ensures Settled(h, slots[i := id], f)
  {
    if Recorded(h, slots, f) { RecordedStays(h, slots, i, id, f); }
  }

  lemma FillKeeps(h: HashFn, s: Sys, t: nat, id: u32, n: nat)
    requires Inv(h, s) && t in s.threads && s.threads[t] == Probing(id, n) && s.slots[Slot(h, id, n)] == 0
    ensures Inv(h, s.(slots := s.slots[Slot(h, id, n) := id], threads := s.threads[t := Counting(id)]))
  {
    var i := Slot(h, id, n);
    var after := s.(slots := s.slots[i := id], threads := s.threads[t := Counting(id)]);
    assert ThreadOk(h, s, t);
    Fill(h, s.slots, id, n);
    UsedMore(s.slots, i, id);
    PendingAfter(s.threads, t, Counting(id));
    assert Fills(s.slots, after.slots, i, id);
    forall u | u in after.threads
      ensures ThreadOk(h, after, u)
    {
      if u != t { ThreadStays(h, s, after, u); }
    }
    forall f | f in s.finished
      ensures Settled(h, after.slots, f)
    {
      SettledStays(h, s.slots, i, id, f);
    }
  }

  lemma LeaveKeeps(h: HashFn, s: Sys, t: nat, id: u32)
    requires Inv(h, s) && t in s.threads && s.threads[t].Probing? && id in s.called && Settled(h, s.slots, id)
    ensures Inv(h, Leave(s, t, id))
  {
    PendingAfter(s.threads, t, s.threads[t]);
    forall u | u in Leave(s, t, id).threads
      ensures ThreadOk(h, Leave(s, t, id), u)
    {
      ThreadStays(h, s, Leave(s, t, id), u);
    }
  }

  lemma MoveKeeps(h: HashFn, s: Sys, t: nat, id: u32, n: nat)
    requires Inv(h, s) && (t in s.threads ==> s.threads[t].Probing?) && id != 0 && n < PROBES
             && Passed(h, s.slots, id, n)
    ensures Inv(h, s.(threads := s.threads[t := Probing(id, n)], called := s.called + {id}))
  {
    var after := s.(threads := s.threads[t := Probing(id, n)], called := s.called + {id});
    PendingAfter(s.threads, t, Probing(id, n));
    forall u | u in after.threads
      ensures ThreadOk(h, after, u)
    {
      if u != t { ThreadStays(h, s, after, u); }
    }
  }

  lemma AddCounts(h: HashFn, s: Sys, t: nat)
    requires |s.slots| == HIT_CAP && Counted(s) && Enabled(s, Add(t))
    ensures Counted(Apply(h, s, Add(t)))
  {
    PendingAfter(s.threads, t, s.threads[t]);
    UsedBound(s.slots);
    assert t in Pending(s.threads);
    assert |Pending(s.threads) - {t}| == |Pending(s.threads)| - 1;
  }

  lemma AddKeeps(h: HashFn, s: Sys, t: nat)
    requires Inv(h, s) && Enabled(s, Add(t))
    ensures Inv(h, Apply(h, s, Add(t)))
  {
    var after := Apply(h, s, Add(t));
    assert ThreadOk(h, s, t);
    AddCounts(h, s, t);
    forall u | u in after.threads
      ensures ThreadOk(h, after, u)
    {
      ThreadStays(h, s, after, u);
    }
  }

  lemma CasFills(h: HashFn, s: Sys, t: nat, id: u32, n: nat)
    requires Inv(h, s) && t in s.threads && s.threads[t] == Probing(id, n) && s.slots[Slot(h, id, n)] == 0
    ensures Inv(h, Apply(h, s, Cas(t)))
  {
    FillKeeps(h, s, t, id, n);
  }

  lemma CasFinds(h: HashFn, s: Sys, t: nat, id: u32, n: nat)
    requires Inv(h, s) && t in s.threads && s.threads[t] == Probing(id, n) && s.slots[Slot(h, id, n)] == id != 0
    ensures Inv(h, Apply(h, s, Cas(t)))
  {
    assert ThreadOk(h, s, t) && At(h, s.slots, id, n);
    LeaveKeeps(h, s, t, id);
  }

  lemma CasGivesUp(h: HashFn, s: Sys, t: nat, id: u32, n: nat)
    requires Inv(h, s) && t in s.threads && s.threads[t] == Probing(id, n) && n + 1 >= PROBES
    requires s.slots[Slot(h, id, n)] != 0 && s.slots[Slot(h, id, n)] != id
    ensures Inv(h, Apply(h, s, Cas(t)))
  {
    assert ThreadOk(h, s, t);
    LeaveKeeps(h, s, t, id);
  }

  lemma CasMovesOn(h: HashFn, s: Sys, t: nat, id: u32, n: nat)
    requires Inv(h, s) && t in s.threads && s.threads[t] == Probing(id, n) && n + 1 < PROBES
    requires s.slots[Slot(h, id, n)] != 0 && s.slots[Slot(h, id, n)] != id
    ensures Inv(h, Apply(h, s, Cas(t)))
  {
    assert ThreadOk(h, s, t);
    assert s.called + {id} == s.called;
    MoveKeeps(h, s, t, id, n + 1);
  }

  lemma CasKeeps(h: HashFn, s: Sys, t: nat, id: u32, n: nat, held: u32)
    requires Inv(h, s) && t in s.threads && s.threads[t] == Probing(id, n) && held == s.slots[Slot(h, id, n)] && id != 0
    ensures Inv(h, Apply(h, s, Cas(t)))
  {
    if held == 0 {
      CasFills(h, s, t, id, n);
    } else if held == id {
      CasFinds(h, s, t, id, n);
    } else if n + 1 >= PROBES {
      CasGivesUp(h, s, t, id, n);
    } else {
      CasMovesOn(h, s, t, id, n);
    }
  }

  /** Every atomic operation of every thread keeps the invariant. */
  lemma StepKeeps(h: HashFn, s: Sys, e: Event)
    requires Inv(h, s) && Enabled(s, e)
    ensures Inv(h, Apply(h, s, e))
  {
    match e
    case Call(t, id) => MoveKeeps(h, s, t, id, 0);
    case Add(t) => AddKeeps(h, s, t);
    case Cas(t) =>
      assert ThreadOk(h, s, t);
      CasKeeps(h, s, t, s.threads[t].id, s.threads[t].n, s.slots[Slot(h, s.threads[t].id, s.threads[t].n)]);
  }

  /** The schedule can be carried out, one operation after the other. */
  predicate Feasible(h: HashFn, s: Sys, es: seq<Event>)
    requires |s.slots| == HIT_CAP
    decreases |es|
  {
    es == [] || (Enabled(s, es[0]) && Feasible(h, Apply(h, s, es[0]), es[1..]))
  }

  function Run(h: HashFn, s: Sys, es: seq<Event>): (r: Sys)
    requires |s.slots| == HIT_CAP && Feasible(h, s, es)
    ensures |r.slots| == HIT_CAP
    decreases |es|
  {
    if es == [] then s else Run(h, Apply(h, s, es[0]), es[1..])
  }

  /** Slots only go from 0 to an id, and then stay. */
  ghost predicate Grown(a: seq<u32>, b: seq<u32>) {
    |a| == |b| && forall i :: 0 <= i < |a| && a[i] != 0 ==> b[i] == a[i]
  }

  /** Safety over every schedule from a good state. */
  lemma {:induction false} Safe(h: HashFn, s: Sys, es: seq<Event>)
    requires Inv(h, s) && Feasible(h, s, es)
    ensures Inv(h, Run(h, s, es)) && Grown(s.slots, Run(h, s, es).slots)
    ensures s.called <= Run(h, s, es).called && s.finished <= Run(h, s, es).finished
    decreases |es|
  {
    if es != [] {
      StepKeeps(h, s, es[0]);
      Safe(h, Apply(h, s, es[0]), es[1..]);
    }
  }

  /** The table at any time: ids in at most one slot, each behind a window full of other ids,
      counted once by the increments done and pending, never more than the capacity. */
  lemma TableSafety(h: HashFn, es: seq<Event>, i: nat, j: nat)
    requires Feasible(h, EMPTY, es) && i < HIT_CAP && j < HIT_CAP
    ensures var s := Run(h, EMPTY, es);
            && (s.slots[i] == s.slots[j] != 0 ==> i == j)
            && (s.slots[i] != 0 ==> PlacedAt(h, s.slots, i) && s.slots[i] in s.called)
            && s.count + |Pending(s.threads)| == |Used(s.slots)| <= HIT_CAP
  {
    EmptyOk(h);
    Safe(h, EMPTY, es);
    var s := Run(h, EMPTY, es);
    NoDuplicates(h, s.slots, i, j);
    UsedBound(s.slots);
  }

  /** Every call is under way or has finished. */
  ghost predicate Accounted(s: Sys) {
    forall id :: id in s.called ==> id in s.finished || exists t :: t in s.threads && s.threads[t].id == id
  }

  lemma StepAccounts(h: HashFn, s: Sys, e: Event)
    requires |s.slots| == HIT_CAP && Accounted(s) && Enabled(s, e)
    ensures Accounted(Apply(h, s, e))
  {
    var next := Apply(h, s, e);
    forall id | id in next.called
      ensures id in next.finished || exists t :: t in next.threads && next.threads[t].id == id
    {
      if e.Call? && id == e.id {
        assert next.threads[e.tid].id == id;
      } else if id !in s.finished {
        var t :| t in s.threads && s.threads[t].id == id;
        if t in next.threads { assert next.threads[t].id == id; }
      }
    }
  }

  lemma {:induction false} CallsAccounted(h: HashFn, s: Sys, es: seq<Event>)
    requires |s.slots| == HIT_CAP && Accounted(s) && Feasible(h, s, es)
    ensures Accounted(Run(h, s, es))
    decreases |es|
  {
    if es != [] {
      StepAccounts(h, s, es[0]);
      CallsAccounted(h, Apply(h, s, es[0]), es[1..]);
    }
  }

  // ---------------------------------------------------------------- every call

  /** How often thread `t` compares and swaps in a schedule. */
  function CasCount(es: seq<Event>, t: nat): nat {
    if es == [] then 0 else (if es[0] == Cas(t) then 1 else 0) + CasCount(es[1..], t)
  }

  predicate NoNewCall(es: seq<Event>, t: nat) {
    forall k :: 0 <= k < |es| ==> !(es[k].Call? && es[k].tid == t)
  }

  /** The compare-and-swaps a thread may still do in its current call. */
  function Left(s: Sys, t: nat): nat {
    if t in s.threads && s.threads[t].Probing? && s.threads[t].n < PROBES then PROBES - s.threads[t].n else 0
  }

  lemma CasSpends(h: HashFn, s: Sys, e: Event, t: nat)
    requires Inv(h, s) && Enabled(s, e) && !(e.Call? && e.tid == t)
    ensures Left(Apply(h, s, e), t) + (if e == Cas(t) then 1 else 0) <= Left(s, t)
  {
    if t in s.threads { assert ThreadOk(h, s, t); }
  }

  /** A call that has reached slot `n` needs at most `16 - n` more, whatever the others do. */
  lemma {:induction false} CasBound(h: HashFn, s: Sys, es: seq<Event>, t: nat)
    requires Inv(h, s) && Feasible(h, s, es) && NoNewCall(es, t)
    ensures CasCount(es, t) <= Left(s, t) <= PROBES
    decreases |es|
  {
    if es != [] {
      StepKeeps(h, s, es[0]);
      CasSpends(h, s, es[0], t);
      CasBound(h, Apply(h, s, es[0]), es[1..], t);
    }
  }

  predicate OnlyBy(es: seq<Event>, t: nat) {
    forall k :: 0 <= k < |es| ==> es[k] == Cas(t) || es[k] == Add(t)
  }

  /** The thread `t` has left `record_hit` at the end of a schedule in which only it moves. */
  ghost predicate Leaves(h: HashFn, s: Sys, es: seq<Event>, t: nat, id: u32)
    requires |s.slots| == HIT_CAP
  {
    && OnlyBy(es, t) && |es| <= Left(s, t) + 1 && Feasible(h, s, es)
    && t !in Run(h, s, es).threads && id in Run(h, s, es).finished
  }

  lemma LeavesCons(h: HashFn, s: Sys, e: Event, es: seq<Event>, t: nat, id: u32)
    requires |s.slots| == HIT_CAP && Enabled(s, e) && (e == Cas(t) || e == Add(t))
    requires Leaves(h, Apply(h, s, e), es, t, id) && (es == [] || Left(Apply(h, s, e), t) < Left(s, t))
    ensures Leaves(h, s, [e] + es, t, id)
  {
    assert ([e] + es)[1..] == es;
  }

  /** No call is ever stuck: a thread inside `record_hit` can return by its own steps alone,
      with at most 16 compare-and-swaps and one increment. */
  lemma {:induction false} CanReturn(h: HashFn, s: Sys, t: nat) returns (es: seq<Event>)
    requires Inv(h, s) && t in s.threads
    ensures Leaves(h, s, es, t, s.threads[t].id) && |es| <= PROBES + 1
    decreases Left(s, t)
  {
    assert ThreadOk(h, s, t);
    var e := if s.threads[t].Probing? then Cas(t) else Add(t);
    var next := Apply(h, s, e);
    StepKeeps(h, s, e);
    es := [];
    if t in next.threads {
      CasSpends(h, s, e, t);
      es := CanReturn(h, next, t);
    }
    LeavesCons(h, s, e, es, t, s.threads[t].id);
    es := [e] + es;
  }

  /** From every reachable state. */
  lemma EveryCallCanReturn(h: HashFn, past: seq<Event>, t: nat) returns (es: seq<Event>)
    requires Feasible(h, EMPTY, past) && t in Run(h, EMPTY, past).threads
    ensures Leaves(h, Run(h, EMPTY, past), es, t, Run(h, EMPTY, past).threads[t].id) && |es| <= PROBES + 1
  {
    EmptyOk(h);
    Safe(h, EMPTY, past);
    es := CanReturn(h, Run(h, EMPTY, past), t);
  }

  // ---------------------------------------------------------------- nothing is dropped

  /** The ids in the first `n` slots of a window. */
  function Window(h: HashFn, slots: seq<u32>, id: u32, n: nat): set<u32>
    requires |slots| == HIT_CAP
  {
    if n == 0 then {} else Window(h, slots, id, n - 1) + {slots[Slot(h, id, n - 1)]}
  }

  lemma {:induction false} WindowMember(h: HashFn, slots: seq<u32>, id: u32, n: nat, x: u32) returns (d: nat)
    requires |slots| == HIT_CAP && x in Window(h, slots, id, n)
    ensures d < n && slots[Slot(h, id, d)] == x
  {
    if slots[Slot(h, id, n - 1)] == x { d := n - 1; } else { d := WindowMember(h, slots, id, n - 1, x); }
  }

  lemma {:induction false} WindowSize(h: HashFn, slots: seq<u32>, id: u32, n: nat)
    requires |slots| == HIT_CAP && Placed(h, slots) && n <= PROBES && Passed(h, slots, id, n)
    ensures |Window(h, slots, id, n)| == n
    decreases n
  {
    if n > 0 {
      WindowSize(h, slots, id, n - 1);
      NewInWindow(h, slots, id, n - 1);
    }
  }

  lemma NewInWindow(h: HashFn, slots: seq<u32>, id: u32, n: nat)
    requires |slots| == HIT_CAP && Placed(h, slots) && n < PROBES && Passed(h, slots, id, n + 1)
    ensures slots[Slot(h, id, n)] !in Window(h, slots, id, n)
  {
    var i := Slot(h, id, n);
    if slots[i] in Window(h, slots, id, n) {
      var d := WindowMember(h, slots, id, n, slots[i]);
      SlotsDiffer(h, id, d, n);
      NoDuplicates(h, slots, Slot(h, id, d), i);
    }
  }

  lemma WindowCalled(h: HashFn, s: Sys, id: u32, n: nat)
    requires Inv(h, s) && n <= PROBES && Passed(h, s.slots, id, n)
    ensures id !in Window(h, s.slots, id, n) && Window(h, s.slots, id, n) <= s.called
  {
    forall x | x in Window(h, s.slots, id, n)
      ensures x != id && x in s.called
    {
      var d := WindowMember(h, s.slots, id, n, x);
    }
  }

  lemma RecordedSlot(h: HashFn, slots: seq<u32>, id: u32)
    requires |slots| == HIT_CAP && Recorded(h, slots, id)
    ensures id in slots
  {
    var d: nat :| At(h, slots, id, d);
    assert slots[Slot(h, id, d)] == id;
  }

  /** In a table an id and a window full of other ids exclude each other. */
  lemma PresentNotPassed(h: HashFn, slots: seq<u32>, id: u32)
    requires |slots| == HIT_CAP && Placed(h, slots) && id != 0 && id in slots
    ensures !Passed(h, slots, id, PROBES)
  {
    var i :| 0 <= i < HIT_CAP && slots[i] == id;
    assert PlacedAt(h, slots, i);
    var d: nat :| At(h, slots, id, d) && Slot(h, id, d) == i;
  }

  /** After a call its id is in the table if and only if its window is not full of other ids; if
      it is, these are 16 different ones. */
  lemma FinishedCalls(h: HashFn, es: seq<Event>, id: u32)
    requires Feasible(h, EMPTY, es) && id in Run(h, EMPTY, es).finished
    ensures var s := Run(h, EMPTY, es);
            && (id in s.slots <==> !Passed(h, s.slots, id, PROBES))
            && (id !in s.slots ==> |Window(h, s.slots, id, PROBES)| == PROBES && id !in Window(h, s.slots, id, PROBES))
  {
    EmptyOk(h);
    Safe(h, EMPTY, es);
    var s := Run(h, EMPTY, es);
    assert Settled(h, s.slots, id);
    if Recorded(h, s.slots, id) {
      RecordedSlot(h, s.slots, id);
    }
    if id in s.slots {
      PresentNotPassed(h, s.slots, id);
    } else {
      WindowSize(h, s.slots, id, PROBES);
      WindowCalled(h, s, id, PROBES);
    }
  }

  /** With at most 16 different ids, no schedule drops one. */
  lemma NoneDropped(h: HashFn, es: seq<Event>, id: u32)
    requires Feasible(h, EMPTY, es) && |Run(h, EMPTY, es).called| <= PROBES && id in Run(h, EMPTY, es).finished
    ensures id in Run(h, EMPTY, es).slots
  {
    EmptyOk(h);
    Safe(h, EMPTY, es);
    var s := Run(h, EMPTY, es);
    assert Settled(h, s.slots, id);
    if Recorded(h, s.slots, id) {
      RecordedSlot(h, s.slots, id);
    } else {
      WindowSize(h, s.slots, id, PROBES);
      WindowCalled(h, s, id, PROBES);
      Subset(Window(h, s.slots, id, PROBES) + {id}, s.called);
    }
  }

  lemma Returned(s: Sys, id: u32)
    requires Accounted(s) && id in s.called && s.threads == map[]
    ensures id in s.finished
  {
  }

  /** When no call is under way, every id that was handed over is in the table unless its window
      is full of other ids, and with at most 16 different ids it always is. */
  lemma AllReturned(h: HashFn, es: seq<Event>, id: u32)
    requires Feasible(h, EMPTY, es) && id in Run(h, EMPTY, es).called && Run(h, EMPTY, es).threads == map[]
    ensures var s := Run(h, EMPTY, es);
            && Inv(h, s) && id != 0
            && (id in s.slots <==> !Passed(h, s.slots, id, PROBES))
            && (|s.called| <= PROBES ==> id in s.slots)
  {
    EmptyOk(h);
    Safe(h, EMPTY, es);
    assert Accounted(EMPTY);
    CallsAccounted(h, EMPTY, es);
    Returned(Run(h, EMPTY, es), id);
    assert Settled(h, Run(h, EMPTY, es).slots, id);
    FinishedCalls(h, es, id);
    if |Run(h, EMPTY, es).called| <= PROBES { NoneDropped(h, es, id); }
  }
}
