/** The runtime of one process: which mutant is selected, and the hit table as a single thread
    fills it. */
module Runtime {
  import opened Scalars
  import opened Text
  import Bits
  import opened Hash
  import opened HitTable

  /** `record_hit` without interference, from probe `n` on. */
  function Record(h: HashFn, slots: seq<u32>, id: u32, n: nat): (r: seq<u32>)
    requires |slots| == HIT_CAP && n <= PROBES
    ensures |r| == HIT_CAP
    decreases PROBES - n
  {
    if n == PROBES then slots
    else if slots[Slot(h, id, n)] == 0 then slots[Slot(h, id, n) := id]
    else if slots[Slot(h, id, n)] == id then slots
    else Record(h, slots, id, n + 1)
  }

  /** Whether the call fills a slot. */
  predicate Claims(h: HashFn, slots: seq<u32>, id: u32, n: nat)
    requires |slots| == HIT_CAP && n <= PROBES
    decreases PROBES - n
  {
    n < PROBES && (slots[Slot(h, id, n)] == 0 || (slots[Slot(h, id, n)] != id && Claims(h, slots, id, n + 1)))
  }

  lemma OneProbe(h: HashFn, slots: seq<u32>, id: u32, n: nat, i: nat)
    requires |slots| == HIT_CAP && n < PROBES && i == Slot(h, id, n)
    ensures Record(h, slots, id, n) ==
            if slots[i] == 0 then slots[i := id] else if slots[i] == id then slots else Record(h, slots, id, n + 1)
    ensures Claims(h, slots, id, n) == (slots[i] == 0 || (slots[i] != id && Claims(h, slots, id, n + 1)))
  {
  }

  function RecordAll(h: HashFn, slots: seq<u32>, ids: seq<u32>): (r: seq<u32>)
    requires |slots| == HIT_CAP
    ensures |r| == HIT_CAP
    decreases |ids|
  {
    if ids == [] then slots else RecordAll(h, Record(h, slots, ids[0], 0), ids[1..])
  }

  function NoHits(): (s: seq<u32>)
    ensures |s| == HIT_CAP && forall i :: 0 <= i < HIT_CAP ==> s[i] == 0
  {
    seq(HIT_CAP, i => 0)
  }

  class Process {
    var active: u32
    var logging: bool
    const slots: array<u32>
    var count: u32

    predicate Valid()
      reads this
    {
      slots.Length == HIT_CAP
    }

    /** `mulation_init`: the two environment variables. */
    constructor (mutant: Option<string>, hitlog: Option<string>)
      ensures Valid() && fresh(slots) && slots[..] == NoHits() && count == 0
      ensures active == if mutant.Some? && mutant.value != "" then ToUnsigned(mutant.value) else NO_MUTANT
      ensures logging == (hitlog.Some? && hitlog.value != "")
    {
      active := NO_MUTANT;
      if mutant.Some? && mutant.value != "" {
        active := ToUnsigned(mutant.value);
      }
      logging := hitlog.Some? && hitlog.value != "";
      slots := new u32[HIT_CAP](i => 0);
      count := 0;
    }

    /** `atomic_compare_exchange_strong` against 0. */
    method CompareExchange(i: nat, id: u32) returns (held: u32)
      requires Valid() && i < HIT_CAP
      modifies slots
      ensures held == old(slots[i])
      ensures slots[..] == if held == 0 then old(slots[..])[i := id] else old(slots[..])
    {
      held := slots[i];
      if held == 0 {
        slots[i] := id;
      }
    }

    method RecordHit(id: u32)
      requires Valid()
      modifies slots, `count
      ensures slots[..] == if logging then Record(HitHash, old(slots[..]), id, 0) else old(slots[..])
      ensures count == if logging && Claims(HitHash, old(slots[..]), id, 0)
                       then (old(count) + 1) % 0x1_0000_0000 else old(count)
    {
      if !logging {
        return;
      }
      ghost var h: HashFn, was := HitHash, slots[..];
      var hash := ComputeHitHash(id);
      assert hash == h(id);
      var home, n := hash % HIT_CAP, 0;
      while n < PROBES
        invariant n <= PROBES && slots[..] == was && count == old(count)
        invariant Record(h, was, id, 0) == Record(h, was, id, n) && Claims(h, was, id, 0) == Claims(h, was, id, n)
      {
        var i := (home + n) % HIT_CAP;
        OneProbe(h, was, id, n, i);
        var held := CompareExchange(i, id);
        if held == 0 {
          count := (count + 1) % 0x1_0000_0000;
          return;
        }
        if held == id {
          return;
        }
        n := n + 1;
      }
    }

    /** Records the id, then says whether it is the selected one. */
    method MulationActive(id: u32) returns (on: bool)
      requires Valid()
      modifies slots, `count
      ensures on == (active == id)
      ensures slots[..] == if logging then Record(HitHash, old(slots[..]), id, 0) else old(slots[..])
    {
      RecordHit(id);
      on := active == id;
    }
  }

  // ---------------------------------------------------------------- the method follows the protocol

  /** The operations of a thread that meets no other, from probe `n` on. */
  function Solo(h: HashFn, slots: seq<u32>, id: u32, n: nat, t: nat): seq<Event>
    requires |slots| == HIT_CAP && n < PROBES
    decreases PROBES - n
  {
    if slots[Slot(h, id, n)] == 0 then [Cas(t), Add(t)]
    else if slots[Slot(h, id, n)] == id || n + 1 == PROBES then [Cas(t)]
    else [Cas(t)] + Solo(h, slots, id, n + 1, t)
  }

  lemma FirstStep(h: HashFn, s: Sys, e: Event, es: seq<Event>)
    requires |s.slots| == HIT_CAP && Enabled(s, e) && Feasible(h, Apply(h, s, e), es)
    ensures Feasible(h, s, [e] + es) && Run(h, s, [e] + es) == Run(h, Apply(h, s, e), es)
  {
    assert ([e] + es)[1..] == es;
  }

  /** The thread has left, and only the table has changed. */
  ghost predicate Returned(h: HashFn, s: Sys, es: seq<Event>, r: seq<u32>, t: nat, id: u32)
    requires |s.slots| == HIT_CAP
  {
    && Feasible(h, s, es)
    && Run(h, s, es).slots == r && Run(h, s, es).threads == s.threads - {t} && id in Run(h, s, es).finished
  }

  lemma LastStep(h: HashFn, s: Sys, e: Event, t: nat, id: u32)
    requires |s.slots| == HIT_CAP && t in s.threads && s.threads[t].id == id && Enabled(s, e)
    requires Apply(h, s, e).threads == s.threads - {t} && id in Apply(h, s, e).finished
    ensures Returned(h, s, [e], Apply(h, s, e).slots, t, id)
  {
    FirstStep(h, s, e, []);
  }

  lemma StepThen(h: HashFn, s: Sys, e: Event, es: seq<Event>, r: seq<u32>, t: nat, id: u32)
    requires |s.slots| == HIT_CAP && Enabled(s, e) && Returned(h, Apply(h, s, e), es, r, t, id)
    requires Apply(h, s, e).threads - {t} == s.threads - {t}
    ensures Returned(h, s, [e] + es, r, t, id)
  {
    FirstStep(h, s, e, es);
  }

  lemma {:induction false} SoloRuns(h: HashFn, s: Sys, id: u32, n: nat, t: nat)
    requires |s.slots| == HIT_CAP && n < PROBES && t in s.threads && s.threads[t] == Probing(id, n)
    ensures Returned(h, s, Solo(h, s.slots, id, n, t), Record(h, s.slots, id, n), t, id)
    decreases PROBES - n
  {
    var next := Apply(h, s, Cas(t));
    var held := s.slots[Slot(h, id, n)];
    if held == 0 {
      LastStep(h, next, Add(t), t, id);
      assert next.threads - {t} == s.threads - {t};
      StepThen(h, s, Cas(t), [Add(t)], next.slots, t, id);
      assert [Cas(t)] + [Add(t)] == [Cas(t), Add(t)];
    } else if held == id || n + 1 == PROBES {
      LastStep(h, s, Cas(t), t, id);
    } else {
      SoloRuns(h, next, id, n + 1, t);
      assert next.threads - {t} == s.threads - {t};
      StepThen(h, s, Cas(t), Solo(h, s.slots, id, n + 1, t), Record(h, s.slots, id, n + 1), t, id);
    }
  }

  /** A call that runs undisturbed does what the method does. */
  lemma Undisturbed(h: HashFn, s: Sys, id: u32, t: nat)
    requires |s.slots| == HIT_CAP && id != 0 && t !in s.threads
    ensures var es := [Call(t, id)] + Solo(h, s.slots, id, 0, t);
            && Feasible(h, s, es) && Run(h, s, es).slots == Record(h, s.slots, id, 0)
            && Run(h, s, es).threads == s.threads && id in Run(h, s, es).finished
  {
    var next := Apply(h, s, Call(t, id));
    SoloRuns(h, next, id, 0, t);
    FirstStep(h, s, Call(t, id), Solo(h, s.slots, id, 0, t));
    assert next.threads - {t} == s.threads;
  }

  // ---------------------------------------------------------------- what a process logs

  lemma {:induction false} RecordMeans(h: HashFn, slots: seq<u32>, id: u32, n: nat)
    requires |slots| == HIT_CAP && Placed(h, slots) && id != 0 && n <= PROBES && Passed(h, slots, id, n)
    ensures var r := Record(h, slots, id, n);
            && Placed(h, r) && Grown(slots, r)
            && (r == slots || exists i: nat :: i < HIT_CAP && slots[i] == 0 && r == slots[i := id])
            && (id in r || (r == slots && Passed(h, slots, id, PROBES)))
    decreases PROBES - n
  {
    if n < PROBES {
      var i := Slot(h, id, n);
      if slots[i] == 0 {
        Fill(h, slots, id, n);
        assert slots[i := id][i] == id;
      } else if slots[i] != id {
        RecordMeans(h, slots, id, n + 1);
      }
    }
  }

  lemma {:induction false} Walk(h: HashFn, slots: seq<u32>, id: u32, n: nat, k: nat)
    requires |slots| == HIT_CAP && n <= k <= PROBES
    requires forall d: nat {:trigger Slot(h, id, d)} :: n <= d < k ==>
               slots[Slot(h, id, d)] != 0 && slots[Slot(h, id, d)] != id
    ensures Record(h, slots, id, n) == Record(h, slots, id, k)
    decreases k - n
  {
    if n < k {
      assert slots[Slot(h, id, n)] != 0;
      Walk(h, slots, id, n + 1, k);
    }
  }

  /** A call drops its id exactly when the whole window of the id holds other ids. */
  lemma RecordExact(h: HashFn, slots: seq<u32>, id: u32)
    requires |slots| == HIT_CAP && Placed(h, slots) && id != 0
    ensures id in Record(h, slots, id, 0) <==> !Passed(h, slots, id, PROBES)
  {
    RecordMeans(h, slots, id, 0);
    if Passed(h, slots, id, PROBES) {
      Walk(h, slots, id, 0, PROBES);
      if id in slots { PresentNotPassed(h, slots, id); }
    }
  }

  predicate NonZero(ids: seq<u32>) {
    forall k :: 0 <= k < |ids| ==> ids[k] != 0
  }

  /** The table of a process holds only ids it was given. */
  lemma {:induction false} LoggedWereHit(h: HashFn, slots: seq<u32>, ids: seq<u32>, x: u32)
    requires |slots| == HIT_CAP && Placed(h, slots) && NonZero(ids) && x != 0 && x in RecordAll(h, slots, ids)
    ensures x in slots || x in ids
    decreases |ids|
  {
    if ids != [] {
      RecordMeans(h, slots, ids[0], 0);
      var next := Record(h, slots, ids[0], 0);
      LoggedWereHit(h, next, ids[1..], x);
      if x in next && x != ids[0] {
        var i: nat :| i < HIT_CAP && next[i] == x;
        assert slots[i] == x;
      }
    }
  }

  /** Every id of the table and of the list is in `all`. */
  ghost predicate Within(slots: seq<u32>, ids: seq<u32>, all: set<u32>) {
    && (forall i :: 0 <= i < |slots| && slots[i] != 0 ==> slots[i] in all)
    && (forall k :: 0 <= k < |ids| ==> ids[k] in all)
  }

  lemma WindowWithin(h: HashFn, slots: seq<u32>, ids: seq<u32>, all: set<u32>, id: u32)
    requires |slots| == HIT_CAP && Placed(h, slots) && Within(slots, ids, all) && |all| <= PROBES && id in all
    ensures !Passed(h, slots, id, PROBES)
  {
    if Passed(h, slots, id, PROBES) {
      WindowSize(h, slots, id, PROBES);
      var w := Window(h, slots, id, PROBES);
      forall x | x in w
        ensures x in all - {id}
      {
        var d := WindowMember(h, slots, id, PROBES, x);
      }
      Subset(w, all - {id});
    }
  }

  lemma KeptOnce(h: HashFn, slots: seq<u32>, ids: seq<u32>, all: set<u32>)
    requires |slots| == HIT_CAP && Placed(h, slots) && NonZero(ids) && Within(slots, ids, all) && |all| <= PROBES
             && ids != []
    ensures var r := Record(h, slots, ids[0], 0);
            Placed(h, r) && Grown(slots, r) && ids[0] in r && Within(r, ids[1..], all)
  {
    RecordMeans(h, slots, ids[0], 0);
    WindowWithin(h, slots, ids, all, ids[0]);
  }

  lemma StillThere(slots: seq<u32>, later: seq<u32>, id: u32)
    requires Grown(slots, later) && id != 0 && id in slots
    ensures id in later
  {
    var i :| 0 <= i < |slots| && slots[i] == id;
    assert later[i] == id;
  }

  /** A process that is given at most 16 different ids logs all of them. */
  lemma {:induction false} FewAreKept(h: HashFn, slots: seq<u32>, ids: seq<u32>, all: set<u32>)
    requires |slots| == HIT_CAP && Placed(h, slots) && NonZero(ids) && Within(slots, ids, all) && |all| <= PROBES
    ensures Grown(slots, RecordAll(h, slots, ids)) && forall k :: 0 <= k < |ids| ==> ids[k] in RecordAll(h, slots, ids)
    decreases |ids|
  {
    if ids != [] {
      KeptOnce(h, slots, ids, all);
      var r := Record(h, slots, ids[0], 0);
      FewAreKept(h, r, ids[1..], all);
      StillThere(r, RecordAll(h, slots, ids), ids[0]);
      assert forall k :: 1 <= k < |ids| ==> ids[k] == ids[1..][k - 1];
    }
  }

  // ---------------------------------------------------------------- seventeen ids of one home

  /** The window shared by the ids holds the first `k` of them, and the table nothing else. */
  ghost predicate Stacked(h: HashFn, slots: seq<u32>, ids: seq<u32>, k: nat)
    requires |slots| == HIT_CAP && k <= |ids|
  {
    && (forall j: nat, d: nat {:trigger Slot(h, ids[j], d)} :: j < |ids| && d < PROBES ==>
          slots[Slot(h, ids[j], d)] == if d < k then ids[d] else 0)
    && (forall i :: 0 <= i < HIT_CAP && slots[i] != 0 ==> slots[i] in ids[..k])
  }

  /** Different ids with the same probe window. */
  ghost predicate SameHome(h: HashFn, ids: seq<u32>) {
    && NonZero(ids)
    && (forall j, k :: 0 <= j < k < |ids| ==> ids[j] != ids[k])
    && (forall j, k :: 0 <= j < |ids| && 0 <= k < |ids| ==> h(ids[j]) % HIT_CAP == h(ids[k]) % HIT_CAP)
  }

  lemma SameSlot(h: HashFn, ids: seq<u32>, j: nat, k: nat, d: nat)
    requires SameHome(h, ids) && j < |ids| && k < |ids|
    ensures Slot(h, ids[j], d) == Slot(h, ids[k], d)
  {
  }

  lemma StackSlot(h: HashFn, slots: seq<u32>, ids: seq<u32>, k: nat, j: nat, d: nat)
    requires |slots| == HIT_CAP && SameHome(h, ids) && k < |ids| && k < PROBES && j < |ids| && d < PROBES
    requires slots[Slot(h, ids[j], d)] == if d < k then ids[d] else 0
    ensures slots[Slot(h, ids[k], k) := ids[k]][Slot(h, ids[j], d)] == if d < k + 1 then ids[d] else 0
  {
    SameSlot(h, ids, j, k, d);
    if d < k { SlotsDiffer(h, ids[k], d, k); }
    if k < d { SlotsDiffer(h, ids[k], k, d); }
  }

  lemma StackRecord(h: HashFn, slots: seq<u32>, ids: seq<u32>, k: nat)
    requires |slots| == HIT_CAP && SameHome(h, ids) && k < |ids| && k < PROBES && Stacked(h, slots, ids, k)
    ensures Record(h, slots, ids[k], 0) == slots[Slot(h, ids[k], k) := ids[k]]
  {
    Walk(h, slots, ids[k], 0, k);
    assert slots[Slot(h, ids[k], k)] == 0;
  }

  lemma StackStep(h: HashFn, slots: seq<u32>, ids: seq<u32>, k: nat)
    requires |slots| == HIT_CAP && SameHome(h, ids) && k < |ids| && k < PROBES && Stacked(h, slots, ids, k)
    ensures Stacked(h, Record(h, slots, ids[k], 0), ids, k + 1)
  {
    StackRecord(h, slots, ids, k);
    forall j: nat, d: nat | j < |ids| && d < PROBES
      ensures slots[Slot(h, ids[k], k) := ids[k]][Slot(h, ids[j], d)] == if d < k + 1 then ids[d] else 0
    {
      StackSlot(h, slots, ids, k, j, d);
    }
    StackOthers(slots, ids, k, Slot(h, ids[k], k));
  }

  lemma StackOthers(slots: seq<u32>, ids: seq<u32>, k: nat, at: nat)
    requires |slots| == HIT_CAP && k < |ids| && at < HIT_CAP
    requires forall i :: 0 <= i < HIT_CAP && slots[i] != 0 ==> slots[i] in ids[..k]
    ensures var next := slots[at := ids[k]]; forall i :: 0 <= i < HIT_CAP && next[i] != 0 ==> next[i] in ids[..k + 1]
  {
    assert ids[..k + 1] == ids[..k] + [ids[k]];
  }

  lemma {:induction false} StackAll(h: HashFn, slots: seq<u32>, ids: seq<u32>, k: nat)
    requires |slots| == HIT_CAP && SameHome(h, ids) && |ids| == PROBES + 1 && k <= PROBES && Stacked(h, slots, ids, k)
    ensures ids[PROBES] !in RecordAll(h, slots, ids[k..])
    decreases PROBES - k
  {
    assert ids[k..][0] == ids[k] && ids[k..][1..] == ids[k + 1..];
    if k < PROBES {
      StackStep(h, slots, ids, k);
      StackAll(h, Record(h, slots, ids[k], 0), ids, k + 1);
    } else {
      Walk(h, slots, ids[k], 0, PROBES);
      forall i | 0 <= i < HIT_CAP
        ensures slots[i] != ids[PROBES]
      {
        if slots[i] != 0 {
          var j :| 0 <= j < k && ids[j] == slots[i];
        }
      }
      assert RecordAll(h, slots, ids[k + 1..]) == slots;
    }
  }

  /** Sixteen is exact: of seventeen different ids with one home the last is dropped. */
  lemma SeventeenthDropped(h: HashFn, ids: seq<u32>)
    requires SameHome(h, ids) && |ids| == PROBES + 1
    ensures ids[PROBES] !in RecordAll(h, NoHits(), ids)
  {
    assert ids[0..] == ids;
    StackAll(h, NoHits(), ids, 0);
  }

  function Colliding(home: nat, k: nat): u32
    requires home < HIT_CAP && k <= PROBES
  {
    UnHitHash((k + 1) * HIT_CAP + home)
  }

  lemma CollidingHash(home: nat, k: nat)
    requires home < HIT_CAP && k <= PROBES
    ensures var id := Colliding(home, k);
            HitHash(id) == (k + 1) * HIT_CAP + home && HitHash(id) % HIT_CAP == home && id != 0
  {
    CollidingInverse(home, k);
    Remainder(HitHash(Colliding(home, k)), home, k + 1);
    if Colliding(home, k) == 0 { ZeroHash(); }
  }

  lemma Remainder(h: nat, home: nat, k: nat)
    requires home < HIT_CAP && h == k * HIT_CAP + home
    ensures h % HIT_CAP == home
  {
  }

  lemma CollidingInverse(home: nat, k: nat)
    requires home < HIT_CAP && k <= PROBES
    ensures HitHash(Colliding(home, k)) == (k + 1) * HIT_CAP + home
  {
    HitHashBijective((k + 1) * HIT_CAP + home);
  }

  lemma CollidingDiffer(home: nat, j: nat, k: nat)
    requires home < HIT_CAP && j < k <= PROBES
    ensures Colliding(home, j) != Colliding(home, k)
  {
    CollidingHash(home, j);
    CollidingHash(home, k);
  }

  /** And there are such ids, for every home. */
  lemma CollidingIds(home: nat) returns (ids: seq<u32>)
    requires home < HIT_CAP
    ensures SameHome(HitHash, ids) && |ids| == PROBES + 1
  {
    ids := seq(PROBES + 1, k requires 0 <= k < PROBES + 1 => Colliding(home, k));
    forall k: nat | k < |ids|
      ensures ids[k] != 0 && HitHash(ids[k]) % HIT_CAP == home
    {
      CollidingHash(home, k);
    }
    forall j: nat, k: nat | j < k < |ids|
      ensures ids[j] != ids[k]
    {
      CollidingDiffer(home, j, k);
    }
  }

  lemma MixZero(k: nat)
    ensures Mix(0, k) == 0
  {
    Bits.ShrSmall(0, k);
    Bits.XorSelf(0);
  }

  lemma ZeroHash()
    ensures HitHash(0) == 0
  {
    MixZero(16);
    TimesZero(0x7feb352d);
    MixZero(15);
  }

  lemma TimesZero(c: nat)
    ensures Times(0, c) == 0
  {
  }
}
