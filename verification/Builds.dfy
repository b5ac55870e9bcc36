/** A program that is linked from units which the pass has instrumented one by one.  Calls are
    numbered in the linked program. */
module Builds {
  import opened Scalars
  import opened IR
  import opened Rewrite
  import opened Fidelity
  import opened FirstOrder
  import opened Keys
  import opened Ledgers
  import opened Queries
  import Pass

  /** The source, the plan carried out on it, and its records; `refs[x]` is what record `x` is about. */
  datatype Parts = Parts(src: Module, plans: seq<Plan>, recs: seq<Mutant>, refs: seq<MutantRef>)

  type Build = b: Parts | |b.plans| == |b.src| && |b.recs| == |b.refs| witness Parts([], [], [], [])

  /** The instrumented program. */
  function Binary(b: Build): Module {
    RewriteModule(b.plans, b.src)
  }

  /** One record for every instrumented alternative and literal, and no other. */
  ghost predicate Built(b: Build) {
    && Fits(b.plans, b.src)
    && (forall x {:trigger b.refs[x]} :: 0 <= x < |b.refs| ==> About(b, x))
    && forall r :: Listed(b.plans, r) ==> r in b.refs
  }

  ghost predicate About(b: Build, x: nat)
    requires x < |b.refs|
  {
    Listed(b.plans, b.refs[x]) && b.recs[x].id == IdOf(b.plans, b.refs[x])
  }

  function RefsOf(entries: seq<Entry>): (r: seq<MutantRef>)
    ensures |r| == |entries| && forall x :: 0 <= x < |r| ==> r[x] == entries[x].ref
  {
    seq(|entries|, x requires 0 <= x < |entries| => entries[x].ref)
  }

  function OfPass(m: Module, recs: seq<Mutant>, led: Ledger): Build
    requires |led.plans| == |m| && |recs| == |led.entries|
  {
    Parts(m, led.plans, recs, RefsOf(led.entries))
  }

  /** The unit is an output of the pass. */
  ghost predicate Made(b: Build) {
    exists led: Ledger ::
      State(b.src, Binary(b), b.recs, led) && Pass.Complete(led.plans, b.src) && b == OfPass(b.src, b.recs, led)
  }

  lemma MadeIsBuilt(m: Module, fns: Module, recs: seq<Mutant>, led: Ledger)
    requires State(m, fns, recs, led) && Pass.Complete(led.plans, m)
    ensures Built(OfPass(m, recs, led)) && Binary(OfPass(m, recs, led)) == fns
  {
    var b := OfPass(m, recs, led);
    Pass.CompleteFits(led.plans, m);
    forall x: nat | x < |b.refs|
      ensures About(b, x)
    {
      assert EntryOk(m, led.plans, led.entries[x]);
    }
    forall r | Listed(led.plans, r)
      ensures r in b.refs
    {
      var x := Pass.RecordOfRef(m, fns, recs, led, r);
      assert b.refs[x] == r;
    }
  }

  // ---------------------------------------------------------------- linking

  /** The same mutant in a program with `k` more functions in front. */
  function Shift(r: MutantRef, k: nat): MutantRef {
    match r
    case AltRef(fn, n, j) => AltRef(fn + k, n, j)
    case LitRef(fn, at) => LitRef(fn + k, at)
  }

  function Back(r: MutantRef, k: nat): (s: MutantRef)
    requires k <= r.fn
    ensures Shift(s, k) == r
  {
    match r
    case AltRef(fn, n, j) => AltRef(fn - k, n, j)
    case LitRef(fn, at) => LitRef(fn - k, at)
  }

  function ShiftAll(refs: seq<MutantRef>, k: nat): (s: seq<MutantRef>)
    ensures |s| == |refs| && forall x :: 0 <= x < |s| ==> s[x] == Shift(refs[x], k)
  {
    seq(|refs|, x requires 0 <= x < |refs| => Shift(refs[x], k))
  }

  function Join(a: Build, b: Build): Build {
    Parts(a.src + b.src, a.plans + b.plans, a.recs + b.recs, a.refs + ShiftAll(b.refs, |a.src|))
  }

  function Program(units: seq<Build>): Build {
    if units == [] then Parts([], [], [], []) else Join(Program(units[..|units| - 1]), units[|units| - 1])
  }

  lemma ProgramMore(units: seq<Build>, b: Build)
    ensures Program(units + [b]) == Join(Program(units), b)
            && Binary(Program(units + [b])) == Binary(Program(units)) + Binary(b)
  {
    assert (units + [b])[..|units|] == units;
    JoinBinary(Program(units), b);
  }

  lemma JoinBinary(a: Build, b: Build)
    ensures Binary(Join(a, b)) == Binary(a) + Binary(b)
  {
  }

  lemma ProgramOne(b: Build)
    ensures Program([b]) == b
  {
    assert [b][..0] == [];
    var c := Join(Program([]), b);
    assert c.src == b.src && c.plans == b.plans && c.recs == b.recs && c.refs == b.refs;
  }

  lemma ListedLeft(p: seq<Plan>, q: seq<Plan>, r: MutantRef)
    requires r.fn < |p|
    ensures Listed(p + q, r) <==> Listed(p, r)
    ensures Listed(p, r) ==> IdOf(p + q, r) == IdOf(p, r)
  {
    assert (p + q)[r.fn] == p[r.fn];
  }

  lemma ListedRight(p: seq<Plan>, q: seq<Plan>, r: MutantRef)
    ensures Listed(p + q, Shift(r, |p|)) <==> Listed(q, r)
    ensures Listed(q, r) ==> IdOf(p + q, Shift(r, |p|)) == IdOf(q, r)
  {
    if r.fn < |q| { assert (p + q)[|p| + r.fn] == q[r.fn]; }
  }

  lemma JoinFits(a: Build, b: Build)
    requires Fits(a.plans, a.src) && Fits(b.plans, b.src)
    ensures Fits(a.plans + b.plans, a.src + b.src)
  {
    var plans, src, n := a.plans + b.plans, a.src + b.src, |a.src|;
    forall i | 0 <= i < |src|
      ensures SrcFn(src[i]) && FitsFn(plans[i], src[i])
    {
      if i < n {
        assert SrcFn(a.src[i]) && FitsFn(a.plans[i], a.src[i]);
      } else {
        assert SrcFn(b.src[i - n]) && FitsFn(b.plans[i - n], b.src[i - n]);
      }
    }
  }

  lemma JoinAbout(a: Build, b: Build, x: nat)
    requires Built(a) && Built(b) && x < |a.refs| + |b.refs|
    ensures About(Join(a, b), x)
  {
    if x < |a.refs| {
      assert About(a, x);
      ListedLeft(a.plans, b.plans, a.refs[x]);
    } else {
      assert About(b, x - |a.refs|);
      ListedRight(a.plans, b.plans, b.refs[x - |a.refs|]);
    }
  }

  lemma InJoined(a: seq<MutantRef>, b: seq<MutantRef>, k: nat, r: MutantRef)
    requires r in a || (r.fn >= k && Back(r, k) in b)
    ensures r in a + ShiftAll(b, k)
  {
    if r !in a {
      var x :| 0 <= x < |b| && b[x] == Back(r, k);
      assert (a + ShiftAll(b, k))[|a| + x] == r;
    }
  }

  lemma JoinListed(a: Build, b: Build, r: MutantRef)
    requires Built(a) && Built(b) && Listed(a.plans + b.plans, r)
    ensures r in Join(a, b).refs
  {
    if r.fn < |a.plans| {
      ListedLeft(a.plans, b.plans, r);
    } else {
      ListedRight(a.plans, b.plans, Back(r, |a.plans|));
    }
    InJoined(a.refs, b.refs, |a.plans|, r);
  }

  lemma JoinBuilt(a: Build, b: Build)
    requires Built(a) && Built(b)
    ensures Built(Join(a, b))
  {
    var c := Join(a, b);
    JoinFits(a, b);
    forall x: nat | x < |c.refs|
      ensures About(c, x)
    {
      JoinAbout(a, b, x);
    }
    forall r | Listed(c.plans, r)
      ensures r in c.refs
    {
      JoinListed(a, b, r);
    }
  }

  /** What holds of every unit holds of the program. */
  lemma {:induction false} ProgramBuilt(units: seq<Build>)
    requires forall k :: 0 <= k < |units| ==> Built(units[k])
    ensures Built(Program(units))
  {
    if units != [] {
      ProgramBuilt(units[..|units| - 1]);
      JoinBuilt(Program(units[..|units| - 1]), units[|units| - 1]);
    }
  }

  // ---------------------------------------------------------------- runs of a build

  predicate DistinctRecs(recs: seq<Mutant>) {
    forall x, y :: 0 <= x < y < |recs| ==> recs[x].id != recs[y].id
  }

  lemma BuildIds(b: Build)
    requires Built(b) && DistinctRecs(b.recs)
    ensures DistinctIds(b.plans)
  {
    forall r, s | Listed(b.plans, r) && Listed(b.plans, s) && IdOf(b.plans, r) == IdOf(b.plans, s)
      ensures r == s
    {
      var x :| 0 <= x < |b.refs| && b.refs[x] == r;
      var y :| 0 <= y < |b.refs| && b.refs[y] == s;
      assert About(b, x) && About(b, y);
    }
  }

  /** With the id of record `x` active the binary behaves like the source with just that record's
      operator, predicate or literal replaced. */
  lemma RecordRuns(b: Build, x: nat, world: seq<Event> -> Option<Word>, fi: nat, args: seq<Word>, fuel: nat)
    requires Built(b) && DistinctRecs(b.recs) && x < |b.recs|
    ensures b.refs[x].fn < |b.src|
    ensures var cfg := Config(b.recs[x].id, world);
            var o := RunFn(Apply(b.src, b.refs[x]), cfg, fi, args, START, fuel);
            var o' := RunFn(Binary(b), cfg, fi, args, START, fuel);
            if forall e :: e in o.st.ops ==> !Diverges(b.plans, b.src, e)
            then o'.res == o.res && o'.st.trace == o.st.trace
            else o'.res == Trap && StopsFirst(b.plans, b.src, o.st, o'.st.trace)
  {
    assert About(b, x);
    BuildIds(b);
    InstrumentedIsMutant(b.plans, b.src, b.refs[x], world, fi, args, fuel);
  }

  lemma BuildUnused(b: Build, a: u32)
    requires Built(b) && forall x :: 0 <= x < |b.recs| ==> b.recs[x].id != a
    ensures Unused(b.plans, a)
  {
    forall fi, n: nat, k | 0 <= fi < |b.plans| && n in b.plans[fi].chains && 0 <= k < |b.plans[fi].chains[n]|
      ensures b.plans[fi].chains[n][k] != a
    {
      IdHasRecord(b, AltRef(fi, n, k));
    }
    forall fi, at | 0 <= fi < |b.plans| && at in b.plans[fi].lits
      ensures b.plans[fi].lits[at] != a
    {
      IdHasRecord(b, LitRef(fi, at));
    }
  }

  lemma IdHasRecord(b: Build, r: MutantRef)
    requires Built(b) && Listed(b.plans, r)
    ensures exists x :: 0 <= x < |b.recs| && b.recs[x].id == IdOf(b.plans, r)
  {
    var x :| 0 <= x < |b.refs| && b.refs[x] == r;
    assert About(b, x);
  }

  /** With an id that no record carries it behaves as the source, except for the traps of
      multiplications. */
  lemma PlainRuns(b: Build, a: u32, world: seq<Event> -> Option<Word>, fi: nat, args: seq<Word>, fuel: nat)
    requires Built(b) && forall x :: 0 <= x < |b.recs| ==> b.recs[x].id != a
    ensures var cfg := Config(a, world);
            var o := RunFn(b.src, cfg, fi, args, START, fuel);
            var o' := RunFn(Binary(b), cfg, fi, args, START, fuel);
            if forall e :: e in o.st.ops ==> !BadMul(b.plans, b.src, e)
            then o'.res == o.res && o'.st.trace == o.st.trace
            else o'.res == Trap && StopsAtMul(b.plans, b.src, o.st, o'.st.trace)
  {
    BuildUnused(b, a);
    BaselinePreserved(b.plans, b.src, Config(a, world), fi, args, fuel);
  }

  /** Every id that the binary can ask about is that of a record, or the source's. */
  lemma BuildAsks(b: Build, id: u32)
    requires Built(b) && Asks(Binary(b), id)
    ensures Asks(b.src, id) || exists x :: 0 <= x < |b.recs| && b.recs[x].id == id
  {
    RewriteAsks(b.plans, b.src, id);
    if !Asks(b.src, id) {
      var r :| Listed(b.plans, r) && IdOf(b.plans, r) == id;
      IdHasRecord(b, r);
    }
  }
}
