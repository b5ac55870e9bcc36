/** What the pass writes into the catalog: the key of every alternative and literal, and the
    ledger that ties emitted records to instrumented sites. */
module Ledgers {
  import opened Scalars
  import opened IR
  import opened Mutants
  import opened Rewrite
  import opened Fidelity
  import opened FirstOrder
  import opened Insertion
  import opened Ordinals
  import opened Worklists
  import opened Keys

  // ---------------------------------------------------------------- what a site is called

  predicate IsSite(i: Inst) {
    i.Bin? || i.Cmp?
  }

  function AltCount(i: Inst): nat
    requires IsSite(i)
  {
    if i.Bin? then |BinAlts(i.bop, i.width)| else |PredAlts(i.pred)|
  }

  function SiteName(i: Inst): string
    requires IsSite(i)
  {
    if i.Bin? then BinName(i.bop, i.width) else PredName(i.pred)
  }

  function AltName(i: Inst, k: nat): string
    requires IsSite(i) && k < AltCount(i)
  {
    if i.Bin? then BinName(BinAlts(i.bop, i.width)[k].op, i.width) else PredName(PredAlts(i.pred)[k])
  }

  function AltKind(i: Inst, k: nat): string
    requires IsSite(i) && k < AltCount(i)
  {
    if i.Bin? then BinAlts(i.bop, i.width)[k].kind else "ROR"
  }

  /** The mutated copy of the instruction as it stands. */
  function CopyOf(i: Inst, n: nat, k: nat): Inst
    requires IsSite(i) && k < AltCount(i)
  {
    if i.Bin? then Bin(Mut(n, k), BinAlts(i.bop, i.width)[k].op, i.width, i.a, i.b, i.loc)
    else Cmp(Mut(n, k), PredAlts(i.pred)[k], i.width, i.a, i.b, i.loc)
  }

  function SiteKey(fn: string, i: Inst, k: nat, ord: nat): Key
    requires IsSite(i) && k < AltCount(i) && i.loc.Some?
  {
    Key(i.loc.value.file, i.loc.value.line, i.loc.value.col, fn, ord, AltKind(i, k), SiteName(i), AltName(i, k))
  }

  function LitKey(fn: string, loc: Loc, lit: Operand, ord: nat): Key
    requires IsLit(lit)
  {
    Key(loc.file, loc.line, loc.col, fn, ord, "LVR",
        if lit.value == 0 then "0" else "1", if lit.value == 0 then "1" else "0")
  }

  /** The number of alternatives a site gets: none without a source location. */
  function Wanted(i: Inst): nat {
    if IsSite(i) && i.loc.Some? then AltCount(i) else 0
  }

  predicate PhaseKind(ph: Phase, kind: string) {
    match ph
    case BinPhase => kind == "AOR" || kind == "BOR" || kind == "LCR"
    case CmpPhase => kind == "ROR"
    case LitPhase => kind == "LVR"
  }

  lemma KindsApart(a: Phase, b: Phase, s: string, t: string)
    requires a != b && PhaseKind(a, s) && PhaseKind(b, t)
    ensures s != t
  {
    assert "AOR"[0] == 'A' && "BOR"[0] == 'B' && "LCR"[1] == 'C' && "ROR"[0] == 'R' && "LVR"[1] == 'V'
           && "LVR"[0] == 'L';
  }

  // ---------------------------------------------------------------- the ledger

  /** What one catalog record is about, and the key its id was hashed from. */
  datatype Entry = Entry(ref: MutantRef, phase: Phase, pos: Pos, key: Key)

  /** The plans carried out so far, and one entry per emitted record. */
  datatype Ledger = Ledger(plans: seq<Plan>, entries: seq<Entry>)

  function LitAt(src: Module, u: Use): Operand
    requires IsUse(src, LitPhase, u)
  {
    if AtInst(src, u.pos) then (if u.pos.sub == 0 then InstAt(src, u.pos).a else InstAt(src, u.pos).b)
    else src[u.pos.fn].blocks[u.pos.block].term.value.value
  }

  function LocAt(src: Module, u: Use): Option<Loc>
    requires IsUse(src, LitPhase, u)
  {
    if AtInst(src, u.pos) then InstAt(src, u.pos).loc else src[u.pos.fn].blocks[u.pos.block].term.loc
  }

  /** The use that a literal site stands for. */
  function UseOf(pos: Pos, at: LitSite): Use {
    Use(pos, if at.CmpLit? then at.of else at.block)
  }

  /** The key says what the mutant is: place, function, operator and replacement. */
  ghost predicate Describes(src: Module, e: Entry)
    requires InBlock(src, e.pos)
  {
    match e.ref
    case AltRef(_, n, k) =>
      && AtInst(src, e.pos)
      && var i := InstAt(src, e.pos);
         && i.dst == Src(n) && k < Wanted(i) && e.key == SiteKey(src[e.pos.fn].name, i, k, e.key.ord)
    case LitRef(_, at) =>
      var u := UseOf(e.pos, at);
      && IsUse(src, LitPhase, u) && LitSiteOf(src, u) == at && LocAt(src, u).Some?
      && e.key == LitKey(src[e.pos.fn].name, LocAt(src, u).value, LitAt(src, u), e.key.ord)
  }

  ghost predicate EntryOk(src: Module, plans: seq<Plan>, e: Entry) {
    && InBlock(src, e.pos) && (!e.phase.LitPhase? ==> e.pos.sub == 0)
    && e.ref.fn == e.pos.fn && Listed(plans, e.ref) && IdOf(plans, e.ref) == IdOfKey(e.key)
    && e.key.fn == src[e.pos.fn].name && PhaseKind(e.phase, e.key.kind)
    && NoColon(e.key.kind) && NoColon(e.key.op) && NoColon(e.key.mut) && Describes(src, e)
  }

  ghost predicate EntriesOk(src: Module, led: Ledger) {
    forall x {:trigger EntryOk(src, led.plans, led.entries[x])} :: 0 <= x < |led.entries| ==>
      EntryOk(src, led.plans, led.entries[x])
  }

  ghost predicate AllEntered(led: Ledger) {
    forall r :: Listed(led.plans, r) ==> exists x :: 0 <= x < |led.entries| && led.entries[x].ref == r
  }

  ghost predicate KeysApart(led: Ledger) {
    forall x, y :: 0 <= x < y < |led.entries| ==>
      led.entries[x].key != led.entries[y].key && led.entries[x].ref != led.entries[y].ref
  }

  /** A plan with one more recorded alternative or literal. */
  function Enter(p: Plan, e: Entry): Plan {
    match e.ref
    case AltRef(_, n, _) => AddId(p, n, IdOfKey(e.key))
    case LitRef(_, at) => AddLit(p, at, IdOfKey(e.key))
  }

  /** What the records so far have inserted into a function. */
  function Inserted(entries: seq<Entry>, fi: nat): Plan {
    if entries == [] then NO_PLAN else
      var p, e := Inserted(entries[..|entries| - 1], fi), entries[|entries| - 1];
      if e.pos.fn == fi then Enter(p, e) else p
  }

  ghost predicate SameInsertions(p: Plan, q: Plan) {
    p.chains == q.chains && p.lits == q.lits
  }

  ghost predicate AllInserted(led: Ledger) {
    forall fi: nat {:trigger Inserted(led.entries, fi)} :: fi < |led.plans| ==>
      SameInsertions(led.plans[fi], Inserted(led.entries, fi))
  }

  /** The key of an entry carries the ordinal that its site had when the earlier entries, and no
      others, were inserted. */
  ghost predicate LiveOrdinal(src: Module, entries: seq<Entry>, x: nat)
    requires x < |entries|
  {
    var e := entries[x];
    && InBlock(src, e.pos)
    && e.key.ord == SiteOrdinal(Inserted(entries[..x], e.pos.fn), src[e.pos.fn], e.pos.block, e.pos.index)
  }

  ghost predicate OrdinalsLive(src: Module, led: Ledger) {
    forall x: nat {:trigger LiveOrdinal(src, led.entries, x)} :: x < |led.entries| ==> LiveOrdinal(src, led.entries, x)
  }

  function Rank(ph: Phase): nat {
    match ph
    case BinPhase => 0
    case CmpPhase => 1
    case LitPhase => 2
  }

  /** The order in which the pass records: by worklist, then by place, then by alternative. */
  predicate ComesBefore(a: Entry, b: Entry) {
    || Rank(a.phase) < Rank(b.phase)
    || (a.phase == b.phase
        && (Less(a.pos, b.pos) || (a.pos == b.pos && a.ref.AltRef? && b.ref.AltRef? && a.ref.k < b.ref.k)))
  }

  ghost predicate InOrder(led: Ledger) {
    forall x: nat, y: nat {:trigger ComesBefore(led.entries[x], led.entries[y])} ::
      x < y < |led.entries| ==> ComesBefore(led.entries[x], led.entries[y])
  }

  /** One entry per listed mutant, in the order of the worklists, with pairwise different keys that
      carry live ordinals. */
  ghost predicate LedgerOk(src: Module, led: Ledger) {
    && |led.plans| == |src| && EntriesOk(src, led) && AllEntered(led) && KeysApart(led)
    && AllInserted(led) && OrdinalsLive(src, led) && InOrder(led)
  }

  /** The module and the records produced so far. */
  ghost predicate State(src: Module, fns: Module, recs: seq<Mutant>, led: Ledger) {
    && SrcModule(src) && LedgerOk(src, led)
    && fns == RewriteModule(led.plans, src)
    && |recs| == |led.entries| && forall x :: 0 <= x < |recs| ==> recs[x] == RecordOf(led.entries[x].key)
  }

  ghost predicate DistinctNames(src: Module) {
    forall i, j :: 0 <= i < j < |src| ==> src[i].name != src[j].name
  }

  lemma EntriesStay(src: Module, led: Ledger, plans: seq<Plan>)
    requires EntriesOk(src, led)
    requires forall r :: Listed(led.plans, r) ==> Listed(plans, r) && IdOf(plans, r) == IdOf(led.plans, r)
    ensures EntriesOk(src, led.(plans := plans))
  {
    forall x | 0 <= x < |led.entries|
      ensures EntryOk(src, plans, led.entries[x])
    {
      assert EntryOk(src, led.plans, led.entries[x]);
    }
  }

  lemma EnterCovers(led: Ledger, plans: seq<Plan>, e: Entry)
    requires AllEntered(led) && forall r :: Listed(plans, r) ==> Listed(led.plans, r) || r == e.ref
    ensures AllEntered(Ledger(plans, led.entries + [e]))
  {
    var entries := led.entries + [e];
    forall r | Listed(plans, r)
      ensures exists x :: 0 <= x < |entries| && entries[x].ref == r
    {
      if r == e.ref {
        assert entries[|led.entries|].ref == r;
      } else {
        var x :| 0 <= x < |led.entries| && led.entries[x].ref == r;
        assert entries[x].ref == r;
      }
    }
  }

  lemma EnterApart(src: Module, led: Ledger, plans: seq<Plan>, e: Entry)
    requires EntriesOk(src, led) && KeysApart(led) && !Listed(led.plans, e.ref)
    requires forall x :: 0 <= x < |led.entries| ==> led.entries[x].key != e.key
    ensures KeysApart(Ledger(plans, led.entries + [e]))
  {
    forall x | 0 <= x < |led.entries|
      ensures led.entries[x].ref != e.ref
    {
      assert EntryOk(src, led.plans, led.entries[x]);
    }
  }

  lemma SameOrdinal(p: Plan, q: Plan, f: Function, bi: nat, j: nat)
    requires SameInsertions(p, q) && bi < |f.blocks| && j <= |f.blocks[bi].insts|
    ensures SiteOrdinal(p, f, bi, j) == SiteOrdinal(q, f, bi, j)
  {
    SiteOrdinalGrows(p, q, f, bi, j);
    SiteOrdinalGrows(q, p, f, bi, j);
  }

  lemma InsertedMore(entries: seq<Entry>, e: Entry, fi: nat)
    ensures Inserted(entries + [e], fi) ==
            if e.pos.fn == fi then Enter(Inserted(entries, fi), e) else Inserted(entries, fi)
  {
    assert (entries + [e])[..|entries|] == entries;
  }

  lemma EnterInserts(led: Ledger, plans: seq<Plan>, e: Entry)
    requires AllInserted(led) && e.pos.fn < |led.plans| && plans == led.plans[e.pos.fn := Enter(led.plans[e.pos.fn], e)]
    ensures AllInserted(Ledger(plans, led.entries + [e]))
  {
    forall fi: nat | fi < |plans|
      ensures SameInsertions(plans[fi], Inserted(led.entries + [e], fi))
    {
      InsertedMore(led.entries, e, fi);
      assert SameInsertions(led.plans[fi], Inserted(led.entries, fi));
    }
  }

  lemma EnterLive(src: Module, led: Ledger, e: Entry)
    requires |led.plans| == |src| && AllInserted(led) && OrdinalsLive(src, led) && InBlock(src, e.pos)
    requires e.key.ord == SiteOrdinal(led.plans[e.pos.fn], src[e.pos.fn], e.pos.block, e.pos.index)
    ensures forall x: nat :: x <= |led.entries| ==> LiveOrdinal(src, led.entries + [e], x)
  {
    var entries := led.entries + [e];
    forall x: nat | x <= |led.entries|
      ensures LiveOrdinal(src, entries, x)
    {
      assert entries[..x] == led.entries[..x];
      if x < |led.entries| {
        assert LiveOrdinal(src, led.entries, x);
      } else {
        assert led.entries[..x] == led.entries;
        assert SameInsertions(led.plans[e.pos.fn], Inserted(led.entries, e.pos.fn));
        SameOrdinal(led.plans[e.pos.fn], Inserted(led.entries, e.pos.fn), src[e.pos.fn], e.pos.block, e.pos.index);
      }
    }
  }

  lemma EnterOrdered(led: Ledger, plans: seq<Plan>, e: Entry)
    requires InOrder(led)
    requires forall x {:trigger ComesBefore(led.entries[x], e)} :: 0 <= x < |led.entries| ==>
               ComesBefore(led.entries[x], e)
    ensures InOrder(Ledger(plans, led.entries + [e]))
  {
    var entries := led.entries + [e];
    forall x: nat, y: nat | x < y < |entries|
      ensures ComesBefore(entries[x], entries[y])
    {
      if y < |led.entries| {
        assert ComesBefore(led.entries[x], led.entries[y]);
      } else {
        assert ComesBefore(led.entries[x], e);
      }
    }
  }

  /** No entry belongs to a later worklist. */
  ghost predicate Phased(led: Ledger, ph: Phase) {
    forall x :: 0 <= x < |led.entries| ==> Rank(led.entries[x].phase) <= Rank(ph)
  }

  /** A new entry with a new key. */
  lemma AddEntry(src: Module, led: Ledger, plans: seq<Plan>, e: Entry)
    requires LedgerOk(src, led) && |plans| == |src| && EntryOk(src, plans, e) && !Listed(led.plans, e.ref)
    requires plans == led.plans[e.pos.fn := Enter(led.plans[e.pos.fn], e)]
    requires e.key.ord == SiteOrdinal(led.plans[e.pos.fn], src[e.pos.fn], e.pos.block, e.pos.index)
    requires forall r :: Listed(plans, r) <==> Listed(led.plans, r) || r == e.ref
    requires forall r :: Listed(led.plans, r) ==> IdOf(plans, r) == IdOf(led.plans, r)
    requires forall x :: 0 <= x < |led.entries| ==> led.entries[x].key != e.key
    requires forall x {:trigger ComesBefore(led.entries[x], e)} :: 0 <= x < |led.entries| ==>
               ComesBefore(led.entries[x], e)
    ensures LedgerOk(src, Ledger(plans, led.entries + [e]))
  {
    EntriesStay(src, led, plans);
    EnterCovers(led, plans, e);
    EnterApart(src, led, plans, e);
    EnterInserts(led, plans, e);
    EnterLive(src, led, e);
    EnterOrdered(led, plans, e);
    assert EntriesOk(src, Ledger(plans, led.entries + [e])) by {
      forall x | 0 <= x < |led.entries|
        ensures EntryOk(src, plans, led.entries[x])
      {
        assert EntryOk(src, led.(plans := plans).plans, led.(plans := plans).entries[x]);
      }
    }
  }

  // ---------------------------------------------------------------- ordinals of entries

  /** The ordinal recorded for an entry is still a lower bound of its site's ordinal; behind
      a selected literal it is a strict one. */
  ghost predicate Bounded(src: Module, plans: seq<Plan>, e: Entry)
    requires |plans| == |src| && InBlock(src, e.pos)
  {
    e.key.ord + (if e.phase.LitPhase? then 1 else 0)
    <= SiteOrdinal(plans[e.pos.fn], src[e.pos.fn], e.pos.block, e.pos.index)
  }

  /** The entries of the current phase are about earlier places. */
  ghost predicate EntriesBefore(src: Module, led: Ledger, ph: Phase, pos: Pos)
    requires |led.plans| == |src|
  {
    forall x :: 0 <= x < |led.entries| && led.entries[x].phase == ph ==>
      InBlock(src, led.entries[x].pos) && Bounded(src, led.plans, led.entries[x]) && Less(led.entries[x].pos, pos)
  }

  ghost predicate GrownAll(p: seq<Plan>, q: seq<Plan>) {
    |p| == |q| && forall i :: 0 <= i < |p| ==> Grown(p[i], q[i])
  }

  lemma BoundedGrows(src: Module, p: seq<Plan>, q: seq<Plan>, e: Entry)
    requires |p| == |src| && GrownAll(p, q) && InBlock(src, e.pos) && Bounded(src, p, e)
    ensures Bounded(src, q, e)
  {
    SiteOrdinalGrows(p[e.pos.fn], q[e.pos.fn], src[e.pos.fn], e.pos.block, e.pos.index);
  }

  /** A key taken at a later place differs from the keys of all other places. */
  lemma LaterKeyDiffers(src: Module, plans: seq<Plan>, e: Entry, ph: Phase, pos: Pos, key: Key)
    requires DistinctNames(src) && |plans| == |src| && InBlock(src, pos) && EntryOk(src, plans, e)
    requires PhaseKind(ph, key.kind) && key.fn == src[pos.fn].name && (!ph.LitPhase? ==> pos.sub == 0)
    requires e.phase == ph ==> Bounded(src, plans, e) && Less(e.pos, pos)
    requires key.ord == SiteOrdinal(plans[pos.fn], src[pos.fn], pos.block, pos.index)
    ensures e.key != key
  {
    if e.phase != ph {
      KindsApart(e.phase, ph, e.key.kind, key.kind);
    } else if e.pos.fn == pos.fn && (e.pos.block != pos.block || e.pos.index != pos.index) {
      SiteOrdinalIncreases(plans[pos.fn], src[pos.fn], e.pos.block, e.pos.index, pos.block, pos.index);
    }
  }
}
