/** The loop over literals: a select in front of the comparison or return that uses one. */
module Literals {
  import opened Scalars
  import opened IR
  import opened Rewrite
  import opened Fidelity
  import opened FirstOrder
  import opened Insertion
  import opened Ordinals
  import opened Worklists
  import opened Hash
  import opened Keys
  import opened Ledgers
  import opened Sites

  // ---------------------------------------------------------------- one literal

  /** One literal has been selected: its key carries the ordinal from before the insertion. */
  ghost predicate LitInserted(p: Plan, sf: Function, bi: nat, j: nat, at: LitSite, loc: Loc, lit: Operand,
                              f': Function, rec: Mutant, key: Key) {
    && bi < |sf.blocks| && j <= |sf.blocks[bi].insts| && IsLit(lit)
    && key == LitKey(sf.name, loc, lit, SiteOrdinal(p, sf, bi, j)) && rec == RecordOf(key)
    && f' == RewriteFn(AddLit(p, at, IdOfKey(key)), sf)
  }

  lemma LitStillThere(p: Plan, i: Inst, oi: nat)
    requires i.Cmp? && i.dst.Src? && oi < 2 && IsLit(if oi == 0 then i.a else i.b) && CmpLit(i.dst.n, oi) !in p.lits
    ensures var c := Core(p, i); c.Cmp? && c.loc == i.loc && (if oi == 0 then c.a == i.a else c.b == i.b)
  {
  }

  lemma CmpLitFrom(p: Plan, sf: Function, f: Function, bi: nat, j: nat, n: nat, oi: nat, id: u32, at: nat, inst: Inst,
                   lit: Operand)
    requires DefinedAt(sf, bi, j, n) && SrcInst(sf.blocks[bi].insts[j]) && sf.blocks[bi].insts[j].Cmp?
    requires oi < 2 && lit == (if oi == 0 then sf.blocks[bi].insts[j].a else sf.blocks[bi].insts[j].b) && IsLit(lit)
    requires CmpLit(n, oi) !in p.lits && (oi == 0 ==> CmpLit(n, 1) !in p.lits)
    requires OnSite(p, sf, f, bi, j, n, at, inst)
    ensures inst.Cmp? && bi < |f.blocks| && at < |f.blocks[bi].insts|
    ensures var insts := f.blocks[bi].insts;
            RewriteFn(AddLit(p, CmpLit(n, oi), id), sf) ==
            SetInsts(f, bi, WithLit(insts, at, inst, n, oi, id, lit))
  {
    var b, r := sf.blocks[bi], RewriteFn(p, sf);
    assert inst == Core(p, b.insts[j]) && at == |Lead(p, b.insts, j)| && f == r;
    CmpLitStep(p, sf, bi, j, n, oi, id);
  }

  method InsertCmpLit(ghost sf: Function, f: Function, ghost p: Plan, bi: nat, ghost j: nat, n: nat, oi: nat, at: nat,
                      inst: Inst, loc: Loc)
    returns (f': Function, rec: Mutant, ghost key: Key)
    requires DefinedAt(sf, bi, j, n) && SrcInst(sf.blocks[bi].insts[j]) && OnSite(p, sf, f, bi, j, n, at, inst)
    requires sf.blocks[bi].insts[j].Cmp? && oi < 2
    requires IsLit(if oi == 0 then sf.blocks[bi].insts[j].a else sf.blocks[bi].insts[j].b)
    requires CmpLit(n, oi) !in p.lits && (oi == 0 ==> CmpLit(n, 1) !in p.lits)
    ensures var lit := if oi == 0 then sf.blocks[bi].insts[j].a else sf.blocks[bi].insts[j].b;
            LitInserted(p, sf, bi, j, CmpLit(n, oi), loc, lit, f', rec, key)
  {
    AtInBlock(p, sf, bi, j);
    LitStillThere(p, sf.blocks[bi].insts[j], oi);
    var lit := if oi == 0 then inst.a else inst.b;
    var ord := InstOrdinal(f, bi, at);
    key := LitKey(sf.name, loc, lit, ord);
    var text := LitKey(f.name, loc, lit, ord);
    var id := ComputeFnv1a(KeyText(text));
    CmpLitFrom(p, sf, f, bi, j, n, oi, id, at, inst, lit);
    f' := SetInsts(f, bi, WithLit(f.blocks[bi].insts, at, inst, n, oi, id, lit));
    rec := Mutant(id, text.file, text.line, text.col, text.kind, text.op, text.mut);
  }

  lemma RetLitFrom(p: Plan, sf: Function, f: Function, bi: nat, id: u32)
    requires SrcFn(sf) && bi < |sf.blocks| && RetLit(bi) !in p.lits && f == RewriteFn(p, sf)
    requires sf.blocks[bi].term.Return? && sf.blocks[bi].term.value.Some? && IsLit(sf.blocks[bi].term.value.value)
    ensures bi < |f.blocks| && f.blocks[bi].term == sf.blocks[bi].term
    ensures Ordinal(f, bi, |f.blocks[bi].insts|) == SiteOrdinal(p, sf, bi, |sf.blocks[bi].insts|)
    ensures var t := f.blocks[bi].term;
            RewriteFn(AddLit(p, RetLit(bi), id), sf) ==
            SetTerm(SetInsts(f, bi, f.blocks[bi].insts + LitPair(RetLit(bi), id, t.value.value)),
                    bi, Return(Some(Var(LitSel(RetLit(bi)))), t.loc))
  {
    RetLitStep(p, sf, bi, id);
  }

  method InsertRetLit(ghost sf: Function, f: Function, ghost p: Plan, bi: nat, loc: Loc)
    returns (f': Function, rec: Mutant, ghost key: Key)
    requires SrcFn(sf) && bi < |sf.blocks| && RetLit(bi) !in p.lits && f == RewriteFn(p, sf)
    requires sf.blocks[bi].term.Return? && sf.blocks[bi].term.value.Some? && IsLit(sf.blocks[bi].term.value.value)
    ensures LitInserted(p, sf, bi, |sf.blocks[bi].insts|, RetLit(bi), loc, sf.blocks[bi].term.value.value, f', rec, key)
  {
    RetLitFrom(p, sf, f, bi, 0);
    var t := f.blocks[bi].term;
    var ord := InstOrdinal(f, bi, |f.blocks[bi].insts|);
    key := LitKey(sf.name, loc, t.value.value, ord);
    var text := LitKey(f.name, loc, t.value.value, ord);
    var id := ComputeFnv1a(KeyText(text));
    RetLitFrom(p, sf, f, bi, id);
    f' := SetTerm(SetInsts(f, bi, f.blocks[bi].insts + LitPair(RetLit(bi), id, t.value.value)),
                  bi, Return(Some(Var(LitSel(RetLit(bi)))), t.loc));
    rec := Mutant(id, text.file, text.line, text.col, text.kind, text.op, text.mut);
  }

  /** Selecting a literal moves its user back, so the next literal of the same user gets a
      larger ordinal. */
  lemma LitMovesCmp(p: Plan, sf: Function, bi: nat, j: nat, n: nat, oi: nat, id: u32)
    requires DefinedAt(sf, bi, j, n) && sf.blocks[bi].insts[j].Cmp?
    requires oi < 2 && IsLit(if oi == 0 then sf.blocks[bi].insts[j].a else sf.blocks[bi].insts[j].b)
    requires CmpLit(n, oi) !in p.lits && (oi == 0 ==> CmpLit(n, 1) !in p.lits)
    ensures SiteOrdinal(p, sf, bi, j) < SiteOrdinal(AddLit(p, CmpLit(n, oi), id), sf, bi, j)
  {
    var q := AddLit(p, CmpLit(n, oi), id);
    StartGrows(p, q, sf, bi);
    CmpLitParts(p, sf.blocks[bi], j, n, oi, id);
  }

  lemma LitMovesRet(p: Plan, sf: Function, bi: nat, id: u32)
    requires SrcFn(sf) && bi < |sf.blocks| && RetLit(bi) !in p.lits
    requires sf.blocks[bi].term.Return? && sf.blocks[bi].term.value.Some? && IsLit(sf.blocks[bi].term.value.value)
    ensures var j := |sf.blocks[bi].insts|;
            SiteOrdinal(p, sf, bi, j) < SiteOrdinal(AddLit(p, RetLit(bi), id), sf, bi, j)
  {
    assert SrcBlock(sf.blocks[bi]);
    StartGrows(p, AddLit(p, RetLit(bi), id), sf, bi);
    RetLitBlock(p, bi, sf.blocks[bi], id);
  }

  // ---------------------------------------------------------------- the ledger of a literal

  lemma ListedLit(plans: seq<Plan>, fi: nat, at: LitSite, id: u32)
    requires fi < |plans| && at !in plans[fi].lits
    ensures var q := plans[fi := AddLit(plans[fi], at, id)];
            var r := LitRef(fi, at);
            && !Listed(plans, r)
            && (forall s :: Listed(q, s) <==> Listed(plans, s) || s == r)
            && (forall s :: Listed(plans, s) ==> IdOf(q, s) == IdOf(plans, s))
            && Listed(q, r) && IdOf(q, r) == id && GrownAll(plans, q)
  {
    var p, q := plans[fi], AddLit(plans[fi], at, id);
    assert forall m: nat :: Ids(q, m) == Ids(p, m);
  }

  lemma LitKeyNew(src: Module, led: Ledger, u: Use, key: Key)
    requires DistinctNames(src) && LedgerOk(src, led) && IsUse(src, LitPhase, u)
             && EntriesBefore(src, led, LitPhase, u.pos)
    requires key.kind == "LVR" && key.fn == src[u.pos.fn].name
    requires key.ord == SiteOrdinal(led.plans[u.pos.fn], src[u.pos.fn], u.pos.block, u.pos.index)
    ensures forall x :: 0 <= x < |led.entries| ==> led.entries[x].key != key
  {
    forall x | 0 <= x < |led.entries|
      ensures led.entries[x].key != key
    {
      assert EntryOk(src, led.plans, led.entries[x]);
      LaterKeyDiffers(src, led.plans, led.entries[x], LitPhase, u.pos, key);
    }
  }

  /** The ledger with one more literal. */
  function LedgerWithLit(src: Module, led: Ledger, u: Use, key: Key): Ledger
    requires u.pos.fn < |led.plans|
  {
    Ledger(led.plans[u.pos.fn := AddLit(led.plans[u.pos.fn], LitSiteOf(src, u), IdOfKey(key))],
           led.entries + [Entry(LitRef(u.pos.fn, LitSiteOf(src, u)), LitPhase, u.pos, key)])
  }

  lemma LitEntered(src: Module, led: Ledger, u: Use, loc: Loc, key: Key)
    requires DistinctNames(src) && LedgerOk(src, led) && IsUse(src, LitPhase, u)
             && EntriesBefore(src, led, LitPhase, u.pos)
    requires LitSiteOf(src, u) !in led.plans[u.pos.fn].lits && LocAt(src, u) == Some(loc)
    requires key == LitKey(src[u.pos.fn].name, loc, LitAt(src, u),
                           SiteOrdinal(led.plans[u.pos.fn], src[u.pos.fn], u.pos.block, u.pos.index))
    ensures LedgerOk(src, LedgerWithLit(src, led, u, key)) && GrownAll(led.plans, LedgerWithLit(src, led, u, key).plans)
  {
    var at, plans := LitSiteOf(src, u), LedgerWithLit(src, led, u, key).plans;
    LitKeyNew(src, led, u, key);
    ListedLit(led.plans, u.pos.fn, at, IdOfKey(key));
    LitEntryOk(src, plans, u, loc, key);
    LitComesLast(src, led, u, Entry(LitRef(u.pos.fn, at), LitPhase, u.pos, key));
    AddEntry(src, led, plans, Entry(LitRef(u.pos.fn, at), LitPhase, u.pos, key));
  }

  lemma LitComesLast(src: Module, led: Ledger, u: Use, e: Entry)
    requires |led.plans| == |src| && EntriesBefore(src, led, LitPhase, u.pos) && e.phase == LitPhase && e.pos == u.pos
    ensures forall x :: 0 <= x < |led.entries| ==> ComesBefore(led.entries[x], e)
  {
  }

  lemma LitEntryOk(src: Module, plans: seq<Plan>, u: Use, loc: Loc, key: Key)
    requires IsUse(src, LitPhase, u) && LocAt(src, u) == Some(loc)
             && key == LitKey(src[u.pos.fn].name, loc, LitAt(src, u), key.ord)
    requires var r := LitRef(u.pos.fn, LitSiteOf(src, u)); Listed(plans, r) && IdOf(plans, r) == IdOfKey(key)
    ensures EntryOk(src, plans, Entry(LitRef(u.pos.fn, LitSiteOf(src, u)), LitPhase, u.pos, key))
  {
    assert UseOf(u.pos, LitSiteOf(src, u)) == u;
  }

  lemma LitBehind(src: Module, led: Ledger, u: Use, key: Key, next: Pos)
    requires |led.plans| == |src| && IsUse(src, LitPhase, u) && EntriesBefore(src, led, LitPhase, u.pos)
             && Less(u.pos, next)
    requires GrownAll(led.plans, LedgerWithLit(src, led, u, key).plans)
    requires var p := LedgerWithLit(src, led, u, key).plans[u.pos.fn];
             key.ord < SiteOrdinal(p, src[u.pos.fn], u.pos.block, u.pos.index)
    ensures EntriesBefore(src, LedgerWithLit(src, led, u, key), LitPhase, next)
  {
    var after := LedgerWithLit(src, led, u, key);
    forall x | 0 <= x < |after.entries| && after.entries[x].phase == LitPhase
      ensures var e := after.entries[x]; InBlock(src, e.pos) && Bounded(src, after.plans, e) && Less(e.pos, next)
    {
      if x < |led.entries| {
        BoundedGrows(src, led.plans, after.plans, led.entries[x]);
        LessTrans(led.entries[x].pos, u.pos, next);
      }
    }
  }

  /** The only new literal is that of `u`. */
  ghost predicate AddsLit(src: Module, plans: seq<Plan>, plans': seq<Plan>, u: Use, id: u32)
    requires |plans| == |src|
  {
    u.pos.fn < |src| && plans' == plans[u.pos.fn := AddLit(plans[u.pos.fn], LitSiteOf(src, u), id)]
  }

  ghost predicate LitFinished(src: Module, led: Ledger, led': Ledger, u: Use)
    requires |led.plans| == |src| && IsUse(src, LitPhase, u)
  {
    && |led'.plans| == |src|
    && (LocAt(src, u).None? ==> led' == led)
    && (LocAt(src, u).Some? ==> exists id: u32 :: AddsLit(src, led.plans, led'.plans, u, id))
    && (forall next :: Less(u.pos, next) ==> EntriesBefore(src, led', LitPhase, next))
  }

  /** The literals of an instruction are selected in operand order. */
  ghost predicate LitReady(src: Module, plans: seq<Plan>, u: Use)
    requires |plans| == |src| && IsUse(src, LitPhase, u)
  {
    && LitSiteOf(src, u) !in plans[u.pos.fn].lits
    && (AtInst(src, u.pos) && u.pos.sub == 0 ==> CmpLit(u.n, 1) !in plans[u.pos.fn].lits)
  }

  lemma LitState(src: Module, fns: Module, recs: seq<Mutant>, led: Ledger, u: Use, loc: Loc, f': Function, rec: Mutant,
                 key: Key)
    requires DistinctNames(src) && State(src, fns, recs, led) && IsUse(src, LitPhase, u)
             && EntriesBefore(src, led, LitPhase, u.pos)
    requires LitReady(src, led.plans, u) && LocAt(src, u) == Some(loc)
    requires LitInserted(led.plans[u.pos.fn], src[u.pos.fn], u.pos.block, u.pos.index, LitSiteOf(src, u), loc,
               LitAt(src, u), f', rec, key)
    ensures State(src, fns[u.pos.fn := f'], recs + [rec], LedgerWithLit(src, led, u, key))
    ensures LitFinished(src, led, LedgerWithLit(src, led, u, key), u)
  {
    var fi, p := u.pos.fn, led.plans[u.pos.fn];
    LitEntered(src, led, u, loc, key);
    ModuleStep(src, led.plans, fi, AddLit(p, LitSiteOf(src, u), IdOfKey(key)));
    LitFinishes(src, led, u, key);
  }

  lemma LitFinishes(src: Module, led: Ledger, u: Use, key: Key)
    requires SrcModule(src) && |led.plans| == |src| && IsUse(src, LitPhase, u)
             && EntriesBefore(src, led, LitPhase, u.pos)
    requires LitReady(src, led.plans, u) && LocAt(src, u).Some?
    requires key.ord == SiteOrdinal(led.plans[u.pos.fn], src[u.pos.fn], u.pos.block, u.pos.index)
    requires GrownAll(led.plans, LedgerWithLit(src, led, u, key).plans)
    ensures LitFinished(src, led, LedgerWithLit(src, led, u, key), u)
  {
    LitMoved(src, led.plans[u.pos.fn], u, IdOfKey(key));
    assert AddsLit(src, led.plans, LedgerWithLit(src, led, u, key).plans, u, IdOfKey(key));
    AllBehind(src, led, u, key);
  }

  lemma AllBehind(src: Module, led: Ledger, u: Use, key: Key)
    requires |led.plans| == |src| && IsUse(src, LitPhase, u) && EntriesBefore(src, led, LitPhase, u.pos)
    requires GrownAll(led.plans, LedgerWithLit(src, led, u, key).plans)
    requires var p := LedgerWithLit(src, led, u, key).plans[u.pos.fn];
             key.ord < SiteOrdinal(p, src[u.pos.fn], u.pos.block, u.pos.index)
    ensures forall next :: Less(u.pos, next) ==> EntriesBefore(src, LedgerWithLit(src, led, u, key), LitPhase, next)
  {
    forall next | Less(u.pos, next)
      ensures EntriesBefore(src, LedgerWithLit(src, led, u, key), LitPhase, next)
    {
      LitBehind(src, led, u, key, next);
    }
  }

  lemma LitMoved(src: Module, p: Plan, u: Use, id: u32)
    requires SrcModule(src) && IsUse(src, LitPhase, u) && LitSiteOf(src, u) !in p.lits
    requires AtInst(src, u.pos) && u.pos.sub == 0 ==> CmpLit(u.n, 1) !in p.lits
    ensures SiteOrdinal(p, src[u.pos.fn], u.pos.block, u.pos.index) <
            SiteOrdinal(AddLit(p, LitSiteOf(src, u), id), src[u.pos.fn], u.pos.block, u.pos.index)
  {
    assert SrcFn(src[u.pos.fn]);
    if AtInst(src, u.pos) {
      SiteDefined(src, u);
      LitMovesCmp(p, src[u.pos.fn], u.pos.block, u.pos.index, u.n, u.pos.sub, id);
    } else {
      LitMovesRet(p, src[u.pos.fn], u.pos.block, id);
    }
  }

  lemma LitSkipped(src: Module, led: Ledger, u: Use)
    requires |led.plans| == |src| && IsUse(src, LitPhase, u) && EntriesBefore(src, led, LitPhase, u.pos)
             && LocAt(src, u).None?
    ensures LitFinished(src, led, led, u)
  {
    forall next, x | Less(u.pos, next) && 0 <= x < |led.entries| && led.entries[x].phase == LitPhase
      ensures Less(led.entries[x].pos, next)
    {
      LessTrans(led.entries[x].pos, u.pos, next);
    }
  }

  /** The body of the lits loop. */
  method InstrumentLit(ghost src: Module, fns: Module, recs: seq<Mutant>, ghost led: Ledger, u: Use, isReturn: bool)
    returns (fns': Module, recs': seq<Mutant>, ghost led': Ledger)
    requires DistinctNames(src) && State(src, fns, recs, led) && IsUse(src, LitPhase, u)
             && EntriesBefore(src, led, LitPhase, u.pos)
    requires LitReady(src, led.plans, u) && isReturn == !AtInst(src, u.pos)
    ensures State(src, fns', recs', led') && LitFinished(src, led, led', u)
  {
    var fi, bi, n := u.pos.fn, u.pos.block, u.n;
    ghost var p, sf := led.plans[fi], src[fi];
    FunctionNow(src, fns, led.plans, fi);
    assert SrcFn(sf);
    var f', rec;
    ghost var key;
    var f := fns[fi];
    if isReturn {
      RetLitFrom(p, sf, f, bi, 0);
      var loc := f.blocks[bi].term.loc;
      if loc.None? {
        LitSkipped(src, led, u);
        return fns, recs, led;
      }
      f', rec, key := InsertRetLit(sf, f, p, bi, loc.value);
      LitState(src, fns, recs, led, u, loc.value, f', rec, key);
    } else {
      SiteDefined(src, u);
      SiteThere(p, sf, f, bi, u.pos.index, n);
      var at := Locate(f.blocks[bi].insts, Src(n));
      var inst := f.blocks[bi].insts[at];
      SiteFound(p, sf, f, bi, u.pos.index, n, at);
      LitStillThere(p, InstAt(src, u.pos), u.pos.sub);
      if inst.loc.None? {
        LitSkipped(src, led, u);
        return fns, recs, led;
      }
      f', rec, key := InsertCmpLit(sf, f, p, bi, u.pos.index, n, u.pos.sub, at, inst, inst.loc.value);
      LitState(src, fns, recs, led, u, inst.loc.value, f', rec, key);
    }
    fns', recs', led' := fns[fi := f'], recs + [rec], LedgerWithLit(src, led, u, key);
  }
}
