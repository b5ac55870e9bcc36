/** The loops over binary operations and comparisons: one site, its chain of alternatives, and
    the redirection of its uses. */
module Sites {
  import opened Scalars
  import opened IR
  import opened Mutants
  import opened Rewrite
  import opened Fidelity
  import opened FirstOrder
  import opened Insertion
  import opened Ordinals
  import opened Worklists
  import opened Hash
  import opened Keys
  import opened Seqs
  import opened Ledgers

  // ---------------------------------------------------------------- one site

  method Locate(insts: seq<Inst>, r: Reg) returns (at: nat)
    requires exists q :: 0 <= q < |insts| && insts[q].dst == r
    ensures at < |insts| && insts[at].dst == r && forall q :: 0 <= q < at ==> insts[q].dst != r
  {
    at := 0;
    while insts[at].dst != r
      invariant at < |insts| && forall q :: 0 <= q < at ==> insts[q].dst != r
      decreases |insts| - at
    {
      at := at + 1;
    }
  }

  lemma ModuleStep(src: Module, plans: seq<Plan>, fi: nat, q: Plan)
    requires |plans| == |src| && fi < |src|
    ensures RewriteModule(plans[fi := q], src) == RewriteModule(plans, src)[fi := RewriteFn(q, src[fi])]
  {
  }

  lemma SiteDefined(src: Module, u: Use)
    requires SrcModule(src) && AtInst(src, u.pos) && InstAt(src, u.pos).dst == Src(u.n)
    ensures SrcFn(src[u.pos.fn]) && DefinedAt(src[u.pos.fn], u.pos.block, u.pos.index, u.n)
            && SrcInst(InstAt(src, u.pos))
  {
    assert SrcFn(src[u.pos.fn]) && SrcBlock(src[u.pos.fn].blocks[u.pos.block]);
    UniqueDefined(src[u.pos.fn], u.pos.block, u.pos.index, u.n);
  }

  lemma CopyNow(p: Plan, i: Inst, k: nat)
    requires IsSite(i) && i.dst.Src? && p.lits == map[] && k < AltCount(i)
    ensures k < |Copies(p, i)| == AltCount(i) && IsSite(Core(p, i)) && AltCount(Core(p, i)) == AltCount(i)
    ensures CopyOf(Core(p, i), i.dst.n, k) == Copies(p, i)[k]
  {
  }

  lemma CoreNames(p: Plan, i: Inst)
    requires IsSite(i)
    ensures var c := Core(p, i);
            && IsSite(c) && AltCount(c) == AltCount(i) && c.loc == i.loc
            && forall fn: string, k: nat, ord: nat :: k < AltCount(i) && i.loc.Some? ==>
                 SiteKey(fn, c, k, ord) == SiteKey(fn, i, k, ord)
  {
  }

  lemma KeyWellFormed(fn: string, i: Inst, k: nat, ord: nat)
    requires IsSite(i) && k < AltCount(i) && i.loc.Some?
    ensures var key := SiteKey(fn, i, k, ord);
            && PhaseKind(if i.Bin? then BinPhase else CmpPhase, key.kind)
            && NoColon(key.kind) && NoColon(key.op) && NoColon(key.mut)
  {
  }

  lemma SiteNamesDiffer(i: Inst, j: nat, k: nat)
    requires IsSite(i) && j < k < AltCount(i)
    ensures AltName(i, j) != AltName(i, k)
  {
    if i.Bin? {
      BinNamesDistinct(i.bop, i.width, j, k);
    } else {
      PredNamesDistinct(i.pred, j, k);
    }
  }

  /** The plan with the ids so far of one site. */
  function WithIds(p: Plan, n: nat, ids: seq<u32>): Plan {
    if ids == [] then p else p.(chains := p.chains[n := ids])
  }

  lemma ListedAdd(plans: seq<Plan>, fi: nat, n: nat, id: u32)
    requires fi < |plans|
    ensures var q := plans[fi := AddId(plans[fi], n, id)];
            var r := AltRef(fi, n, |Ids(plans[fi], n)|);
            && !Listed(plans, r)
            && (forall s :: Listed(q, s) <==> Listed(plans, s) || s == r)
            && (forall s :: Listed(plans, s) ==> IdOf(q, s) == IdOf(plans, s))
            && Listed(q, r) && IdOf(q, r) == id && GrownAll(plans, q)
  {
    var p, q := plans[fi], AddId(plans[fi], n, id);
    assert forall m: nat :: Ids(q, m) == if m == n then Ids(p, n) + [id] else Ids(p, m);
  }

  lemma ListedRedirect(plans: seq<Plan>, fi: nat, n: nat)
    requires fi < |plans|
    ensures var q := plans[fi := AddRedirect(plans[fi], n)];
            && (forall s :: Listed(q, s) <==> Listed(plans, s))
            && (forall s :: Listed(plans, s) ==> IdOf(q, s) == IdOf(plans, s))
            && GrownAll(plans, q)
  {
    var p, q := plans[fi], AddRedirect(plans[fi], n);
    assert forall m: nat :: Ids(q, m) == Ids(p, m);
  }

  /** Entries while the site at `pos` is being worked on: earlier places, and the first `k`
      alternatives of this one. */
  ghost predicate AtSite(src: Module, led: Ledger, ph: Phase, pos: Pos, i: Inst, k: nat)
    requires |led.plans| == |src| && IsSite(i) && k <= AltCount(i)
  {
    forall x :: 0 <= x < |led.entries| && led.entries[x].phase == ph ==>
      var e := led.entries[x];
      && InBlock(src, e.pos) && Bounded(src, led.plans, e)
      && (Less(e.pos, pos) || (e.pos == pos && exists j: nat :: j < k && e.key.mut == AltName(i, j)))
  }

  lemma KeyIsNew(src: Module, led: Ledger, ph: Phase, pos: Pos, i: Inst, k: nat, key: Key)
    requires DistinctNames(src) && LedgerOk(src, led) && AtInst(src, pos) && IsSite(i) && k < AltCount(i) && i.loc.Some?
    requires AtSite(src, led, ph, pos, i, k) && !ph.LitPhase? && pos.sub == 0
    requires key == SiteKey(src[pos.fn].name, i, k, SiteOrdinal(led.plans[pos.fn], src[pos.fn], pos.block, pos.index))
    requires PhaseKind(ph, key.kind)
    ensures forall x :: 0 <= x < |led.entries| ==> led.entries[x].key != key
  {
    forall x | 0 <= x < |led.entries|
      ensures led.entries[x].key != key
    {
      var e := led.entries[x];
      assert EntryOk(src, led.plans, e);
      if e.phase == ph && e.pos == pos {
        var j: nat :| j < k && e.key.mut == AltName(i, j);
        SiteNamesDiffer(i, j, k);
      } else {
        LaterKeyDiffers(src, led.plans, e, ph, pos, key);
      }
    }
  }

  lemma AltComesLast(src: Module, led: Ledger, ph: Phase, u: Use, i: Inst, k: nat, e: Entry)
    requires LedgerOk(src, led) && IsUse(src, ph, u) && AtInst(src, u.pos) && !ph.LitPhase? && i == InstAt(src, u.pos)
    requires IsSite(i) && k < AltCount(i) && AtSite(src, led, ph, u.pos, i, k) && Phased(led, ph)
    requires |Ids(led.plans[u.pos.fn], u.n)| == k && e.ref == AltRef(u.pos.fn, u.n, k) && e.phase == ph
             && e.pos == u.pos
    ensures forall x :: 0 <= x < |led.entries| ==> ComesBefore(led.entries[x], e)
  {
    forall x | 0 <= x < |led.entries|
      ensures ComesBefore(led.entries[x], e)
    {
      var f := led.entries[x];
      assert EntryOk(src, led.plans, f);
      if f.phase == ph && f.pos == u.pos && f.ref.LitRef? {
        KindsApart(ph, LitPhase, f.key.kind, "LVR");
      }
    }
  }

  /** The bookkeeping of one more alternative. */
  lemma AltEntered(src: Module, led: Ledger, ph: Phase, u: Use, i: Inst, k: nat, key: Key)
    requires DistinctNames(src) && LedgerOk(src, led) && IsUse(src, ph, u) && AtInst(src, u.pos) && !ph.LitPhase?
    requires i == InstAt(src, u.pos) && k < AltCount(i) && i.loc.Some?
    requires |Ids(led.plans[u.pos.fn], u.n)| == k && AtSite(src, led, ph, u.pos, i, k) && Phased(led, ph)
    requires key == SiteKey(src[u.pos.fn].name, i, k,
                            SiteOrdinal(led.plans[u.pos.fn], src[u.pos.fn], u.pos.block, u.pos.index))
    ensures var plans := led.plans[u.pos.fn := AddId(led.plans[u.pos.fn], u.n, IdOfKey(key))];
            var led' := Ledger(plans, led.entries + [Entry(AltRef(u.pos.fn, u.n, k), ph, u.pos, key)]);
            LedgerOk(src, led') && AtSite(src, led', ph, u.pos, i, k + 1) && Phased(led', ph)
  {
    var plans := led.plans[u.pos.fn := AddId(led.plans[u.pos.fn], u.n, IdOfKey(key))];
    var e := Entry(AltRef(u.pos.fn, u.n, k), ph, u.pos, key);
    KeyWellFormed(src[u.pos.fn].name, i, k, key.ord);
    KeyIsNew(src, led, ph, u.pos, i, k, key);
    ListedAdd(led.plans, u.pos.fn, u.n, IdOfKey(key));
    AltComesLast(src, led, ph, u, i, k, e);
    AddEntry(src, led, plans, e);
    AtSiteAfter(src, led, ph, u, i, k, plans, e);
  }

  lemma AtSiteAfter(src: Module, led: Ledger, ph: Phase, u: Use, i: Inst, k: nat, plans: seq<Plan>, e: Entry)
    requires |led.plans| == |src| && IsSite(i) && k < AltCount(i) && !ph.LitPhase? && InBlock(src, u.pos)
    requires AtSite(src, led, ph, u.pos, i, k) && GrownAll(led.plans, plans)
    requires e.phase == ph && e.pos == u.pos && e.key.mut == AltName(i, k)
    requires e.key.ord == SiteOrdinal(led.plans[u.pos.fn], src[u.pos.fn], u.pos.block, u.pos.index)
    ensures AtSite(src, Ledger(plans, led.entries + [e]), ph, u.pos, i, k + 1)
  {
    SiteOrdinalGrows(led.plans[u.pos.fn], plans[u.pos.fn], src[u.pos.fn], u.pos.block, u.pos.index);
    var led' := Ledger(plans, led.entries + [e]);
    forall x | 0 <= x < |led'.entries| && led'.entries[x].phase == ph
      ensures var f := led'.entries[x];
              && InBlock(src, f.pos) && Bounded(src, plans, f)
              && (Less(f.pos, u.pos) || (f.pos == u.pos && exists j: nat :: j < k + 1 && f.key.mut == AltName(i, j)))
    {
      if x < |led.entries| {
        BoundedGrows(src, led.plans, plans, led.entries[x]);
      }
    }
  }

  function KeyIds(keys: seq<Key>): (ids: seq<u32>)
    ensures |ids| == |keys| && forall k :: 0 <= k < |keys| ==> ids[k] == IdOfKey(keys[k])
  {
    seq(|keys|, k requires 0 <= k < |keys| => IdOfKey(keys[k]))
  }

  function Records(keys: seq<Key>): (recs: seq<Mutant>)
    ensures |recs| == |keys| && forall k :: 0 <= k < |keys| ==> recs[k] == RecordOf(keys[k])
  {
    seq(|keys|, k requires 0 <= k < |keys| => RecordOf(keys[k]))
  }

  /** The plan of a function after the alternatives with these keys at site `n`. */
  function WithKeys(p: Plan, n: nat, keys: seq<Key>): Plan {
    WithIds(p, n, KeyIds(keys))
  }

  lemma WithKeysIds(p: Plan, n: nat, keys: seq<Key>)
    requires n !in p.chains
    ensures var q := WithKeys(p, n, keys);
            Ids(q, n) == KeyIds(keys) && q.redir == p.redir && q.lits == p.lits
  {
  }

  lemma WithMoreKeys(p: Plan, n: nat, keys: seq<Key>, key: Key)
    requires n !in p.chains
    ensures WithKeys(p, n, keys + [key]) == AddId(WithKeys(p, n, keys), n, IdOfKey(key))
  {
    assert KeyIds(keys + [key]) == KeyIds(keys) + [IdOfKey(key)];
  }

  /** The keys carry the ordinals of the function as it grows. */
  ghost predicate LiveKeys(p: Plan, sf: Function, bi: nat, j: nat, n: nat, keys: seq<Key>)
    requires bi < |sf.blocks| && j < |sf.blocks[bi].insts|
    decreases |keys|
  {
    var i := sf.blocks[bi].insts[j];
    && IsSite(i) && i.loc.Some? && |keys| <= AltCount(i)
    && (keys == [] ||
        var front := keys[..|keys| - 1];
        && LiveKeys(p, sf, bi, j, n, front)
        && keys[|front|] == SiteKey(sf.name, i, |front|, SiteOrdinal(WithKeys(p, n, front), sf, bi, j)))
  }

  /** The function under construction: where the site is, and what it looks like. */
  ghost predicate OnSite(p: Plan, sf: Function, f: Function, bi: nat, j: nat, n: nat, at: nat, inst: Inst) {
    && bi < |sf.blocks| && j < |sf.blocks[bi].insts| && f == RewriteFn(p, sf)
    && at == |Lead(p, sf.blocks[bi].insts, j)| && inst == Core(p, sf.blocks[bi].insts[j])
  }

  lemma NextPlace(p: Plan, sf: Function, bi: nat, j: nat, n: nat, id: u32)
    requires DefinedAt(sf, bi, j, n) && IsSite(sf.blocks[bi].insts[j]) && n !in p.redir
    ensures Lead(AddId(p, n, id), sf.blocks[bi].insts, j) == Lead(p, sf.blocks[bi].insts, j)
    ensures Core(AddId(p, n, id), sf.blocks[bi].insts[j]) == Core(p, sf.blocks[bi].insts[j])
  {
    LinkRest(p, bi, sf.blocks[bi], j, n, id);
  }

  lemma NextLink(p: Plan, sf: Function, f: Function, bi: nat, j: nat, n: nat, at: nat, inst: Inst, k: nat, id: u32)
    requires OnSite(p, sf, f, bi, j, n, at, inst) && DefinedAt(sf, bi, j, n) && SrcInst(sf.blocks[bi].insts[j])
    requires IsSite(sf.blocks[bi].insts[j]) && k == |Ids(p, n)| < AltCount(sf.blocks[bi].insts[j])
    requires n !in p.redir && p.lits == map[]
    ensures var point := at + 1 + 3 * k;
            && IsSite(inst) && k < AltCount(inst) && bi < |f.blocks| && point <= |f.blocks[bi].insts|
            && RewriteFn(AddId(p, n, id), sf) ==
               SetInsts(f, bi, InsertAt(f.blocks[bi].insts, point, Link(n, k, CopyOf(inst, n, k), id)))
  {
    CopyNow(p, sf.blocks[bi].insts[j], k);
    LinkStep(p, sf, f, bi, j, n, id, at, k, CopyOf(inst, n, k));
  }

  lemma OnSiteNext(p: Plan, sf: Function, f: Function, bi: nat, j: nat, n: nat, at: nat, inst: Inst, id: u32,
                   f': Function)
    requires OnSite(p, sf, f, bi, j, n, at, inst) && DefinedAt(sf, bi, j, n)
    requires IsSite(sf.blocks[bi].insts[j]) && n !in p.redir && f' == RewriteFn(AddId(p, n, id), sf)
    ensures OnSite(AddId(p, n, id), sf, f', bi, j, n, at, inst)
  {
    NextPlace(p, sf, bi, j, n, id);
  }

  /** One alternative: its id, its three instructions, its record. */
  method InsertLink(ghost sf: Function, f: Function, ghost p: Plan, bi: nat, ghost j: nat, n: nat, at: nat, inst: Inst,
                    k: nat)
    returns (f': Function, rec: Mutant, ghost key: Key)
    requires DefinedAt(sf, bi, j, n) && SrcInst(sf.blocks[bi].insts[j]) && OnSite(p, sf, f, bi, j, n, at, inst)
    requires IsSite(sf.blocks[bi].insts[j]) && k == |Ids(p, n)| < AltCount(sf.blocks[bi].insts[j])
    requires IsSite(inst) && k < AltCount(inst) && inst.loc.Some?
    requires n !in p.redir && p.lits == map[]
    ensures key == SiteKey(sf.name, inst, k, SiteOrdinal(p, sf, bi, j)) && rec == RecordOf(key)
    ensures OnSite(AddId(p, n, IdOfKey(key)), sf, f', bi, j, n, at, inst)
  {
    AtInBlock(p, sf, bi, j);
    var ord := InstOrdinal(f, bi, at);
    key := SiteKey(sf.name, inst, k, ord);
    var text := SiteKey(f.name, inst, k, ord);
    var id := ComputeFnv1a(KeyText(text));
    NextLink(p, sf, f, bi, j, n, at, inst, k, id);
    f' := SetInsts(f, bi, InsertAt(f.blocks[bi].insts, at + 1 + 3 * k, Link(n, k, CopyOf(inst, n, k), id)));
    OnSiteNext(p, sf, f, bi, j, n, at, inst, id, f');
    rec := Mutant(id, text.file, text.line, text.col, text.kind, text.op, text.mut);
  }

  /** The alternatives with these keys are in place. */
  ghost predicate Linked(p: Plan, sf: Function, f: Function, bi: nat, j: nat, n: nat, at: nat, inst: Inst,
                         keys: seq<Key>, recs: seq<Mutant>)
  {
    && OnSite(WithKeys(p, n, keys), sf, f, bi, j, n, at, inst)
    && LiveKeys(p, sf, bi, j, n, keys) && recs == Records(keys)
  }

  lemma LinkedMore(p: Plan, sf: Function, f: Function, bi: nat, j: nat, n: nat, at: nat, inst: Inst, keys: seq<Key>,
                   recs: seq<Mutant>, key: Key)
    requires n !in p.chains && bi < |sf.blocks| && j < |sf.blocks[bi].insts|
    requires LiveKeys(p, sf, bi, j, n, keys) && recs == Records(keys) && |keys| < AltCount(sf.blocks[bi].insts[j])
    requires key == SiteKey(sf.name, sf.blocks[bi].insts[j], |keys|, SiteOrdinal(WithKeys(p, n, keys), sf, bi, j))
    requires OnSite(AddId(WithKeys(p, n, keys), n, IdOfKey(key)), sf, f, bi, j, n, at, inst)
    ensures Linked(p, sf, f, bi, j, n, at, inst, keys + [key], recs + [RecordOf(key)])
  {
    WithMoreKeys(p, n, keys, key);
    MoreLive(p, sf, bi, j, n, keys, key);
    MoreRecords(keys, key);
  }

  /** The loop over the alternatives of a site, and the redirection of its uses. */
  method InsertChain(ghost sf: Function, f: Function, ghost p: Plan, bi: nat, ghost j: nat, n: nat, at: nat, inst: Inst)
    returns (f': Function, recs: seq<Mutant>, ghost keys: seq<Key>)
    requires SrcFn(sf) && DefinedAt(sf, bi, j, n) && SrcInst(sf.blocks[bi].insts[j])
             && OnSite(p, sf, f, bi, j, n, at, inst)
    requires IsSite(inst) && inst.loc.Some? && IsSite(sf.blocks[bi].insts[j])
    requires n !in p.chains && n !in p.redir && p.lits == map[]
    ensures |keys| == AltCount(sf.blocks[bi].insts[j]) && LiveKeys(p, sf, bi, j, n, keys) && recs == Records(keys)
    ensures f' == RewriteFn(AddRedirect(WithKeys(p, n, keys), n), sf)
  {
    f', recs, keys := f, [], [];
    ghost var i := sf.blocks[bi].insts[j];
    CoreNames(p, i);
    NoKeysYet(p, sf, bi, j, n);
    for k := 0 to AltCount(inst)
      invariant k == |keys| && Linked(p, sf, f', bi, j, n, at, inst, keys, recs)
    {
      WithKeysIds(p, n, keys);
      var rec;
      ghost var key;
      f', rec, key := InsertLink(sf, f', WithKeys(p, n, keys), bi, j, n, at, inst, k);
      LinkedMore(p, sf, f', bi, j, n, at, inst, keys, recs, key);
      recs, keys := recs + [rec], keys + [key];
    }
    RedirectLast(p, sf, n, keys);
    f' := ReplaceUses(f', n, Cur(n, AltCount(inst)));
  }

  lemma RedirectLast(p: Plan, sf: Function, n: nat, keys: seq<Key>)
    requires SrcFn(sf) && n !in p.chains && n !in p.redir
    ensures ReplaceUses(RewriteFn(WithKeys(p, n, keys), sf), n, Cur(n, |keys|)) ==
            RewriteFn(AddRedirect(WithKeys(p, n, keys), n), sf)
  {
    WithKeysIds(p, n, keys);
    RedirectStep(WithKeys(p, n, keys), sf, n);
  }

  lemma NoKeysYet(p: Plan, sf: Function, bi: nat, j: nat, n: nat)
    requires bi < |sf.blocks| && j < |sf.blocks[bi].insts|
    requires IsSite(sf.blocks[bi].insts[j]) && sf.blocks[bi].insts[j].loc.Some?
    ensures WithKeys(p, n, []) == p && LiveKeys(p, sf, bi, j, n, []) && Records([]) == []
  {
    assert KeyIds([]) == [];
  }

  lemma AtInBlock(p: Plan, sf: Function, bi: nat, j: nat)
    requires bi < |sf.blocks| && j < |sf.blocks[bi].insts|
    ensures |Lead(p, sf.blocks[bi].insts, j)| <= |RewriteFn(p, sf).blocks[bi].insts|
    ensures Ordinal(RewriteFn(p, sf), bi, |Lead(p, sf.blocks[bi].insts, j)|) == SiteOrdinal(p, sf, bi, j)
  {
    OffsetInBlock(p, bi, sf.blocks[bi], j);
  }

  lemma MoreRecords(keys: seq<Key>, key: Key)
    ensures Records(keys + [key]) == Records(keys) + [RecordOf(key)]
  {
  }

  lemma MoreLive(p: Plan, sf: Function, bi: nat, j: nat, n: nat, keys: seq<Key>, key: Key)
    requires bi < |sf.blocks| && j < |sf.blocks[bi].insts| && LiveKeys(p, sf, bi, j, n, keys)
    requires |keys| < AltCount(sf.blocks[bi].insts[j])
    requires key == SiteKey(sf.name, sf.blocks[bi].insts[j], |keys|, SiteOrdinal(WithKeys(p, n, keys), sf, bi, j))
    ensures LiveKeys(p, sf, bi, j, n, keys + [key])
  {
    assert (keys + [key])[..|keys|] == keys;
  }

  // ---------------------------------------------------------------- the ledger of a site

  function EntriesOf(ph: Phase, u: Use, keys: seq<Key>): seq<Entry> {
    seq(|keys|, k requires 0 <= k < |keys| => Entry(AltRef(u.pos.fn, u.n, k), ph, u.pos, keys[k]))
  }

  function LedgerAfter(led: Ledger, ph: Phase, u: Use, keys: seq<Key>): Ledger
    requires u.pos.fn < |led.plans|
  {
    Ledger(led.plans[u.pos.fn := WithKeys(led.plans[u.pos.fn], u.n, keys)], led.entries + EntriesOf(ph, u, keys))
  }

  lemma LastLive(p: Plan, sf: Function, bi: nat, j: nat, n: nat, front: seq<Key>, key: Key)
    requires bi < |sf.blocks| && j < |sf.blocks[bi].insts| && LiveKeys(p, sf, bi, j, n, front + [key])
    ensures LiveKeys(p, sf, bi, j, n, front) && |front| < AltCount(sf.blocks[bi].insts[j])
    ensures key == SiteKey(sf.name, sf.blocks[bi].insts[j], |front|, SiteOrdinal(WithKeys(p, n, front), sf, bi, j))
  {
    assert (front + [key])[..|front|] == front;
  }

  /** A site is entered with its alternatives. */
  ghost predicate Entered(src: Module, led: Ledger, ph: Phase, u: Use, i: Inst, k: nat)
    requires IsSite(i) && k <= AltCount(i)
  {
    LedgerOk(src, led) && AtSite(src, led, ph, u.pos, i, k) && Phased(led, ph)
  }

  lemma EnterOne(src: Module, led: Ledger, ph: Phase, u: Use, i: Inst, front: seq<Key>, key: Key, keys: seq<Key>)
    requires DistinctNames(src) && |led.plans| == |src| && IsUse(src, ph, u) && AtInst(src, u.pos) && !ph.LitPhase?
    requires i == InstAt(src, u.pos) && u.n !in led.plans[u.pos.fn].chains && keys == front + [key]
    requires LiveKeys(led.plans[u.pos.fn], src[u.pos.fn], u.pos.block, u.pos.index, u.n, keys)
    requires IsSite(i) && |front| < AltCount(i) && Entered(src, LedgerAfter(led, ph, u, front), ph, u, i, |front|)
    ensures Entered(src, LedgerAfter(led, ph, u, keys), ph, u, i, |keys|)
  {
    var p, mid := led.plans[u.pos.fn], LedgerAfter(led, ph, u, front);
    LastLive(p, src[u.pos.fn], u.pos.block, u.pos.index, u.n, front, key);
    WithKeysIds(p, u.n, front);
    LedgerMore(led, ph, u, front, key);
    AltEntered(src, mid, ph, u, i, |front|, key);
  }

  lemma EnterNone(src: Module, led: Ledger, ph: Phase, u: Use, i: Inst)
    requires LedgerOk(src, led) && u.pos.fn < |src| && IsSite(i) && EntriesBefore(src, led, ph, u.pos)
             && Phased(led, ph)
    ensures Entered(src, LedgerAfter(led, ph, u, []), ph, u, i, 0)
  {
    assert KeyIds([]) == [] && EntriesOf(ph, u, []) == [] && led.entries + [] == led.entries;
    assert LedgerAfter(led, ph, u, []) == led;
  }

  lemma {:induction false} EnterAll(src: Module, led: Ledger, ph: Phase, u: Use, i: Inst, keys: seq<Key>)
    requires DistinctNames(src) && LedgerOk(src, led) && IsUse(src, ph, u) && AtInst(src, u.pos) && !ph.LitPhase?
    requires i == InstAt(src, u.pos) && u.n !in led.plans[u.pos.fn].chains && EntriesBefore(src, led, ph, u.pos)
             && Phased(led, ph)
    requires LiveKeys(led.plans[u.pos.fn], src[u.pos.fn], u.pos.block, u.pos.index, u.n, keys)
    ensures IsSite(i) && |keys| <= AltCount(i) && Entered(src, LedgerAfter(led, ph, u, keys), ph, u, i, |keys|)
    decreases |keys|
  {
    if keys == [] {
      EnterNone(src, led, ph, u, i);
    } else {
      FrontLast(keys);
      FrontLive(led.plans[u.pos.fn], src[u.pos.fn], u.pos.block, u.pos.index, u.n, keys);
      EnterAll(src, led, ph, u, i, keys[..|keys| - 1]);
      EnterOne(src, led, ph, u, i, keys[..|keys| - 1], keys[|keys| - 1], keys);
    }
  }

  lemma FrontLive(p: Plan, sf: Function, bi: nat, j: nat, n: nat, keys: seq<Key>)
    requires bi < |sf.blocks| && j < |sf.blocks[bi].insts| && LiveKeys(p, sf, bi, j, n, keys) && keys != []
    ensures LiveKeys(p, sf, bi, j, n, keys[..|keys| - 1]) && IsSite(sf.blocks[bi].insts[j])
            && |keys| <= AltCount(sf.blocks[bi].insts[j])
  {
  }

  lemma LedgerMore(led: Ledger, ph: Phase, u: Use, front: seq<Key>, key: Key)
    requires u.pos.fn < |led.plans| && u.n !in led.plans[u.pos.fn].chains
    ensures var mid := LedgerAfter(led, ph, u, front);
            LedgerAfter(led, ph, u, front + [key]) ==
            Ledger(mid.plans[u.pos.fn := AddId(mid.plans[u.pos.fn], u.n, IdOfKey(key))],
                   mid.entries + [Entry(AltRef(u.pos.fn, u.n, |front|), ph, u.pos, key)])
  {
    MoreEntries(ph, u, front, key);
    MorePlans(led.plans, u.pos.fn, u.n, front, key);
    Assoc(led.entries, EntriesOf(ph, u, front), [Entry(AltRef(u.pos.fn, u.n, |front|), ph, u.pos, key)]);
  }

  lemma MoreEntries(ph: Phase, u: Use, front: seq<Key>, key: Key)
    ensures EntriesOf(ph, u, front + [key])
              == EntriesOf(ph, u, front) + [Entry(AltRef(u.pos.fn, u.n, |front|), ph, u.pos, key)]
  {
  }

  lemma MorePlans(plans: seq<Plan>, fi: nat, n: nat, front: seq<Key>, key: Key)
    requires fi < |plans| && n !in plans[fi].chains
    ensures var mid := plans[fi := WithKeys(plans[fi], n, front)];
            plans[fi := WithKeys(plans[fi], n, front + [key])] == mid[fi := AddId(mid[fi], n, IdOfKey(key))]
  {
    WithMoreKeys(plans[fi], n, front, key);
  }

  /** The ledger after a site is finished. */
  ghost predicate SiteFinished(src: Module, led: Ledger, led': Ledger, ph: Phase, u: Use)
    requires |led.plans| == |src| && AtInst(src, u.pos)
  {
    var p, w := led.plans[u.pos.fn], Wanted(InstAt(src, u.pos));
    && |led'.plans| == |src|
    && (w == 0 ==> led' == led)
    && (w > 0 ==> exists ids: seq<u32> :: |ids| == w &&
                    led'.plans == led.plans[u.pos.fn := p.(chains := p.chains[u.n := ids], redir := p.redir + {u.n})])
    && (forall x :: 0 <= x < |led'.entries| ==>
          led'.entries[x].phase == ph || (x < |led.entries| && led'.entries[x] == led.entries[x]))
    && (forall next :: Less(u.pos, next) ==> EntriesBefore(src, led', ph, next))
  }

  lemma LessTrans(a: Pos, b: Pos, c: Pos)
    requires Less(a, b) && Less(b, c)
    ensures Less(a, c)
  {
  }

  /** The site is the only definition of its register, so searching for it finds it. */
  lemma SiteThere(p: Plan, sf: Function, f: Function, bi: nat, j: nat, n: nat)
    requires f == RewriteFn(p, sf) && DefinedAt(sf, bi, j, n)
    ensures bi < |f.blocks| && exists q :: 0 <= q < |f.blocks[bi].insts| && f.blocks[bi].insts[q].dst == Src(n)
  {
    SiteAt(p, bi, sf.blocks[bi], j, n);
    var at := |Lead(p, sf.blocks[bi].insts, j)|;
    assert f.blocks[bi].insts[at].dst == Src(n);
  }

  lemma SiteFound(p: Plan, sf: Function, f: Function, bi: nat, j: nat, n: nat, at: nat)
    requires f == RewriteFn(p, sf) && DefinedAt(sf, bi, j, n)
    requires at < |f.blocks[bi].insts| && f.blocks[bi].insts[at].dst == Src(n)
    requires forall q :: 0 <= q < at ==> f.blocks[bi].insts[q].dst != Src(n)
    ensures OnSite(p, sf, f, bi, j, n, at, f.blocks[bi].insts[at])
  {
    SiteAt(p, bi, sf.blocks[bi], j, n);
  }

  lemma FunctionNow(src: Module, fns: Module, plans: seq<Plan>, fi: nat)
    requires |plans| == |src| && fns == RewriteModule(plans, src) && fi < |src|
    ensures |fns| == |src| && fns[fi] == RewriteFn(plans[fi], src[fi])
  {
  }

  lemma RecordsAdded(recs: seq<Mutant>, led: Ledger, ph: Phase, u: Use, keys: seq<Key>)
    requires |recs| == |led.entries| && forall x :: 0 <= x < |recs| ==> recs[x] == RecordOf(led.entries[x].key)
    ensures var all, entries := recs + Records(keys), led.entries + EntriesOf(ph, u, keys);
            |all| == |entries| && forall x :: 0 <= x < |all| ==> all[x] == RecordOf(entries[x].key)
  {
  }

  /** The bins and cmps loops: one site, all its alternatives, then its uses. */
  method InstrumentSite(ghost src: Module, fns: Module, recs: seq<Mutant>, ghost led: Ledger, ghost ph: Phase, u: Use)
    returns (fns': Module, recs': seq<Mutant>, ghost led': Ledger)
    requires DistinctNames(src) && State(src, fns, recs, led)
    requires !ph.LitPhase? && IsUse(src, ph, u) && AtInst(src, u.pos) && EntriesBefore(src, led, ph, u.pos)
             && Phased(led, ph)
    requires var p := led.plans[u.pos.fn]; u.n !in p.chains && u.n !in p.redir && p.lits == map[]
    ensures State(src, fns', recs', led')
    ensures SiteFinished(src, led, led', ph, u)
  {
    var fi, bi, n := u.pos.fn, u.pos.block, u.n;
    ghost var p, i, sf := led.plans[fi], InstAt(src, u.pos), src[fi];
    FunctionNow(src, fns, led.plans, fi);
    SiteDefined(src, u);
    SiteThere(p, sf, fns[fi], bi, u.pos.index, n);
    var at := Locate(fns[fi].blocks[bi].insts, Src(n));
    var inst := fns[fi].blocks[bi].insts[at];
    SiteFound(p, sf, fns[fi], bi, u.pos.index, n, at);
    CoreNames(p, i);
    if AltCount(inst) == 0 || inst.loc.None? {
      FinishedNothing(src, led, ph, u);
      fns', recs', led' := fns, recs, led;
    } else {
      var f', more;
      ghost var keys;
      f', more, keys := InsertChain(sf, fns[fi], p, bi, u.pos.index, n, at, inst);
      fns', recs' := fns[fi := f'], recs + more;
      led' := SiteState(src, fns, recs, led, ph, u, f', keys);
    }
  }

  /** The state after the alternatives with these keys. */
  lemma SiteState(src: Module, fns: Module, recs: seq<Mutant>, led: Ledger, ph: Phase, u: Use, f': Function,
                  keys: seq<Key>)
    returns (led': Ledger)
    requires DistinctNames(src) && State(src, fns, recs, led)
    requires !ph.LitPhase? && IsUse(src, ph, u) && AtInst(src, u.pos) && EntriesBefore(src, led, ph, u.pos)
             && Phased(led, ph)
    requires var p := led.plans[u.pos.fn]; u.n !in p.chains && u.n !in p.redir
    requires var p, sf := led.plans[u.pos.fn], src[u.pos.fn];
             && LiveKeys(p, sf, u.pos.block, u.pos.index, u.n, keys)
             && f' == RewriteFn(AddRedirect(WithKeys(p, u.n, keys), u.n), sf)
    requires |keys| == AltCount(InstAt(src, u.pos)) > 0
    ensures State(src, fns[u.pos.fn := f'], recs + Records(keys), led')
    ensures SiteFinished(src, led, led', ph, u)
  {
    var i := InstAt(src, u.pos);
    EnterAll(src, led, ph, u, i, keys);
    led' := SiteLedger(src, led, ph, u, i, keys);
    ModuleStep(src, led.plans, u.pos.fn, AddRedirect(WithKeys(led.plans[u.pos.fn], u.n, keys), u.n));
    RecordsAdded(recs, led, ph, u, keys);
  }

  /** The ledger of a finished site. */
  lemma SiteLedger(src: Module, led: Ledger, ph: Phase, u: Use, i: Inst, keys: seq<Key>) returns (led': Ledger)
    requires SrcModule(src) && LedgerOk(src, led) && AtInst(src, u.pos) && i == InstAt(src, u.pos) && IsSite(i)
    requires |keys| == AltCount(i) > 0 && i.loc.Some?
    requires var p := led.plans[u.pos.fn]; u.n !in p.chains && u.n !in p.redir
    requires LedgerOk(src, LedgerAfter(led, ph, u, keys))
             && AtSite(src, LedgerAfter(led, ph, u, keys), ph, u.pos, i, |keys|)
    ensures led'.plans == led.plans[u.pos.fn := AddRedirect(WithKeys(led.plans[u.pos.fn], u.n, keys), u.n)]
    ensures led'.entries == led.entries + EntriesOf(ph, u, keys)
    ensures LedgerOk(src, led') && SiteFinished(src, led, led', ph, u)
  {
    var fi, p := u.pos.fn, led.plans[u.pos.fn];
    var mid := LedgerAfter(led, ph, u, keys);
    led' := mid.(plans := mid.plans[fi := AddRedirect(mid.plans[fi], u.n)]);
    Redirected(src, mid, ph, u, i, |keys|);
    var ids := KeyIds(keys);
    assert |ids| == Wanted(i);
    assert led'.plans == led.plans[fi := p.(chains := p.chains[u.n := ids], redir := p.redir + {u.n})];
  }

  lemma FinishedNothing(src: Module, led: Ledger, ph: Phase, u: Use)
    requires |led.plans| == |src| && AtInst(src, u.pos) && Wanted(InstAt(src, u.pos)) == 0
             && EntriesBefore(src, led, ph, u.pos)
    ensures SiteFinished(src, led, led, ph, u)
  {
    forall next, x | Less(u.pos, next) && 0 <= x < |led.entries| && led.entries[x].phase == ph
      ensures Less(led.entries[x].pos, next)
    {
      LessTrans(led.entries[x].pos, u.pos, next);
    }
  }

  lemma StillInserted(led: Ledger, fi: nat, n: nat)
    requires AllInserted(led) && fi < |led.plans|
    ensures AllInserted(led.(plans := led.plans[fi := AddRedirect(led.plans[fi], n)]))
  {
    var plans := led.plans[fi := AddRedirect(led.plans[fi], n)];
    forall g: nat | g < |plans|
      ensures SameInsertions(plans[g], Inserted(led.entries, g))
    {
      assert SameInsertions(led.plans[g], Inserted(led.entries, g));
    }
  }

  /** Redirecting the uses changes neither ids nor ordinals. */
  lemma Redirected(src: Module, led: Ledger, ph: Phase, u: Use, i: Inst, k: nat)
    requires LedgerOk(src, led) && u.pos.fn < |src| && IsSite(i) && k <= AltCount(i)
    requires AtSite(src, led, ph, u.pos, i, k)
    ensures var fi := u.pos.fn;
            var led' := led.(plans := led.plans[fi := AddRedirect(led.plans[fi], u.n)]);
            LedgerOk(src, led') && forall next :: Less(u.pos, next) ==> EntriesBefore(src, led', ph, next)
  {
    var fi := u.pos.fn;
    var plans := led.plans[fi := AddRedirect(led.plans[fi], u.n)];
    ListedRedirect(led.plans, fi, u.n);
    EntriesStay(src, led, plans);
    StillInserted(led, fi, u.n);
    forall next, x | Less(u.pos, next) && 0 <= x < |led.entries| && led.entries[x].phase == ph
      ensures var e := led.entries[x]; InBlock(src, e.pos) && Bounded(src, plans, e) && Less(e.pos, next)
    {
      BoundedGrows(src, led.plans, plans, led.entries[x]);
      if Less(led.entries[x].pos, u.pos) { LessTrans(led.entries[x].pos, u.pos, next); }
    }
  }
}
