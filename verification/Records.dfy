/** What the records of the pass say: for every record, the names in it are read as C operators, and
    the mutated program is the source with that operator, predicate or literal replaced as the record
    tells; and which places get a record. */
module Records {
  import opened Scalars
  import opened IR
  import opened Mutants
  import opened Rewrite
  import opened Fidelity
  import opened FirstOrder
  import opened Worklists
  import opened Keys
  import opened Ledgers
  import opened Pass
  import opened Readings

  // ---------------------------------------------------------------- reading a record

  predicate Located(rec: Mutant, loc: Option<Loc>) {
    loc.Some? && rec.file == loc.value.file && rec.line == loc.value.line && rec.col == loc.value.col
  }

  function KindOf(name: string): string {
    if name == "&&" || name == "||" then "LCR" else if name == "&" || name == "|" then "BOR" else "AOR"
  }

  /** A literal 0 that becomes 1, or a literal 1 that becomes 0. */
  predicate Exchanged(rec: Mutant, c: Operand, c': Operand) {
    && rec.kind == "LVR" && c.Const? && c'.Const? && c.width == c'.width
    && ((c.value == 0 && rec.op == "0" && c'.value == 1 && rec.mut == "1")
        || (c.value == 1 && rec.op == "1" && c'.value == 0 && rec.mut == "0"))
  }

  /** The record tells how the second instruction differs from the first. */
  ghost predicate TellsInst(rec: Mutant, i: Inst, i': Inst) {
    match (i, i')
    case (Bin(d, op, w, a, b, loc), Bin(d', op', w', a', b', loc')) =>
      && (d', w', a', b', loc') == (d, w, a, b, loc) && Located(rec, loc) && rec.op != rec.mut
      && rec.kind == KindOf(rec.op) && BinSays(rec.op, op, w) && BinSays(rec.mut, op', w)
    case (Cmp(d, p, w, a, b, loc), Cmp(d', p', w', a', b', loc')) =>
      && (d', w', loc') == (d, w, loc) && Located(rec, loc)
      && ((a' == a && b' == b && rec.kind == "ROR" && rec.op != rec.mut
             && PredSays(rec.op, p, w) && PredSays(rec.mut, p', w))
          || (p' == p && b' == b && Exchanged(rec, a, a'))
          || (p' == p && a' == a && Exchanged(rec, b, b')))
    case _ => false
  }

  predicate TellsTerm(rec: Mutant, t: Term, t': Term) {
    && t.Return? && t'.Return? && t.loc == t'.loc && Located(rec, t.loc)
    && t.value.Some? && t'.value.Some? && Exchanged(rec, t.value.value, t'.value.value)
  }

  function WithBlock(m: Module, fi: nat, bi: nat, b: Block): Module
    requires fi < |m| && bi < |m[fi].blocks|
  {
    m[fi := m[fi].(blocks := m[fi].blocks[bi := b])]
  }

  ghost predicate TellsAt(m: Module, m': Module, rec: Mutant, fi: nat, bi: nat, j: nat, i': Inst)
    requires fi < |m| && bi < |m[fi].blocks| && j < |m[fi].blocks[bi].insts|
  {
    var b := m[fi].blocks[bi];
    m' == WithBlock(m, fi, bi, b.(insts := b.insts[j := i'])) && TellsInst(rec, b.insts[j], i')
  }

  ghost predicate TellsReturn(m: Module, m': Module, rec: Mutant, fi: nat, bi: nat, t': Term)
    requires fi < |m| && bi < |m[fi].blocks|
  {
    var b := m[fi].blocks[bi];
    m' == WithBlock(m, fi, bi, b.(term := t')) && TellsTerm(rec, b.term, t')
  }

  /** `m'` is `m` with one instruction or terminator replaced, in the way that the record tells. */
  ghost predicate Tells(m: Module, m': Module, rec: Mutant) {
    || (exists fi: nat, bi: nat, j: nat, i': Inst ::
          && fi < |m| && bi < |m[fi].blocks| && j < |m[fi].blocks[bi].insts|
          && TellsAt(m, m', rec, fi, bi, j, i'))
    || (exists fi: nat, bi: nat, t': Term :: fi < |m| && bi < |m[fi].blocks| && TellsReturn(m, m', rec, fi, bi, t'))
  }

  // ---------------------------------------------------------------- the one changed place

  lemma OtherInst(m: Module, fi: nat, n: nat, bi: nat, j: nat, c: nat, k: nat, r: MutantRef)
    requires SrcModule(m) && fi < |m| && bi < |m[fi].blocks| && j < |m[fi].blocks[bi].insts|
    requires c < |m[fi].blocks| && k < |m[fi].blocks[c].insts| && (c, k) != (bi, j)
    requires m[fi].blocks[bi].insts[j].dst == Src(n)
    requires match r case AltRef(_, s, _) => s == n case LitRef(_, at) => at.CmpLit? && at.of == n
    ensures ApplyInst(r, m[fi].blocks[c].insts[k]) == m[fi].blocks[c].insts[k]
  {
    assert SrcFn(m[fi]);
    assert m[fi].blocks[c].insts[k].dst != Src(n);
  }

  /** A mutant of an instruction changes that instruction only. */
  lemma ChangesInst(m: Module, r: MutantRef, n: nat, bi: nat, j: nat)
    requires SrcModule(m) && r.fn < |m| && bi < |m[r.fn].blocks| && j < |m[r.fn].blocks[bi].insts|
    requires m[r.fn].blocks[bi].insts[j].dst == Src(n)
    requires match r case AltRef(_, s, _) => s == n case LitRef(_, at) => at.CmpLit? && at.of == n
    ensures var b := m[r.fn].blocks[bi];
            Apply(m, r) == WithBlock(m, r.fn, bi, b.(insts := b.insts[j := ApplyInst(r, b.insts[j])]))
  {
    var f, b := m[r.fn], m[r.fn].blocks[bi];
    var b' := b.(insts := b.insts[j := ApplyInst(r, b.insts[j])]);
    forall c: nat | c < |f.blocks|
      ensures ApplyBlock(r, c, f.blocks[c]) == if c == bi then b' else f.blocks[c]
    {
      forall k: nat | k < |f.blocks[c].insts| && (c, k) != (bi, j)
        ensures ApplyInst(r, f.blocks[c].insts[k]) == f.blocks[c].insts[k]
      {
        OtherInst(m, r.fn, n, bi, j, c, k, r);
      }
      assert ApplyInsts(r, f.blocks[c].insts) == if c == bi then b'.insts else f.blocks[c].insts;
    }
    assert ApplyFn(r, f).blocks == f.blocks[bi := b'];
  }

  lemma {:induction false} SameInsts(r: MutantRef, insts: seq<Inst>)
    requires r.LitRef? && r.at.RetLit?
    ensures ApplyInsts(r, insts) == insts
  {
    if insts != [] { SameInsts(r, insts[1..]); }
  }

  /** A mutant of a returned literal changes that return only. */
  lemma ChangesReturn(m: Module, fi: nat, bi: nat)
    requires fi < |m| && bi < |m[fi].blocks|
    ensures var r, b := LitRef(fi, RetLit(bi)), m[fi].blocks[bi];
            Apply(m, r) == WithBlock(m, fi, bi, b.(term := ApplyTerm(r, bi, b.term)))
  {
    var r, f, b := LitRef(fi, RetLit(bi)), m[fi], m[fi].blocks[bi];
    var b' := b.(term := ApplyTerm(r, bi, b.term));
    forall c: nat | c < |f.blocks|
      ensures ApplyBlock(r, c, f.blocks[c]) == if c == bi then b' else f.blocks[c]
    {
      SameInsts(r, f.blocks[c].insts);
    }
    assert ApplyFn(r, f).blocks == f.blocks[bi := b'];
  }

  // ---------------------------------------------------------------- what the names say

  /** The names of a site and its replacement, with their kind. */
  lemma SiteTells(fn: string, i: Inst, k: nat, ord: nat, r: MutantRef)
    requires i.dst.Src? && k < Wanted(i) && r.AltRef? && r.site == i.dst.n && r.k == k
    ensures TellsInst(RecordOf(SiteKey(fn, i, k, ord)), i, ApplyInst(r, i))
  {
    match i
    case Bin(_, op, w, _, _, _) => BinAltSays(op, w, k);
    case Cmp(_, p, w, _, _, _) =>
      PredNameSays(p, w);
      PredNameSays(PredAlts(p)[k], w);
      Renamed(p, k);
  }

  lemma Renamed(p: Pred, k: nat)
    requires k < |PredAlts(p)|
    ensures PredName(p) != PredName(PredAlts(p)[k])
  {
    DistinctPreds(p, PredAlts(p)[k]);
  }

  lemma BinAltSays(op: BinOp, w: nat, k: nat)
    requires k < |BinAlts(op, w)|
    ensures var alt := BinAlts(op, w)[k];
            && BinSays(BinName(op, w), op, w) && BinSays(BinName(alt.op, w), alt.op, w)
            && BinName(op, w) != BinName(alt.op, w) && alt.kind == KindOf(BinName(op, w))
  {
    BinNameSays(op, w);
    BinNameSays(BinAlts(op, w)[k].op, w);
    BinAltNamed(op, w, k);
  }

  lemma BinAltNamed(op: BinOp, w: nat, k: nat)
    requires k < |BinAlts(op, w)|
    ensures BinName(op, w) != BinName(BinAlts(op, w)[k].op, w)
    ensures BinAlts(op, w)[k].kind == KindOf(BinName(op, w))
  {
    var s, t := BinName(op, w), BinName(BinAlts(op, w)[k].op, w);
    assert s[0] != t[0];
  }

  lemma LitTells(fn: string, loc: Loc, lit: Operand, ord: nat)
    requires IsLit(lit)
    ensures Exchanged(RecordOf(LitKey(fn, loc, lit, ord)), lit, Flip(lit))
  {
  }

  // ---------------------------------------------------------------- every record

  /** Record by record: selecting it replaces one operator, predicate or literal of the source at
      its file, line and column; its operator is what stands there, and its replacement what comes
      in, both read as C. */
  lemma RecordTells(m: Module, fns: Module, recs: seq<Mutant>, led: Ledger, x: nat)
    requires State(m, fns, recs, led) && x < |recs|
    ensures led.entries[x].ref.fn < |m| && Tells(m, Apply(m, led.entries[x].ref), recs[x])
  {
    var e := led.entries[x];
    assert EntryOk(m, led.plans, e);
    assert recs[x] == RecordOf(e.key);
    match e.ref
    case AltRef(_, n, k) => AltTells(m, e, recs[x]);
    case LitRef(_, CmpLit(n, oi)) => CmpLitTells(m, e, recs[x]);
    case LitRef(_, RetLit(_)) => RetLitTells(m, e, recs[x]);
  }

  lemma AltTells(m: Module, e: Entry, rec: Mutant)
    requires SrcModule(m) && InBlock(m, e.pos) && Describes(m, e) && e.ref.AltRef? && e.ref.fn == e.pos.fn
    requires rec == RecordOf(e.key)
    ensures Tells(m, Apply(m, e.ref), rec)
  {
    var pos, i, r := e.pos, InstAt(m, e.pos), e.ref;
    ChangesInst(m, r, r.site, pos.block, pos.index);
    SiteTells(m[pos.fn].name, i, r.k, e.key.ord, r);
    assert TellsAt(m, Apply(m, r), rec, pos.fn, pos.block, pos.index, ApplyInst(r, i));
  }

  lemma CmpLitTells(m: Module, e: Entry, rec: Mutant)
    requires SrcModule(m) && InBlock(m, e.pos) && Describes(m, e) && e.ref.LitRef? && e.ref.at.CmpLit?
    requires e.ref.fn == e.pos.fn && rec == RecordOf(e.key)
    ensures Tells(m, Apply(m, e.ref), rec)
  {
    var pos, i, r := e.pos, InstAt(m, e.pos), e.ref;
    ChangesInst(m, r, r.at.of, pos.block, pos.index);
    var u := UseOf(pos, r.at);
    LitTells(m[pos.fn].name, LocAt(m, u).value, LitAt(m, u), e.key.ord);
    assert TellsInst(rec, i, ApplyInst(r, i));
    assert TellsAt(m, Apply(m, r), rec, pos.fn, pos.block, pos.index, ApplyInst(r, i));
  }

  lemma RetLitTells(m: Module, e: Entry, rec: Mutant)
    requires InBlock(m, e.pos) && Describes(m, e) && e.ref.LitRef? && e.ref.at.RetLit?
    requires e.ref.fn == e.pos.fn && rec == RecordOf(e.key)
    ensures Tells(m, Apply(m, e.ref), rec)
  {
    var pos, r := e.pos, e.ref;
    ChangesReturn(m, pos.fn, pos.block);
    var t, u := m[pos.fn].blocks[pos.block].term, UseOf(pos, r.at);
    LitTells(m[pos.fn].name, LocAt(m, u).value, LitAt(m, u), e.key.ord);
    assert TellsReturn(m, Apply(m, r), rec, pos.fn, pos.block, ApplyTerm(r, pos.block, t));
  }

  // ---------------------------------------------------------------- which places get a record

  ghost predicate Recorded(led: Ledger, r: MutantRef) {
    exists x :: 0 <= x < |led.entries| && led.entries[x].ref == r
  }

  lemma RecordedExactly(m: Module, fns: Module, recs: seq<Mutant>, led: Ledger, r: MutantRef)
    requires State(m, fns, recs, led)
    ensures Recorded(led, r) <==> Listed(led.plans, r)
  {
    if Recorded(led, r) {
      var x :| 0 <= x < |led.entries| && led.entries[x].ref == r;
      assert EntryOk(m, led.plans, led.entries[x]);
    }
  }

  /** The number of records that an instruction with a location gets for its operator. */
  function Alternatives(i: Inst): nat {
    match i
    case Cmp(_, _, _, _, _, _) => 3
    case Bin(_, op, _, _, _, _) => if op == Xor then 0 else if op == And || op == Or then 1 else 2
    case _ => 0
  }

  /** A constant 0 or 1 that is not a truth value and fits in 64 bits. */
  predicate SmallLiteral(op: Operand) {
    op.Const? && op.width != 1 && op.width <= 64 && (op.value == 0 || op.value == 1)
  }

  /** The pass looks at the operator and the literals of this instruction. */
  predicate Looked(f: Function, i: Inst) {
    f.name != "mulation_active" && (i.Bin? || i.Cmp?) && i.loc.Some?
  }

  lemma PlanOfInst(p: Plan, f: Function, bi: nat, j: nat)
    requires SrcFn(f) && CompleteFn(p, f) && bi < |f.blocks| && j < |f.blocks[bi].insts|
    ensures var i := f.blocks[bi].insts[j];
            && i.dst.Src? && |Ids(p, i.dst.n)| == (if Looked(f, i) then Alternatives(i) else 0)
            && (i.Cmp? ==> (CmpLit(i.dst.n, 0) in p.lits <==> Looked(f, i) && SmallLiteral(i.a)))
            && (i.Cmp? ==> (CmpLit(i.dst.n, 1) in p.lits <==> Looked(f, i) && SmallLiteral(i.b)))
  {
    var i := f.blocks[bi].insts[j];
    assert SrcBlock(f.blocks[bi]) && SrcInst(i);
    if Eligible(f) {
      assert CompleteInst(p, i);
    }
  }

  lemma AltsRecorded(m: Module, fns: Module, recs: seq<Mutant>, led: Ledger, fi: nat, n: nat)
    requires State(m, fns, recs, led) && fi < |m|
    ensures forall k: nat :: Recorded(led, AltRef(fi, n, k)) <==> k < |Ids(led.plans[fi], n)|
  {
    forall k: nat
      ensures Recorded(led, AltRef(fi, n, k)) <==> k < |Ids(led.plans[fi], n)|
    {
      RecordedExactly(m, fns, recs, led, AltRef(fi, n, k));
    }
  }

  /** An instruction gets a record for each alternative of its operator, and for each literal 0 or 1
      that it compares, unless it has no location or stands in the runtime's own hook. */
  lemma InstRecorded(m: Module, fns: Module, recs: seq<Mutant>, led: Ledger, fi: nat, bi: nat, j: nat)
    requires State(m, fns, recs, led) && Complete(led.plans, m)
    requires fi < |m| && bi < |m[fi].blocks| && j < |m[fi].blocks[bi].insts|
    ensures var i := m[fi].blocks[bi].insts[j];
            var looked := m[fi].name != "mulation_active" && (i.Bin? || i.Cmp?) && i.loc.Some?;
            && i.dst.Src?
            && (forall k: nat :: Recorded(led, AltRef(fi, i.dst.n, k)) <==> looked && k < Alternatives(i))
            && (i.Cmp? ==> (Recorded(led, LitRef(fi, CmpLit(i.dst.n, 0))) <==> looked && SmallLiteral(i.a)))
            && (i.Cmp? ==> (Recorded(led, LitRef(fi, CmpLit(i.dst.n, 1))) <==> looked && SmallLiteral(i.b)))
  {
    var i := m[fi].blocks[bi].insts[j];
    assert SrcFn(m[fi]) && CompleteFn(led.plans[fi], m[fi]);
    PlanOfInst(led.plans[fi], m[fi], bi, j);
    AltsRecorded(m, fns, recs, led, fi, i.dst.n);
    RecordedExactly(m, fns, recs, led, LitRef(fi, CmpLit(i.dst.n, 0)));
    RecordedExactly(m, fns, recs, led, LitRef(fi, CmpLit(i.dst.n, 1)));
  }

  /** The same for a returned literal. */
  lemma ReturnRecorded(m: Module, fns: Module, recs: seq<Mutant>, led: Ledger, fi: nat, bi: nat)
    requires State(m, fns, recs, led) && Complete(led.plans, m) && fi < |m| && bi < |m[fi].blocks|
    ensures var t := m[fi].blocks[bi].term;
            Recorded(led, LitRef(fi, RetLit(bi))) <==>
              && m[fi].name != "mulation_active" && t.Return? && t.loc.Some? && t.value.Some?
              && SmallLiteral(t.value.value)
  {
    assert CompleteFn(led.plans[fi], m[fi]);
    RecordedExactly(m, fns, recs, led, LitRef(fi, RetLit(bi)));
  }
}
