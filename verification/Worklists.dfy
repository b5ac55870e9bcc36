/** The three worklists of the pass, collected before anything is inserted: integer binary
    operations, integer comparisons, and integer literals 0 and 1 in comparisons and returns. */
module Worklists {
  import opened IR
  import opened Rewrite
  import opened Fidelity

  /** A place in the source module: function, block, instruction, operand.  The terminator
      of a block has the index behind its last instruction. */
  datatype Pos = Pos(fn: nat, block: nat, index: nat, sub: nat)

  predicate Less(a: Pos, b: Pos) {
    || a.fn < b.fn
    || (a.fn == b.fn && a.block < b.block)
    || (a.fn == b.fn && a.block == b.block && a.index < b.index)
    || (a.fn == b.fn && a.block == b.block && a.index == b.index && a.sub < b.sub)
  }

  /** A worklist entry: the place, and the register (or returning block) that identifies the
      instruction while the function changes around it. */
  datatype Use = Use(pos: Pos, n: nat)

  datatype Phase = BinPhase | CmpPhase | LitPhase

  /** Functions the pass looks into. */
  predicate Eligible(f: Function) {
    f.name != "mulation_active"
  }

  predicate InBlock(m: Module, p: Pos) {
    p.fn < |m| && Eligible(m[p.fn]) && p.block < |m[p.fn].blocks| && p.index <= |m[p.fn].blocks[p.block].insts|
  }

  predicate AtInst(m: Module, p: Pos) {
    InBlock(m, p) && p.index < |m[p.fn].blocks[p.block].insts|
  }

  function InstAt(m: Module, p: Pos): Inst
    requires AtInst(m, p)
  {
    m[p.fn].blocks[p.block].insts[p.index]
  }

  function LitSiteOf(m: Module, u: Use): LitSite {
    if AtInst(m, u.pos) then CmpLit(u.n, u.pos.sub) else RetLit(u.n)
  }

  /** What belongs on each worklist. */
  predicate IsUse(m: Module, ph: Phase, u: Use) {
    && InBlock(m, u.pos)
    && if AtInst(m, u.pos) then
         var i := InstAt(m, u.pos);
         && i.dst == Src(u.n)
         && match ph
            case BinPhase => i.Bin? && u.pos.sub == 0
            case CmpPhase => i.Cmp? && u.pos.sub == 0
            case LitPhase => i.Cmp? && u.pos.sub < 2 && IsLit(if u.pos.sub == 0 then i.a else i.b)
       else
         var t := m[u.pos.fn].blocks[u.pos.block].term;
         ph.LitPhase? && u.pos.sub == 0 && u.n == u.pos.block && t.Return? && t.value.Some? && IsLit(t.value.value)
  }

  /** A worklist holds exactly the uses before `cur`, in program order. */
  ghost predicate UpTo(m: Module, ph: Phase, list: seq<Use>, cur: Pos) {
    && (forall k :: 0 <= k < |list| ==> IsUse(m, ph, list[k]) && Less(list[k].pos, cur))
    && (forall u :: IsUse(m, ph, u) && Less(u.pos, cur) ==> u in list)
    && (forall j, k :: 0 <= j < k < |list| ==> Less(list[j].pos, list[k].pos))
  }

  /** Moving the cursor over `more`, the uses between the two positions. */
  lemma Advance(m: Module, ph: Phase, list: seq<Use>, cur: Pos, next: Pos, more: seq<Use>)
    requires UpTo(m, ph, list, cur) && (cur == next || Less(cur, next))
    requires forall k :: 0 <= k < |more| ==> IsUse(m, ph, more[k]) && !Less(more[k].pos, cur) && Less(more[k].pos, next)
    requires forall u :: IsUse(m, ph, u) && !Less(u.pos, cur) && Less(u.pos, next) ==> u in more
    requires forall j, k :: 0 <= j < k < |more| ==> Less(more[j].pos, more[k].pos)
    ensures UpTo(m, ph, list + more, next)
  {
    var all := list + more;
    forall u | IsUse(m, ph, u) && Less(u.pos, next)
      ensures u in all
    {
      if !Less(u.pos, cur) {
        assert u in more;
      }
    }
    forall j, k | 0 <= j < k < |all|
      ensures Less(all[j].pos, all[k].pos)
    {
      if j < |list| <= k {
        assert Less(list[j].pos, cur) && !Less(more[k - |list|].pos, cur);
      }
    }
  }

  function LitUses(pos: Pos, n: nat, a: Operand, b: Operand): seq<Use> {
    (if IsLit(a) then [Use(pos, n)] else []) + (if IsLit(b) then [Use(pos.(sub := 1), n)] else [])
  }

  /** The uses at an instruction. */
  function UsesAt(ph: Phase, pos: Pos, i: Inst): seq<Use>
    requires i.dst.Src?
  {
    match ph
    case BinPhase => if i.Bin? then [Use(pos, i.dst.n)] else []
    case CmpPhase => if i.Cmp? then [Use(pos, i.dst.n)] else []
    case LitPhase => if i.Cmp? then LitUses(pos, i.dst.n, i.a, i.b) else []
  }

  lemma AdvanceInst(m: Module, ph: Phase, list: seq<Use>, cur: Pos)
    requires AtInst(m, cur) && cur.sub == 0 && SrcInst(InstAt(m, cur)) && UpTo(m, ph, list, cur)
    ensures UpTo(m, ph, list + UsesAt(ph, cur, InstAt(m, cur)), cur.(index := cur.index + 1))
  {
    var n, next := InstAt(m, cur).dst.n, cur.(index := cur.index + 1);
    var more := UsesAt(ph, cur, InstAt(m, cur));
    forall u | IsUse(m, ph, u) && !Less(u.pos, cur) && Less(u.pos, next)
      ensures u in more
    {
      assert u.pos == cur.(sub := u.pos.sub) && u.n == n;
      assert u == Use(cur.(sub := u.pos.sub), n);
    }
    Advance(m, ph, list, cur, next, more);
  }

  ghost predicate AllUpTo(m: Module, bins: seq<Use>, cmps: seq<Use>, lits: seq<Use>, cur: Pos) {
    UpTo(m, BinPhase, bins, cur) && UpTo(m, CmpPhase, cmps, cur) && UpTo(m, LitPhase, lits, cur)
  }

  lemma AdvanceAll(m: Module, bins: seq<Use>, cmps: seq<Use>, lits: seq<Use>, cur: Pos)
    requires AtInst(m, cur) && cur.sub == 0 && SrcInst(InstAt(m, cur)) && AllUpTo(m, bins, cmps, lits, cur)
    ensures var i := InstAt(m, cur);
            AllUpTo(m, bins + UsesAt(BinPhase, cur, i), cmps + UsesAt(CmpPhase, cur, i),
                    lits + UsesAt(LitPhase, cur, i),
                    cur.(index := cur.index + 1))
  {
    AdvanceInst(m, BinPhase, bins, cur);
    AdvanceInst(m, CmpPhase, cmps, cur);
    AdvanceInst(m, LitPhase, lits, cur);
  }

  lemma AdvanceTerm(m: Module, ph: Phase, list: seq<Use>, cur: Pos)
    requires InBlock(m, cur) && !AtInst(m, cur) && cur.sub == 0 && UpTo(m, ph, list, cur)
    ensures var t := m[cur.fn].blocks[cur.block].term;
            var lit := ph.LitPhase? && t.Return? && t.value.Some? && IsLit(t.value.value);
            var more := if lit then [Use(cur, cur.block)] else [];
            UpTo(m, ph, list + more, Pos(cur.fn, cur.block + 1, 0, 0))
  {
    var t, next := m[cur.fn].blocks[cur.block].term, Pos(cur.fn, cur.block + 1, 0, 0);
    var lit := ph.LitPhase? && t.Return? && t.value.Some? && IsLit(t.value.value);
    var more := if lit then [Use(cur, cur.block)] else [];
    forall u | IsUse(m, ph, u) && !Less(u.pos, cur) && Less(u.pos, next)
      ensures u in more
    {
      assert u == Use(cur, cur.block);
    }
    Advance(m, ph, list, cur, next, more);
  }

  /** Nothing is left in a function behind its last block, or in one that is skipped. */
  lemma AdvanceFn(m: Module, ph: Phase, list: seq<Use>, cur: Pos)
    requires cur.fn < |m| && cur.index == cur.sub == 0 && UpTo(m, ph, list, cur)
    requires !Eligible(m[cur.fn]) || cur.block == |m[cur.fn].blocks|
    ensures UpTo(m, ph, list, Pos(cur.fn + 1, 0, 0, 0))
  {
    Advance(m, ph, list, cur, Pos(cur.fn + 1, 0, 0, 0), []);
    assert list + [] == list;
  }

  lemma FunctionDone(m: Module, bins: seq<Use>, cmps: seq<Use>, lits: seq<Use>, cur: Pos)
    requires cur.fn < |m| && cur.index == cur.sub == 0 && AllUpTo(m, bins, cmps, lits, cur)
    requires !Eligible(m[cur.fn]) || cur.block == |m[cur.fn].blocks|
    ensures AllUpTo(m, bins, cmps, lits, Pos(cur.fn + 1, 0, 0, 0))
  {
    AdvanceFn(m, BinPhase, bins, cur);
    AdvanceFn(m, CmpPhase, cmps, cur);
    AdvanceFn(m, LitPhase, lits, cur);
  }

  /** The worklist of a whole module. */
  ghost predicate Worklist(m: Module, ph: Phase, list: seq<Use>) {
    UpTo(m, ph, list, Pos(|m|, 0, 0, 0))
  }

  lemma Unchanged(list: seq<Use>)
    ensures list + [] == list
  {
  }

  /** One instruction: an operation, or a comparison and its literals, or neither. */
  method CollectInst(m: Module, pos: Pos, i: Inst, bins: seq<Use>, cmps: seq<Use>, lits: seq<Use>)
    returns (bins': seq<Use>, cmps': seq<Use>, lits': seq<Use>)
    requires AtInst(m, pos) && pos.sub == 0 && i == InstAt(m, pos) && SrcInst(i) && AllUpTo(m, bins, cmps, lits, pos)
    ensures AllUpTo(m, bins', cmps', lits', pos.(index := pos.index + 1))
  {
    AdvanceAll(m, bins, cmps, lits, pos);
    Unchanged(bins);
    Unchanged(cmps);
    Unchanged(lits);
    bins', cmps', lits' := bins, cmps, lits;
    if i.Bin? {
      bins' := bins + [Use(pos, i.dst.n)];
    } else if i.Cmp? {
      cmps' := cmps + [Use(pos, i.dst.n)];
      lits' := lits + LitUses(pos, i.dst.n, i.a, i.b);
    }
  }

  lemma BlockIsSource(m: Module, fi: nat, bi: nat)
    requires SrcModule(m) && fi < |m| && bi < |m[fi].blocks|
    ensures SrcBlock(m[fi].blocks[bi])
  {
    assert SrcFn(m[fi]);
  }

  method CollectBlock(m: Module, fi: nat, bi: nat, bins: seq<Use>, cmps: seq<Use>, lits: seq<Use>)
    returns (bins': seq<Use>, cmps': seq<Use>, lits': seq<Use>)
    requires SrcModule(m) && fi < |m| && Eligible(m[fi]) && bi < |m[fi].blocks|
    requires AllUpTo(m, bins, cmps, lits, Pos(fi, bi, 0, 0))
    ensures AllUpTo(m, bins', cmps', lits', Pos(fi, bi + 1, 0, 0))
  {
    BlockIsSource(m, fi, bi);
    bins', cmps', lits' := bins, cmps, lits;
    var insts := m[fi].blocks[bi].insts;
    for j := 0 to |insts|
      invariant AllUpTo(m, bins', cmps', lits', Pos(fi, bi, j, 0))
    {
      bins', cmps', lits' := CollectInst(m, Pos(fi, bi, j, 0), insts[j], bins', cmps', lits');
    }
    bins', cmps', lits' := CollectReturn(m, Pos(fi, bi, |insts|, 0), bins', cmps', lits');
  }

  method CollectReturn(m: Module, pos: Pos, bins: seq<Use>, cmps: seq<Use>, lits: seq<Use>)
    returns (bins': seq<Use>, cmps': seq<Use>, lits': seq<Use>)
    requires InBlock(m, pos) && !AtInst(m, pos) && pos.sub == 0 && AllUpTo(m, bins, cmps, lits, pos)
    ensures AllUpTo(m, bins', cmps', lits', Pos(pos.fn, pos.block + 1, 0, 0))
  {
    bins', cmps', lits' := bins, cmps, lits;
    AdvanceTerm(m, BinPhase, bins, pos);
    AdvanceTerm(m, CmpPhase, cmps, pos);
    AdvanceTerm(m, LitPhase, lits, pos);
    Unchanged(bins);
    Unchanged(cmps);
    Unchanged(lits);
    var t := m[pos.fn].blocks[pos.block].term;
    if t.Return? && t.value.Some? && IsLit(t.value.value) {
      lits' := lits + [Use(pos, pos.block)];
    }
  }

  method Collect(m: Module) returns (bins: seq<Use>, cmps: seq<Use>, lits: seq<Use>)
    requires SrcModule(m)
    ensures Worklist(m, BinPhase, bins) && Worklist(m, CmpPhase, cmps) && Worklist(m, LitPhase, lits)
  {
    bins, cmps, lits := [], [], [];
    for fi := 0 to |m|
      invariant AllUpTo(m, bins, cmps, lits, Pos(fi, 0, 0, 0))
    {
      if Eligible(m[fi]) {
        for bi := 0 to |m[fi].blocks|
          invariant AllUpTo(m, bins, cmps, lits, Pos(fi, bi, 0, 0))
        {
          bins, cmps, lits := CollectBlock(m, fi, bi, bins, cmps, lits);
        }
        FunctionDone(m, bins, cmps, lits, Pos(fi, |m[fi].blocks|, 0, 0));
      } else {
        FunctionDone(m, bins, cmps, lits, Pos(fi, 0, 0, 0));
      }
    }
  }
}
