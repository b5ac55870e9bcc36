/** The in-place edits of the pass on a function under construction, and what each of them
    does to a partially instrumented function. */
module Insertion {
  import opened Scalars
  import opened IR
  import opened Rewrite
  import opened Fidelity
  import opened Seqs

  // ---------------------------------------------------------------- edits

  function InsertAt(insts: seq<Inst>, at: nat, more: seq<Inst>): seq<Inst>
    requires at <= |insts|
  {
    insts[..at] + more + insts[at..]
  }

  function SetInsts(f: Function, bi: nat, insts: seq<Inst>): Function
    requires bi < |f.blocks|
  {
    f.(blocks := f.blocks[bi := f.blocks[bi].(insts := insts)])
  }

  function SetTerm(f: Function, bi: nat, t: Term): Function
    requires bi < |f.blocks|
  {
    f.(blocks := f.blocks[bi := f.blocks[bi].(term := t)])
  }

  function RedirectOp(n: nat, to: Reg, op: Operand): Operand {
    if op == Var(Src(n)) then Var(to) else op
  }

  function RedirectOps(n: nat, to: Reg, ops: seq<Operand>): seq<Operand> {
    if ops == [] then [] else [RedirectOp(n, to, ops[0])] + RedirectOps(n, to, ops[1..])
  }

  /** One user of register `n`; the chain of `n` itself is not redirected. */
  function RedirectInst(n: nat, to: Reg, i: Inst): Inst {
    if ChainReg(n, i.dst) then i else
      match i
      case Bin(d, op, w, a, b, loc) => Bin(d, op, w, RedirectOp(n, to, a), RedirectOp(n, to, b), loc)
      case Cmp(d, p, w, a, b, loc) => Cmp(d, p, w, RedirectOp(n, to, a), RedirectOp(n, to, b), loc)
      case Select(d, c, t, e) => Select(d, RedirectOp(n, to, c), RedirectOp(n, to, t), RedirectOp(n, to, e))
      case Active(_, _) => i
      case Call(d, callee, args) => Call(d, callee, RedirectOps(n, to, args))
      case Effect(d, tag, args) => Effect(d, tag, RedirectOps(n, to, args))
  }

  function RedirectInsts(n: nat, to: Reg, insts: seq<Inst>): seq<Inst> {
    if insts == [] then [] else [RedirectInst(n, to, insts[0])] + RedirectInsts(n, to, insts[1..])
  }

  function RedirectIncoming(n: nat, to: Reg, inc: seq<(nat, Operand)>): seq<(nat, Operand)> {
    if inc == [] then [] else [(inc[0].0, RedirectOp(n, to, inc[0].1))] + RedirectIncoming(n, to, inc[1..])
  }

  function RedirectPhis(n: nat, to: Reg, phis: seq<Phi>): seq<Phi> {
    if phis == [] then []
    else [Phi(phis[0].dst, RedirectIncoming(n, to, phis[0].incoming))] + RedirectPhis(n, to, phis[1..])
  }

  function RedirectTerm(n: nat, to: Reg, t: Term): Term {
    match t
    case CondBr(c, t1, t2) => CondBr(RedirectOp(n, to, c), t1, t2)
    case Return(Some(op), loc) => Return(Some(RedirectOp(n, to, op)), loc)
    case _ => t
  }

  function RedirectBlock(n: nat, to: Reg, b: Block): Block {
    Block(RedirectPhis(n, to, b.phis), RedirectInsts(n, to, b.insts), RedirectTerm(n, to, b.term))
  }

  /** `replaceUsesWithIf`: every use of register `n` outside its chain becomes `to`. */
  function ReplaceUses(f: Function, n: nat, to: Reg): Function {
    f.(blocks := seq(|f.blocks|, bi requires 0 <= bi < |f.blocks| => RedirectBlock(n, to, f.blocks[bi])))
  }

  // ---------------------------------------------------------------- plans that differ at one site

  function AddId(p: Plan, n: nat, id: u32): Plan {
    p.(chains := p.chains[n := Ids(p, n) + [id]])
  }

  function AddRedirect(p: Plan, n: nat): Plan {
    p.(redir := p.redir + {n})
  }

  function AddLit(p: Plan, at: LitSite, id: u32): Plan {
    p.(lits := p.lits[at := id])
  }

  /** Equal as far as an instruction other than the definition of `n` can see. */
  ghost predicate SameBut(p: Plan, q: Plan, n: nat) {
    && n !in p.redir && p.redir == q.redir
    && (forall m: nat :: m != n ==> Ids(p, m) == Ids(q, m))
    && (forall at :: at != CmpLit(n, 0) && at != CmpLit(n, 1) ==>
          (at in p.lits <==> at in q.lits) && (at in p.lits ==> p.lits[at] == q.lits[at]))
  }

  lemma SameOp(p: Plan, q: Plan, n: nat, op: Operand)
    requires SameBut(p, q, n)
    ensures SubstOp(p, op) == SubstOp(q, op)
  {
  }

  lemma {:induction false} SameOps(p: Plan, q: Plan, n: nat, ops: seq<Operand>)
    requires SameBut(p, q, n)
    ensures SubstAll(p, ops) == SubstAll(q, ops)
  {
    if ops != [] {
      SameOp(p, q, n, ops[0]);
      SameOps(p, q, n, ops[1..]);
    }
  }

  lemma SameCopies(p: Plan, q: Plan, n: nat, i: Inst)
    requires SameBut(p, q, n)
    ensures Copies(p, i) == Copies(q, i)
  {
    if i.Bin? || i.Cmp? {
      SameOp(p, q, n, i.a);
      SameOp(p, q, n, i.b);
    }
  }

  lemma SameExpand(p: Plan, q: Plan, n: nat, i: Inst)
    requires SameBut(p, q, n) && i.dst.Src? && i.dst.n != n
    ensures Expand(p, i) == Expand(q, i)
  {
    SameCopies(p, q, n, i);
    match i {
      case Bin(_, _, _, a, b, _) =>
        SameOp(p, q, n, a);
        SameOp(p, q, n, b);
      case Cmp(_, _, _, a, b, _) =>
        SameOp(p, q, n, a);
        SameOp(p, q, n, b);
      case Select(_, c, t, e) =>
        SameOp(p, q, n, c);
        SameOp(p, q, n, t);
        SameOp(p, q, n, e);
      case Active(_, _) =>
      case Call(_, _, args) => SameOps(p, q, n, args);
      case Effect(_, _, args) => SameOps(p, q, n, args);
    }
  }

  predicate NoDef(n: nat, insts: seq<Inst>) {
    forall j :: 0 <= j < |insts| ==> insts[j].dst.Src? && insts[j].dst.n != n
  }

  lemma {:induction false} SameExpandAll(p: Plan, q: Plan, n: nat, insts: seq<Inst>)
    requires SameBut(p, q, n) && NoDef(n, insts)
    ensures ExpandAll(p, insts) == ExpandAll(q, insts)
  {
    if insts != [] {
      SameExpand(p, q, n, insts[0]);
      SameExpandAll(p, q, n, insts[1..]);
    }
  }

  lemma {:induction false} SameIncoming(p: Plan, q: Plan, n: nat, inc: seq<(nat, Operand)>)
    requires SameBut(p, q, n)
    ensures SubstIncoming(p, inc) == SubstIncoming(q, inc)
  {
    if inc != [] {
      SameOp(p, q, n, inc[0].1);
      SameIncoming(p, q, n, inc[1..]);
    }
  }

  lemma {:induction false} SamePhis(p: Plan, q: Plan, n: nat, phis: seq<Phi>)
    requires SameBut(p, q, n)
    ensures SubstPhis(p, phis) == SubstPhis(q, phis)
  {
    if phis != [] {
      SameIncoming(p, q, n, phis[0].incoming);
      SamePhis(p, q, n, phis[1..]);
    }
  }

  lemma SameTerm(p: Plan, q: Plan, n: nat, bi: nat, t: Term)
    requires SameBut(p, q, n)
    ensures BeforeTerm(p, bi, t) == BeforeTerm(q, bi, t) && CoreTerm(p, bi, t) == CoreTerm(q, bi, t)
  {
    match t {
      case CondBr(c, _, _) => SameOp(p, q, n, c);
      case Return(Some(op), _) => SameOp(p, q, n, op);
      case _ =>
    }
  }

  lemma SameBlock(p: Plan, q: Plan, n: nat, bi: nat, b: Block)
    requires SameBut(p, q, n) && NoDef(n, b.insts)
    ensures RewriteBlock(p, bi, b) == RewriteBlock(q, bi, b)
  {
    SamePhis(p, q, n, b.phis);
    SameExpandAll(p, q, n, b.insts);
    SameTerm(p, q, n, bi, b.term);
  }

  // ---------------------------------------------------------------- where a site is

  lemma {:induction false} ExpandAllConcat(p: Plan, x: seq<Inst>, y: seq<Inst>)
    ensures ExpandAll(p, x + y) == ExpandAll(p, x) + ExpandAll(p, y)
  {
    if x == [] {
      assert x + y == y;
    } else {
      assert (x + y)[1..] == x[1..] + y;
      ExpandAllConcat(p, x[1..], y);
    }
  }

  /** What precedes the instruction expanded from `insts[j]`. */
  function Lead(p: Plan, insts: seq<Inst>, j: nat): seq<Inst>
    requires j < |insts|
  {
    ExpandAll(p, insts[..j]) + Before(p, insts[j])
  }

  /** What follows it, in its block. */
  function Trail(p: Plan, bi: nat, b: Block, j: nat): seq<Inst>
    requires j < |b.insts|
  {
    ExpandAll(p, b.insts[j + 1..]) + BeforeTerm(p, bi, b.term)
  }

  lemma BlockSplit(p: Plan, bi: nat, b: Block, j: nat)
    requires j < |b.insts|
    ensures RewriteBlock(p, bi, b).insts ==
            Lead(p, b.insts, j) + [Core(p, b.insts[j])] + ChainOf(p, b.insts[j]) + Trail(p, bi, b, j)
  {
    var i, rest := b.insts[j], ExpandAll(p, b.insts[j + 1..]);
    Split(b.insts, j);
    ExpandAllConcat(p, b.insts[..j], b.insts[j..]);
    Regroup(ExpandAll(p, b.insts[..j]), Before(p, i), [Core(p, i)], ChainOf(p, i), rest);
    Assoc(Lead(p, b.insts, j) + [Core(p, i)] + ChainOf(p, i), rest, BeforeTerm(p, bi, b.term));
  }

  lemma {:induction false} ChainDst(p: Plan, i: Inst, k: nat, q: nat)
    requires i.dst.Src? && k <= |Copies(p, i)| && k <= |Ids(p, i.dst.n)| && q < 3 * k
    ensures ChainReg(i.dst.n, Chain(i.dst.n, Copies(p, i), Ids(p, i.dst.n), k)[q].dst)
  {
    if q < 3 * (k - 1) { ChainDst(p, i, k - 1, q); }
  }

  predicate NoSrc(n: nat, insts: seq<Inst>) {
    forall q :: 0 <= q < |insts| ==> insts[q].dst != Src(n)
  }

  lemma NoSrcConcat(n: nat, x: seq<Inst>, y: seq<Inst>)
    requires NoSrc(n, x) && NoSrc(n, y)
    ensures NoSrc(n, x + y)
  {
  }

  lemma BeforeNoSrc(p: Plan, i: Inst, n: nat)
    ensures NoSrc(n, Before(p, i))
  {
  }

  lemma ChainNoSrc(p: Plan, i: Inst, n: nat)
    ensures NoSrc(n, ChainOf(p, i))
  {
    forall q | 0 <= q < |ChainOf(p, i)|
      ensures ChainOf(p, i)[q].dst != Src(n)
    {
      ChainDst(p, i, Arity(p, i), q);
    }
  }

  lemma CoreDst(p: Plan, i: Inst)
    ensures Core(p, i).dst == i.dst
  {
  }

  /** The expansion of an instruction defines no source register but its own. */
  lemma ExpandNoSrc(p: Plan, n: nat, i: Inst)
    requires i.dst.Src? && i.dst.n != n
    ensures NoSrc(n, Expand(p, i))
  {
    CoreDst(p, i);
    BeforeNoSrc(p, i, n);
    ChainNoSrc(p, i, n);
    NoSrcConcat(n, Before(p, i), [Core(p, i)]);
    NoSrcConcat(n, Before(p, i) + [Core(p, i)], ChainOf(p, i));
  }

  lemma {:induction false} ExpandAllNoSrc(p: Plan, n: nat, insts: seq<Inst>)
    requires NoDef(n, insts)
    ensures NoSrc(n, ExpandAll(p, insts))
  {
    if insts != [] {
      ExpandNoSrc(p, n, insts[0]);
      ExpandAllNoSrc(p, n, insts[1..]);
      NoSrcConcat(n, Expand(p, insts[0]), ExpandAll(p, insts[1..]));
    }
  }

  /** Nothing in front of a site defines its register. */
  lemma LeadNoSrc(p: Plan, insts: seq<Inst>, j: nat, n: nat)
    requires j < |insts| && NoDef(n, insts[..j])
    ensures NoSrc(n, Lead(p, insts, j))
  {
    ExpandAllNoSrc(p, n, insts[..j]);
    BeforeNoSrc(p, insts[j], n);
    NoSrcConcat(n, ExpandAll(p, insts[..j]), Before(p, insts[j]));
  }

  /** The first instruction that defines source register `n` in a rewritten block. */
  lemma SiteAt(p: Plan, bi: nat, b: Block, j: nat, n: nat)
    requires j < |b.insts| && b.insts[j].dst == Src(n) && NoDef(n, b.insts[..j])
    ensures var insts, at := RewriteBlock(p, bi, b).insts, |Lead(p, b.insts, j)|;
            && at < |insts| && insts[at] == Core(p, b.insts[j])
            && forall q :: 0 <= q < at ==> insts[q].dst != Src(n)
  {
    var lead, core, tail := Lead(p, b.insts, j), Core(p, b.insts[j]), ChainOf(p, b.insts[j]) + Trail(p, bi, b, j);
    BlockSplit(p, bi, b, j);
    Assoc(lead + [core], ChainOf(p, b.insts[j]), Trail(p, bi, b, j));
    Front(lead, core, tail);
    LeadNoSrc(p, b.insts, j, n);
  }

  // ---------------------------------------------------------------- one more alternative

  lemma LinkRest(p: Plan, bi: nat, b: Block, j: nat, n: nat, id: u32)
    requires j < |b.insts| && (b.insts[j].Bin? || b.insts[j].Cmp?) && n !in p.redir
    requires NoDef(n, b.insts[..j]) && NoDef(n, b.insts[j + 1..])
    ensures var q, i := AddId(p, n, id), b.insts[j];
            && Lead(q, b.insts, j) == Lead(p, b.insts, j) && Core(q, i) == Core(p, i)
            && Trail(q, bi, b, j) == Trail(p, bi, b, j)
            && SubstPhis(q, b.phis) == SubstPhis(p, b.phis) && CoreTerm(q, bi, b.term) == CoreTerm(p, bi, b.term)
  {
    var q := AddId(p, n, id);
    assert SameBut(p, q, n);
    SamePhis(p, q, n, b.phis);
    SameTerm(p, q, n, bi, b.term);
    SameExpandAll(p, q, n, b.insts[..j]);
    SameExpandAll(p, q, n, b.insts[j + 1..]);
    SameCore(p, q, n, b.insts[j]);
  }

  lemma LinkChain(p: Plan, i: Inst, n: nat, id: u32)
    requires i.dst == Src(n) && n !in p.redir && |Ids(p, n)| < |Copies(p, i)|
    ensures var k := |Ids(p, n)|;
            && |ChainOf(p, i)| == 3 * k
            && ChainOf(AddId(p, n, id), i) == ChainOf(p, i) + Link(n, k, Copies(p, i)[k], id)
  {
    SameCopies(p, AddId(p, n, id), n, i);
    ChainGrows(n, Copies(p, i), Ids(p, n), id);
  }

  lemma LinkBlock(p: Plan, bi: nat, b: Block, j: nat, n: nat, id: u32, at: nat, k: nat, copy: Inst)
    requires j < |b.insts| && SrcInst(b.insts[j]) && b.insts[j].dst == Src(n)
    requires NoDef(n, b.insts[..j]) && NoDef(n, b.insts[j + 1..])
    requires n !in p.redir && k == |Ids(p, n)| < |Copies(p, b.insts[j])|
    requires at == |Lead(p, b.insts, j)| && copy == Copies(p, b.insts[j])[k]
    ensures var r := RewriteBlock(p, bi, b);
            && at + 1 + 3 * k <= |r.insts|
            && RewriteBlock(AddId(p, n, id), bi, b)
                 == r.(insts := InsertAt(r.insts, at + 1 + 3 * k, Link(n, k, copy, id)))
  {
    var i := b.insts[j];
    LinkRest(p, bi, b, j, n, id);
    LinkChain(p, i, n, id);
    BlockSplit(p, bi, b, j);
    BlockSplit(AddId(p, n, id), bi, b, j);
    InsertMiddle(RewriteBlock(p, bi, b).insts, RewriteBlock(AddId(p, n, id), bi, b).insts,
                 Lead(p, b.insts, j), [Core(p, i)], ChainOf(p, i), Trail(p, bi, b, j), Link(n, k, copy, id),
                 at + 1 + 3 * k);
  }

  lemma SameCore(p: Plan, q: Plan, n: nat, i: Inst)
    requires SameBut(p, q, n) && p.lits == q.lits && (i.Bin? || i.Cmp?)
    ensures Core(p, i) == Core(q, i) && Before(p, i) == Before(q, i)
  {
    SameOp(p, q, n, i.a);
    SameOp(p, q, n, i.b);
  }

  lemma {:induction false} ChainPrefix(n: nat, copies: seq<Inst>, ids: seq<u32>, id: u32, k: nat)
    requires k <= |ids| && k <= |copies|
    ensures Chain(n, copies, ids + [id], k) == Chain(n, copies, ids, k)
  {
    if k > 0 { ChainPrefix(n, copies, ids, id, k - 1); }
  }

  lemma ChainGrows(n: nat, copies: seq<Inst>, ids: seq<u32>, id: u32)
    requires |ids| < |copies|
    ensures Chain(n, copies, ids + [id], |ids| + 1) == Chain(n, copies, ids, |ids|) + Link(n, |ids|, copies[|ids|], id)
  {
    ChainPrefix(n, copies, ids, id, |ids|);
  }

  /** The definition of register `n` is instruction `j` of block `bi`, and nowhere else. */
  ghost predicate DefinedAt(f: Function, bi: nat, j: nat, n: nat) {
    && bi < |f.blocks| && j < |f.blocks[bi].insts| && f.blocks[bi].insts[j].dst == Src(n)
    && NoDef(n, f.blocks[bi].insts[..j]) && NoDef(n, f.blocks[bi].insts[j + 1..])
    && forall b :: 0 <= b < |f.blocks| && b != bi ==> NoDef(n, f.blocks[b].insts)
  }

  lemma UniqueDefined(f: Function, bi: nat, j: nat, n: nat)
    requires SrcFn(f) && bi < |f.blocks| && j < |f.blocks[bi].insts| && f.blocks[bi].insts[j].dst == Src(n)
    ensures DefinedAt(f, bi, j, n)
  {
    forall b, k | 0 <= b < |f.blocks| && 0 <= k < |f.blocks[b].insts|
      ensures f.blocks[b].insts[k].dst.Src? && (f.blocks[b].insts[k].dst == Src(n) ==> b == bi && k == j)
    {
      assert SrcBlock(f.blocks[b]) && SrcInst(f.blocks[b].insts[k]);
    }
  }

  /** Plans that agree on all blocks but one. */
  lemma OneBlockDiffers(p: Plan, q: Plan, f: Function, bi: nat)
    requires bi < |f.blocks|
    requires forall b :: 0 <= b < |f.blocks| && b != bi ==>
               RewriteBlock(q, b, f.blocks[b]) == RewriteBlock(p, b, f.blocks[b])
    ensures RewriteFn(q, f) ==
            RewriteFn(p, f).(blocks := RewriteFn(p, f).blocks[bi := RewriteBlock(q, bi, f.blocks[bi])])
  {
    assert RewriteFn(q, f).blocks == RewriteFn(p, f).blocks[bi := RewriteBlock(q, bi, f.blocks[bi])];
  }

  /** Inserting the three instructions of the next alternative behind a site. */
  lemma LinkStep(p: Plan, sf: Function, f: Function, bi: nat, j: nat, n: nat, id: u32, at: nat, k: nat, copy: Inst)
    requires DefinedAt(sf, bi, j, n) && SrcInst(sf.blocks[bi].insts[j]) && f == RewriteFn(p, sf)
    requires n !in p.redir && k == |Ids(p, n)| < |Copies(p, sf.blocks[bi].insts[j])|
    requires at == |Lead(p, sf.blocks[bi].insts, j)| && copy == Copies(p, sf.blocks[bi].insts[j])[k]
    ensures bi < |f.blocks| && at + 1 + 3 * k <= |f.blocks[bi].insts|
    ensures RewriteFn(AddId(p, n, id), sf)
              == SetInsts(f, bi, InsertAt(f.blocks[bi].insts, at + 1 + 3 * k, Link(n, k, copy, id)))
  {
    var q := AddId(p, n, id);
    LinkBlock(p, bi, sf.blocks[bi], j, n, id, at, k, copy);
    forall b | 0 <= b < |sf.blocks| && b != bi
      ensures RewriteBlock(q, b, sf.blocks[b]) == RewriteBlock(p, b, sf.blocks[b])
    {
      SameBlock(p, q, n, b, sf.blocks[b]);
    }
    OneBlockDiffers(p, q, sf, bi);
  }

  // ---------------------------------------------------------------- redirection

  lemma RedirectSubst(p: Plan, n: nat, op: Operand)
    requires n !in p.redir && SrcOp(op)
    ensures RedirectOp(n, Cur(n, |Ids(p, n)|), SubstOp(p, op)) == SubstOp(AddRedirect(p, n), op)
  {
  }

  lemma {:induction false} RedirectSubstAll(p: Plan, n: nat, ops: seq<Operand>)
    requires n !in p.redir && SrcOps(ops)
    ensures RedirectOps(n, Cur(n, |Ids(p, n)|), SubstAll(p, ops)) == SubstAll(AddRedirect(p, n), ops)
  {
    if ops != [] {
      RedirectSubst(p, n, ops[0]);
      RedirectSubstAll(p, n, ops[1..]);
      assert SubstAll(p, ops)[1..] == SubstAll(p, ops[1..]);
    }
  }

  lemma {:induction false} RedirectConcat(n: nat, to: Reg, x: seq<Inst>, y: seq<Inst>)
    ensures RedirectInsts(n, to, x + y) == RedirectInsts(n, to, x) + RedirectInsts(n, to, y)
  {
    if x == [] {
      assert x + y == y;
    } else {
      assert (x + y)[1..] == x[1..] + y;
      RedirectConcat(n, to, x[1..], y);
    }
  }

  lemma RedirectOne(n: nat, to: Reg, i: Inst)
    ensures RedirectInsts(n, to, [i]) == [RedirectInst(n, to, i)]
  {
    assert [i][1..] == [];
  }

  lemma RedirectFew(n: nat, to: Reg, a: Inst, b: Inst, c: Inst)
    ensures RedirectInsts(n, to, [a, b]) == [RedirectInst(n, to, a), RedirectInst(n, to, b)]
    ensures RedirectInsts(n, to, [a, b, c]) == [RedirectInst(n, to, a), RedirectInst(n, to, b), RedirectInst(n, to, c)]
  {
    assert [a, b] == [a] + [b] && [a, b, c] == [a, b] + [c];
    RedirectConcat(n, to, [a], [b]);
    RedirectConcat(n, to, [a, b], [c]);
    RedirectOne(n, to, a);
    RedirectOne(n, to, b);
    RedirectOne(n, to, c);
  }

  lemma RedirectLit(p: Plan, n: nat, at: LitSite, op: Operand)
    requires n !in p.redir && SrcOp(op)
    ensures var to := Cur(n, |Ids(p, n)|);
            && RedirectInsts(n, to, LitCode(p, at, op)) == LitCode(AddRedirect(p, n), at, op)
            && RedirectOp(n, to, LitOp(p, at, op)) == LitOp(AddRedirect(p, n), at, op)
  {
    RedirectSubst(p, n, op);
    var l := LitCode(p, at, op);
    if l != [] { RedirectFew(n, Cur(n, |Ids(p, n)|), l[0], l[1], l[1]); }
  }

  lemma RedirectCopy(p: Plan, n: nat, i: Inst, k: nat)
    requires n !in p.redir && SrcInst(i) && (i.Bin? || i.Cmp?) && k < |Copies(p, i)|
    ensures var to, q := Cur(n, |Ids(p, n)|), AddRedirect(p, n);
            && |Copies(q, i)| == |Copies(p, i)|
            && RedirectInst(n, to, Copies(p, i)[k]) == Copies(q, i)[k]
  {
    RedirectSubst(p, n, i.a);
    RedirectSubst(p, n, i.b);
  }

  lemma {:induction false} RedirectChain(p: Plan, n: nat, i: Inst, k: nat)
    requires n !in p.redir && SrcInst(i) && (i.Bin? || i.Cmp?)
    requires k <= |Copies(p, i)| && k <= |Ids(p, i.dst.n)|
    ensures var to, q, o := Cur(n, |Ids(p, n)|), AddRedirect(p, n), i.dst.n;
            && |Copies(q, i)| == |Copies(p, i)|
            && RedirectInsts(n, to, Chain(o, Copies(p, i), Ids(p, o), k)) == Chain(o, Copies(q, i), Ids(p, o), k)
  {
    var to, o := Cur(n, |Ids(p, n)|), i.dst.n;
    if k > 0 {
      RedirectChain(p, n, i, k - 1);
      RedirectCopy(p, n, i, k - 1);
      RedirectLink(n, to, o, k - 1, Copies(p, i)[k - 1], Ids(p, o)[k - 1]);
      RedirectConcat(n, to, Chain(o, Copies(p, i), Ids(p, o), k - 1),
                     Link(o, k - 1, Copies(p, i)[k - 1], Ids(p, o)[k - 1]));
    }
  }

  /** Only the copy of a link can use a redirected register: the rest belongs to the chain. */
  lemma RedirectLink(n: nat, to: Reg, o: nat, k: nat, copy: Inst, id: u32)
    ensures RedirectInsts(n, to, Link(o, k, copy, id)) == Link(o, k, RedirectInst(n, to, copy), id)
  {
    var l := Link(o, k, copy, id);
    RedirectFew(n, to, l[0], l[1], l[2]);
  }

  lemma RedirectCmp(p: Plan, n: nat, i: Inst)
    requires n !in p.redir && SrcInst(i) && i.Cmp?
    ensures RedirectInst(n, Cur(n, |Ids(p, n)|), Core(p, i)) == Core(AddRedirect(p, n), i)
  {
    RedirectLit(p, n, CmpLit(i.dst.n, 0), i.a);
    RedirectLit(p, n, CmpLit(i.dst.n, 1), i.b);
  }

  lemma RedirectBin(p: Plan, n: nat, i: Inst)
    requires n !in p.redir && SrcInst(i) && i.Bin?
    ensures RedirectInst(n, Cur(n, |Ids(p, n)|), Core(p, i)) == Core(AddRedirect(p, n), i)
  {
    RedirectSubst(p, n, i.a);
    RedirectSubst(p, n, i.b);
  }

  lemma RedirectSelect(p: Plan, n: nat, i: Inst)
    requires n !in p.redir && SrcInst(i) && i.Select?
    ensures RedirectInst(n, Cur(n, |Ids(p, n)|), Core(p, i)) == Core(AddRedirect(p, n), i)
  {
    RedirectSubst(p, n, i.cond);
    RedirectSubst(p, n, i.whenOn);
    RedirectSubst(p, n, i.whenOff);
  }

  lemma RedirectArgs(p: Plan, n: nat, i: Inst)
    requires n !in p.redir && SrcInst(i) && (i.Call? || i.Effect?)
    ensures RedirectInst(n, Cur(n, |Ids(p, n)|), Core(p, i)) == Core(AddRedirect(p, n), i)
  {
    RedirectSubstAll(p, n, i.args);
  }

  lemma RedirectCore(p: Plan, n: nat, i: Inst)
    requires n !in p.redir && SrcInst(i)
    ensures RedirectInst(n, Cur(n, |Ids(p, n)|), Core(p, i)) == Core(AddRedirect(p, n), i)
  {
    if i.Bin? {
      RedirectBin(p, n, i);
    } else if i.Cmp? {
      RedirectCmp(p, n, i);
    } else if i.Select? {
      RedirectSelect(p, n, i);
    } else if !i.Active? {
      RedirectArgs(p, n, i);
    }
  }

  lemma RedirectExpand(p: Plan, n: nat, i: Inst)
    requires n !in p.redir && SrcInst(i)
    ensures RedirectInsts(n, Cur(n, |Ids(p, n)|), Expand(p, i)) == Expand(AddRedirect(p, n), i)
  {
    var to := Cur(n, |Ids(p, n)|);
    RedirectConcat(n, to, Before(p, i), [Core(p, i)]);
    RedirectConcat(n, to, Before(p, i) + [Core(p, i)], ChainOf(p, i));
    RedirectCore(p, n, i);
    RedirectOne(n, to, Core(p, i));
    if i.Cmp? {
      RedirectLit(p, n, CmpLit(i.dst.n, 0), i.a);
      RedirectLit(p, n, CmpLit(i.dst.n, 1), i.b);
      RedirectConcat(n, to, LitCode(p, CmpLit(i.dst.n, 0), i.a), LitCode(p, CmpLit(i.dst.n, 1), i.b));
    }
    if i.Bin? || i.Cmp? {
      RedirectChain(p, n, i, Arity(p, i));
    }
  }

  lemma {:induction false} RedirectExpandAll(p: Plan, n: nat, insts: seq<Inst>)
    requires n !in p.redir && forall j :: 0 <= j < |insts| ==> SrcInst(insts[j])
    ensures RedirectInsts(n, Cur(n, |Ids(p, n)|), ExpandAll(p, insts)) == ExpandAll(AddRedirect(p, n), insts)
  {
    if insts != [] {
      RedirectExpand(p, n, insts[0]);
      RedirectExpandAll(p, n, insts[1..]);
      RedirectConcat(n, Cur(n, |Ids(p, n)|), Expand(p, insts[0]), ExpandAll(p, insts[1..]));
    }
  }

  lemma {:induction false} RedirectIncomingSubst(p: Plan, n: nat, inc: seq<(nat, Operand)>)
    requires n !in p.redir && forall j :: 0 <= j < |inc| ==> SrcOp(inc[j].1)
    ensures RedirectIncoming(n, Cur(n, |Ids(p, n)|), SubstIncoming(p, inc)) == SubstIncoming(AddRedirect(p, n), inc)
  {
    if inc != [] {
      RedirectSubst(p, n, inc[0].1);
      RedirectIncomingSubst(p, n, inc[1..]);
      assert SubstIncoming(p, inc)[1..] == SubstIncoming(p, inc[1..]);
    }
  }

  lemma {:induction false} RedirectPhisSubst(p: Plan, n: nat, phis: seq<Phi>)
    requires n !in p.redir && forall j :: 0 <= j < |phis| ==> SrcPhi(phis[j])
    ensures RedirectPhis(n, Cur(n, |Ids(p, n)|), SubstPhis(p, phis)) == SubstPhis(AddRedirect(p, n), phis)
  {
    if phis != [] {
      RedirectIncomingSubst(p, n, phis[0].incoming);
      RedirectPhisSubst(p, n, phis[1..]);
      assert SubstPhis(p, phis)[1..] == SubstPhis(p, phis[1..]);
    }
  }

  lemma RedirectRewriteBlock(p: Plan, n: nat, bi: nat, b: Block)
    requires n !in p.redir && SrcBlock(b)
    ensures RedirectBlock(n, Cur(n, |Ids(p, n)|), RewriteBlock(p, bi, b)) == RewriteBlock(AddRedirect(p, n), bi, b)
  {
    var to := Cur(n, |Ids(p, n)|);
    RedirectPhisSubst(p, n, b.phis);
    RedirectExpandAll(p, n, b.insts);
    RedirectConcat(n, to, ExpandAll(p, b.insts), BeforeTerm(p, bi, b.term));
    match b.term {
      case CondBr(c, _, _) => RedirectSubst(p, n, c);
      case Return(Some(op), _) => RedirectLit(p, n, RetLit(bi), op);
      case _ =>
    }
  }

  /** Redirecting the uses of a site to the end of its chain. */
  lemma RedirectStep(p: Plan, f: Function, n: nat)
    requires n !in p.redir && SrcFn(f)
    ensures ReplaceUses(RewriteFn(p, f), n, Cur(n, |Ids(p, n)|)) == RewriteFn(AddRedirect(p, n), f)
  {
    forall bi | 0 <= bi < |f.blocks|
      ensures RedirectBlock(n, Cur(n, |Ids(p, n)|), RewriteBlock(p, bi, f.blocks[bi]))
                == RewriteBlock(AddRedirect(p, n), bi, f.blocks[bi])
    {
      RedirectRewriteBlock(p, n, bi, f.blocks[bi]);
    }
  }

  // ---------------------------------------------------------------- literals

  function SetLitOperand(i: Inst, oi: nat, op: Operand): Inst
    requires i.Cmp?
  {
    if oi == 0 then i.(a := op) else i.(b := op)
  }

  /** The two instructions that select a literal. */
  function LitPair(at: LitSite, id: u32, lit: Operand): seq<Inst>
    requires IsLit(lit)
  {
    [Active(LitOn(at), id), Select(LitSel(at), Var(LitOn(at)), Const(lit.width, 1 - lit.value), lit)]
  }

  lemma CmpLitParts(p: Plan, b: Block, j: nat, n: nat, oi: nat, id: u32)
    requires j < |b.insts| && b.insts[j].dst == Src(n) && b.insts[j].Cmp? && NoDef(n, b.insts[..j])
    requires oi < 2 && IsLit(if oi == 0 then b.insts[j].a else b.insts[j].b)
    requires CmpLit(n, oi) !in p.lits && (oi == 0 ==> CmpLit(n, 1) !in p.lits)
    ensures var q, i := AddLit(p, CmpLit(n, oi), id), b.insts[j];
            Lead(q, b.insts, j) == Lead(p, b.insts, j) + LitPair(CmpLit(n, oi), id, if oi == 0 then i.a else i.b)
  {
    var i := b.insts[j];
    LitSameExpand(p, n, oi, id, b.insts[..j]);
    BeforeGrows(p, i, oi, id);
    Assoc(ExpandAll(p, b.insts[..j]), Before(p, i), LitPair(CmpLit(n, oi), id, if oi == 0 then i.a else i.b));
  }

  lemma CmpSameTerm(p: Plan, n: nat, oi: nat, id: u32, bi: nat, t: Term)
    ensures var q := AddLit(p, CmpLit(n, oi), id);
            BeforeTerm(q, bi, t) == BeforeTerm(p, bi, t) && CoreTerm(q, bi, t) == CoreTerm(p, bi, t)
  {
  }

  lemma CmpLitRest(p: Plan, bi: nat, b: Block, j: nat, n: nat, oi: nat, id: u32)
    requires j < |b.insts| && NoDef(n, b.insts[j + 1..])
    ensures var q := AddLit(p, CmpLit(n, oi), id);
            && Trail(q, bi, b, j) == Trail(p, bi, b, j)
            && SubstPhis(q, b.phis) == SubstPhis(p, b.phis) && CoreTerm(q, bi, b.term) == CoreTerm(p, bi, b.term)
  {
    LitSameExpand(p, n, oi, id, b.insts[j + 1..]);
    LitSamePhis(p, AddLit(p, CmpLit(n, oi), id), b.phis);
    CmpSameTerm(p, n, oi, id, bi, b.term);
  }

  lemma LitCore(p: Plan, i: Inst, oi: nat, id: u32)
    requires i.Cmp? && i.dst.Src? && oi < 2 && IsLit(if oi == 0 then i.a else i.b)
    ensures var at := CmpLit(i.dst.n, oi);
            Core(AddLit(p, at, id), i) == SetLitOperand(Core(p, i), oi, Var(LitSel(at)))
  {
    LitSameOp(p, AddLit(p, CmpLit(i.dst.n, oi), id), i.a);
    LitSameOp(p, AddLit(p, CmpLit(i.dst.n, oi), id), i.b);
  }

  lemma BeforeGrows(p: Plan, i: Inst, oi: nat, id: u32)
    requires i.Cmp? && i.dst.Src? && oi < 2 && IsLit(if oi == 0 then i.a else i.b)
    requires CmpLit(i.dst.n, oi) !in p.lits && (oi == 0 ==> CmpLit(i.dst.n, 1) !in p.lits)
    ensures var at := CmpLit(i.dst.n, oi);
            Before(AddLit(p, at, id), i) == Before(p, i) + LitPair(at, id, if oi == 0 then i.a else i.b)
  {
  }

  /** The code with the literal selected in front of the comparison at `at`, which takes the selection. */
  function WithLit(insts: seq<Inst>, at: nat, inst: Inst, n: nat, oi: nat, id: u32, lit: Operand): seq<Inst>
    requires at < |insts| && inst.Cmp? && IsLit(lit)
  {
    insts[..at] + (LitPair(CmpLit(n, oi), id, lit) + [SetLitOperand(inst, oi, Var(LitSel(CmpLit(n, oi))))])
    + insts[at + 1..]
  }

  lemma CmpLitBlock(p: Plan, bi: nat, b: Block, j: nat, n: nat, oi: nat, id: u32)
    requires j < |b.insts| && SrcInst(b.insts[j]) && b.insts[j].dst == Src(n) && b.insts[j].Cmp?
    requires NoDef(n, b.insts[..j]) && NoDef(n, b.insts[j + 1..])
    requires oi < 2 && IsLit(if oi == 0 then b.insts[j].a else b.insts[j].b)
    requires CmpLit(n, oi) !in p.lits && (oi == 0 ==> CmpLit(n, 1) !in p.lits)
    ensures var i, r, at := b.insts[j], RewriteBlock(p, bi, b), |Lead(p, b.insts, j)|;
            && at < |r.insts|
            && RewriteBlock(AddLit(p, CmpLit(n, oi), id), bi, b) ==
               r.(insts := WithLit(r.insts, at, Core(p, i), n, oi, id, if oi == 0 then i.a else i.b))
  {
    var q, i := AddLit(p, CmpLit(n, oi), id), b.insts[j];
    var pair := LitPair(CmpLit(n, oi), id, if oi == 0 then i.a else i.b);
    CmpLitParts(p, b, j, n, oi, id);
    CmpLitRest(p, bi, b, j, n, oi, id);
    LitCore(p, i, oi, id);
    LitSameChain(p, q, i);
    BlockSplit(p, bi, b, j);
    BlockSplit(q, bi, b, j);
    BlockReplaced(RewriteBlock(p, bi, b), RewriteBlock(q, bi, b), Lead(p, b.insts, j), Core(p, i), Core(q, i),
                  ChainOf(p, i), Trail(p, bi, b, j), pair);
  }

  lemma BlockReplaced(r: Block, r': Block, a: seq<Inst>, x: Inst, y: Inst, c: seq<Inst>, d: seq<Inst>, more: seq<Inst>)
    requires r'.phis == r.phis && r'.term == r.term
    requires r.insts == a + [x] + c + d && r'.insts == (a + more) + [y] + c + d
    ensures |a| < |r.insts| && r' == r.(insts := r.insts[..|a|] + (more + [y]) + r.insts[|a| + 1..])
  {
    ReplaceOne(r.insts, r'.insts, a, x, y, c, d, more, |a|);
  }

  /** Literals do not affect operand redirection. */
  lemma {:induction false} LitSameOps(p: Plan, q: Plan, ops: seq<Operand>)
    requires p.chains == q.chains && p.redir == q.redir
    ensures SubstAll(p, ops) == SubstAll(q, ops)
  {
    if ops != [] { LitSameOps(p, q, ops[1..]); }
  }

  lemma {:induction false} LitSameIncoming(p: Plan, q: Plan, inc: seq<(nat, Operand)>)
    requires p.chains == q.chains && p.redir == q.redir
    ensures SubstIncoming(p, inc) == SubstIncoming(q, inc)
  {
    if inc != [] { LitSameIncoming(p, q, inc[1..]); }
  }

  lemma {:induction false} LitSamePhis(p: Plan, q: Plan, phis: seq<Phi>)
    requires p.chains == q.chains && p.redir == q.redir
    ensures SubstPhis(p, phis) == SubstPhis(q, phis)
  {
    if phis != [] {
      LitSameIncoming(p, q, phis[0].incoming);
      LitSamePhis(p, q, phis[1..]);
    }
  }

  lemma LitSameInst(p: Plan, q: Plan, i: Inst)
    requires p.chains == q.chains && p.redir == q.redir && i.dst.Src?
    requires i.Cmp? ==> forall oi: nat :: CmpLit(i.dst.n, oi) in p.lits <==> CmpLit(i.dst.n, oi) in q.lits
    requires i.Cmp? ==> forall oi: nat :: CmpLit(i.dst.n, oi) in p.lits ==>
               p.lits[CmpLit(i.dst.n, oi)] == q.lits[CmpLit(i.dst.n, oi)]
    ensures Expand(p, i) == Expand(q, i)
  {
    if i.Call? || i.Effect? { LitSameOps(p, q, i.args); }
    assert Core(p, i) == Core(q, i) && Before(p, i) == Before(q, i);
    LitSameChain(p, q, i);
  }

  lemma LitSameChain(p: Plan, q: Plan, i: Inst)
    requires p.chains == q.chains && p.redir == q.redir
    ensures ChainOf(p, i) == ChainOf(q, i)
  {
    LitSameCopies(p, q, i);
  }

  lemma LitSameOp(p: Plan, q: Plan, op: Operand)
    requires p.chains == q.chains && p.redir == q.redir
    ensures SubstOp(p, op) == SubstOp(q, op)
  {
  }

  lemma LitSameCopies(p: Plan, q: Plan, i: Inst)
    requires p.chains == q.chains && p.redir == q.redir
    ensures Copies(p, i) == Copies(q, i)
  {
    if i.Bin? || i.Cmp? {
      LitSameOp(p, q, i.a);
      LitSameOp(p, q, i.b);
    }
  }

  lemma {:induction false} LitSameExpand(p: Plan, n: nat, oi: nat, id: u32, insts: seq<Inst>)
    requires NoDef(n, insts)
    ensures ExpandAll(AddLit(p, CmpLit(n, oi), id), insts) == ExpandAll(p, insts)
  {
    if insts != [] {
      LitSameInst(AddLit(p, CmpLit(n, oi), id), p, insts[0]);
      LitSameExpand(p, n, oi, id, insts[1..]);
    }
  }

  /** Selecting literal operand `oi` of a comparison. */
  lemma CmpLitStep(p: Plan, f: Function, bi: nat, j: nat, n: nat, oi: nat, id: u32)
    requires DefinedAt(f, bi, j, n) && SrcInst(f.blocks[bi].insts[j]) && f.blocks[bi].insts[j].Cmp?
    requires oi < 2 && IsLit(if oi == 0 then f.blocks[bi].insts[j].a else f.blocks[bi].insts[j].b)
    requires CmpLit(n, oi) !in p.lits && (oi == 0 ==> CmpLit(n, 1) !in p.lits)
    ensures var i, r := f.blocks[bi].insts[j], RewriteFn(p, f);
            var lit, at, insts := if oi == 0 then i.a else i.b, |Lead(p, f.blocks[bi].insts, j)|, r.blocks[bi].insts;
            && at < |insts|
            && RewriteFn(AddLit(p, CmpLit(n, oi), id), f) ==
               SetInsts(r, bi, WithLit(insts, at, Core(p, i), n, oi, id, lit))
  {
    CmpLitBlock(p, bi, f.blocks[bi], j, n, oi, id);
    CmpOtherBlocks(p, f, bi, n, oi, id);
    OneBlockDiffers(p, AddLit(p, CmpLit(n, oi), id), f, bi);
  }

  lemma CmpOtherBlocks(p: Plan, f: Function, bi: nat, n: nat, oi: nat, id: u32)
    requires bi < |f.blocks| && forall b :: 0 <= b < |f.blocks| && b != bi ==> NoDef(n, f.blocks[b].insts)
    ensures forall b :: 0 <= b < |f.blocks| && b != bi ==>
              RewriteBlock(AddLit(p, CmpLit(n, oi), id), b, f.blocks[b]) == RewriteBlock(p, b, f.blocks[b])
  {
    forall b | 0 <= b < |f.blocks| && b != bi
      ensures RewriteBlock(AddLit(p, CmpLit(n, oi), id), b, f.blocks[b]) == RewriteBlock(p, b, f.blocks[b])
    {
      CmpSameBlock(p, n, oi, id, b, f.blocks[b]);
    }
  }

  lemma CmpSameBlock(p: Plan, n: nat, oi: nat, id: u32, bi: nat, b: Block)
    requires NoDef(n, b.insts)
    ensures RewriteBlock(AddLit(p, CmpLit(n, oi), id), bi, b) == RewriteBlock(p, bi, b)
  {
    LitSameExpand(p, n, oi, id, b.insts);
    LitSamePhis(p, AddLit(p, CmpLit(n, oi), id), b.phis);
    CmpSameTerm(p, n, oi, id, bi, b.term);
  }

  lemma {:induction false} RetSameExpand(p: Plan, bi: nat, id: u32, insts: seq<Inst>)
    requires forall j :: 0 <= j < |insts| ==> insts[j].dst.Src?
    ensures ExpandAll(AddLit(p, RetLit(bi), id), insts) == ExpandAll(p, insts)
  {
    if insts != [] {
      LitSameInst(AddLit(p, RetLit(bi), id), p, insts[0]);
      RetSameExpand(p, bi, id, insts[1..]);
    }
  }

  /** Selecting the literal that a block returns. */
  lemma RetLitStep(p: Plan, f: Function, bi: nat, id: u32)
    requires SrcFn(f) && bi < |f.blocks| && RetLit(bi) !in p.lits
    requires f.blocks[bi].term.Return? && f.blocks[bi].term.value.Some? && IsLit(f.blocks[bi].term.value.value)
    ensures var t, r := f.blocks[bi].term, RewriteFn(p, f);
            RewriteFn(AddLit(p, RetLit(bi), id), f) ==
            SetTerm(SetInsts(r, bi, r.blocks[bi].insts + LitPair(RetLit(bi), id, t.value.value)),
                    bi, Return(Some(Var(LitSel(RetLit(bi)))), t.loc))
  {
    var q := AddLit(p, RetLit(bi), id);
    assert SrcBlock(f.blocks[bi]);
    forall b | 0 <= b < |f.blocks| && b != bi
      ensures RewriteBlock(q, b, f.blocks[b]) == RewriteBlock(p, b, f.blocks[b])
    {
      RetSameBlock(p, f, bi, b, id);
    }
    RetLitBlock(p, bi, f.blocks[bi], id);
    OneBlockDiffers(p, q, f, bi);
  }

  lemma RetSameBlock(p: Plan, f: Function, bi: nat, b: nat, id: u32)
    requires SrcFn(f) && b < |f.blocks| && b != bi
    ensures RewriteBlock(AddLit(p, RetLit(bi), id), b, f.blocks[b]) == RewriteBlock(p, b, f.blocks[b])
  {
    assert SrcBlock(f.blocks[b]);
    RetSameExpand(p, bi, id, f.blocks[b].insts);
    LitSamePhis(p, AddLit(p, RetLit(bi), id), f.blocks[b].phis);
  }

  lemma RetLitBlock(p: Plan, bi: nat, b: Block, id: u32)
    requires SrcBlock(b) && RetLit(bi) !in p.lits
    requires b.term.Return? && b.term.value.Some? && IsLit(b.term.value.value)
    ensures var r := RewriteBlock(p, bi, b);
            RewriteBlock(AddLit(p, RetLit(bi), id), bi, b) ==
            Block(r.phis, r.insts + LitPair(RetLit(bi), id, b.term.value.value),
                  Return(Some(Var(LitSel(RetLit(bi)))), b.term.loc))
  {
    RetSameExpand(p, bi, id, b.insts);
    LitSamePhis(p, AddLit(p, RetLit(bi), id), b.phis);
    assert ExpandAll(p, b.insts) + [] == ExpandAll(p, b.insts);
  }
}
