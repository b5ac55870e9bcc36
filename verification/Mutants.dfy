/** The mutation operators: which alternatives a site has and what they are called. */
module Mutants {
  import opened IR

  datatype BinMut = BinMut(op: BinOp, kind: string)

  function PredName(p: Pred): string {
    match p
    case EQ => "=="
    case NE => "!="
    case SGT => ">"
    case SGE => ">="
    case SLT => "<"
    case SLE => "<="
    case UGT => ">"
    case UGE => ">="
    case ULT => "<"
    case ULE => "<="
  }

  function BinName(op: BinOp, w: nat): string {
    match op
    case Add => "+"
    case Sub => "-"
    case Mul => "*"
    case SDiv => "/"
    case UDiv => "/"
    case SRem => "%"
    case URem => "%"
    case And => if w == 1 then "&&" else "&"
    case Or => if w == 1 then "||" else "|"
    case Xor => "?"
  }

  function PredAlts(p: Pred): seq<Pred> {
    match p
    case EQ => [NE, SLT, SGT]
    case NE => [EQ, SLE, SGE]
    case SGT => [SGE, SLT, EQ]
    case SGE => [SGT, SLE, EQ]
    case SLT => [SLE, SGT, EQ]
    case SLE => [SLT, SGE, EQ]
    case UGT => [UGE, ULT, EQ]
    case UGE => [UGT, ULE, EQ]
    case ULT => [ULE, UGT, EQ]
    case ULE => [ULT, UGE, EQ]
  }

  function BinAlts(op: BinOp, w: nat): seq<BinMut> {
    match op
    case Add => [BinMut(Sub, "AOR"), BinMut(Mul, "AOR")]
    case Sub => [BinMut(Add, "AOR"), BinMut(Mul, "AOR")]
    case Mul => [BinMut(SDiv, "AOR"), BinMut(Add, "AOR")]
    case SDiv => [BinMut(Mul, "AOR"), BinMut(Sub, "AOR")]
    case UDiv => [BinMut(Mul, "AOR"), BinMut(Sub, "AOR")]
    case SRem => [BinMut(SDiv, "AOR"), BinMut(Mul, "AOR")]
    case URem => [BinMut(UDiv, "AOR"), BinMut(Mul, "AOR")]
    case And => [BinMut(Or, if w == 1 then "LCR" else "BOR")]
    case Or => [BinMut(And, if w == 1 then "LCR" else "BOR")]
    case Xor => []
  }

  /** Within one site the alternatives carry different names, which is what keeps their
      catalog keys apart. */
  lemma BinNamesDistinct(op: BinOp, w: nat, i: nat, j: nat)
    requires i < j < |BinAlts(op, w)|
    ensures BinName(BinAlts(op, w)[i].op, w) != BinName(BinAlts(op, w)[j].op, w)
  {
    var s, t := BinName(BinAlts(op, w)[i].op, w), BinName(BinAlts(op, w)[j].op, w);
    match op {
      case And =>
      case Or =>
      case Xor =>
      case _ => assert s[0] != t[0];
    }
  }

  lemma PredNamesDistinct(p: Pred, i: nat, j: nat)
    requires i < j < |PredAlts(p)|
    ensures PredName(PredAlts(p)[i]) != PredName(PredAlts(p)[j])
  {
    DistinctPreds(PredAlts(p)[i], PredAlts(p)[j]);
  }

  /** The source-level relation a predicate name stands for, ignoring signedness. */
  function Relation(p: Pred): nat {
    match p
    case EQ => 0
    case NE => 1
    case SGT => 2
    case UGT => 2
    case SGE => 3
    case UGE => 3
    case SLT => 4
    case ULT => 4
    case SLE => 5
    case ULE => 5
  }

  lemma DistinctPreds(p: Pred, q: Pred)
    requires Relation(p) != Relation(q)
    ensures PredName(p) != PredName(q)
  {
    var s, t := PredName(p), PredName(q);
    if |s| == |t| {
      assert s[0] != t[0];
    }
  }

  /** Evaluating the site of `op` together with all its alternatives traps. */
  predicate SiteTraps(op: BinOp, w: nat, x: Word, y: Word) {
    match op
    case Mul => SDivTraps(w, x, y)
    case SDiv => SDivTraps(w, x, y)
    case SRem => SDivTraps(w, x, y)
    case UDiv => Wrap(w, y) == 0
    case URem => Wrap(w, y) == 0
    case _ => false
  }

  /** No alternative traps where its own site does not, except `*` -> `sdiv`. */
  lemma SiteTrapsExactly(op: BinOp, w: nat, x: Word, y: Word)
    requires BinAlts(op, w) != []
    ensures SiteTraps(op, w, x, y) <==>
              || EvalBin(op, w, x, y).None?
              || exists k :: 0 <= k < |BinAlts(op, w)| && EvalBin(BinAlts(op, w)[k].op, w, x, y).None?
    ensures EvalBin(op, w, x, y).Some? ==> (SiteTraps(op, w, x, y) <==> op == Mul && SDivTraps(w, x, y))
    ensures EvalBin(op, w, x, y).Some? ==>
              (SiteTraps(op, w, x, y) <==> EvalBin(BinAlts(op, w)[0].op, w, x, y).None?)
  {
    var alts := BinAlts(op, w);
    assert alts[0] in alts;
    if op == Mul && SDivTraps(w, x, y) {
      assert EvalBin(alts[0].op, w, x, y).None?;
    }
  }

  lemma SignedInjective(w: nat, x: Word, y: Word)
    ensures Signed(w, x) == Signed(w, y) <==> Wrap(w, x) == Wrap(w, y)
  {
  }

  /** What the relational alternatives are: the negation of an equality, and for an ordering its
      boundary flip, which differs exactly on equal operands, its mirror image, and equality. */
  lemma RelationalAlternatives(p: Pred, w: nat, x: Word, y: Word)
    ensures var alts, holds := PredAlts(p), PredHolds(p, w, x, y);
            && |alts| == 3
            && (p == EQ || p == NE ==>
                  && PredHolds(alts[0], w, x, y) == !holds
                  && (p == EQ ==> (PredHolds(alts[1], w, x, y) || PredHolds(alts[2], w, x, y)) == !holds)
                  && (p == NE ==> (PredHolds(alts[1], w, x, y) && PredHolds(alts[2], w, x, y)) == !holds))
            && (p != EQ && p != NE ==>
                  && (PredHolds(alts[0], w, x, y) != holds <==> Wrap(w, x) == Wrap(w, y))
                  && PredHolds(alts[1], w, x, y) == PredHolds(p, w, y, x)
                  && alts[2] == EQ)
  {
    SignedInjective(w, x, y);
  }
}
