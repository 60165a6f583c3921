/**
 * Conversion to conjunctive normal form (the `to_cnf` methods of
 * Belief_base/formula.py), the shapes it produces, and the measure that shows
 * it terminates although it recurses on formulas it has just built.
 */
module Cnf {
  import opened Formulas

  // ---------------------------------------------------------------------------
  // Shapes

  predicate IsLiteral(f: Formula) {
    f.Atom? || (f.Not? && f.arg.Atom?)
  }

  /** Negation normal form: negation only on atoms, no Implies or Equiv. */
  predicate IsNnf(f: Formula) {
    match f
    case Atom(_) => true
    case Not(g) => g.Atom?
    case And(fs) => forall i :: 0 <= i < |fs| ==> IsNnf(fs[i])
    case Or(fs) => forall i :: 0 <= i < |fs| ==> IsNnf(fs[i])
    case Implies(_, _) => false
    case Equiv(_, _) => false
  }

  /** A clause: a literal, or an Or whose children are all literals. */
  predicate IsClause(f: Formula) {
    IsLiteral(f) || (f.Or? && forall i :: 0 <= i < |f.formulas| ==> IsLiteral(f.formulas[i]))
  }

  /** What one pass of ToCnf yields: clauses under Ands that may still nest. */
  predicate IsCnfShape(f: Formula) {
    match f
    case And(fs) => forall i :: 0 <= i < |fs| ==> IsCnfShape(fs[i])
    case _ => IsClause(f)
  }

  /** Flat CNF: a single clause, or an And of clauses. */
  predicate IsFlatCnf(f: Formula) {
    IsClause(f) || (f.And? && forall i :: 0 <= i < |f.formulas| ==> IsClause(f.formulas[i]))
  }

  lemma {:induction false} CnfShapeIsNnf(f: Formula)
    requires IsCnfShape(f)
    ensures IsNnf(f)
    decreases f
  {
    match f
    case And(fs) =>
      forall i | 0 <= i < |fs| ensures IsNnf(fs[i]) {
        CnfShapeIsNnf(fs[i]);
      }
    case _ =>
  }

  // ---------------------------------------------------------------------------
  // The termination measure

  function Sum(s: seq<nat>): nat {
    if s == [] then 0 else s[0] + Sum(s[1..])
  }

  function Product(s: seq<nat>): (p: nat)
    ensures (forall i :: 0 <= i < |s| ==> s[i] >= 1) ==> p >= 1
  {
    if s == [] then 1 else s[0] * Product(s[1..])
  }

  /**
   * Weight(f) bounds the size of the CNF of f, counting an And as the sum of
   * its children plus one and an Or as the product of its children;
   * NegWeight(f) does the same for Not(f).
   */
  function Weight(f: Formula): (w: nat)
    ensures w >= 1
    decreases f, 1
  {
    match f
    case Atom(_) => 1
    case Not(g) => NegWeight(g)
    case And(fs) => Sum(Weights(fs)) + 1
    case Or(fs) => Product(Weights(fs))
    case Implies(p, q) =>
      Product([NegWeight(p), Weight(q)])
    case Equiv(l, r) =>
      Product([NegWeight(l), Weight(r)]) + Product([NegWeight(r), Weight(l)]) + 1
  }

  function NegWeight(f: Formula): (w: nat)
    ensures w >= 1
    decreases f, 1
  {
    match f
    case Atom(_) => 1
    case Not(g) => Weight(g)
    case And(fs) => Product(NegWeights(fs))
    case Or(fs) => Sum(NegWeights(fs)) + 1
    case Implies(p, q) => Weight(p) + NegWeight(q) + 1
    case Equiv(l, r) => Product([EquivHalf(l, r, false), EquivHalf(l, r, true)])
  }

  /**
   * The weight of one disjunct of Not(Equiv(l, r)) once it is rewritten:
   * l ∧ ¬r, or ¬l ∧ r when `flip` holds.
   */
  function EquivHalf(l: Formula, r: Formula, flip: bool): (w: nat)
    ensures w >= 1
    decreases Equiv(l, r), 0
  {
    if flip then NegWeight(l) + Weight(r) + 1 else Weight(l) + NegWeight(r) + 1
  }

  function Weights(fs: seq<Formula>): (ws: seq<nat>)
    ensures |ws| == |fs|
    ensures forall i :: 0 <= i < |fs| ==> ws[i] == Weight(fs[i]) && ws[i] >= 1
  {
    seq(|fs|, i requires 0 <= i < |fs| => Weight(fs[i]))
  }

  function NegWeights(fs: seq<Formula>): (ws: seq<nat>)
    ensures |ws| == |fs|
    ensures forall i :: 0 <= i < |fs| ==> ws[i] == NegWeight(fs[i]) && ws[i] >= 1
  {
    seq(|fs|, i requires 0 <= i < |fs| => NegWeight(fs[i]))
  }

  /** Node count, with Implies and Equiv counted as the nodes they are rewritten into. */
  function Rank(f: Formula): (r: nat)
    ensures r >= 1
  {
    match f
    case Atom(_) => 1
    case Not(g) => Rank(g) + 1
    case And(fs) => Sum(Ranks(fs)) + 1
    case Or(fs) => Sum(Ranks(fs)) + 1
    case Implies(p, q) => Rank(p) + Rank(q) + 3
    case Equiv(l, r) => 2 * (Rank(l) + Rank(r)) + 6
  }

  function Ranks(fs: seq<Formula>): (rs: seq<nat>)
    ensures |rs| == |fs|
    ensures forall i :: 0 <= i < |fs| ==> rs[i] == Rank(fs[i])
  {
    seq(|fs|, i requires 0 <= i < |fs| => Rank(fs[i]))
  }

  /** 0 for a formula in negation normal form, 1 otherwise. */
  function Phase(f: Formula): nat {
    if IsNnf(f) then 0 else 1
  }

  // ---------------------------------------------------------------------------
  // Arithmetic facts about the measure

  lemma {:induction false} SumAppend(xs: seq<nat>, ys: seq<nat>)
    ensures Sum(xs + ys) == Sum(xs) + Sum(ys)
    decreases xs
  {
    if xs == [] {
      assert xs + ys == ys;
    } else {
      assert (xs + ys)[1..] == xs[1..] + ys;
      SumAppend(xs[1..], ys);
    }
  }

  lemma {:induction false} ProductAppend(xs: seq<nat>, ys: seq<nat>)
    ensures Product(xs + ys) == Product(xs) * Product(ys)
    decreases xs
  {
    if xs == [] {
      assert xs + ys == ys;
    } else {
      assert (xs + ys)[1..] == xs[1..] + ys;
      ProductAppend(xs[1..], ys);
      MulAssociative(xs[0], Product(xs[1..]), Product(ys));
    }
  }

  lemma {:induction false} SumAtLeastMember(s: seq<nat>, i: nat)
    requires i < |s|
    ensures s[i] <= Sum(s)
    decreases s
  {
    if i > 0 { SumAtLeastMember(s[1..], i - 1); }
  }

  lemma {:induction false} ProductAtLeastMember(s: seq<nat>, i: nat)
    requires i < |s|
    requires forall k :: 0 <= k < |s| ==> s[k] >= 1
    ensures s[i] <= Product(s)
    decreases s
  {
    if i > 0 {
      ProductAtLeastMember(s[1..], i - 1);
      MulMonotone(1, s[0], Product(s[1..]));
    } else {
      MulMonotone(1, Product(s[1..]), s[0]);
    }
  }

  lemma MulNat(a: nat, b: nat)
    ensures a * b >= 0
  {
  }

  lemma MulAssociative(a: nat, b: nat, c: nat)
    ensures a * (b * c) == (a * b) * c
  {
  }

  lemma MulBoundStep(w0: nat, kept: nat, tail: nat)
    requires w0 >= 1 && kept <= tail
    ensures kept <= w0 * tail
  {
    MulMonotone(1, w0, tail);
  }

  lemma MulBoundShift(wa: nat, w0: nat, kept: nat, tail: nat, pr: nat, pf: nat)
    requires wa * kept <= tail && pr == w0 * kept && pf == w0 * tail
    ensures wa * pr <= pf
  {
    MulAssociative(wa, w0, kept);
    MulAssociative(w0, wa, kept);
    MulMonotone(wa * kept, tail, w0);
  }

  lemma ProductCons(s: seq<nat>, x: nat, p: nat)
    requires s != [] && s[0] == x && Product(s[1..]) == p
    ensures Product(s) == x * p
  {
  }

  lemma MulMonotoneLeft(c: nat, a: nat, b: nat)
    requires a <= b
    ensures c * a <= c * b
  {
  }

  lemma MulMonotone(a: nat, b: nat, c: nat)
    requires a <= b
    ensures a * c <= b * c
  {
  }

  lemma {:induction false} SumPointwise(xs: seq<nat>, ys: seq<nat>)
    requires |xs| == |ys|
    requires forall i :: 0 <= i < |xs| ==> xs[i] <= ys[i]
    ensures Sum(xs) <= Sum(ys)
    decreases xs
  {
    if xs != [] { SumPointwise(xs[1..], ys[1..]); }
  }

  lemma {:induction false} ProductPointwise(xs: seq<nat>, ys: seq<nat>)
    requires |xs| == |ys|
    requires forall i :: 0 <= i < |xs| ==> xs[i] <= ys[i]
    ensures Product(xs) <= Product(ys)
    decreases xs
  {
    if xs != [] {
      ProductPointwise(xs[1..], ys[1..]);
      MulMonotone(xs[0], ys[0], Product(xs[1..]));
      MulMonotone(Product(xs[1..]), Product(ys[1..]), ys[0]);
    }
  }

  /** Summing terms each bounded by `ys[i] * k` gives at most `Sum(ys) * k`. */
  lemma {:induction false} SumScaled(xs: seq<nat>, ys: seq<nat>, k: nat)
    requires |xs| == |ys|
    requires forall i :: 0 <= i < |xs| ==> xs[i] <= ys[i] * k
    ensures Sum(xs) <= Sum(ys) * k
    decreases xs
  {
    if xs != [] {
      SumScaled(xs[1..], ys[1..], k);
      assert Sum(ys) * k == ys[0] * k + Sum(ys[1..]) * k;
    }
  }

  lemma WeightsAppend(xs: seq<Formula>, ys: seq<Formula>)
    ensures Weights(xs + ys) == Weights(xs) + Weights(ys)
  {
  }

  lemma NegWeightsAppend(xs: seq<Formula>, ys: seq<Formula>)
    ensures NegWeights(xs + ys) == NegWeights(xs) + NegWeights(ys)
  {
  }

  lemma Pair(a: nat, b: nat)
    ensures Sum([a, b]) == a + b && Product([a, b]) == a * b
  {
    assert [a, b][1..] == [b];
    assert [b][1..] == [];
    assert Sum([b]) == b;
    assert Product([b]) == b;
  }

  lemma {:induction false} SumBoundsAll(s: seq<nat>)
    ensures forall i :: 0 <= i < |s| ==> s[i] <= Sum(s)
  {
    forall i | 0 <= i < |s| ensures s[i] <= Sum(s) {
      SumAtLeastMember(s, i);
    }
  }

  lemma {:induction false} ProductBoundsAll(s: seq<nat>)
    requires forall k :: 0 <= k < |s| ==> s[k] >= 1
    ensures forall i :: 0 <= i < |s| ==> s[i] <= Product(s)
  {
    forall i | 0 <= i < |s| ensures s[i] <= Product(s) {
      ProductAtLeastMember(s, i);
    }
  }

  // ---------------------------------------------------------------------------
  // One level of flattening, and the disjuncts left beside a chosen conjunction

  /** The children of every And child spliced in place, one level deep, in order. */
  function FlattenAnd(fs: seq<Formula>): (r: seq<Formula>)
  {
    if fs == [] then []
    else (if fs[0].And? then fs[0].formulas else [fs[0]]) + FlattenAnd(fs[1..])
  }

  /** The children of every Or child spliced in place, one level deep, in order. */
  function FlattenOr(fs: seq<Formula>): (r: seq<Formula>)
  {
    if fs == [] then []
    else (if fs[0].Or? then fs[0].formulas else [fs[0]]) + FlattenOr(fs[1..])
  }

  /** The And members of `fs`, in order. */
  function AndsIn(fs: seq<Formula>): (r: seq<Formula>)
    ensures forall i :: 0 <= i < |r| ==> r[i].And? && r[i] in fs
    ensures r == [] <==> forall i :: 0 <= i < |fs| ==> !fs[i].And?
  {
    if fs == [] then []
    else if fs[0].And? then [fs[0]] + AndsIn(fs[1..])
    else AndsIn(fs[1..])
  }

  /** The members of `fs` not equal (in the sense of FEq) to `a`, in order. */
  function Without(fs: seq<Formula>, a: Formula): (r: seq<Formula>)
  {
    if fs == [] then []
    else if FEq(fs[0], a) then Without(fs[1..], a)
    else [fs[0]] + Without(fs[1..], a)
  }

  lemma {:induction false} FlattenOrProduct(fs: seq<Formula>)
    ensures Product(Weights(FlattenOr(fs))) == Product(Weights(fs))
    decreases fs
  {
    if fs != [] {
      FlattenOrProduct(fs[1..]);
      FlattenOrProductStep(fs);
    }
  }

  lemma FlattenOrProductStep(fs: seq<Formula>)
    requires fs != [] && Product(Weights(FlattenOr(fs[1..]))) == Product(Weights(fs[1..]))
    ensures Product(Weights(FlattenOr(fs))) == Product(Weights(fs))
  {
    var head := if fs[0].Or? then fs[0].formulas else [fs[0]];
    var rest := FlattenOr(fs[1..]);
    assert FlattenOr(fs) == head + rest;
    WeightsAppend(head, rest);
    ProductAppend(Weights(head), Weights(rest));
    HeadProduct(fs[0]);
    WeightsSplit(fs);
  }

  /** The weights of what an Or child contributes multiply to its own weight. */
  lemma HeadProduct(f: Formula)
    ensures Product(Weights(if f.Or? then f.formulas else [f])) == Weight(f)
  {
    if !f.Or? {
      assert Weights([f]) == [Weight(f)];
      assert Product([Weight(f)]) == Weight(f) * Product([]);
    }
  }

  lemma {:induction false} FlattenAndSum(fs: seq<Formula>)
    ensures Sum(Weights(FlattenAnd(fs))) <= Sum(Weights(fs))
    decreases fs
  {
    if fs != [] {
      FlattenAndSum(fs[1..]);
      var head := if fs[0].And? then fs[0].formulas else [fs[0]];
      FlattenAndSumStep(fs, head, FlattenAnd(fs[1..]));
    }
  }

  lemma FlattenAndSumStep(fs: seq<Formula>, head: seq<Formula>, rest: seq<Formula>)
    requires fs != [] && head == (if fs[0].And? then fs[0].formulas else [fs[0]])
    requires rest == FlattenAnd(fs[1..]) && Sum(Weights(rest)) <= Sum(Weights(fs[1..]))
    ensures Sum(Weights(FlattenAnd(fs))) <= Sum(Weights(fs))
  {
    assert FlattenAnd(fs) == head + rest;
    WeightsAppend(head, rest);
    SumAppend(Weights(head), Weights(rest));
    HeadSum(fs[0]);
    SumWeightsCons(fs);
  }

  lemma SumWeightsCons(fs: seq<Formula>)
    requires fs != []
    ensures Sum(Weights(fs)) == Weight(fs[0]) + Sum(Weights(fs[1..]))
  {
    assert Weights(fs)[1..] == Weights(fs[1..]);
  }

  /** The weights of what an And child contributes add up to at most its own weight. */
  lemma HeadSum(f: Formula)
    ensures Sum(Weights(if f.And? then f.formulas else [f])) <= Weight(f)
  {
    if !f.And? {
      assert Weights([f]) == [Weight(f)];
      assert Sum([Weight(f)]) == Weight(f) + Sum([]);
    }
  }

  lemma {:induction false} WithoutProductLe(fs: seq<Formula>, a: Formula)
    ensures Product(Weights(Without(fs, a))) <= Product(Weights(fs))
    decreases fs
  {
    if fs != [] {
      WithoutProductLe(fs[1..], a);
      WithoutProductStep(fs, a);
    }
  }

  /** One step of WithoutProductLe: dropping or keeping the first member. */
  lemma WithoutProductStep(fs: seq<Formula>, a: Formula)
    requires fs != []
    requires Product(Weights(Without(fs[1..], a))) <= Product(Weights(fs[1..]))
    ensures Product(Weights(Without(fs, a))) <= Product(Weights(fs))
  {
    WeightsSplit(fs);
    if FEq(fs[0], a) {
      assert Without(fs, a) == Without(fs[1..], a);
      MulBoundStep(Weight(fs[0]), Product(Weights(Without(fs[1..], a))), Product(Weights(fs[1..])));
    } else {
      WithoutKeeps(fs, a);
    }
  }

  lemma WithoutKeeps(fs: seq<Formula>, a: Formula)
    requires fs != [] && !FEq(fs[0], a)
    requires Product(Weights(Without(fs[1..], a))) <= Product(Weights(fs[1..]))
    requires Product(Weights(fs)) == Weight(fs[0]) * Product(Weights(fs[1..]))
    ensures Product(Weights(Without(fs, a))) <= Product(Weights(fs))
  {
    var r := Without(fs, a);
    assert r == [fs[0]] + Without(fs[1..], a);
    assert r[1..] == Without(fs[1..], a);
    WeightsSplit(r);
    MulMonotoneLeft(Weight(fs[0]), Product(Weights(Without(fs[1..], a))), Product(Weights(fs[1..])));
  }

  /** The product of the weights of a non-empty list: the first weight times the rest. */
  lemma WeightsSplit(fs: seq<Formula>)
    requires fs != []
    ensures Product(Weights(fs)) == Weight(fs[0]) * Product(Weights(fs[1..]))
  {
    assert Weights(fs)[1..] == Weights(fs[1..]);
  }

  /** Removing `a` (and everything equal to it) divides the product by at least Weight(a). */
  lemma WithoutProduct(fs: seq<Formula>, a: Formula)
    requires a in fs
    ensures Weight(a) * Product(Weights(Without(fs, a))) <= Product(Weights(fs))
  {
    WithoutProductBy(fs, a, Weight(a));
  }

  lemma {:induction false} WithoutProductBy(fs: seq<Formula>, a: Formula, wa: nat)
    requires a in fs && wa <= Weight(a)
    ensures wa * Product(Weights(Without(fs, a))) <= Product(Weights(fs))
    decreases fs
  {
    if !FEq(fs[0], a) {
      FEqReflexive(a);
      assert a in fs[1..];
      WithoutProductBy(fs[1..], a, wa);
      WithoutByKeep(fs, a, wa);
    } else if a in fs[1..] {
      WithoutProductBy(fs[1..], a, wa);
      WithoutByDrop(fs, a, wa);
    } else {
      WithoutProductLe(fs[1..], a);
      WithoutByLast(fs, a, wa);
    }
  }

  lemma WithoutByKeep(fs: seq<Formula>, a: Formula, wa: nat)
    requires fs != [] && !FEq(fs[0], a)
    requires wa * Product(Weights(Without(fs[1..], a))) <= Product(Weights(fs[1..]))
    ensures wa * Product(Weights(Without(fs, a))) <= Product(Weights(fs))
  {
    WithoutCons(fs, a);
    WeightsTail(fs);
    WeightsTail(Without(fs, a));
    ProductConsShift(Weights(fs), Weights(Without(fs, a)), wa);
  }

  lemma WithoutByDrop(fs: seq<Formula>, a: Formula, wa: nat)
    requires fs != [] && FEq(fs[0], a)
    requires wa * Product(Weights(Without(fs[1..], a))) <= Product(Weights(fs[1..]))
    ensures wa * Product(Weights(Without(fs, a))) <= Product(Weights(fs))
  {
    assert Without(fs, a) == Without(fs[1..], a);
    WeightsTail(fs);
    MulNat(wa, Product(Weights(Without(fs[1..], a))));
    ProductConsGrow(Weights(fs), wa * Product(Weights(Without(fs[1..], a))));
  }

  lemma WithoutByLast(fs: seq<Formula>, a: Formula, wa: nat)
    requires fs != [] && FEq(fs[0], a) && a in fs && a !in fs[1..] && wa <= Weight(a)
    requires Product(Weights(Without(fs[1..], a))) <= Product(Weights(fs[1..]))
    ensures wa * Product(Weights(Without(fs, a))) <= Product(Weights(fs))
  {
    WithoutCons(fs, a);
    WeightsTail(fs);
    ProductConsBound(Weights(fs), Product(Weights(Without(fs[1..], a))));
    MulMonotone(wa, Weight(fs[0]), Product(Weights(Without(fs[1..], a))));
  }

  lemma {:induction false} WithoutMembers(fs: seq<Formula>, a: Formula)
    ensures forall x :: x in Without(fs, a) <==> x in fs && !FEq(x, a)
    decreases fs
  {
    if fs != [] {
      WithoutMembers(fs[1..], a);
      assert forall x :: x in fs <==> x == fs[0] || x in fs[1..];
    }
  }

  lemma WithoutCons(fs: seq<Formula>, a: Formula)
    requires fs != []
    ensures Without(fs, a) == if FEq(fs[0], a) then Without(fs[1..], a) else [fs[0]] + Without(fs[1..], a)
  {
  }

  lemma WeightsTail(fs: seq<Formula>)
    requires fs != []
    ensures Weights(fs)[1..] == Weights(fs[1..]) && Weights(fs)[0] == Weight(fs[0])
  {
  }

  // Arithmetic on plain sequences of naturals, kept apart from Weight.

  lemma ProductConsShift(ws: seq<nat>, rs: seq<nat>, wa: nat)
    requires ws != [] && rs != [] && ws[0] == rs[0]
    requires wa * Product(rs[1..]) <= Product(ws[1..])
    ensures wa * Product(rs) <= Product(ws)
  {
    ProductCons(ws, ws[0], Product(ws[1..]));
    ProductCons(rs, ws[0], Product(rs[1..]));
    MulBoundShift(wa, ws[0], Product(rs[1..]), Product(ws[1..]), Product(rs), Product(ws));
  }

  lemma ProductConsGrow(ws: seq<nat>, x: nat)
    requires ws != [] && ws[0] >= 1 && x <= Product(ws[1..])
    ensures x <= Product(ws)
  {
    ProductCons(ws, ws[0], Product(ws[1..]));
    MulBoundStep(ws[0], x, Product(ws[1..]));
  }

  lemma ProductConsBound(ws: seq<nat>, x: nat)
    requires ws != [] && x <= Product(ws[1..])
    ensures ws[0] * x <= Product(ws)
  {
    ProductCons(ws, ws[0], Product(ws[1..]));
    MulMonotoneLeft(ws[0], x, Product(ws[1..]));
  }

  lemma ArithDistribute(wc: nat, sum: nat, po: nat, pf: nat)
    requires wc <= sum && po >= 1 && (sum + 1) * po <= pf
    ensures wc * po < pf && sum * po + po <= pf
  {
    MulMonotone(wc, sum, po);
  }

  // ---------------------------------------------------------------------------
  // Shapes of the flattened lists

  lemma {:induction false} FlattenAndShape(fs: seq<Formula>)
    requires forall i :: 0 <= i < |fs| ==> IsCnfShape(fs[i])
    ensures forall i :: 0 <= i < |FlattenAnd(fs)| ==> IsCnfShape(FlattenAnd(fs)[i])
    decreases fs
  {
    if fs != [] {
      FlattenAndShape(fs[1..]);
    }
  }

  lemma {:induction false} FlattenOrShape(fs: seq<Formula>)
    requires forall i :: 0 <= i < |fs| ==> IsCnfShape(fs[i])
    ensures forall i :: 0 <= i < |FlattenOr(fs)| ==>
      IsCnfShape(FlattenOr(fs)[i]) && !FlattenOr(fs)[i].Or?
    decreases fs
  {
    if fs != [] {
      FlattenOrShape(fs[1..]);
    }
  }

  lemma CnfShapesAreNnf(fs: seq<Formula>)
    requires forall i :: 0 <= i < |fs| ==> IsCnfShape(fs[i])
    ensures IsNnf(And(fs)) && IsNnf(Or(fs))
  {
    forall i | 0 <= i < |fs| ensures IsNnf(fs[i]) {
      CnfShapeIsNnf(fs[i]);
    }
  }

  /** The weight facts behind one distribution step of Or over the conjunction `andf`. */
  lemma DistributeWeights(flat: seq<Formula>, andf: Formula)
    requires andf in flat && andf.And?
    ensures forall k :: 0 <= k < |andf.formulas| ==>
      Weight(Or([andf.formulas[k]] + Without(flat, andf))) < Product(Weights(flat))
    ensures Sum(Weights(andf.formulas)) * Product(Weights(Without(flat, andf)))
      + Product(Weights(Without(flat, andf))) <= Product(Weights(flat))
  {
    var cs, others := andf.formulas, Without(flat, andf);
    var sum, po, pf := Sum(Weights(cs)), Product(Weights(others)), Product(Weights(flat));
    WithoutProductBy(flat, andf, sum + 1);
    SumBoundsAll(Weights(cs));
    forall k | 0 <= k < |cs|
      ensures Weight(Or([cs[k]] + others)) < pf
    {
      OrConsWeight(cs[k], others);
      ArithDistribute(Weight(cs[k]), sum, po, pf);
    }
    ArithDistribute(0, sum, po, pf);
  }

  // ---------------------------------------------------------------------------
  // The conversion

  /**
   * The CNF of `f`, computed as formula.py computes it: negations pushed
   * inward, Implies and Equiv rewritten, children converted first, one level
   * of nested And (Or) spliced into an And (Or), and Or distributed over the
   * first And among its disjuncts.
   */
  function ToCnf(f: Formula): (r: Formula)
    ensures IsCnfShape(r)
    ensures Weight(r) <= Weight(f)
    decreases Weight(f), Phase(f), Rank(f), 1
  {
    match f
    case Atom(_) => f
    case Not(g) => NotToCnf(g)
    case And(fs) => AndToCnf(fs)
    case Or(fs) => OrToCnf(fs)
    case Implies(p, q) =>
      ImpliesMeasure(p, q);
      ToCnf(Or([Not(p), q]))
    case Equiv(l, r) =>
      EquivMeasure(l, r);
      ToCnf(And([Or([Not(l), r]), Or([Not(r), l])]))
  }

  lemma OrPairMeasure(x: Formula, y: Formula)
    ensures Weight(Or([x, y])) == Weight(x) * Weight(y)
    ensures Rank(Or([x, y])) == Rank(x) + Rank(y) + 1
  {
    Pair(Weight(x), Weight(y));
    Pair(Rank(x), Rank(y));
    assert Weights([x, y]) == [Weight(x), Weight(y)];
    assert Ranks([x, y]) == [Rank(x), Rank(y)];
  }

  lemma AndPairMeasure(x: Formula, y: Formula)
    ensures Weight(And([x, y])) == Weight(x) + Weight(y) + 1
    ensures Rank(And([x, y])) == Rank(x) + Rank(y) + 1
  {
    Pair(Weight(x), Weight(y));
    Pair(Rank(x), Rank(y));
    assert Weights([x, y]) == [Weight(x), Weight(y)];
    assert Ranks([x, y]) == [Rank(x), Rank(y)];
  }

  lemma ImpliesMeasure(p: Formula, q: Formula)
    ensures Weight(Or([Not(p), q])) == Weight(Implies(p, q))
    ensures Rank(Or([Not(p), q])) < Rank(Implies(p, q))
  {
    OrPairMeasure(Not(p), q);
    Pair(NegWeight(p), Weight(q));
  }

  lemma EquivMeasure(l: Formula, r: Formula)
    ensures Weight(And([Or([Not(l), r]), Or([Not(r), l])])) == Weight(Equiv(l, r))
    ensures Rank(And([Or([Not(l), r]), Or([Not(r), l])])) < Rank(Equiv(l, r))
  {
    OrPairMeasure(Not(l), r);
    OrPairMeasure(Not(r), l);
    Pair(NegWeight(l), Weight(r));
    Pair(NegWeight(r), Weight(l));
    AndPairMeasure(Or([Not(l), r]), Or([Not(r), l]));
  }

  /** The CNF of Not(g): De Morgan, double negation, and the negated Implies and Equiv rewrites. */
  function NotToCnf(g: Formula): (r: Formula)
    ensures IsCnfShape(r)
    ensures Weight(r) <= NegWeight(g)
    decreases NegWeight(g), Phase(Not(g)), Rank(g) + 1, 0
  {
    match g
    case Atom(_) => Not(g)
    case Not(h) => ToCnf(h)
    case And(fs) =>
      NegAndBounds(fs);
      var cs := seq(|fs|, i requires 0 <= i < |fs| => ToCnf(Not(fs[i])));
      NegAndWeight(cs, fs);
      CnfShapesAreNnf(cs);
      ToCnf(Or(cs))
    case Or(fs) =>
      NegOrBounds(fs);
      var cs := seq(|fs|, i requires 0 <= i < |fs| => ToCnf(Not(fs[i])));
      NegOrWeight(cs, fs);
      CnfShapesAreNnf(cs);
      ToCnf(And(cs))
    case Implies(p, q) =>
      var cs := [ToCnf(p), ToCnf(Not(q))];
      AndPairMeasure(cs[0], cs[1]);
      CnfShapesAreNnf(cs);
      ToCnf(And(cs))
    case Equiv(a, b) =>
      NegEquivMeasure(a, b);
      ToCnf(Or([And([a, Not(b)]), And([Not(a), b])]))
  }

  lemma NegAndBounds(fs: seq<Formula>)
    ensures forall i :: 0 <= i < |fs| ==>
      NegWeight(fs[i]) <= NegWeight(And(fs)) && Rank(fs[i]) < Rank(And(fs))
  {
    ProductBoundsAll(NegWeights(fs));
    SumBoundsAll(Ranks(fs));
  }

  lemma NegOrBounds(fs: seq<Formula>)
    ensures forall i :: 0 <= i < |fs| ==>
      NegWeight(fs[i]) < NegWeight(Or(fs)) && Rank(fs[i]) < Rank(Or(fs))
  {
    SumBoundsAll(NegWeights(fs));
    SumBoundsAll(Ranks(fs));
  }

  lemma NegAndWeight(cs: seq<Formula>, fs: seq<Formula>)
    requires |cs| == |fs|
    requires forall i :: 0 <= i < |fs| ==> Weight(cs[i]) <= NegWeight(fs[i])
    ensures Weight(Or(cs)) <= NegWeight(And(fs))
  {
    ProductPointwise(Weights(cs), NegWeights(fs));
  }

  lemma NegOrWeight(cs: seq<Formula>, fs: seq<Formula>)
    requires |cs| == |fs|
    requires forall i :: 0 <= i < |fs| ==> Weight(cs[i]) <= NegWeight(fs[i])
    ensures Weight(And(cs)) <= NegWeight(Or(fs))
  {
    SumPointwise(Weights(cs), NegWeights(fs));
  }

  lemma NegEquivMeasure(a: Formula, b: Formula)
    ensures Weight(Or([And([a, Not(b)]), And([Not(a), b])])) == NegWeight(Equiv(a, b))
    ensures Rank(Or([And([a, Not(b)]), And([Not(a), b])])) < Rank(Not(Equiv(a, b)))
  {
    var x: nat, y: nat := EquivHalf(a, b, false), EquivHalf(a, b, true);
    AndPairMeasure(a, Not(b));
    AndPairMeasure(Not(a), b);
    assert Weight(And([a, Not(b)])) == x && Weight(And([Not(a), b])) == y;
    Pair(x, y);
    OrPairMeasure(And([a, Not(b)]), And([Not(a), b]));
  }

  lemma LiteralsOnly(flat: seq<Formula>)
    requires forall i :: 0 <= i < |flat| ==> IsCnfShape(flat[i]) && !flat[i].Or? && !flat[i].And?
    ensures IsClause(Or(flat))
  {
    forall i | 0 <= i < |flat| ensures IsLiteral(flat[i]) {
      assert IsCnfShape(flat[i]);
    }
  }

  lemma DistributedAndWeight(flat: seq<Formula>, andf: Formula, ds: seq<Formula>)
    requires andf in flat && andf.And? && |ds| == |andf.formulas|
    requires forall k :: 0 <= k < |ds| ==>
      Weight(ds[k]) <= Weight(Or([andf.formulas[k]] + Without(flat, andf)))
    ensures Weight(And(ds)) <= Product(Weights(flat))
  {
    var po := Product(Weights(Without(flat, andf)));
    DistributeWeights(flat, andf);
    DistributedBound(ds, andf.formulas, Without(flat, andf));
    DistributedSum(ds, andf.formulas, po);
    assert po >= 1;
  }

  lemma DistributedBound(ds: seq<Formula>, cs: seq<Formula>, others: seq<Formula>)
    requires |ds| == |cs|
    requires forall k :: 0 <= k < |cs| ==> Weight(ds[k]) <= Weight(Or([cs[k]] + others))
    ensures forall k :: 0 <= k < |cs| ==> Weight(ds[k]) <= Weight(cs[k]) * Product(Weights(others))
  {
    forall k | 0 <= k < |cs| ensures Weight(ds[k]) <= Weight(cs[k]) * Product(Weights(others)) {
      OrConsWeight(cs[k], others);
    }
  }

  lemma OrConsWeight(c: Formula, others: seq<Formula>)
    ensures Weight(Or([c] + others)) == Weight(c) * Product(Weights(others))
  {
    WeightsTail([c] + others);
    assert ([c] + others)[1..] == others;
    ProductCons(Weights([c] + others), Weight(c), Product(Weights(others)));
  }

  /** The CNF of And(fs): the children's CNFs with one level of And spliced in. */
  function AndToCnf(fs: seq<Formula>): (r: Formula)
    ensures IsCnfShape(r)
    ensures Weight(r) <= Weight(And(fs))
    decreases Weight(And(fs)), Phase(And(fs)), Rank(And(fs)), 0
  {
    SumBoundsAll(Weights(fs));
    var cs := seq(|fs|, i requires 0 <= i < |fs| => ToCnf(fs[i]));
    SumPointwise(Weights(cs), Weights(fs));
    FlattenAndSum(cs);
    FlattenAndShape(cs);
    And(FlattenAnd(cs))
  }

  /** The CNF of Or(fs): the children's CNFs with one level of Or spliced in, then distributed. */
  function OrToCnf(fs: seq<Formula>): (r: Formula)
    ensures IsCnfShape(r)
    ensures Weight(r) <= Weight(Or(fs))
    decreases Weight(Or(fs)), Phase(Or(fs)), Rank(Or(fs)), 0
  {
    ProductBoundsAll(Weights(fs));
    SumBoundsAll(Ranks(fs));
    var cs := seq(|fs|, i requires 0 <= i < |fs| => ToCnf(fs[i]));
    ProductPointwise(Weights(cs), Weights(fs));
    FlattenOrProduct(cs);
    FlattenOrShape(cs);
    DistributeOr(FlattenOr(cs))
  }

  /**
   * Or(flat) with Or distributed over the first And among `flat`: each
   * conjunct of that And joined with the disjuncts not equal to it, each
   * converted again.
   */
  function DistributeOr(flat: seq<Formula>): (r: Formula)
    requires forall i :: 0 <= i < |flat| ==> IsCnfShape(flat[i]) && !flat[i].Or?
    ensures IsCnfShape(r)
    ensures Weight(r) <= Product(Weights(flat))
    decreases Product(Weights(flat)), 0, 0, 0
  {
    var ands := AndsIn(flat);
    if ands == [] then
      LiteralsOnly(flat);
      Or(flat)
    else
      var andf := ands[0];
      var others := Without(flat, andf);
      DistributeWeights(flat, andf);
      var ds := seq(|andf.formulas|, k requires 0 <= k < |andf.formulas| =>
        ToCnf(Or([andf.formulas[k]] + others)));
      DistributedAndWeight(flat, andf, ds);
      And(ds)
  }

  lemma DistributedSum(ds: seq<Formula>, cs: seq<Formula>, po: nat)
    requires |ds| == |cs|
    requires forall k :: 0 <= k < |cs| ==> Weight(ds[k]) <= Weight(cs[k]) * po
    ensures Sum(Weights(ds)) <= Sum(Weights(cs)) * po
  {
    SumScaled(Weights(ds), Weights(cs), po);
  }

  // ---------------------------------------------------------------------------
  // A second pass flattens

  lemma {:induction false} FlattenOrOfLiterals(fs: seq<Formula>)
    requires forall i :: 0 <= i < |fs| ==> IsLiteral(fs[i])
    ensures FlattenOr(fs) == fs
    decreases fs
  {
    if fs != [] {
      FlattenOrOfLiterals(fs[1..]);
      assert fs == [fs[0]] + fs[1..];
    }
  }

  /** A clause is its own CNF. */
  lemma ToCnfOfClause(f: Formula)
    requires IsClause(f)
    ensures ToCnf(f) == f
  {
    if f.Or? {
      var fs := f.formulas;
      var cs := seq(|fs|, i requires 0 <= i < |fs| => ToCnf(fs[i]));
      assert cs == fs;
      FlattenOrOfLiterals(fs);
      assert ToCnf(f) == DistributeOr(fs);
      assert AndsIn(fs) == [];
    }
  }

  lemma {:induction false} FlattenAndOfFlat(fs: seq<Formula>)
    requires forall i :: 0 <= i < |fs| ==> IsFlatCnf(fs[i])
    ensures forall j :: 0 <= j < |FlattenAnd(fs)| ==> IsClause(FlattenAnd(fs)[j])
    decreases fs
  {
    if fs != [] {
      FlattenAndOfFlat(fs[1..]);
    }
  }

  /**
   * Converting a formula that already has the shape one pass produces yields
   * flat CNF: an And of clauses, or a single clause.
   */
  lemma {:induction false} ToCnfOfCnfShapeIsFlat(f: Formula)
    requires IsCnfShape(f)
    ensures IsFlatCnf(ToCnf(f))
    decreases f
  {
    if f.And? {
      var fs := f.formulas;
      var cs := seq(|fs|, i requires 0 <= i < |fs| => ToCnf(fs[i]));
      forall i | 0 <= i < |fs| ensures IsFlatCnf(cs[i]) {
        ToCnfOfCnfShapeIsFlat(fs[i]);
      }
      FlattenAndOfFlat(cs);
      assert ToCnf(f) == And(FlattenAnd(cs));
    } else {
      ToCnfOfClause(f);
    }
  }

  /** So converting twice always yields flat CNF. */
  lemma ToCnfTwiceIsFlat(f: Formula)
    ensures IsFlatCnf(ToCnf(ToCnf(f)))
  {
    ToCnfOfCnfShapeIsFlat(ToCnf(f));
  }

  /** Double negation cancels: the CNF of Not(Not(f)) is the CNF of f. */
  lemma ToCnfDoubleNegation(f: Formula)
    ensures ToCnf(Not(Not(f))) == ToCnf(f)
  {
  }
}
