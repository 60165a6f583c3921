/**
 * ToCnf keeps the meaning of every formula: under every assignment the CNF
 * evaluates as the formula does.
 */
module CnfMeaning {
  import opened Formulas
  import opened Cnf

  lemma EvalOrPair(x: Formula, y: Formula, a: Assignment)
    ensures Evaluate(Or([x, y]), a) == (Evaluate(x, a) || Evaluate(y, a))
  {
    assert [x, y][0] == x && [x, y][1] == y;
  }

  lemma EvalAndPair(x: Formula, y: Formula, a: Assignment)
    ensures Evaluate(And([x, y]), a) == (Evaluate(x, a) && Evaluate(y, a))
  {
    assert [x, y][0] == x && [x, y][1] == y;
  }

  lemma EvalAndAppend(xs: seq<Formula>, ys: seq<Formula>, a: Assignment)
    ensures Evaluate(And(xs + ys), a) == (Evaluate(And(xs), a) && Evaluate(And(ys), a))
  {
    forall i | 0 <= i < |xs| ensures (xs + ys)[i] == xs[i] {}
    forall i | 0 <= i < |ys| ensures (xs + ys)[|xs| + i] == ys[i] {}
  }

  lemma EvalOrAppend(xs: seq<Formula>, ys: seq<Formula>, a: Assignment)
    ensures Evaluate(Or(xs + ys), a) == (Evaluate(Or(xs), a) || Evaluate(Or(ys), a))
  {
    if Evaluate(Or(xs), a) {
      var i :| 0 <= i < |xs| && Evaluate(xs[i], a);
      assert (xs + ys)[i] == xs[i];
    }
    if Evaluate(Or(ys), a) {
      var i :| 0 <= i < |ys| && Evaluate(ys[i], a);
      assert (xs + ys)[|xs| + i] == ys[i];
    }
    if Evaluate(Or(xs + ys), a) {
      var i :| 0 <= i < |xs + ys| && Evaluate((xs + ys)[i], a);
      if i < |xs| {
        assert xs[i] == (xs + ys)[i];
      } else {
        assert ys[i - |xs|] == (xs + ys)[i];
      }
    }
  }

  lemma EvalSingle(x: Formula, a: Assignment)
    ensures Evaluate(And([x]), a) == Evaluate(x, a) == Evaluate(Or([x]), a)
  {
    assert [x][0] == x;
  }

  lemma {:induction false} FlattenAndEval(fs: seq<Formula>, a: Assignment)
    ensures Evaluate(And(FlattenAnd(fs)), a) == Evaluate(And(fs), a)
    decreases fs
  {
    if fs != [] {
      FlattenAndEval(fs[1..], a);
      var head := if fs[0].And? then fs[0].formulas else [fs[0]];
      assert FlattenAnd(fs) == head + FlattenAnd(fs[1..]);
      EvalAndAppend(head, FlattenAnd(fs[1..]), a);
      EvalSingle(fs[0], a);
      assert fs == [fs[0]] + fs[1..];
      EvalAndAppend([fs[0]], fs[1..], a);
    }
  }

  lemma {:induction false} FlattenOrEval(fs: seq<Formula>, a: Assignment)
    ensures Evaluate(Or(FlattenOr(fs)), a) == Evaluate(Or(fs), a)
    decreases fs
  {
    if fs != [] {
      FlattenOrEval(fs[1..], a);
      var head := if fs[0].Or? then fs[0].formulas else [fs[0]];
      assert FlattenOr(fs) == head + FlattenOr(fs[1..]);
      EvalOrAppend(head, FlattenOr(fs[1..]), a);
      EvalSingle(fs[0], a);
      assert fs == [fs[0]] + fs[1..];
      EvalOrAppend([fs[0]], fs[1..], a);
    }
  }

  lemma EvalOrCons(c: Formula, others: seq<Formula>, a: Assignment)
    ensures Evaluate(Or([c] + others), a) == (Evaluate(c, a) || Evaluate(Or(others), a))
  {
    EvalOrAppend([c], others, a);
    EvalSingle(c, a);
  }

  /** Dropping the disjuncts equal to `andf` loses nothing when `andf` itself stays. */
  lemma EvalOrSplit(flat: seq<Formula>, andf: Formula, a: Assignment)
    requires andf in flat
    ensures Evaluate(Or(flat), a) == (Evaluate(andf, a) || Evaluate(Or(Without(flat, andf)), a))
  {
    var others := Without(flat, andf);
    WithoutMembers(flat, andf);
    if Evaluate(Or(flat), a) && !Evaluate(andf, a) {
      var i :| 0 <= i < |flat| && Evaluate(flat[i], a);
      if FEq(flat[i], andf) {
        FEqSound(flat[i], andf, a);
        assert false;
      }
      assert flat[i] in others;
      var j :| 0 <= j < |others| && others[j] == flat[i];
    }
    if Evaluate(Or(others), a) {
      var j :| 0 <= j < |others| && Evaluate(others[j], a);
      assert others[j] in flat;
      var i :| 0 <= i < |flat| && flat[i] == others[j];
    }
    if Evaluate(andf, a) {
      var i :| 0 <= i < |flat| && flat[i] == andf;
    }
  }

  // ---------------------------------------------------------------------------
  // Soundness of the conversion, by the same measure that shows it terminates

  /** The CNF of `f` is true under exactly the assignments that make `f` true. */
  lemma {:induction false} ToCnfPreservesMeaning(f: Formula, a: Assignment)
    ensures Evaluate(ToCnf(f), a) == Evaluate(f, a)
    decreases Weight(f), Phase(f), Rank(f), 2
  {
    match f
    case Atom(_) =>
    case Not(g) => NotToCnfPreservesMeaning(g, a);
    case And(fs) => AndToCnfPreservesMeaning(fs, a);
    case Or(fs) => OrToCnfPreservesMeaning(fs, a);
    case Implies(p, q) =>
      ImpliesMeasure(p, q);
      ToCnfPreservesMeaning(Or([Not(p), q]), a);
      EvalOrPair(Not(p), q, a);
    case Equiv(l, r) =>
      EquivMeasure(l, r);
      ToCnfPreservesMeaning(And([Or([Not(l), r]), Or([Not(r), l])]), a);
      EvalAndPair(Or([Not(l), r]), Or([Not(r), l]), a);
      EvalOrPair(Not(l), r, a);
      EvalOrPair(Not(r), l, a);
  }

  lemma {:induction false} NotToCnfPreservesMeaning(g: Formula, a: Assignment)
    ensures Evaluate(NotToCnf(g), a) == !Evaluate(g, a)
    decreases NegWeight(g), Phase(Not(g)), Rank(g) + 1, 1
  {
    match g
    case Atom(_) =>
    case Not(h) => ToCnfPreservesMeaning(h, a);
    case And(fs) => NegAndPreservesMeaning(fs, a);
    case Or(fs) => NegOrPreservesMeaning(fs, a);
    case Implies(p, q) => NegImpliesPreservesMeaning(p, q, a);
    case Equiv(x, y) => NegEquivPreservesMeaning(x, y, a);
  }

  lemma {:induction false} NegAndPreservesMeaning(fs: seq<Formula>, a: Assignment)
    ensures Evaluate(NotToCnf(And(fs)), a) == !Evaluate(And(fs), a)
    decreases NegWeight(And(fs)), Phase(Not(And(fs))), Rank(And(fs)) + 1, 0
  {
    NegAndBounds(fs);
    var cs := seq(|fs|, i requires 0 <= i < |fs| => ToCnf(Not(fs[i])));
    forall i | 0 <= i < |fs| ensures Evaluate(cs[i], a) == !Evaluate(fs[i], a) {
      ToCnfPreservesMeaning(Not(fs[i]), a);
    }
    NegAndWeight(cs, fs);
    CnfShapesAreNnf(cs);
    ToCnfPreservesMeaning(Or(cs), a);
    assert NotToCnf(And(fs)) == ToCnf(Or(cs));
    EvalOrOfNegations(cs, fs, a);
  }

  /** De Morgan: a disjunction of the negations means the negated conjunction. */
  lemma EvalOrOfNegations(cs: seq<Formula>, fs: seq<Formula>, a: Assignment)
    requires |cs| == |fs| && forall i :: 0 <= i < |fs| ==> Evaluate(cs[i], a) == !Evaluate(fs[i], a)
    ensures Evaluate(Or(cs), a) == !Evaluate(And(fs), a)
  {
    if !Evaluate(And(fs), a) {
      var i :| 0 <= i < |fs| && !Evaluate(fs[i], a);
      assert Evaluate(cs[i], a);
    }
  }

  lemma {:induction false} NegOrPreservesMeaning(fs: seq<Formula>, a: Assignment)
    ensures Evaluate(NotToCnf(Or(fs)), a) == !Evaluate(Or(fs), a)
    decreases NegWeight(Or(fs)), Phase(Not(Or(fs))), Rank(Or(fs)) + 1, 0
  {
    NegOrBounds(fs);
    var cs := seq(|fs|, i requires 0 <= i < |fs| => ToCnf(Not(fs[i])));
    forall i | 0 <= i < |fs| ensures Evaluate(cs[i], a) == !Evaluate(fs[i], a) {
      ToCnfPreservesMeaning(Not(fs[i]), a);
    }
    NegOrWeight(cs, fs);
    CnfShapesAreNnf(cs);
    ToCnfPreservesMeaning(And(cs), a);
    assert NotToCnf(Or(fs)) == ToCnf(And(cs));
    EvalAndOfNegations(cs, fs, a);
  }

  /** De Morgan: a conjunction of the negations means the negated disjunction. */
  lemma EvalAndOfNegations(cs: seq<Formula>, fs: seq<Formula>, a: Assignment)
    requires |cs| == |fs| && forall i :: 0 <= i < |fs| ==> Evaluate(cs[i], a) == !Evaluate(fs[i], a)
    ensures Evaluate(And(cs), a) == !Evaluate(Or(fs), a)
  {
    if Evaluate(Or(fs), a) {
      var i :| 0 <= i < |fs| && Evaluate(fs[i], a);
      assert !Evaluate(cs[i], a);
    }
  }

  lemma {:induction false} NegImpliesPreservesMeaning(p: Formula, q: Formula, a: Assignment)
    ensures Evaluate(NotToCnf(Implies(p, q)), a) == !Evaluate(Implies(p, q), a)
    decreases NegWeight(Implies(p, q)), Phase(Not(Implies(p, q))), Rank(Implies(p, q)) + 1, 0
  {
    var cs := [ToCnf(p), ToCnf(Not(q))];
    ToCnfPreservesMeaning(p, a);
    ToCnfPreservesMeaning(Not(q), a);
    AndPairMeasure(cs[0], cs[1]);
    CnfShapesAreNnf(cs);
    ToCnfPreservesMeaning(And(cs), a);
    EvalAndPair(cs[0], cs[1], a);
  }

  lemma {:induction false} NegEquivPreservesMeaning(x: Formula, y: Formula, a: Assignment)
    ensures Evaluate(NotToCnf(Equiv(x, y)), a) == !Evaluate(Equiv(x, y), a)
    decreases NegWeight(Equiv(x, y)), Phase(Not(Equiv(x, y))), Rank(Equiv(x, y)) + 1, 0
  {
    NegEquivMeasure(x, y);
    ToCnfPreservesMeaning(Or([And([x, Not(y)]), And([Not(x), y])]), a);
    EvalOrPair(And([x, Not(y)]), And([Not(x), y]), a);
    EvalAndPair(x, Not(y), a);
    EvalAndPair(Not(x), y, a);
  }

  lemma {:induction false} AndToCnfPreservesMeaning(fs: seq<Formula>, a: Assignment)
    ensures Evaluate(AndToCnf(fs), a) == Evaluate(And(fs), a)
    decreases Weight(And(fs)), Phase(And(fs)), Rank(And(fs)), 0
  {
    SumBoundsAll(Weights(fs));
    var cs := seq(|fs|, i requires 0 <= i < |fs| => ToCnf(fs[i]));
    forall i | 0 <= i < |fs| ensures Evaluate(cs[i], a) == Evaluate(fs[i], a) {
      ToCnfPreservesMeaning(fs[i], a);
    }
    FlattenAndEval(cs, a);
    assert AndToCnf(fs) == And(FlattenAnd(cs));
  }

  lemma {:induction false} OrToCnfPreservesMeaning(fs: seq<Formula>, a: Assignment)
    ensures Evaluate(OrToCnf(fs), a) == Evaluate(Or(fs), a)
    decreases Weight(Or(fs)), Phase(Or(fs)), Rank(Or(fs)), 0
  {
    ProductBoundsAll(Weights(fs));
    SumBoundsAll(Ranks(fs));
    var cs := seq(|fs|, i requires 0 <= i < |fs| => ToCnf(fs[i]));
    forall i | 0 <= i < |fs| ensures Evaluate(cs[i], a) == Evaluate(fs[i], a) {
      ToCnfPreservesMeaning(fs[i], a);
    }
    ProductPointwise(Weights(cs), Weights(fs));
    FlattenOrProduct(cs);
    FlattenOrShape(cs);
    DistributeOrPreservesMeaning(FlattenOr(cs), a);
    FlattenOrEval(cs, a);
    OrPointwise(cs, fs, a);
    assert OrToCnf(fs) == DistributeOr(FlattenOr(cs));
  }

  /** Two disjunctions whose disjuncts agree one by one agree. */
  lemma OrPointwise(cs: seq<Formula>, fs: seq<Formula>, a: Assignment)
    requires |cs| == |fs| && forall i :: 0 <= i < |fs| ==> Evaluate(cs[i], a) == Evaluate(fs[i], a)
    ensures Evaluate(Or(cs), a) == Evaluate(Or(fs), a)
  {
    if Evaluate(Or(fs), a) {
      var i :| 0 <= i < |fs| && Evaluate(fs[i], a);
      assert Evaluate(cs[i], a);
    }
    if Evaluate(Or(cs), a) {
      var i :| 0 <= i < |cs| && Evaluate(cs[i], a);
      assert Evaluate(fs[i], a);
    }
  }

  lemma {:induction false} DistributeOrPreservesMeaning(flat: seq<Formula>, a: Assignment)
    requires forall i :: 0 <= i < |flat| ==> IsCnfShape(flat[i]) && !flat[i].Or?
    ensures Evaluate(DistributeOr(flat), a) == Evaluate(Or(flat), a)
    decreases Product(Weights(flat)), 0, 0, 0
  {
    var ands := AndsIn(flat);
    if ands != [] {
      var andf := ands[0];
      var cs, others := andf.formulas, Without(flat, andf);
      DistributeWeights(flat, andf);
      var ds := seq(|cs|, k requires 0 <= k < |cs| => ToCnf(Or([cs[k]] + others)));
      assert DistributeOr(flat) == And(ds);
      forall k | 0 <= k < |cs|
        ensures Evaluate(ds[k], a) == (Evaluate(cs[k], a) || Evaluate(Or(others), a))
      {
        ToCnfPreservesMeaning(Or([cs[k]] + others), a);
        EvalOrCons(cs[k], others, a);
      }
      EvalOrSplit(flat, andf, a);
      EvalAndDistributed(cs, ds, Evaluate(Or(others), a), a);
    }
  }

  /** When each `ds[k]` means `cs[k] ∨ rest`, their conjunction means `(∧ cs) ∨ rest`. */
  lemma EvalAndDistributed(cs: seq<Formula>, ds: seq<Formula>, rest: bool, a: Assignment)
    requires |ds| == |cs|
    requires forall k :: 0 <= k < |cs| ==> Evaluate(ds[k], a) == (Evaluate(cs[k], a) || rest)
    ensures Evaluate(And(ds), a) == (Evaluate(And(cs), a) || rest)
  {
    if !Evaluate(And(ds), a) {
      var k :| 0 <= k < |ds| && !Evaluate(ds[k], a);
      assert !Evaluate(cs[k], a);
    }
  }

  // ---------------------------------------------------------------------------
  // Conversion introduces no empty And or Or

  predicate AllNoEmpty(fs: seq<Formula>) {
    forall i :: 0 <= i < |fs| ==> NoEmptyJunctions(fs[i])
  }

  lemma {:induction false} FlattenAndNoEmpty(cs: seq<Formula>)
    requires AllNoEmpty(cs)
    ensures AllNoEmpty(FlattenAnd(cs)) && (|cs| > 0 ==> |FlattenAnd(cs)| > 0)
    decreases |cs|
  {
    if cs != [] {
      FlattenAndNoEmpty(cs[1..]);
      var head := if cs[0].And? then cs[0].formulas else [cs[0]];
      assert AllNoEmpty(head);
      assert FlattenAnd(cs) == head + FlattenAnd(cs[1..]);
    }
  }

  lemma {:induction false} FlattenOrNoEmpty(cs: seq<Formula>)
    requires AllNoEmpty(cs)
    ensures AllNoEmpty(FlattenOr(cs)) && (|cs| > 0 ==> |FlattenOr(cs)| > 0)
    decreases |cs|
  {
    if cs != [] {
      FlattenOrNoEmpty(cs[1..]);
      var head := if cs[0].Or? then cs[0].formulas else [cs[0]];
      assert AllNoEmpty(head);
      assert FlattenOr(cs) == head + FlattenOr(cs[1..]);
    }
  }

  lemma {:induction false} ToCnfNoEmpty(f: Formula)
    requires NoEmptyJunctions(f)
    ensures NoEmptyJunctions(ToCnf(f))
    decreases Weight(f), Phase(f), Rank(f), 2
  {
    match f
    case Atom(_) =>
    case Not(g) => NotToCnfNoEmpty(g);
    case And(fs) => AndToCnfNoEmpty(fs);
    case Or(fs) => OrToCnfNoEmpty(fs);
    case Implies(p, q) =>
      ImpliesMeasure(p, q);
      ToCnfNoEmpty(Or([Not(p), q]));
    case Equiv(l, r) =>
      EquivMeasure(l, r);
      ToCnfNoEmpty(And([Or([Not(l), r]), Or([Not(r), l])]));
  }

  lemma {:induction false} NotToCnfNoEmpty(g: Formula)
    requires NoEmptyJunctions(g)
    ensures NoEmptyJunctions(NotToCnf(g))
    decreases NegWeight(g), Phase(Not(g)), Rank(g) + 1, 1
  {
    match g
    case Atom(_) =>
    case Not(h) => ToCnfNoEmpty(h);
    case And(fs) => NegAndNoEmpty(fs);
    case Or(fs) => NegOrNoEmpty(fs);
    case Implies(p, q) => NegImpliesNoEmpty(p, q);
    case Equiv(x, y) =>
      NegEquivMeasure(x, y);
      ToCnfNoEmpty(Or([And([x, Not(y)]), And([Not(x), y])]));
  }

  lemma {:induction false} NegAndNoEmpty(fs: seq<Formula>)
    requires NoEmptyJunctions(And(fs))
    ensures NoEmptyJunctions(NotToCnf(And(fs)))
    decreases NegWeight(And(fs)), Phase(Not(And(fs))), Rank(And(fs)) + 1, 0
  {
    NegAndBounds(fs);
    var cs := seq(|fs|, i requires 0 <= i < |fs| => ToCnf(Not(fs[i])));
    forall i | 0 <= i < |fs| ensures NoEmptyJunctions(cs[i]) {
      ToCnfNoEmpty(Not(fs[i]));
    }
    NegAndWeight(cs, fs);
    CnfShapesAreNnf(cs);
    ToCnfNoEmpty(Or(cs));
    assert NotToCnf(And(fs)) == ToCnf(Or(cs));
  }

  lemma {:induction false} NegOrNoEmpty(fs: seq<Formula>)
    requires NoEmptyJunctions(Or(fs))
    ensures NoEmptyJunctions(NotToCnf(Or(fs)))
    decreases NegWeight(Or(fs)), Phase(Not(Or(fs))), Rank(Or(fs)) + 1, 0
  {
    NegOrBounds(fs);
    var cs := seq(|fs|, i requires 0 <= i < |fs| => ToCnf(Not(fs[i])));
    forall i | 0 <= i < |fs| ensures NoEmptyJunctions(cs[i]) {
      ToCnfNoEmpty(Not(fs[i]));
    }
    NegOrWeight(cs, fs);
    CnfShapesAreNnf(cs);
    ToCnfNoEmpty(And(cs));
    assert NotToCnf(Or(fs)) == ToCnf(And(cs));
  }

  lemma {:induction false} NegImpliesNoEmpty(p: Formula, q: Formula)
    requires NoEmptyJunctions(Implies(p, q))
    ensures NoEmptyJunctions(NotToCnf(Implies(p, q)))
    decreases NegWeight(Implies(p, q)), Phase(Not(Implies(p, q))), Rank(Implies(p, q)) + 1, 0
  {
    var cs := [ToCnf(p), ToCnf(Not(q))];
    ToCnfNoEmpty(p);
    ToCnfNoEmpty(Not(q));
    AndPairMeasure(cs[0], cs[1]);
    CnfShapesAreNnf(cs);
    ToCnfNoEmpty(And(cs));
  }

  lemma {:induction false} AndToCnfNoEmpty(fs: seq<Formula>)
    requires NoEmptyJunctions(And(fs))
    ensures NoEmptyJunctions(AndToCnf(fs))
    decreases Weight(And(fs)), Phase(And(fs)), Rank(And(fs)), 0
  {
    SumBoundsAll(Weights(fs));
    var cs := seq(|fs|, i requires 0 <= i < |fs| => ToCnf(fs[i]));
    forall i | 0 <= i < |fs| ensures NoEmptyJunctions(cs[i]) {
      ToCnfNoEmpty(fs[i]);
    }
    FlattenAndNoEmpty(cs);
    assert AndToCnf(fs) == And(FlattenAnd(cs));
  }

  lemma {:induction false} OrToCnfNoEmpty(fs: seq<Formula>)
    requires NoEmptyJunctions(Or(fs))
    ensures NoEmptyJunctions(OrToCnf(fs))
    decreases Weight(Or(fs)), Phase(Or(fs)), Rank(Or(fs)), 0
  {
    ProductBoundsAll(Weights(fs));
    SumBoundsAll(Ranks(fs));
    var cs := seq(|fs|, i requires 0 <= i < |fs| => ToCnf(fs[i]));
    forall i | 0 <= i < |fs| ensures NoEmptyJunctions(cs[i]) {
      ToCnfNoEmpty(fs[i]);
    }
    ProductPointwise(Weights(cs), Weights(fs));
    FlattenOrProduct(cs);
    FlattenOrShape(cs);
    FlattenOrNoEmpty(cs);
    DistributeOrNoEmpty(FlattenOr(cs));
    assert OrToCnf(fs) == DistributeOr(FlattenOr(cs));
  }

  lemma {:induction false} DistributeOrNoEmpty(flat: seq<Formula>)
    requires forall i :: 0 <= i < |flat| ==> IsCnfShape(flat[i]) && !flat[i].Or?
    requires |flat| > 0 && AllNoEmpty(flat)
    ensures NoEmptyJunctions(DistributeOr(flat))
    decreases Product(Weights(flat)), 0, 0, 0
  {
    var ands := AndsIn(flat);
    if ands == [] {
      assert DistributeOr(flat) == Or(flat);
    } else {
      var andf := ands[0];
      var cs, others := andf.formulas, Without(flat, andf);
      DistributeWeights(flat, andf);
      WithoutNoEmpty(flat, andf);
      var ds := seq(|cs|, k requires 0 <= k < |cs| => ToCnf(Or([cs[k]] + others)));
      assert DistributeOr(flat) == And(ds);
      forall k | 0 <= k < |cs| ensures NoEmptyJunctions(ds[k]) {
        OrConsNoEmpty(cs[k], others);
        ToCnfNoEmpty(Or([cs[k]] + others));
      }
    }
  }

  lemma WithoutNoEmpty(flat: seq<Formula>, andf: Formula)
    requires andf in flat && andf.And? && AllNoEmpty(flat)
    ensures AllNoEmpty(Without(flat, andf))
    ensures AllNoEmpty(andf.formulas) && |andf.formulas| > 0
  {
    assert NoEmptyJunctions(andf);
    WithoutMembers(flat, andf);
    var others := Without(flat, andf);
    forall i | 0 <= i < |others| ensures NoEmptyJunctions(others[i]) {
      assert others[i] in flat;
    }
  }

  lemma OrConsNoEmpty(c: Formula, others: seq<Formula>)
    requires NoEmptyJunctions(c) && AllNoEmpty(others)
    ensures NoEmptyJunctions(Or([c] + others))
  {
    var fs := [c] + others;
    forall i | 0 <= i < |fs| ensures NoEmptyJunctions(fs[i]) {
      if i > 0 { assert fs[i] == others[i - 1]; }
    }
  }
}
