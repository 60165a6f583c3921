/**
 * The entailment check on concrete inputs: the entailment test of
 * Tests/test_belief_base.py, and a base on which the saturation as written
 * answers true although the query does not follow, together with what that
 * answer changes in a contraction.
 */
module EntailmentExamples {
  import opened Results
  import opened Formulas
  import opened Cnf
  import opened Clauses
  import opened Resolution
  import BeliefBases
  import Agents

  const P := Atom("p")
  const Q := Atom("q")
  const PosP := Literal("p", true)
  const PosQ := Literal("q", true)
  const NegP := Literal("p", false)
  const NegQ := Literal("q", false)

  /** A formula that is already a clause yields exactly its own clause. */
  lemma ClausesOfClause(f: Formula)
    requires IsClause(f)
    ensures ClauseOf(f).Ok? && ClausesOf(f) == Ok([ClauseOf(f).value])
  {
    ToCnfOfClause(f);
    var ds := Disjuncts(f);
    assert forall i :: 0 <= i < |ds| ==> IsLiteral(ds[i]);
    LiteralsOfSpec(ds);
    assert ClauseOf(f).Ok?;
    assert Conjuncts(f) == [f];
    assert [f][..0] == [];
    assert ClausesOfConjuncts([f][..0]) == Ok([]);
    assert [] + [ClauseOf(f).value] == [ClauseOf(f).value];
  }

  lemma LiteralsOfSingle(f: Formula)
    requires IsLiteral(f)
    ensures LiteralsOf([f]) == Ok({LiteralOf(f).value})
  {
    var ds := [f];
    assert ds[..|ds| - 1] == [];
    assert LiteralsOf(ds[..|ds| - 1]) == Ok({});
    var l := LiteralOf(f).value;
    assert LiteralOf(ds[|ds| - 1]) == Ok(l);
    assert LiteralsOf(ds) == Ok({} + {l});
    assert {} + {l} == {l};
  }

  lemma ClausesOfNotQ()
    ensures ClausesOf(ToCnf(Not(Q))) == Ok([{NegQ}])
  {
    assert ToCnf(Not(Q)) == Not(Q);
    ClausesOfClause(Not(Q));
    assert Disjuncts(Not(Q)) == [Not(Q)];
    assert [Not(Q)][..0] == [];
    LiteralsOfSingle(Not(Q));
  }

  lemma LiteralsOfPair(f: Formula, g: Formula)
    requires IsLiteral(f) && IsLiteral(g)
    ensures LiteralsOf([f, g]) == Ok({LiteralOf(f).value, LiteralOf(g).value})
  {
    var ds := [f, g];
    LiteralsOfSpec(ds);
    var s := set i | 0 <= i < |ds| :: LiteralOf(ds[i]).value;
    assert LiteralOf(ds[0]).value in s && LiteralOf(ds[1]).value in s;
    assert s == {LiteralOf(f).value, LiteralOf(g).value};
  }

  /** Two beliefs' clause lists, joined in order. */
  lemma BeliefClausesOfTwo(b0: Formula, b1: Formula, c0: seq<Clause>, c1: seq<Clause>)
    requires ClausesOf(b0) == Ok(c0) && ClausesOf(b1) == Ok(c1)
    ensures BeliefClauses([b0, b1]) == Ok(c0 + c1)
  {
    var bs := [b0, b1];
    assert bs[..0] == [];
    BeliefClausesStep(bs, 0, []);
    assert [] + c0 == c0;
    BeliefClausesStep(bs, 1, c0);
    assert bs[..2] == bs;
  }

  /** Three clauses none of which is a tautology survive the filter. */
  lemma WithoutTautologiesOfThree(all: seq<Clause>)
    requires |all| == 3 && !Tautological(all[0]) && !Tautological(all[1]) && !Tautological(all[2])
    ensures WithoutTautologies(all) == all
  {
    assert all[..0] == [];
    WithoutTautologiesStep(all, 0);
    WithoutTautologiesStep(all, 1);
    WithoutTautologiesStep(all, 2);
    assert all[..1] == [all[0]] && all[..2] == [all[0], all[1]] && all[..3] == all;
  }

  // p ∨ q and ¬p ∨ ¬q, asked about q.
  const Split := [Or([P, Q]), Or([Not(P), Not(Q)])]

  lemma SplitClauses()
    ensures QueryClauses(Split, Q) == Ok([{PosP, PosQ}, {NegP, NegQ}, {NegQ}])
  {
    SplitQueryClauses(Split);
  }

  lemma SplitQueryClauses(split: seq<Formula>)
    requires split == [Or([P, Q]), Or([Not(P), Not(Q)])]
    ensures QueryClauses(split, Q) == Ok([{PosP, PosQ}, {NegP, NegQ}, {NegQ}])
  {
    var bc := [{PosP, PosQ}, {NegP, NegQ}];
    var all := [{PosP, PosQ}, {NegP, NegQ}, {NegQ}];
    SplitBeliefClauses(split, bc);
    ClausesOfNotQ();
    QueryClausesOfParts(split, Q, bc, [{NegQ}]);
    assert bc + [{NegQ}] == all;
    SplitKept(all);
  }

  lemma SplitBeliefClauses(split: seq<Formula>, bc: seq<Clause>)
    requires split == [Or([P, Q]), Or([Not(P), Not(Q)])]
    requires bc == [{PosP, PosQ}, {NegP, NegQ}]
    ensures BeliefClauses(split) == Ok(bc)
  {
    ClausesOfClause(split[0]);
    ClausesOfClause(split[1]);
    LiteralsOfPair(P, Q);
    LiteralsOfPair(Not(P), Not(Q));
    BeliefClausesOfTwo(split[0], split[1], [bc[0]], [bc[1]]);
    assert [split[0], split[1]] == split;
    assert [bc[0]] + [bc[1]] == bc;
  }

  lemma SplitKept(all: seq<Clause>)
    requires all == [{PosP, PosQ}, {NegP, NegQ}, {NegQ}]
    ensures WithoutTautologies(all) == all
  {
    assert !Tautological(all[0]) by {
      forall l | l in all[0] ensures Comp(l) !in all[0] { }
    }
    assert !Tautological(all[1]) by {
      forall l | l in all[1] ensures Comp(l) !in all[1] { }
    }
    assert !Tautological(all[2]);
    WithoutTautologiesOfThree(all);
  }

  /** The query's clause list is built from the beliefs' clauses and those of the negated query. */
  lemma QueryClausesOfParts(beliefs: seq<Formula>, query: Formula, bc: seq<Clause>, qc: seq<Clause>)
    requires BeliefClauses(beliefs) == Ok(bc) && ClausesOf(ToCnf(Not(query))) == Ok(qc)
    ensures QueryClauses(beliefs, query) == Ok(WithoutTautologies(bc + qc))
  {
  }

  /** A clause set refuted by the saturation as written makes its answer true. */
  lemma RefutedAsWrittenEntails(beliefs: seq<Formula>, query: Formula, cs: seq<Clause>)
    requires QueryClauses(beliefs, query) == Ok(cs) && RefutesAsWritten(set c | c in cs)
    ensures EntailsAsWritten(beliefs, query) == Ok(true)
  {
  }

  /** Resolving on p and then on q reaches the empty clause. */
  lemma SplitRefutedAsWritten()
    ensures RefutesAsWritten({{PosP, PosQ}, {NegP, NegQ}, {NegQ}})
  {
    var S0: set<Clause> := {{PosP, PosQ}, {NegP, NegQ}, {NegQ}};
    var taut := {PosQ, NegQ};
    assert Resolvent({PosP, PosQ}, {NegP, NegQ}, PosP) == taut;
    assert taut in RawStep(S0);
    if {} !in RawStep(S0) {
      assert taut !in S0;
      var S1 := S0 + RawStep(S0);
      assert Resolvent(taut, {NegQ}, PosQ) == {};
      assert {} in RawStep(S1);
    }
  }

  lemma SplitModel()
    ensures BeliefsHold(map["p" := true, "q" := false], Split)
    ensures !Evaluate(Q, map["p" := true, "q" := false])
  {
    var a := map["p" := true, "q" := false];
    assert Evaluate(Split[0], a) by {
      assert Evaluate(Split[0].formulas[0], a);
    }
    assert Evaluate(Split[1], a) by {
      assert Evaluate(Split[1].formulas[1], a);
    }
  }

  /**
   * The saturation as written answers true on this base: resolving the two
   * beliefs on p yields the tautology q ∨ ¬q, and resolving that with ¬q
   * drops both q and ¬q, leaving the empty clause. Yet p true and q false
   * satisfies both beliefs and falsifies q, and the corrected saturation
   * answers false.
   */
  lemma AsWrittenUnsound()
    ensures EntailsAsWritten(Split, Q) == Ok(true)
    ensures BeliefsHold(map["p" := true, "q" := false], Split)
    ensures !Evaluate(Q, map["p" := true, "q" := false])
    ensures Entails(Split, Q) == Ok(false)
  {
    SplitEntailsAsWritten();
    SplitModel();
    SplitNotEntails();
  }

  lemma SplitEntailsAsWritten()
    ensures EntailsAsWritten(Split, Q) == Ok(true)
  {
    SplitClauses();
    ClauseSetOfThree({PosP, PosQ}, {NegP, NegQ}, {NegQ});
    SplitRefutedAsWritten();
    RefutedAsWrittenEntails(Split, Q, [{PosP, PosQ}, {NegP, NegQ}, {NegQ}]);
  }

  /** The corrected saturation does not answer true, since p true and q false is a counter-model. */
  lemma SplitNotEntails()
    ensures Entails(Split, Q) == Ok(false)
  {
    SplitModel();
    assert IsCnfShape(Split[0]) && IsCnfShape(Split[1]);
    ModelRefutes(Split, Q, map["p" := true, "q" := false]);
  }

  // p → q and p, as `test_entailment` adds them: each converted to CNF.
  const Rule := [ToCnf(Implies(P, Q)), ToCnf(P)]

  lemma RuleIsConverted()
    ensures Rule == [Or([Not(P), Q]), P]
  {
    ToCnfOfClause(Or([Not(P), Q]));
  }

  lemma RuleClauses()
    ensures QueryClauses(Rule, Q) == Ok([{NegP, PosQ}, {PosP}, {NegQ}])
  {
    RuleIsConverted();
    ConvertedRuleClauses(Rule);
  }

  lemma ConvertedRuleClauses(rule: seq<Formula>)
    requires rule == [Or([Not(P), Q]), P]
    ensures QueryClauses(rule, Q) == Ok([{NegP, PosQ}, {PosP}, {NegQ}])
  {
    var bc := [{NegP, PosQ}, {PosP}];
    var all := [{NegP, PosQ}, {PosP}, {NegQ}];
    RuleBeliefClauses(rule, bc);
    ClausesOfNotQ();
    QueryClausesOfParts(rule, Q, bc, [{NegQ}]);
    assert bc + [{NegQ}] == all;
    RuleKept(all);
  }

  lemma RuleBeliefClauses(rule: seq<Formula>, bc: seq<Clause>)
    requires rule == [Or([Not(P), Q]), P]
    requires bc == [{NegP, PosQ}, {PosP}]
    ensures BeliefClauses(rule) == Ok(bc)
  {
    ClausesOfClause(rule[0]);
    ClausesOfClause(rule[1]);
    LiteralsOfPair(Not(P), Q);
    LiteralsOfSingle(P);
    assert Disjuncts(P) == [P];
    BeliefClausesOfTwo(rule[0], rule[1], [bc[0]], [bc[1]]);
    assert [rule[0], rule[1]] == rule;
    assert [bc[0]] + [bc[1]] == bc;
  }

  lemma RuleKept(all: seq<Clause>)
    requires all == [{NegP, PosQ}, {PosP}, {NegQ}]
    ensures WithoutTautologies(all) == all
  {
    assert !Tautological(all[0]) by {
      forall l | l in all[0] ensures Comp(l) !in all[0] { }
    }
    assert !Tautological(all[1]) && !Tautological(all[2]);
    WithoutTautologiesOfThree(all);
  }

  /** Resolving on p gives q, and q with ¬q gives the empty clause. */
  lemma RuleRefuted()
    ensures Refutes({{NegP, PosQ}, {PosP}, {NegQ}})
  {
    var S0: set<Clause> := {{NegP, PosQ}, {PosP}, {NegQ}};
    assert Resolvent({NegP, PosQ}, {PosP}, NegP) == {PosQ};
    assert {PosQ} in RawStep(S0);
    assert {PosQ} in Step(S0);
    if {} !in Step(S0) {
      assert {PosQ} !in S0;
      var S1 := S0 + Step(S0);
      assert Resolvent({PosQ}, {NegQ}, PosQ) == {};
      assert {} in RawStep(S1);
      EmptyInStep(S1);
    }
  }

  /** `test_entailment`: p → q and p entail q, and do not entail ¬q. */
  lemma ModusPonens()
    ensures Entails(Rule, Q) == Ok(true)
    ensures Entails(Rule, Not(Q)) == Ok(false)
  {
    RuleEntailsQ();
    RuleModel();
  }

  lemma RuleEntailsQ()
    ensures Entails(Rule, Q) == Ok(true)
  {
    RuleClauses();
    ClauseSetOfThree({NegP, PosQ}, {PosP}, {NegQ});
    RuleRefuted();
    RefutedEntails(Rule, Q, [{NegP, PosQ}, {PosP}, {NegQ}]);
  }

  /** The set of a three-clause list. */
  lemma ClauseSetOfThree(c0: Clause, c1: Clause, c2: Clause)
    ensures (set c | c in [c0, c1, c2]) == {c0, c1, c2}
  {
  }

  /** A refuted clause set for the beliefs and the negated query means the answer is true. */
  lemma RefutedEntails(beliefs: seq<Formula>, query: Formula, cs: seq<Clause>)
    requires QueryClauses(beliefs, query) == Ok(cs) && Refutes(set c | c in cs)
    ensures Entails(beliefs, query) == Ok(true)
  {
  }

  /** p and q both true satisfy the rule and falsify ¬q, so the rule does not entail ¬q. */
  lemma RuleModel()
    ensures Entails(Rule, Not(Q)) == Ok(false)
  {
    var a := map["p" := true, "q" := true];
    RuleIsConverted();
    RuleHolds(Rule, a);
    ModelRefutes(Rule, Not(Q), a);
  }

  lemma RuleHolds(rule: seq<Formula>, a: Assignment)
    requires rule == [Or([Not(P), Q]), P] && a == map["p" := true, "q" := true]
    ensures BeliefsHold(a, rule) && !Evaluate(Not(Q), a)
    ensures forall i :: 0 <= i < |rule| ==> IsCnfShape(rule[i])
  {
    assert Evaluate(rule[0].formulas[1], a);
  }

  /** A model of the beliefs that falsifies the query makes the answer false. */
  lemma ModelRefutes(beliefs: seq<Formula>, query: Formula, a: Assignment)
    requires forall i :: 0 <= i < |beliefs| ==> IsCnfShape(beliefs[i])
    requires BeliefsHold(a, beliefs) && !Evaluate(query, a)
    ensures Entails(beliefs, query) == Ok(false)
  {
    EntailsOk(beliefs, query);
    if Entails(beliefs, query) == Ok(true) {
      EntailsSound(beliefs, query, a);
    }
  }

  /** The two beliefs of `Split`, both at priority 0. */
  const SplitBase := [BeliefBases.Entry(Split[0], 0), BeliefBases.Entry(Split[1], 0)]

  /**
   * Contracting `SplitBase` by q: the vacuity test as written answers true,
   * so the code goes on to contract, while the corrected test answers false
   * and the modelled contraction leaves the base as it is.
   */
  lemma ContractionDiverges()
    ensures EntailsAsWritten(BeliefBases.BeliefFormulas(SplitBase), Q) == Ok(true)
    ensures Agents.Contraction(SplitBase, Q) == SplitBase
  {
    assert BeliefBases.BeliefFormulas(SplitBase) == Split;
    AsWrittenUnsound();
  }
}
