/**
 * Clauses as sets of signed symbols, the tautology test, and the extraction
 * of clauses from formulas (`is_tautology`, `extract_clauses` and
 * `cnf_clauses_for_query` in Belief_base/entailment.py).
 */
module Clauses {
  import opened Results
  import opened Formulas
  import opened Cnf
  import CnfMeaning

  /** A symbol with its sign: `Literal("p", false)` stands for ¬p. */
  datatype Literal = Literal(name: string, positive: bool)

  type Clause = set<Literal>

  function Comp(l: Literal): (c: Literal)
    ensures c.name == l.name && c.positive != l.positive
  {
    Literal(l.name, !l.positive)
  }

  /** A clause is tautological when it holds some symbol with both signs. */
  predicate Tautological(c: Clause) {
    exists l :: l in c && Comp(l) in c
  }

  predicate LiteralHolds(a: Assignment, l: Literal) {
    Lookup(a, l.name) == l.positive
  }

  /** A clause holds when one of its literals does; the empty clause never holds. */
  predicate ClauseHolds(a: Assignment, c: Clause) {
    exists l :: l in c && LiteralHolds(a, l)
  }

  predicate AllHold(a: Assignment, cs: set<Clause>) {
    forall c :: c in cs ==> ClauseHolds(a, c)
  }

  /** A tautological clause holds under every assignment. */
  lemma TautologyAlwaysHolds(c: Clause, a: Assignment)
    requires Tautological(c)
    ensures ClauseHolds(a, c)
  {
    var l :| l in c && Comp(l) in c;
    if !LiteralHolds(a, l) {
      assert LiteralHolds(a, Comp(l));
    }
  }

  /**
   * Walks the clause once, remembering the sign each symbol was first seen
   * with, and answers true as soon as a symbol reappears with the other sign.
   */
  method IsTautology(c: Clause) returns (b: bool)
    ensures b == Tautological(c)
  {
    var rest := c;
    var signs: map<string, bool> := map[];
    while rest != {}
      invariant rest <= c
      invariant forall l :: l in c - rest ==> l.name in signs && signs[l.name] == l.positive
      invariant forall s :: s in signs ==> Literal(s, signs[s]) in c - rest
      decreases |rest|
    {
      var l :| l in rest;
      if l.name in signs && signs[l.name] != l.positive {
        assert Literal(l.name, signs[l.name]) == Comp(l);
        return true;
      }
      signs := signs[l.name := l.positive];
      rest := rest - {l};
    }
    return false;
  }

  // ---------------------------------------------------------------------------
  // Extraction

  /** Atom(s) is the literal (s, true), Not(Atom(s)) the literal (s, false); nothing else is. */
  function LiteralOf(f: Formula): (r: Result<Literal>)
    ensures r.Ok? <==> IsLiteral(f)
    ensures r.Ok? ==> forall a :: Evaluate(f, a) == LiteralHolds(a, r.value)
    ensures r.Err? ==> r.message == "Non literal in clause: " + Show(f)
  {
    match f
    case Atom(s) => Ok(Literal(s, true))
    case Not(g) => if g.Atom? then Ok(Literal(g.name, false)) else Err("Non literal in clause: " + Show(f))
    case _ => Err("Non literal in clause: " + Show(f))
  }

  /** The disjuncts of a clause: the children of an Or, or the formula itself. */
  function Disjuncts(f: Formula): seq<Formula> {
    if f.Or? then f.formulas else [f]
  }

  /** The conjuncts of a CNF: the children of an And, or the formula itself. */
  function Conjuncts(f: Formula): seq<Formula> {
    if f.And? then f.formulas else [f]
  }

  /** The literals of `ds`, read left to right; the first non-literal is an error. */
  function LiteralsOf(ds: seq<Formula>): Result<Clause>
  {
    if ds == [] then Ok({})
    else
      match LiteralsOf(ds[..|ds| - 1])
      case Err(m) => Err(m)
      case Ok(c) =>
        match LiteralOf(ds[|ds| - 1])
        case Err(m) => Err(m)
        case Ok(l) => Ok(c + {l})
  }

  function ClauseOf(sub: Formula): Result<Clause> {
    LiteralsOf(Disjuncts(sub))
  }

  /** One clause per conjunct, left to right; the first failing conjunct is an error. */
  function ClausesOfConjuncts(subs: seq<Formula>): Result<seq<Clause>>
  {
    if subs == [] then Ok([])
    else
      match ClausesOfConjuncts(subs[..|subs| - 1])
      case Err(m) => Err(m)
      case Ok(cs) =>
        match ClauseOf(subs[|subs| - 1])
        case Err(m) => Err(m)
        case Ok(c) => Ok(cs + [c])
  }

  /** The clauses `extract_clauses` returns for `f`: it converts `f` to CNF once more first. */
  function ClausesOf(f: Formula): Result<seq<Clause>> {
    ClausesOfConjuncts(Conjuncts(ToCnf(f)))
  }

  lemma {:induction false} LiteralsOfSpec(ds: seq<Formula>)
    ensures LiteralsOf(ds).Ok? <==> forall i :: 0 <= i < |ds| ==> IsLiteral(ds[i])
    ensures LiteralsOf(ds).Ok? ==>
      LiteralsOf(ds).value == set i | 0 <= i < |ds| :: LiteralOf(ds[i]).value
    decreases |ds|
  {
    if ds != [] {
      var init := ds[..|ds| - 1];
      LiteralsOfSpec(init);
      assert forall i :: 0 <= i < |init| ==> init[i] == ds[i];
      if LiteralsOf(ds).Ok? {
        LiteralSetSnoc(ds, init);
      }
    }
  }

  /** The literals of a list of literals are those of all but the last, and the last. */
  lemma LiteralSetSnoc(ds: seq<Formula>, init: seq<Formula>)
    requires ds != [] && init == ds[..|ds| - 1] && forall i :: 0 <= i < |ds| ==> IsLiteral(ds[i])
    ensures (set i | 0 <= i < |ds| :: LiteralOf(ds[i]).value) ==
      (set i | 0 <= i < |init| :: LiteralOf(init[i]).value) + {LiteralOf(ds[|ds| - 1]).value}
  {
    var s1 := set i | 0 <= i < |ds| :: LiteralOf(ds[i]).value;
    var s0 := set i | 0 <= i < |init| :: LiteralOf(init[i]).value;
    forall x | x in s1 ensures x in s0 + {LiteralOf(ds[|ds| - 1]).value} {
      var i :| 0 <= i < |ds| && x == LiteralOf(ds[i]).value;
      if i < |init| { assert x == LiteralOf(init[i]).value; }
    }
    forall x | x in s0 ensures x in s1 {
      var i :| 0 <= i < |init| && x == LiteralOf(init[i]).value;
      assert init[i] == ds[i];
    }
  }

  lemma {:induction false} ClausesOfConjunctsSpec(subs: seq<Formula>)
    ensures ClausesOfConjuncts(subs).Ok? <==> forall i :: 0 <= i < |subs| ==> ClauseOf(subs[i]).Ok?
    ensures ClausesOfConjuncts(subs).Ok? ==>
      |ClausesOfConjuncts(subs).value| == |subs| &&
      forall i :: 0 <= i < |subs| ==> ClausesOfConjuncts(subs).value[i] == ClauseOf(subs[i]).value
    decreases |subs|
  {
    if subs != [] {
      var init := subs[..|subs| - 1];
      ClausesOfConjunctsSpec(init);
      assert forall i :: 0 <= i < |init| ==> init[i] == subs[i];
    }
  }

  /** A clause formula holds exactly when its extracted clause does. */
  lemma ClauseOfMeaning(sub: Formula, a: Assignment)
    requires ClauseOf(sub).Ok?
    ensures Evaluate(sub, a) == ClauseHolds(a, ClauseOf(sub).value)
  {
    var ds := Disjuncts(sub);
    LiteralsOfSpec(ds);
    var c := ClauseOf(sub).value;
    if sub.Or? {
      if Evaluate(sub, a) {
        var i :| 0 <= i < |ds| && Evaluate(ds[i], a);
        assert LiteralOf(ds[i]).value in c;
      }
      if ClauseHolds(a, c) {
        var l :| l in c && LiteralHolds(a, l);
        var i :| 0 <= i < |ds| && l == LiteralOf(ds[i]).value;
        assert Evaluate(ds[i], a);
      }
    } else {
      assert c == {LiteralOf(sub).value};
    }
  }

  /**
   * What `extract_clauses` returns describes its input: `f` holds exactly
   * when every extracted clause holds.
   */
  lemma ClausesOfMeaning(f: Formula, a: Assignment)
    requires ClausesOf(f).Ok?
    ensures Evaluate(f, a) <==> forall i :: 0 <= i < |ClausesOf(f).value| ==> ClauseHolds(a, ClausesOf(f).value[i])
  {
    var cnf := ToCnf(f);
    var subs := Conjuncts(cnf);
    var cs := ClausesOf(f).value;
    ClausesOfConjunctsSpec(subs);
    CnfMeaning.ToCnfPreservesMeaning(f, a);
    forall i | 0 <= i < |subs| ensures Evaluate(subs[i], a) == ClauseHolds(a, cs[i]) {
      ClauseOfMeaning(subs[i], a);
    }
    if !cnf.And? {
      assert subs == [cnf];
    }
  }

  /**
   * Extraction never fails on a formula of the shape ToCnf produces: the
   * second conversion flattens it, and it yields one clause per conjunct.
   */
  lemma ClausesOfCnfShape(f: Formula)
    requires IsCnfShape(f)
    ensures ClausesOf(f).Ok?
    ensures |ClausesOf(f).value| == |Conjuncts(ToCnf(f))|
  {
    var cnf := ToCnf(f);
    ToCnfOfCnfShapeIsFlat(f);
    var subs := Conjuncts(cnf);
    forall i | 0 <= i < |subs| ensures ClauseOf(subs[i]).Ok? {
      assert IsClause(subs[i]);
      LiteralsOfSpec(Disjuncts(subs[i]));
    }
    ClausesOfConjunctsSpec(subs);
  }

  /** Every formula extracts without error once it has been converted once. */
  lemma ClausesOfConverted(f: Formula)
    ensures ClausesOf(ToCnf(f)).Ok?
  {
    ClausesOfCnfShape(ToCnf(f));
  }

  /** `extract_clauses`, looping over the conjuncts and, inside, over the disjuncts. */
  method ExtractClauses(f: Formula) returns (r: Result<seq<Clause>>)
    ensures r == ClausesOf(f)
  {
    var cnf := ToCnf(f);
    var subs := if cnf.And? then cnf.formulas else [cnf];
    r := ConjunctClauses(subs);
  }

  /** The outer loop of `extract_clauses`: one clause per conjunct, or the first error. */
  method ConjunctClauses(subs: seq<Formula>) returns (r: Result<seq<Clause>>)
    ensures r == ClausesOfConjuncts(subs)
  {
    var clauses: seq<Clause> := [];
    for i := 0 to |subs|
      invariant ClausesOfConjuncts(subs[..i]) == Ok(clauses)
    {
      assert subs[..i + 1][..i] == subs[..i];
      var lits := DisjunctLiterals(subs[i]);
      if lits.Err? {
        ClausesOfConjunctsErrorPersists(subs, i + 1);
        assert subs[..|subs|] == subs;
        return Err(lits.message);
      }
      clauses := clauses + [lits.value];
    }
    assert subs[..|subs|] == subs;
    return Ok(clauses);
  }

  /** The inner loop of `extract_clauses`: the literal set of one conjunct. */
  method DisjunctLiterals(sub: Formula) returns (r: Result<Clause>)
    ensures r == ClauseOf(sub)
  {
    var ds := if sub.Or? then sub.formulas else [sub];
    var lits: Clause := {};
    for j := 0 to |ds|
      invariant LiteralsOf(ds[..j]) == Ok(lits)
    {
      var lit := ds[j];
      assert ds[..j + 1][..j] == ds[..j];
      if lit.Atom? {
        lits := lits + {Literal(lit.name, true)};
      } else if lit.Not? && lit.arg.Atom? {
        lits := lits + {Literal(lit.arg.name, false)};
      } else {
        LiteralsOfErrorPersists(ds, j + 1);
        assert ds[..|ds|] == ds;
        return Err("Non literal in clause: " + Show(lit));
      }
    }
    assert ds[..|ds|] == ds;
    return Ok(lits);
  }

  lemma {:induction false} LiteralsOfErrorPersists(ds: seq<Formula>, k: nat)
    requires k <= |ds| && LiteralsOf(ds[..k]).Err?
    ensures LiteralsOf(ds).Err? && LiteralsOf(ds).message == LiteralsOf(ds[..k]).message
    decreases |ds| - k
  {
    if k < |ds| {
      assert ds[..k + 1][..k] == ds[..k];
      LiteralsOfErrorPersists(ds, k + 1);
    } else {
      assert ds[..k] == ds;
    }
  }

  lemma {:induction false} ClausesOfConjunctsErrorPersists(subs: seq<Formula>, k: nat)
    requires k <= |subs| && ClausesOfConjuncts(subs[..k]).Err?
    ensures ClausesOfConjuncts(subs).Err? && ClausesOfConjuncts(subs).message == ClausesOfConjuncts(subs[..k]).message
    decreases |subs| - k
  {
    if k < |subs| {
      assert subs[..k + 1][..k] == subs[..k];
      ClausesOfConjunctsErrorPersists(subs, k + 1);
    } else {
      assert subs[..k] == subs;
    }
  }

  // ---------------------------------------------------------------------------
  // The clause set of a query

  /** The clauses of every belief, in order; the first failing belief is an error. */
  function BeliefClauses(beliefs: seq<Formula>): Result<seq<Clause>>
  {
    if beliefs == [] then Ok([])
    else
      match BeliefClauses(beliefs[..|beliefs| - 1])
      case Err(m) => Err(m)
      case Ok(cs) =>
        match ClausesOf(beliefs[|beliefs| - 1])
        case Err(m) => Err(m)
        case Ok(c) => Ok(cs + c)
  }

  function WithoutTautologies(cs: seq<Clause>): (r: seq<Clause>)
  {
    if cs == [] then []
    else WithoutTautologies(cs[..|cs| - 1]) + (if Tautological(cs[|cs| - 1]) then [] else [cs[|cs| - 1]])
  }

  /**
   * What `cnf_clauses_for_query` returns: the clauses of every belief and of
   * the CNF of ¬query, with the tautological ones dropped.
   */
  function QueryClauses(beliefs: seq<Formula>, query: Formula): Result<seq<Clause>> {
    match BeliefClauses(beliefs)
    case Err(m) => Err(m)
    case Ok(bc) =>
      match ClausesOf(ToCnf(Not(query)))
      case Err(m) => Err(m)
      case Ok(qc) => Ok(WithoutTautologies(bc + qc))
  }

  lemma {:induction false} WithoutTautologiesSpec(cs: seq<Clause>)
    ensures forall c :: c in WithoutTautologies(cs) <==> c in cs && !Tautological(c)
    decreases |cs|
  {
    if cs != [] {
      var init := cs[..|cs| - 1];
      WithoutTautologiesSpec(init);
      assert cs == init + [cs[|cs| - 1]];
    }
  }

  /** Every clause of the sequence is satisfied by `a`. */
  predicate HoldAll(a: Assignment, cs: seq<Clause>) {
    forall c :: c in cs ==> ClauseHolds(a, c)
  }

  predicate BeliefsHold(a: Assignment, beliefs: seq<Formula>) {
    forall i :: 0 <= i < |beliefs| ==> Evaluate(beliefs[i], a)
  }

  lemma HoldAllAppend(a: Assignment, xs: seq<Clause>, ys: seq<Clause>)
    ensures HoldAll(a, xs + ys) <==> HoldAll(a, xs) && HoldAll(a, ys)
  {
    assert forall c :: c in xs + ys <==> c in xs || c in ys;
  }

  lemma BeliefsHoldSnoc(a: Assignment, beliefs: seq<Formula>)
    requires beliefs != []
    ensures BeliefsHold(a, beliefs) <==>
      BeliefsHold(a, beliefs[..|beliefs| - 1]) && Evaluate(beliefs[|beliefs| - 1], a)
  {
    var init := beliefs[..|beliefs| - 1];
    assert forall i :: 0 <= i < |init| ==> init[i] == beliefs[i];
  }

  lemma ClausesOfHoldAll(f: Formula, a: Assignment)
    requires ClausesOf(f).Ok?
    ensures HoldAll(a, ClausesOf(f).value) <==> Evaluate(f, a)
  {
    ClausesOfMeaning(f, a);
    var cs := ClausesOf(f).value;
    assert HoldAll(a, cs) <==> forall i :: 0 <= i < |cs| ==> ClauseHolds(a, cs[i]);
  }

  lemma BeliefClausesOk(beliefs: seq<Formula>)
    ensures BeliefClauses(beliefs).Ok? <==> forall i :: 0 <= i < |beliefs| ==> ClausesOf(beliefs[i]).Ok?
  {
    if forall i :: 0 <= i < |beliefs| ==> ClausesOf(beliefs[i]).Ok? {
      BeliefClausesOkWhenAll(beliefs);
    }
    if BeliefClauses(beliefs).Ok? {
      forall i | 0 <= i < |beliefs| ensures ClausesOf(beliefs[i]).Ok? {
        BeliefClausesOkEach(beliefs, i);
      }
    }
  }

  /** When every belief extracts, so does the whole list. */
  lemma {:induction false} BeliefClausesOkWhenAll(beliefs: seq<Formula>)
    requires forall i :: 0 <= i < |beliefs| ==> ClausesOf(beliefs[i]).Ok?
    ensures BeliefClauses(beliefs).Ok?
    decreases |beliefs|
  {
    if beliefs != [] {
      var init := beliefs[..|beliefs| - 1];
      assert forall i :: 0 <= i < |init| ==> init[i] == beliefs[i];
      BeliefClausesOkWhenAll(init);
    }
  }

  /** When the whole list extracts, so does the belief at `i`. */
  lemma {:induction false} BeliefClausesOkEach(beliefs: seq<Formula>, i: nat)
    requires i < |beliefs| && BeliefClauses(beliefs).Ok?
    ensures ClausesOf(beliefs[i]).Ok?
    decreases |beliefs|
  {
    var init, last := beliefs[..|beliefs| - 1], beliefs[|beliefs| - 1];
    BeliefClausesOkParts(beliefs, init, last);
    if i < |init| {
      assert init[i] == beliefs[i];
      BeliefClausesOkEach(init, i);
    } else {
      assert i == |beliefs| - 1;
    }
  }

  /** A list that extracts extracts without its last belief, and so does that belief. */
  lemma BeliefClausesOkParts(beliefs: seq<Formula>, init: seq<Formula>, last: Formula)
    requires beliefs != [] && init == beliefs[..|beliefs| - 1] && last == beliefs[|beliefs| - 1]
    requires BeliefClauses(beliefs).Ok?
    ensures BeliefClauses(init).Ok? && ClausesOf(last).Ok?
  {
  }

  lemma {:induction false} BeliefClausesMeaning(beliefs: seq<Formula>, a: Assignment)
    requires BeliefClauses(beliefs).Ok?
    ensures HoldAll(a, BeliefClauses(beliefs).value) <==> BeliefsHold(a, beliefs)
    decreases |beliefs|
  {
    if beliefs != [] {
      var init, last := beliefs[..|beliefs| - 1], beliefs[|beliefs| - 1];
      BeliefClausesMeaning(init, a);
      ClausesOfHoldAll(last, a);
      HoldAllAppend(a, BeliefClauses(init).value, ClausesOf(last).value);
      BeliefsHoldSnoc(a, beliefs);
    }
  }

  /** On a base of converted formulas the query's clauses are always extracted. */
  lemma QueryClausesOk(beliefs: seq<Formula>, query: Formula)
    requires forall i :: 0 <= i < |beliefs| ==> IsCnfShape(beliefs[i])
    ensures QueryClauses(beliefs, query).Ok?
  {
    forall i | 0 <= i < |beliefs| ensures ClausesOf(beliefs[i]).Ok? {
      ClausesOfCnfShape(beliefs[i]);
    }
    BeliefClausesOk(beliefs);
    ClausesOfConverted(Not(query));
  }

  /**
   * The clause set is satisfied by exactly the assignments that satisfy every
   * belief and falsify the query, and it holds no tautology.
   */
  lemma QueryClausesMeaning(beliefs: seq<Formula>, query: Formula, a: Assignment)
    requires QueryClauses(beliefs, query).Ok?
    ensures HoldAll(a, QueryClauses(beliefs, query).value) <==> BeliefsHold(a, beliefs) && !Evaluate(query, a)
    ensures forall c :: c in QueryClauses(beliefs, query).value ==> !Tautological(c)
  {
    var bc := BeliefClauses(beliefs).value;
    var nq := ToCnf(Not(query));
    var qc := ClausesOf(nq).value;
    var all := bc + qc;
    BeliefClausesMeaning(beliefs, a);
    ClausesOfHoldAll(nq, a);
    CnfMeaning.ToCnfPreservesMeaning(Not(query), a);
    HoldAllAppend(a, bc, qc);
    WithoutTautologiesSpec(all);
    forall c | c in all && Tautological(c) ensures ClauseHolds(a, c) {
      TautologyAlwaysHolds(c, a);
    }
  }

  /** A formula without empty And or Or yields no empty clause. */
  lemma ClausesOfNoEmpty(f: Formula)
    requires NoEmptyJunctions(f) && ClausesOf(f).Ok?
    ensures {} !in ClausesOf(f).value
  {
    CnfMeaning.ToCnfNoEmpty(f);
    var subs := Conjuncts(ToCnf(f));
    ClausesOfConjunctsSpec(subs);
    forall i | 0 <= i < |subs| ensures ClauseOf(subs[i]).value != {} {
      assert NoEmptyJunctions(subs[i]);
      var ds := Disjuncts(subs[i]);
      assert |ds| > 0;
      LiteralsOfSpec(ds);
      assert LiteralOf(ds[0]).value in ClauseOf(subs[i]).value;
    }
  }

  lemma {:induction false} BeliefClausesMembers(beliefs: seq<Formula>)
    requires BeliefClauses(beliefs).Ok?
    ensures forall c :: c in BeliefClauses(beliefs).value ==>
      exists i :: 0 <= i < |beliefs| && ClausesOf(beliefs[i]).Ok? && c in ClausesOf(beliefs[i]).value
    decreases |beliefs|
  {
    if beliefs != [] {
      var init := beliefs[..|beliefs| - 1];
      BeliefClausesMembers(init);
      assert forall i :: 0 <= i < |init| ==> init[i] == beliefs[i];
    }
  }

  /** Formulas without empty And or Or give a clause set without the empty clause. */
  lemma QueryClausesNoEmpty(beliefs: seq<Formula>, query: Formula)
    requires forall i :: 0 <= i < |beliefs| ==> NoEmptyJunctions(beliefs[i])
    requires NoEmptyJunctions(query) && QueryClauses(beliefs, query).Ok?
    ensures {} !in QueryClauses(beliefs, query).value
  {
    var bc := BeliefClauses(beliefs).value;
    var qc := ClausesOf(ToCnf(Not(query))).value;
    BeliefClausesMembers(beliefs);
    forall i | 0 <= i < |beliefs| && ClausesOf(beliefs[i]).Ok? ensures {} !in ClausesOf(beliefs[i]).value {
      ClausesOfNoEmpty(beliefs[i]);
    }
    CnfMeaning.ToCnfNoEmpty(Not(query));
    ClausesOfNoEmpty(ToCnf(Not(query)));
    WithoutTautologiesSpec(bc + qc);
  }

  /** `cnf_clauses_for_query`: extend with each belief's clauses, then ¬query's, then filter. */
  method CnfClausesForQuery(beliefs: seq<Formula>, query: Formula) returns (r: Result<seq<Clause>>)
    ensures r == QueryClauses(beliefs, query)
  {
    var all: seq<Clause> := [];
    for i := 0 to |beliefs|
      invariant BeliefClauses(beliefs[..i]) == Ok(all)
    {
      var cs := ExtractClauses(beliefs[i]);
      BeliefClausesStep(beliefs, i, all);
      if cs.Err? {
        return Err(cs.message);
      }
      all := all + cs.value;
    }
    assert beliefs[..|beliefs|] == beliefs;
    var negQuery := ToCnf(Not(query));
    var qc := ExtractClauses(negQuery);
    if qc.Err? {
      return Err(qc.message);
    }
    all := all + qc.value;
    var kept: seq<Clause> := [];
    for i := 0 to |all|
      invariant kept == WithoutTautologies(all[..i])
    {
      var t := IsTautology(all[i]);
      WithoutTautologiesStep(all, i);
      if !t {
        kept := kept + [all[i]];
      }
    }
    assert all[..|all|] == all;
    return Ok(kept);
  }

  lemma BeliefClausesStep(beliefs: seq<Formula>, i: nat, all: seq<Clause>)
    requires i < |beliefs| && BeliefClauses(beliefs[..i]) == Ok(all)
    ensures ClausesOf(beliefs[i]).Ok? ==> BeliefClauses(beliefs[..i + 1]) == Ok(all + ClausesOf(beliefs[i]).value)
    ensures ClausesOf(beliefs[i]).Err? ==> BeliefClauses(beliefs) == Err(ClausesOf(beliefs[i]).message)
  {
    assert beliefs[..i + 1][..i] == beliefs[..i];
    if ClausesOf(beliefs[i]).Err? {
      BeliefClausesErrorPersists(beliefs, i + 1);
    }
  }

  lemma WithoutTautologiesStep(cs: seq<Clause>, i: nat)
    requires i < |cs|
    ensures WithoutTautologies(cs[..i + 1]) ==
      WithoutTautologies(cs[..i]) + (if Tautological(cs[i]) then [] else [cs[i]])
  {
    assert cs[..i + 1][..i] == cs[..i];
  }

  lemma {:induction false} BeliefClausesErrorPersists(beliefs: seq<Formula>, k: nat)
    requires k <= |beliefs| && BeliefClauses(beliefs[..k]).Err?
    ensures BeliefClauses(beliefs).Err? && BeliefClauses(beliefs).message == BeliefClauses(beliefs[..k]).message
    decreases |beliefs| - k
  {
    if k < |beliefs| {
      assert beliefs[..k + 1][..k] == beliefs[..k];
      BeliefClausesErrorPersists(beliefs, k + 1);
    } else {
      assert beliefs[..k] == beliefs;
    }
  }
}
