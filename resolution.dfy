/**
 * Propositional resolution over clause sets (`resolution_entails` in
 * Belief_base/entailment.py): the resolvents of a pair of clauses, one
 * saturation pass over a clause set, the saturation itself, and its
 * soundness.
 */
module Resolution {
  import opened Results
  import opened Formulas
  import opened Cnf
  import opened Clauses

  /** Joins two clauses and drops the clashing pair `l`, `¬l`. */
  function Resolvent(c1: Clause, c2: Clause, l: Literal): Clause {
    (c1 + c2) - {l, Comp(l)}
  }

  /** Every resolvent on a literal of `c1` whose complement is in `c2`. */
  function PairResolvents(c1: Clause, c2: Clause): set<Clause> {
    set l | l in c1 && Comp(l) in c2 :: Resolvent(c1, c2, l)
  }

  lemma CompInvolutive(l: Literal)
    ensures Comp(Comp(l)) == l
  {
  }

  /** Resolving `c1` with `c2` gives the same clauses as resolving `c2` with `c1`. */
  lemma PairResolventsSymmetric(c1: Clause, c2: Clause)
    ensures PairResolvents(c1, c2) == PairResolvents(c2, c1)
  {
    forall r | r in PairResolvents(c1, c2) ensures r in PairResolvents(c2, c1) {
      var l :| l in c1 && Comp(l) in c2 && r == Resolvent(c1, c2, l);
      CompInvolutive(l);
      assert r == Resolvent(c2, c1, Comp(l));
    }
    forall r | r in PairResolvents(c2, c1) ensures r in PairResolvents(c1, c2) {
      var l :| l in c2 && Comp(l) in c1 && r == Resolvent(c2, c1, l);
      CompInvolutive(l);
      assert r == Resolvent(c1, c2, Comp(l));
    }
  }

  /**
   * One pass as written: every resolvent of every pair of distinct clauses,
   * tautological or not.
   */
  function RawStep(S: set<Clause>): set<Clause> {
    set c1, c2, l | c1 in S && c2 in S && c1 != c2 && l in c1 && Comp(l) in c2 :: Resolvent(c1, c2, l)
  }

  function DropTautologies(X: set<Clause>): (r: set<Clause>)
    ensures forall c :: c in r <==> c in X && !Tautological(c)
  {
    set c | c in X && !Tautological(c)
  }

  /** One pass that keeps only the resolvents that are not tautologies. */
  function Step(S: set<Clause>): set<Clause> {
    DropTautologies(RawStep(S))
  }

  /** The literals occurring in a clause set. */
  function Lits(S: set<Clause>): set<Literal> {
    set c, l | c in S && l in c :: l
  }

  ghost function Subsets(L: set<Literal>): set<Clause> {
    set c: set<Literal> | c <= L
  }

  /** A pass adds no literal, so saturation stays inside a finite set of clauses. */
  lemma RawStepWithinLits(S: set<Clause>)
    ensures forall r :: r in RawStep(S) ==> r <= Lits(S)
  {
    forall r | r in RawStep(S) ensures r <= Lits(S) {
      var c1, c2, l :| c1 in S && c2 in S && c1 != c2 && l in c1 && Comp(l) in c2 && r == Resolvent(c1, c2, l);
      forall x | x in r ensures x in Lits(S) {
        if x in c1 {
          assert x in Lits(S);
        } else {
          assert x in c2;
          assert x in Lits(S);
        }
      }
    }
  }

  /** Adding clauses over the same literals shrinks the set of clauses still missing. */
  lemma GrowthMeasure(S: set<Clause>, N: set<Clause>)
    requires forall r :: r in N ==> r <= Lits(S)
    requires !(N <= S)
    ensures Lits(S + N) == Lits(S)
    ensures |Subsets(Lits(S + N)) - (S + N)| < |Subsets(Lits(S)) - S|
  {
    var L := Lits(S);
    forall x | x in Lits(S + N) ensures x in L {
      var c :| c in S + N && x in c;
    }
    assert Lits(S + N) == L;
    var r :| r in N && r !in S;
    assert r in Subsets(L) - S;
    ProperSubsetSmaller(Subsets(L) - (S + N), Subsets(L) - S, r);
  }

  lemma ProperSubsetSmaller<T>(A: set<T>, B: set<T>, x: T)
    requires A <= B && x in B && x !in A
    ensures |A| < |B|
  {
    var D := B - A;
    assert x in D;
    assert B == A + D;
    assert A * D == {};
    assert |B| == |A| + |D|;
  }

  /**
   * The saturation as written: true as soon as a pass produces the empty
   * clause, false as soon as a pass produces nothing new.
   */
  function RefutesAsWritten(S: set<Clause>): bool
    decreases |Subsets(Lits(S)) - S|
  {
    if {} in RawStep(S) then true
    else if RawStep(S) <= S then false
    else
      RawStepWithinLits(S);
      GrowthMeasure(S, RawStep(S));
      RefutesAsWritten(S + RawStep(S))
  }

  /** The saturation with tautological resolvents dropped. */
  function Refutes(S: set<Clause>): bool
    decreases |Subsets(Lits(S)) - S|
  {
    if {} in Step(S) then true
    else if Step(S) <= S then false
    else
      RawStepWithinLits(S);
      GrowthMeasure(S, Step(S));
      Refutes(S + Step(S))
  }

  predicate NoTautologies(S: set<Clause>) {
    forall c :: c in S ==> !Tautological(c)
  }

  lemma CompHolds(a: Assignment, l: Literal)
    ensures LiteralHolds(a, Comp(l)) == !LiteralHolds(a, l)
  {
  }

  /** A resolvent of two clauses that are not tautologies follows from them. */
  lemma ResolventSound(c1: Clause, c2: Clause, l: Literal, a: Assignment)
    requires l in c1 && Comp(l) in c2
    requires !Tautological(c1) && !Tautological(c2)
    requires ClauseHolds(a, c1) && ClauseHolds(a, c2)
    ensures ClauseHolds(a, Resolvent(c1, c2, l))
  {
    CompHolds(a, l);
    CompInvolutive(l);
    if LiteralHolds(a, l) {
      var m :| m in c2 && LiteralHolds(a, m);
      assert m != Comp(l);
      assert m != l;
      assert m in Resolvent(c1, c2, l);
    } else {
      var m :| m in c1 && LiteralHolds(a, m);
      assert m != l;
      assert m != Comp(l);
      assert m in Resolvent(c1, c2, l);
    }
  }

  /** A pass keeps every assignment that satisfies a tautology-free clause set. */
  lemma StepSound(S: set<Clause>, a: Assignment)
    requires NoTautologies(S) && AllHold(a, S)
    ensures AllHold(a, Step(S))
  {
    forall r | r in Step(S) ensures ClauseHolds(a, r) {
      var c1, c2, l :| c1 in S && c2 in S && c1 != c2 && l in c1 && Comp(l) in c2 && r == Resolvent(c1, c2, l);
      ResolventSound(c1, c2, l, a);
    }
  }

  /** A refuted tautology-free clause set has no satisfying assignment. */
  lemma {:induction false} RefutesSound(S: set<Clause>, a: Assignment)
    requires NoTautologies(S) && Refutes(S)
    ensures !AllHold(a, S)
    decreases |Subsets(Lits(S)) - S|
  {
    if AllHold(a, S) {
      StepSound(S, a);
      if {} in Step(S) {
        assert false;
      } else {
        RawStepWithinLits(S);
        GrowthMeasure(S, Step(S));
        RefutesSound(S + Step(S), a);
        assert AllHold(a, S + Step(S));
      }
    }
  }

  // ---------------------------------------------------------------------------
  // Completeness

  /** No pass adds anything new. */
  predicate Saturated(S: set<Clause>) {
    Step(S) <= S
  }

  /** The symbols the literals of `S` mention. */
  function Names(S: set<Clause>): set<string> {
    set c, l | c in S && l in c :: l.name
  }

  predicate Avoids(c: Clause, x: string) {
    forall l :: l in c ==> l.name != x
  }

  /** The clauses of `S` that do not mention `x`. */
  function Free(S: set<Clause>, x: string): set<Clause> {
    set c | c in S && Avoids(c, x)
  }

  lemma StepMono(S: set<Clause>, T: set<Clause>)
    requires S <= T
    ensures Step(S) <= Step(T)
  {
    forall r | r in Step(S) ensures r in Step(T) {
      var c1, c2, l :| c1 in S && c2 in S && c1 != c2 && l in c1 && Comp(l) in c2 && r == Resolvent(c1, c2, l);
      assert r in RawStep(T);
    }
  }

  lemma FreeSaturated(S: set<Clause>, x: string)
    requires Saturated(S)
    ensures Saturated(Free(S, x))
  {
    StepMono(Free(S, x), S);
    forall r | r in Step(Free(S, x)) ensures r in Free(S, x) {
      var c1, c2, l :| c1 in Free(S, x) && c2 in Free(S, x) && c1 != c2 && l in c1 && Comp(l) in c2 && r == Resolvent(c1, c2, l);
      assert Avoids(r, x);
    }
  }

  lemma FreeHasFewerNames(S: set<Clause>, x: string)
    requires x in Names(S)
    ensures |Names(Free(S, x))| < |Names(S)|
  {
    forall c, l | c in Free(S, x) && l in c ensures l.name in Names(S) && l.name != x {
    }
    assert Names(Free(S, x)) <= Names(S) - {x};
    ProperSubsetSmaller(Names(Free(S, x)), Names(S), x);
  }

  /** Changing the value of `x` does not affect a clause that avoids `x`. */
  lemma HoldsOffSymbol(a: Assignment, x: string, v: bool, c: Clause)
    requires Avoids(c, x)
    ensures ClauseHolds(a[x := v], c) == ClauseHolds(a, c)
  {
    forall l | l in c ensures LiteralHolds(a[x := v], l) == LiteralHolds(a, l) {
      assert l.name != x;
    }
  }

  /**
   * In a saturated set, when some clause with `x` has every other literal
   * false, every clause with `¬x` has a true literal besides `¬x`: otherwise
   * their resolvent, which avoids `x`, would be false.
   */
  lemma NegativeSideHolds(S: set<Clause>, x: string, a0: Assignment, C: Clause, D: Clause)
    requires Saturated(S) && NoTautologies(S) && AllHold(a0, Free(S, x))
    requires C in S && Literal(x, true) in C && Forces(C, Literal(x, true), a0)
    requires D in S && Literal(x, false) in D
    ensures exists m :: m in D && m != Literal(x, false) && LiteralHolds(a0, m)
  {
    var xp, xn := Literal(x, true), Literal(x, false);
    assert Comp(xp) == xn;
    assert xn !in C;
    var r := Resolvent(C, D, xp);
    assert r in RawStep(S);
    if Tautological(r) {
      TautologyAlwaysHolds(r, a0);
    } else {
      assert r in Step(S);
      assert Avoids(r, x);
    }
    assert ClauseHolds(a0, r);
    var m :| m in r && LiteralHolds(a0, m);
    assert m in D;
  }

  /** Every literal of `c` other than `l` is false under `a`. */
  predicate Forces(c: Clause, l: Literal, a: Assignment) {
    forall m :: m in c && m != l ==> !LiteralHolds(a, m)
  }

  /** A value for `x` extends a model of the clauses avoiding `x` to the whole saturated set. */
  lemma ExtendModel(S: set<Clause>, x: string, a0: Assignment) returns (a: Assignment)
    requires Saturated(S) && NoTautologies(S) && AllHold(a0, Free(S, x))
    ensures AllHold(a, S)
  {
    var xp, xn := Literal(x, true), Literal(x, false);
    if exists C :: C in S && xp in C && Forces(C, xp, a0) {
      var C :| C in S && xp in C && Forces(C, xp, a0);
      a := a0[x := true];
      forall c | c in S ensures ClauseHolds(a, c) {
        if Avoids(c, x) {
          HoldsOffSymbol(a0, x, true, c);
          assert c in Free(S, x);
        } else if xp in c {
          assert LiteralHolds(a, xp);
        } else {
          assert xn in c;
          NegativeSideHolds(S, x, a0, C, c);
          var m :| m in c && m != xn && LiteralHolds(a0, m);
          assert LiteralHolds(a, m);
        }
      }
    } else {
      a := a0[x := false];
      forall c | c in S ensures ClauseHolds(a, c) {
        if Avoids(c, x) {
          HoldsOffSymbol(a0, x, false, c);
          assert c in Free(S, x);
        } else if xn in c {
          assert LiteralHolds(a, xn);
        } else {
          assert xp in c;
          var m :| m in c && m != xp && LiteralHolds(a0, m);
          assert Comp(xp) == xn;
          assert LiteralHolds(a, m);
        }
      }
    }
  }

  /** A saturated, tautology-free clause set without the empty clause has a model. */
  lemma {:induction false} SaturatedSatisfiable(S: set<Clause>) returns (a: Assignment)
    requires Saturated(S) && NoTautologies(S) && {} !in S
    ensures AllHold(a, S)
    decreases |Names(S)|
  {
    if S == {} {
      a := map[];
    } else {
      var c :| c in S;
      assert c != {};
      var l :| l in c;
      var x := l.name;
      assert x in Names(S);
      FreeSaturated(S, x);
      FreeHasFewerNames(S, x);
      var a0 := SaturatedSatisfiable(Free(S, x));
      a := ExtendModel(S, x, a0);
    }
  }

  /**
   * Completeness: a tautology-free clause set without the empty clause that
   * saturation does not refute has a model.
   */
  lemma {:induction false} RefutesComplete(S: set<Clause>) returns (a: Assignment)
    requires NoTautologies(S) && {} !in S && !Refutes(S)
    ensures AllHold(a, S)
    decreases |Subsets(Lits(S)) - S|
  {
    if Step(S) <= S {
      a := SaturatedSatisfiable(S);
    } else {
      RawStepWithinLits(S);
      GrowthMeasure(S, Step(S));
      a := RefutesComplete(S + Step(S));
    }
  }

  // ---------------------------------------------------------------------------
  // Entailment

  /**
   * Whether the beliefs entail the query: the clauses of the beliefs and of
   * ¬query saturate to the empty clause. Extraction errors are passed on.
   */
  function Entails(beliefs: seq<Formula>, query: Formula): Result<bool> {
    match QueryClauses(beliefs, query)
    case Err(m) => Err(m)
    case Ok(cs) => Ok(Refutes(set c | c in cs))
  }

  /** The same answer, computed by the saturation as written. */
  function EntailsAsWritten(beliefs: seq<Formula>, query: Formula): Result<bool> {
    match QueryClauses(beliefs, query)
    case Err(m) => Err(m)
    case Ok(cs) => Ok(RefutesAsWritten(set c | c in cs))
  }

  lemma HoldAllAsSet(a: Assignment, cs: seq<Clause>)
    ensures AllHold(a, set c | c in cs) <==> HoldAll(a, cs)
  {
  }

  /** Soundness: when the answer is true, every model of the beliefs satisfies the query. */
  lemma EntailsSound(beliefs: seq<Formula>, query: Formula, a: Assignment)
    requires Entails(beliefs, query) == Ok(true)
    requires BeliefsHold(a, beliefs)
    ensures Evaluate(query, a)
  {
    var cs := QueryClauses(beliefs, query).value;
    QueryClausesMeaning(beliefs, query, a);
    HoldAllAsSet(a, cs);
    RefutesSound((set c | c in cs), a);
  }

  /** Every assignment that satisfies all the beliefs satisfies the query. */
  ghost predicate Entailed(beliefs: seq<Formula>, query: Formula) {
    forall a :: BeliefsHold(a, beliefs) ==> Evaluate(query, a)
  }

  /**
   * The answer is exactly semantic entailment, whenever no formula involved
   * holds an empty And or Or.
   */
  lemma EntailsExact(beliefs: seq<Formula>, query: Formula)
    requires forall i :: 0 <= i < |beliefs| ==> NoEmptyJunctions(beliefs[i])
    requires NoEmptyJunctions(query) && Entails(beliefs, query).Ok?
    ensures Entails(beliefs, query).value <==> Entailed(beliefs, query)
  {
    var cs := QueryClauses(beliefs, query).value;
    if Entails(beliefs, query).value {
      forall a | BeliefsHold(a, beliefs) ensures Evaluate(query, a) {
        EntailsSound(beliefs, query, a);
      }
    } else {
      QueryClausesNoEmpty(beliefs, query);
      QueryClausesMeaning(beliefs, query, map[]);
      var a := RefutesComplete(set c | c in cs);
      HoldAllAsSet(a, cs);
      QueryClausesMeaning(beliefs, query, a);
    }
  }

  /** On a base of converted formulas the answer is never an error. */
  lemma EntailsOk(beliefs: seq<Formula>, query: Formula)
    requires forall i :: 0 <= i < |beliefs| ==> IsCnfShape(beliefs[i])
    ensures Entails(beliefs, query).Ok? && EntailsAsWritten(beliefs, query).Ok?
  {
    QueryClausesOk(beliefs, query);
  }

  // ---------------------------------------------------------------------------
  // The procedure

  /** The resolvents of `c1` with the clauses of `E`. */
  function Against(c1: Clause, E: set<Clause>): set<Clause> {
    set c2, l | c2 in E && l in c1 && Comp(l) in c2 :: Resolvent(c1, c2, l)
  }

  /** The resolvents of the pairs of distinct clauses of `S` with one member in `D`. */
  function Among(S: set<Clause>, D: set<Clause>): set<Clause> {
    set c1, c2, l | c1 in S && c2 in S && c1 != c2 && (c1 in D || c2 in D) && l in c1 && Comp(l) in c2 :: Resolvent(c1, c2, l)
  }

  lemma AgainstAdd(c1: Clause, E: set<Clause>, c2: Clause)
    ensures Against(c1, E + {c2}) == Against(c1, E) + PairResolvents(c1, c2)
  {
  }

  lemma AmongEmpty(S: set<Clause>)
    ensures Among(S, {}) == {}
  {
  }

  lemma AmongAll(S: set<Clause>)
    ensures Among(S, S) == RawStep(S)
  {
  }

  lemma AmongWithin(S: set<Clause>, D: set<Clause>)
    ensures Among(S, D) <= RawStep(S)
  {
  }

  /** Adding `c1` to the processed clauses adds its resolvents with the clauses not yet processed. */
  lemma AmongAdd(S: set<Clause>, D: set<Clause>, c1: Clause)
    requires D <= S && c1 in S && c1 !in D
    ensures Among(S, D + {c1}) == Among(S, D) + Against(c1, S - D - {c1})
  {
    forall r | r in Among(S, D + {c1}) ensures r in Among(S, D) + Against(c1, S - D - {c1}) {
      var x, y, l :| x in S && y in S && x != y && (x in D + {c1} || y in D + {c1}) && l in x && Comp(l) in y && r == Resolvent(x, y, l);
      if !(x in D || y in D) {
        if x == c1 {
          assert r in Against(c1, S - D - {c1});
        } else {
          CompInvolutive(l);
          assert r == Resolvent(c1, x, Comp(l));
          assert r in Against(c1, S - D - {c1});
        }
      }
    }
  }

  lemma DropTautologiesUnion(X: set<Clause>, Y: set<Clause>)
    ensures DropTautologies(X + Y) == DropTautologies(X) + DropTautologies(Y)
  {
  }

  /** The resolvents of `c1` with `c2` on the literals of `L`. */
  function ResolventsOn(c1: Clause, c2: Clause, L: set<Literal>): set<Clause> {
    set l | l in L && Comp(l) in c2 :: Resolvent(c1, c2, l)
  }

  /**
   * The literal loop of one pair: the non-tautological resolvents of `c1`
   * with `c2`, or `empty` as soon as one of them is the empty clause.
   */
  method ResolvePair(c1: Clause, c2: Clause) returns (empty: bool, rs: set<Clause>)
    ensures empty == ({} in PairResolvents(c1, c2))
    ensures !empty ==> rs == DropTautologies(PairResolvents(c1, c2))
  {
    var rest := c1;
    rs := {};
    while rest != {}
      invariant rest <= c1
      invariant {} !in ResolventsOn(c1, c2, c1 - rest)
      invariant rs == DropTautologies(ResolventsOn(c1, c2, c1 - rest))
      decreases |rest|
    {
      var l :| l in rest;
      assert ResolventsOn(c1, c2, c1 - (rest - {l})) ==
        ResolventsOn(c1, c2, c1 - rest) + (if Comp(l) in c2 then {Resolvent(c1, c2, l)} else {});
      rest := rest - {l};
      if Comp(l) in c2 {
        var r := (c1 + c2) - {l, Comp(l)};
        if |r| == 0 {
          assert r in PairResolvents(c1, c2);
          return true, rs;
        }
        var t := IsTautology(r);
        if !t {
          rs := rs + {r};
        }
      }
    }
    assert ResolventsOn(c1, c2, c1 - rest) == PairResolvents(c1, c2);
    return false, rs;
  }

  /** The pairs of `c1` with every clause of `E`. */
  method ResolveWith(c1: Clause, E: set<Clause>) returns (empty: bool, rs: set<Clause>)
    ensures empty == ({} in Against(c1, E))
    ensures !empty ==> rs == DropTautologies(Against(c1, E))
  {
    var rest := E;
    rs := {};
    while rest != {}
      invariant rest <= E
      invariant {} !in Against(c1, E - rest)
      invariant rs == DropTautologies(Against(c1, E - rest))
      decreases |rest|
    {
      var c2 :| c2 in rest;
      AgainstAdd(c1, E - rest, c2);
      assert E - (rest - {c2}) == (E - rest) + {c2};
      rest := rest - {c2};
      var e, found := ResolvePair(c1, c2);
      if e {
        AgainstMono(c1, E - rest, E);
        return true, rs;
      }
      DropTautologiesUnion(Against(c1, E - rest - {c2}), PairResolvents(c1, c2));
      rs := rs + found;
    }
    assert E - rest == E;
    return false, rs;
  }

  lemma AgainstMono(c1: Clause, E: set<Clause>, F: set<Clause>)
    requires E <= F
    ensures Against(c1, E) <= Against(c1, F)
  {
  }

  /**
   * One pass over every pair of distinct clauses of `S`, each pair once:
   * `empty` when some resolvent is the empty clause, and otherwise the
   * non-tautological resolvents.
   */
  method ResolvePass(S: set<Clause>) returns (empty: bool, found: set<Clause>)
    ensures empty == ({} in RawStep(S))
    ensures !empty ==> found == Step(S)
  {
    var todo := S;
    found := {};
    AmongEmpty(S);
    while todo != {}
      invariant todo <= S
      invariant {} !in Among(S, S - todo)
      invariant found == DropTautologies(Among(S, S - todo))
      decreases |todo|
    {
      var c1 :| c1 in todo;
      AmongAdd(S, S - todo, c1);
      assert S - todo + {c1} == S - (todo - {c1});
      assert S - (S - todo) - {c1} == todo - {c1};
      todo := todo - {c1};
      var e, rs := ResolveWith(c1, todo);
      AmongWithin(S, S - todo);
      if e {
        return true, found;
      }
      DropTautologiesUnion(Among(S, S - todo - {c1}), Against(c1, todo));
      found := found + rs;
    }
    assert S - todo == S;
    AmongAll(S);
    return false, found;
  }

  lemma EmptyInStep(S: set<Clause>)
    ensures {} in Step(S) <==> {} in RawStep(S)
  {
    assert !Tautological({});
  }

  /**
   * `resolution_entails`: saturate the clauses of the beliefs and of ¬query,
   * pass by pass, until the empty clause appears or a pass adds nothing new.
   */
  method ResolutionEntails(beliefs: seq<Formula>, query: Formula) returns (r: Result<bool>)
    ensures r == Entails(beliefs, query)
  {
    var cs := CnfClausesForQuery(beliefs, query);
    if cs.Err? {
      return Err(cs.message);
    }
    var clauses: set<Clause> := set c | c in cs.value;
    ghost var start := clauses;
    var newClauses: set<Clause> := {};
    while true
      invariant newClauses <= clauses
      invariant Refutes(clauses) == Refutes(start)
      decreases |Subsets(Lits(clauses)) - clauses|
    {
      var empty, found := ResolvePass(clauses);
      EmptyInStep(clauses);
      if empty {
        return Ok(true);
      }
      ghost var prev := newClauses;
      newClauses := newClauses + found;
      if newClauses <= clauses {
        return Ok(false);
      }
      SaturationPass(clauses, prev, found);
      clauses := clauses + newClauses;
    }
  }

  /**
   * A pass that finds something new, joined with clauses already present,
   * leaves the answer unchanged and brings the saturation closer to its end.
   */
  lemma SaturationPass(S: set<Clause>, prev: set<Clause>, found: set<Clause>)
    requires prev <= S && found == Step(S) && {} !in Step(S) && !(prev + found <= S)
    ensures Refutes(S + (prev + found)) == Refutes(S)
    ensures |Subsets(Lits(S + (prev + found))) - (S + (prev + found))| < |Subsets(Lits(S)) - S|
  {
    assert S + (prev + found) == S + Step(S);
    RawStepWithinLits(S);
    GrowthMeasure(S, Step(S));
  }
}
