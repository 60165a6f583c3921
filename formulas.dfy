/**
 * The propositional formula tree of the belief base (Belief_base/formula.py):
 * the six node kinds, truth-value evaluation under an assignment, the set of
 * symbols, and the equality the source defines on formulas (children of And
 * and Or compared as sets, Equiv compared up to swapping its sides).
 */
module Formulas {

  datatype Formula =
    | Atom(name: string)
    | Not(arg: Formula)
    | And(formulas: seq<Formula>)
    | Or(formulas: seq<Formula>)
    | Implies(premise: Formula, conclusion: Formula)
    | Equiv(left: Formula, right: Formula)

  /** A truth assignment; a symbol it does not mention is false. */
  type Assignment = map<string, bool>

  function Lookup(a: Assignment, s: string): bool {
    if s in a then a[s] else false
  }

  /** Truth value of `f` under `a`; an empty And is true and an empty Or false. */
  predicate Evaluate(f: Formula, a: Assignment) {
    match f
    case Atom(s) => Lookup(a, s)
    case Not(g) => !Evaluate(g, a)
    case And(fs) => forall i :: 0 <= i < |fs| ==> Evaluate(fs[i], a)
    case Or(fs) => exists i :: 0 <= i < |fs| && Evaluate(fs[i], a)
    case Implies(p, q) => !Evaluate(p, a) || Evaluate(q, a)
    case Equiv(l, r) => Evaluate(l, a) == Evaluate(r, a)
  }

  /** The propositional symbols occurring in `f`. */
  function Symbols(f: Formula): set<string> {
    match f
    case Atom(s) => {s}
    case Not(g) => Symbols(g)
    case And(fs) => set i, s | 0 <= i < |fs| && s in Symbols(fs[i]) :: s
    case Or(fs) => set i, s | 0 <= i < |fs| && s in Symbols(fs[i]) :: s
    case Implies(p, q) => Symbols(p) + Symbols(q)
    case Equiv(l, r) => Symbols(l) + Symbols(r)
  }

  /**
   * The text `str(f)` of a formula: an atom is its name, every other node
   * wraps its operands in parentheses around its connective.
   */
  function Show(f: Formula): string {
    match f
    case Atom(s) => s
    case Not(g) => "¬(" + Show(g) + ")"
    case And(fs) => Join(seq(|fs|, i requires 0 <= i < |fs| => "(" + Show(fs[i]) + ")"), " ∧ ")
    case Or(fs) => Join(seq(|fs|, i requires 0 <= i < |fs| => "(" + Show(fs[i]) + ")"), " ∨ ")
    case Implies(p, q) => "(" + Show(p) + ") → (" + Show(q) + ")"
    case Equiv(l, r) => "(" + Show(l) + ") ↔ (" + Show(r) + ")"
  }

  /** `sep.join(parts)`: the parts with `sep` between neighbours. */
  function Join(parts: seq<string>, sep: string): string {
    if |parts| == 0 then ""
    else if |parts| == 1 then parts[0]
    else parts[0] + sep + Join(parts[1..], sep)
  }

  /**
   * Every And and Or in `f` has at least one operand, as in every formula
   * the parser builds.
   */
  predicate NoEmptyJunctions(f: Formula) {
    match f
    case Atom(_) => true
    case Not(g) => NoEmptyJunctions(g)
    case And(fs) => |fs| > 0 && forall i :: 0 <= i < |fs| ==> NoEmptyJunctions(fs[i])
    case Or(fs) => |fs| > 0 && forall i :: 0 <= i < |fs| ==> NoEmptyJunctions(fs[i])
    case Implies(p, q) => NoEmptyJunctions(p) && NoEmptyJunctions(q)
    case Equiv(l, r) => NoEmptyJunctions(l) && NoEmptyJunctions(r)
  }

  /** Two assignments agree on every symbol in `syms`. */
  predicate AgreeOn(a: Assignment, b: Assignment, syms: set<string>) {
    forall s :: s in syms ==> Lookup(a, s) == Lookup(b, s)
  }

  /** The truth value of a formula depends only on the symbols it mentions. */
  lemma {:induction false} EvaluateDependsOnlyOnSymbols(f: Formula, a: Assignment, b: Assignment)
    requires AgreeOn(a, b, Symbols(f))
    ensures Evaluate(f, a) == Evaluate(f, b)
    decreases f
  {
    match f
    case Atom(_) =>
    case Not(g) => EvaluateDependsOnlyOnSymbols(g, a, b);
    case And(fs) =>
      forall i | 0 <= i < |fs| ensures Evaluate(fs[i], a) == Evaluate(fs[i], b) {
        assert Symbols(fs[i]) <= Symbols(f);
        EvaluateDependsOnlyOnSymbols(fs[i], a, b);
      }
    case Or(fs) =>
      forall i | 0 <= i < |fs| ensures Evaluate(fs[i], a) == Evaluate(fs[i], b) {
        assert Symbols(fs[i]) <= Symbols(f);
        EvaluateDependsOnlyOnSymbols(fs[i], a, b);
      }
    case Implies(p, q) =>
      EvaluateDependsOnlyOnSymbols(p, a, b);
      EvaluateDependsOnlyOnSymbols(q, a, b);
    case Equiv(l, r) =>
      EvaluateDependsOnlyOnSymbols(l, a, b);
      EvaluateDependsOnlyOnSymbols(r, a, b);
  }

  /**
   * The source's `==` on formulas: Atom, Not and Implies compare structurally,
   * And and Or compare their children as sets, Equiv also matches its mirror image.
   */
  predicate FEq(a: Formula, b: Formula)
    decreases a, 0
  {
    match a
    case Atom(x) => b.Atom? && b.name == x
    case Not(x) => b.Not? && FEq(x, b.arg)
    case And(xs) => b.And? && SameMembers(xs, b.formulas)
    case Or(xs) => b.Or? && SameMembers(xs, b.formulas)
    case Implies(p, q) => b.Implies? && FEq(p, b.premise) && FEq(q, b.conclusion)
    case Equiv(l, r) =>
      b.Equiv? &&
      ((FEq(l, b.left) && FEq(r, b.right)) || (FEq(l, b.right) && FEq(r, b.left)))
  }

  /** `set(xs) == set(ys)` with membership decided by FEq. */
  predicate SameMembers(xs: seq<Formula>, ys: seq<Formula>)
    decreases xs, 2
  {
    && (forall i :: 0 <= i < |xs| ==> MatchIn(xs[i], ys))
    && (forall j :: 0 <= j < |ys| ==> MatchedBy(xs, ys[j]))
  }

  /** `x in set(ys)`. */
  predicate MatchIn(x: Formula, ys: seq<Formula>)
    decreases x, 1
  {
    exists j :: 0 <= j < |ys| && FEq(x, ys[j])
  }

  /** `y in set(xs)`, asked with the members of `xs` on the left. */
  predicate MatchedBy(xs: seq<Formula>, y: Formula)
    decreases xs, 1
  {
    exists i :: 0 <= i < |xs| && FEq(xs[i], y)
  }

  lemma {:induction false} FEqReflexive(a: Formula)
    ensures FEq(a, a)
    decreases a
  {
    match a
    case Atom(_) =>
    case Not(x) => FEqReflexive(x);
    case And(xs) => SameMembersReflexive(xs);
    case Or(xs) => SameMembersReflexive(xs);
    case Implies(p, q) => FEqReflexive(p); FEqReflexive(q);
    case Equiv(l, r) => FEqReflexive(l); FEqReflexive(r);
  }

  lemma {:induction false} SameMembersReflexive(xs: seq<Formula>)
    ensures SameMembers(xs, xs)
    decreases xs
  {
    forall i | 0 <= i < |xs| ensures MatchIn(xs[i], xs) && MatchedBy(xs, xs[i]) {
      FEqReflexive(xs[i]);
    }
  }

  lemma {:induction false} FEqSymmetric(a: Formula, b: Formula)
    requires FEq(a, b)
    ensures FEq(b, a)
    decreases a
  {
    match a
    case Atom(_) =>
    case Not(x) => FEqSymmetric(x, b.arg);
    case And(xs) => SameMembersSymmetric(xs, b.formulas);
    case Or(xs) => SameMembersSymmetric(xs, b.formulas);
    case Implies(p, q) => FEqSymmetric(p, b.premise); FEqSymmetric(q, b.conclusion);
    case Equiv(l, r) =>
      if FEq(l, b.left) && FEq(r, b.right) {
        FEqSymmetric(l, b.left); FEqSymmetric(r, b.right);
      } else {
        FEqSymmetric(l, b.right); FEqSymmetric(r, b.left);
      }
  }

  lemma {:induction false} SameMembersSymmetric(xs: seq<Formula>, ys: seq<Formula>)
    requires SameMembers(xs, ys)
    ensures SameMembers(ys, xs)
    decreases xs
  {
    forall j | 0 <= j < |ys| ensures MatchIn(ys[j], xs) {
      assert MatchedBy(xs, ys[j]);
      var i :| 0 <= i < |xs| && FEq(xs[i], ys[j]);
      FEqSymmetric(xs[i], ys[j]);
    }
    forall i | 0 <= i < |xs| ensures MatchedBy(ys, xs[i]) {
      assert MatchIn(xs[i], ys);
      var j :| 0 <= j < |ys| && FEq(xs[i], ys[j]);
      FEqSymmetric(xs[i], ys[j]);
    }
  }

  lemma {:induction false} FEqTransitive(a: Formula, b: Formula, c: Formula)
    requires FEq(a, b) && FEq(b, c)
    ensures FEq(a, c)
    decreases a
  {
    match a
    case Atom(_) =>
    case Not(x) => FEqTransitive(x, b.arg, c.arg);
    case And(xs) => SameMembersTransitive(xs, b.formulas, c.formulas);
    case Or(xs) => SameMembersTransitive(xs, b.formulas, c.formulas);
    case Implies(p, q) =>
      FEqTransitive(p, b.premise, c.premise);
      FEqTransitive(q, b.conclusion, c.conclusion);
    case Equiv(l, r) =>
      if FEq(l, b.left) && FEq(r, b.right) {
        if FEq(b.left, c.left) && FEq(b.right, c.right) {
          FEqTransitive(l, b.left, c.left); FEqTransitive(r, b.right, c.right);
        } else {
          FEqTransitive(l, b.left, c.right); FEqTransitive(r, b.right, c.left);
        }
      } else {
        if FEq(b.left, c.left) && FEq(b.right, c.right) {
          FEqTransitive(l, b.right, c.right); FEqTransitive(r, b.left, c.left);
        } else {
          FEqTransitive(l, b.right, c.left); FEqTransitive(r, b.left, c.right);
        }
      }
  }

  lemma {:induction false} SameMembersTransitive(xs: seq<Formula>, ys: seq<Formula>, zs: seq<Formula>)
    requires SameMembers(xs, ys) && SameMembers(ys, zs)
    ensures SameMembers(xs, zs)
    decreases xs
  {
    forall i | 0 <= i < |xs| ensures MatchIn(xs[i], zs) {
      assert MatchIn(xs[i], ys);
      var j :| 0 <= j < |ys| && FEq(xs[i], ys[j]);
      assert MatchIn(ys[j], zs);
      var k :| 0 <= k < |zs| && FEq(ys[j], zs[k]);
      FEqTransitive(xs[i], ys[j], zs[k]);
    }
    forall k | 0 <= k < |zs| ensures MatchedBy(xs, zs[k]) {
      assert MatchedBy(ys, zs[k]);
      var j :| 0 <= j < |ys| && FEq(ys[j], zs[k]);
      assert MatchedBy(xs, ys[j]);
      var i :| 0 <= i < |xs| && FEq(xs[i], ys[j]);
      FEqTransitive(xs[i], ys[j], zs[k]);
    }
  }

  /** Formulas the source considers equal have the same truth value everywhere. */
  lemma {:induction false} FEqSound(x: Formula, y: Formula, a: Assignment)
    requires FEq(x, y)
    ensures Evaluate(x, a) == Evaluate(y, a)
    decreases x
  {
    match x
    case Atom(_) =>
    case Not(g) => FEqSound(g, y.arg, a);
    case And(xs) =>
      SameMembersSound(xs, y.formulas, a);
    case Or(xs) =>
      SameMembersSound(xs, y.formulas, a);
    case Implies(p, q) => FEqSound(p, y.premise, a); FEqSound(q, y.conclusion, a);
    case Equiv(l, r) =>
      if FEq(l, y.left) && FEq(r, y.right) {
        FEqSound(l, y.left, a); FEqSound(r, y.right, a);
      } else {
        FEqSound(l, y.right, a); FEqSound(r, y.left, a);
      }
  }

  lemma {:induction false} SameMembersSound(xs: seq<Formula>, ys: seq<Formula>, a: Assignment)
    requires SameMembers(xs, ys)
    ensures Evaluate(And(xs), a) == Evaluate(And(ys), a)
    ensures Evaluate(Or(xs), a) == Evaluate(Or(ys), a)
    decreases xs
  {
    CoveredHolds(xs, ys, a);
    CoveringHolds(xs, ys, a);
  }

  // Each member of `xs` has an FEq-partner in `ys` with the same truth value.
  lemma {:induction false} CoveredHolds(xs: seq<Formula>, ys: seq<Formula>, a: Assignment)
    requires forall i :: 0 <= i < |xs| ==> MatchIn(xs[i], ys)
    ensures Evaluate(And(ys), a) ==> Evaluate(And(xs), a)
    ensures Evaluate(Or(xs), a) ==> Evaluate(Or(ys), a)
    decreases xs, 0
  {
    forall i | 0 <= i < |xs| ensures exists j :: 0 <= j < |ys| && Evaluate(xs[i], a) == Evaluate(ys[j], a) {
      assert MatchIn(xs[i], ys);
      var j :| 0 <= j < |ys| && FEq(xs[i], ys[j]);
      FEqSound(xs[i], ys[j], a);
    }
  }

  // Each member of `ys` has an FEq-partner in `xs` with the same truth value.
  lemma {:induction false} CoveringHolds(xs: seq<Formula>, ys: seq<Formula>, a: Assignment)
    requires forall j :: 0 <= j < |ys| ==> MatchedBy(xs, ys[j])
    ensures Evaluate(And(xs), a) ==> Evaluate(And(ys), a)
    ensures Evaluate(Or(ys), a) ==> Evaluate(Or(xs), a)
    decreases xs, 0
  {
    forall j | 0 <= j < |ys| ensures exists i :: 0 <= i < |xs| && Evaluate(xs[i], a) == Evaluate(ys[j], a) {
      assert MatchedBy(xs, ys[j]);
      var i :| 0 <= i < |xs| && FEq(xs[i], ys[j]);
      FEqSound(xs[i], ys[j], a);
    }
  }

  /** And and Or ignore the order and repetition of their children; Equiv is symmetric. */
  lemma CommutativeEquality(xs: seq<Formula>, ys: seq<Formula>, l: Formula, r: Formula)
    requires forall x :: x in xs <==> x in ys
    ensures FEq(And(xs), And(ys)) && FEq(Or(xs), Or(ys))
    ensures FEq(Equiv(l, r), Equiv(r, l))
  {
    forall i | 0 <= i < |xs| ensures MatchIn(xs[i], ys) {
      assert xs[i] in ys;
      var j :| 0 <= j < |ys| && ys[j] == xs[i];
      FEqReflexive(xs[i]);
    }
    forall j | 0 <= j < |ys| ensures MatchedBy(xs, ys[j]) {
      assert ys[j] in xs;
      var i :| 0 <= i < |xs| && xs[i] == ys[j];
      FEqReflexive(ys[j]);
    }
    FEqReflexive(l);
    FEqReflexive(r);
  }
}
