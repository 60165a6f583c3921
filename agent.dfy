/**
 * The belief-revision agent: it answers queries against its base, contracts
 * the base by partial meet over the remainders, expands it, and revises it
 * through the Levi identity (contract by the negation, then expand).
 */
module Agents {
  import opened Results
  import opened Formulas
  import opened Cnf
  import opened CnfMeaning
  import opened Clauses
  import opened Resolution
  import opened BeliefBases
  import opened RemainderProperties

  // ---------------------------------------------------------------------------
  // What contraction and revision compute
  // ---------------------------------------------------------------------------

  /** Every index in every remainder is a position of the base. */
  lemma RemainderIndexesValid(bs: seq<Entry>, phi: Formula)
    ensures forall R, j :: R in Remainders(bs, phi) && j in R ==> j < |bs|
  {
    forall R, j | R in Remainders(bs, phi) && j in R ensures j < |bs| {
      RemaindersWithin(bs, phi, R);
    }
  }

  /**
   * The indexes that partial meet keeps: those common to every remainder of
   * the highest total priority. They all lie in one of the remainders.
   */
  ghost function KeptIndexes(bs: seq<Entry>, phi: Formula): (keep: set<nat>)
    requires Remainders(bs, phi) != []
    ensures forall j :: j in keep <==>
      forall R :: R in Remainders(bs, phi) && IsBest(Remainders(bs, phi), Priorities(bs), R) ==> j in R
    ensures exists R :: R in Remainders(bs, phi) && keep <= R
  {
    var rems := Remainders(bs, phi);
    RemainderIndexesValid(bs, phi);
    var sel := SelectRemainders(rems, Priorities(bs));
    var keep := IntersectSelected(sel);
    assert sel[0] in sel;
    keep
  }

  /** `R` has the highest score among the remainders `rs`. */
  ghost predicate IsBest(rs: seq<set<nat>>, pr: seq<int>, R: set<nat>) {
    forall R' :: R' in rs ==> Score(R', pr) <= Score(R, pr)
  }

  /**
   * The base after `contract_partial_meet(phi)`: untouched when it does not
   * entail `phi`, empty when there is no remainder, and otherwise the kept
   * entries, in index order, added afresh to an empty base.
   */
  ghost function Contraction(bs: seq<Entry>, phi: Formula): seq<Entry>
  {
    if Entails(BeliefFormulas(bs), phi) != Ok(true) then bs
    else if Remainders(bs, phi) == [] then []
    else Added(bs, Ascending(KeptIndexes(bs, phi), |bs|))
  }

  /** The base after `revise(phi)`: contraction by `¬phi`, then `phi` added at priority 0. */
  ghost function Revision(bs: seq<Entry>, phi: Formula): seq<Entry>
  {
    Insert(Contraction(bs, Not(phi)), Entry(ToCnf(phi), 0))
  }

  /** The entries at `idx`, each converted again as `add` does (`new_beliefs`). */
  function Picked(bs: seq<Entry>, idx: seq<nat>): (r: seq<Entry>)
    requires Within(idx, |bs|)
    ensures |r| == |idx| && forall t :: 0 <= t < |idx| ==> r[t] == Converted(bs[idx[t]])
  {
    seq(|idx|, t requires 0 <= t < |idx| => Converted(bs[idx[t]]))
  }

  /**
   * Re-adding entries of a sorted base in index order appends each at the
   * end: the rebuilt base lists them in their original order.
   */
  lemma {:induction false} AddedInOrder(bs: seq<Entry>, idx: seq<nat>)
    requires SortedByPriority(bs) && Increasing(idx) && Within(idx, |bs|)
    ensures Added(bs, idx) == Picked(bs, idx)
    decreases |idx|
  {
    if idx != [] {
      var init := idx[..|idx| - 1];
      assert Increasing(init) && Within(init, |bs|) by {
        forall s, t | 0 <= s < t < |init| ensures init[s] < init[t] {
          assert init[s] == idx[s] && init[t] == idx[t];
        }
      }
      AddedInOrder(bs, init);
      PickedAhead(bs, idx, init, idx[|idx| - 1]);
      AddedInOrderStep(bs, idx, init, Converted(bs[idx[|idx| - 1]]));
    }
  }

  lemma AddedInOrderStep(bs: seq<Entry>, idx: seq<nat>, init: seq<nat>, e: Entry)
    requires Within(idx, |bs|) && idx != [] && init == idx[..|idx| - 1] && Within(init, |bs|)
    requires e == Converted(bs[idx[|idx| - 1]])
    requires Added(bs, init) == Picked(bs, init)
    requires forall t :: 0 <= t < |init| ==> Picked(bs, init)[t].priority >= e.priority
    ensures Added(bs, idx) == Picked(bs, idx)
  {
    InsertAtEnd(Picked(bs, init), e);
    PickedSnoc(bs, idx);
  }

  /** Every entry picked before the last index has at least the last one's priority. */
  lemma PickedAhead(bs: seq<Entry>, idx: seq<nat>, init: seq<nat>, last: nat)
    requires SortedByPriority(bs) && Increasing(idx) && Within(idx, |bs|) && idx != []
    requires init == idx[..|idx| - 1] && last == idx[|idx| - 1]
    ensures forall t :: 0 <= t < |init| ==> Picked(bs, init)[t].priority >= bs[last].priority
  {
    var prev := Picked(bs, init);
    forall t | 0 <= t < |prev| ensures prev[t].priority >= bs[last].priority {
      var j := init[t];
      assert j == idx[t] && j < last;
      assert bs[j].priority >= bs[last].priority;
      assert prev[t] == Converted(bs[j]);
    }
  }

  lemma PickedSnoc(bs: seq<Entry>, idx: seq<nat>)
    requires Within(idx, |bs|) && idx != []
    ensures Picked(bs, idx) == Picked(bs, idx[..|idx| - 1]) + [Converted(bs[idx[|idx| - 1]])]
  {
  }

  /** An entry whose priority is at most every stored one is appended at the end. */
  lemma InsertAtEnd(bs: seq<Entry>, e: Entry)
    requires forall t :: 0 <= t < |bs| ==> bs[t].priority >= e.priority
    ensures Insert(bs, e) == bs + [e]
  {
    assert Cut(bs, e.priority) == |bs|;
  }

  // ---------------------------------------------------------------------------
  // Properties of contraction
  // ---------------------------------------------------------------------------

  /** Vacuity: a base that does not entail `phi` is left as it is. */
  lemma ContractionVacuity(bs: seq<Entry>, phi: Formula)
    ensures !Entailed(BeliefFormulas(bs), phi) ==> Contraction(bs, phi) == bs
  {
    if Entails(BeliefFormulas(bs), phi) == Ok(true) {
      forall a | BeliefsHold(a, BeliefFormulas(bs)) ensures Evaluate(phi, a) {
        EntailsSound(BeliefFormulas(bs), phi, a);
      }
    }
  }

  /**
   * When the base entails `phi` and every single belief does too, there is
   * no remainder and the base is emptied.
   */
  lemma ContractionClears(bs: seq<Entry>, phi: Formula)
    requires AllCnf(bs) && NoEmptyJunctionsIn(bs) && NoEmptyJunctions(phi)
    ensures Entailed(BeliefFormulas(bs), phi) && (forall j :: 0 <= j < |bs| ==> SetEntailed(bs, {j}, phi))
      ==> Contraction(bs, phi) == []
  {
    EntailsOk(BeliefFormulas(bs), phi);
    EntailsExact(BeliefFormulas(bs), phi);
    NoRemaindersExact(bs, phi);
  }

  /**
   * Contracting by a formula true under every assignment empties the base,
   * where the AGM failure postulate would leave it unchanged.
   */
  lemma ContractingValidEmpties(bs: seq<Entry>, phi: Formula)
    requires AllCnf(bs) && NoEmptyJunctionsIn(bs) && NoEmptyJunctions(phi)
    ensures (forall a :: Evaluate(phi, a)) ==> Contraction(bs, phi) == []
  {
    ContractionClears(bs, phi);
  }

  /** When the base entails `phi` and has a remainder, contraction rebuilds it from the kept indexes. */
  lemma ContractionRebuilds(bs: seq<Entry>, phi: Formula)
    requires Entails(BeliefFormulas(bs), phi) == Ok(true) && Remainders(bs, phi) != []
    ensures Contraction(bs, phi) == Added(bs, Ascending(KeptIndexes(bs, phi), |bs|))
  {
  }

  /**
   * After a proper contraction the base holds exactly the kept entries,
   * converted again, with their priorities and in their original order.
   */
  lemma ContractionKeeps(bs: seq<Entry>, phi: Formula)
    requires SortedByPriority(bs)
    requires Entails(BeliefFormulas(bs), phi) == Ok(true) && Remainders(bs, phi) != []
    ensures Contraction(bs, phi) == Picked(bs, Ascending(KeptIndexes(bs, phi), |bs|))
    ensures forall e :: e in Contraction(bs, phi) <==>
      exists j :: j in KeptIndexes(bs, phi) && j < |bs| && e == Converted(bs[j])
  {
    var keep := KeptIndexes(bs, phi);
    var order := Ascending(keep, |bs|);
    ContractionRebuilds(bs, phi);
    AddedInOrder(bs, order);
    PickedMembers(bs, keep);
  }

  /** The entries picked in index order are the converted entries at the indexes of `keep`. */
  lemma PickedMembers(bs: seq<Entry>, keep: set<nat>)
    ensures forall e :: e in Picked(bs, Ascending(keep, |bs|)) <==>
      exists j :: j in keep && j < |bs| && e == Converted(bs[j])
  {
    var order := Ascending(keep, |bs|);
    var r := Picked(bs, order);
    forall e | e in r ensures exists j :: j in keep && j < |bs| && e == Converted(bs[j]) {
      var t :| 0 <= t < |r| && r[t] == e;
      assert order[t] in order;
    }
    forall j | j in keep && j < |bs| ensures Converted(bs[j]) in r {
      var t :| 0 <= t < |order| && order[t] == j;
    }
  }

  /** Inclusion: every model of the base is a model of the contracted base. */
  lemma ContractionInclusion(bs: seq<Entry>, phi: Formula, a: Assignment)
    ensures BeliefsHold(a, BeliefFormulas(bs)) ==> BeliefsHold(a, BeliefFormulas(Contraction(bs, phi)))
  {
    if Entails(BeliefFormulas(bs), phi) == Ok(true) && Remainders(bs, phi) != [] {
      var order := Ascending(KeptIndexes(bs, phi), |bs|);
      AddedHolds(bs, order, a);
    }
  }

  /**
   * Success: unless `phi` holds under every assignment, the contracted base
   * no longer entails it.
   */
  lemma ContractionSuccess(bs: seq<Entry>, phi: Formula, a0: Assignment)
    requires AllCnf(bs) && NoEmptyJunctionsIn(bs) && NoEmptyJunctions(phi)
    requires !Evaluate(phi, a0)
    ensures !Entailed(BeliefFormulas(Contraction(bs, phi)), phi)
  {
    var fs := BeliefFormulas(bs);
    if Entails(fs, phi) != Ok(true) {
      EntailsOk(fs, phi);
      EntailsExact(fs, phi);
    } else if Remainders(bs, phi) == [] {
      assert BeliefsHold(a0, BeliefFormulas([]));
    } else {
      var keep := KeptIndexes(bs, phi);
      var R :| R in Remainders(bs, phi) && keep <= R;
      RemaindersNotEntailing(bs, phi, R);
      var a :| HoldsOn(a, bs, R) && !Evaluate(phi, a);
      var order := Ascending(keep, |bs|);
      AddedHolds(bs, order, a);
      assert BeliefsHold(a, BeliefFormulas(Contraction(bs, phi)));
    }
  }

  // ---------------------------------------------------------------------------
  // Properties of expansion and revision
  // ---------------------------------------------------------------------------

  /** The expanded base has exactly the models of the base that satisfy `phi`. */
  lemma ExpansionMeaning(bs: seq<Entry>, phi: Formula, priority: int, a: Assignment)
    ensures BeliefsHold(a, BeliefFormulas(Insert(bs, Entry(ToCnf(phi), priority))))
      <==> BeliefsHold(a, BeliefFormulas(bs)) && Evaluate(phi, a)
  {
    var e := Entry(ToCnf(phi), priority);
    InsertMembers(bs, e);
    EntriesHoldFormulas(a, bs);
    EntriesHoldFormulas(a, Insert(bs, e));
    ToCnfPreservesMeaning(phi, a);
  }

  /** Success: every model of the revised base satisfies `phi`. */
  lemma RevisionSuccess(bs: seq<Entry>, phi: Formula, a: Assignment)
    ensures BeliefsHold(a, BeliefFormulas(Revision(bs, phi))) ==> Evaluate(phi, a)
  {
    ExpansionMeaning(Contraction(bs, Not(phi)), phi, 0, a);
  }

  /** Inclusion: every model of the base that satisfies `phi` satisfies the revised base. */
  lemma RevisionInclusion(bs: seq<Entry>, phi: Formula, a: Assignment)
    ensures BeliefsHold(a, BeliefFormulas(bs)) && Evaluate(phi, a) ==>
      BeliefsHold(a, BeliefFormulas(Revision(bs, phi)))
  {
    ContractionInclusion(bs, Not(phi), a);
    ExpansionMeaning(Contraction(bs, Not(phi)), phi, 0, a);
  }

  /** Consistency: revising by a satisfiable formula leaves a satisfiable base. */
  lemma RevisionConsistency(bs: seq<Entry>, phi: Formula, a0: Assignment)
    requires AllCnf(bs) && NoEmptyJunctionsIn(bs) && NoEmptyJunctions(phi)
    requires Evaluate(phi, a0)
    ensures exists a :: BeliefsHold(a, BeliefFormulas(Revision(bs, phi)))
  {
    var c := Contraction(bs, Not(phi));
    ContractionSuccess(bs, Not(phi), a0);
    var a :| BeliefsHold(a, BeliefFormulas(c)) && !Evaluate(Not(phi), a);
    assert Evaluate(phi, a);
    var r := Revision(bs, phi);
    assert r == Insert(c, Entry(ToCnf(phi), 0));
    ExpansionMeaning(c, phi, 0, a);
    assert BeliefsHold(a, BeliefFormulas(r));
  }

  // ---------------------------------------------------------------------------
  // The agent
  // ---------------------------------------------------------------------------

  class BeliefRevisionAgent {
    var base: BeliefBase

    ghost predicate Valid()
      reads this, base
    {
      base.Valid()
    }

    constructor()
      ensures Valid() && fresh(base) && base.beliefs == []
    {
      base := new BeliefBase();
    }

    /** Whether the base entails `query`, by resolution; the base is not changed. */
    method Ask(query: Formula) returns (b: bool)
      requires Valid()
      ensures Entails(BeliefFormulas(base.beliefs), query) == Ok(b)
    {
      EntailsOk(base.GetBeliefs(), query);
      var r := ResolutionEntails(base.GetBeliefs(), query);
      b := r.value;
    }

    /** Partial-meet contraction of the base by `formula`. */
    method ContractPartialMeet(formula: Formula)
      requires Valid()
      modifies base
      ensures Valid()
      ensures base.beliefs == Contraction(old(base.beliefs), formula)
    {
      ghost var bs := base.beliefs;
      EntailsOk(base.GetBeliefs(), formula);
      var entailed := ResolutionEntails(base.GetBeliefs(), formula);
      if !entailed.value {
        return;
      }
      var remainders := base.ComputeRemainders(formula);
      if remainders == [] {
        base.Clear();
        return;
      }
      var priorities := Priorities(base.GetPrioritizedBeliefs());
      RemainderIndexesValid(bs, formula);
      var selected := SelectRemainders(remainders, priorities);
      var keepIndexes := IntersectSelected(selected);
      var allBeliefs := base.GetPrioritizedBeliefs();
      var order := Ascending(keepIndexes, |allBeliefs|);
      var newBeliefs := seq(|order|, t requires 0 <= t < |order| => allBeliefs[order[t]]);
      base.Clear();
      AddEach(newBeliefs, allBeliefs, order);
    }

    /** The loop of `contract_partial_meet` that adds each kept entry, in order, to the cleared base. */
    method AddEach(newBeliefs: seq<Entry>, ghost bs: seq<Entry>, ghost order: seq<nat>)
      requires Valid() && base.beliefs == []
      requires Within(order, |bs|) && |newBeliefs| == |order|
      requires forall t :: 0 <= t < |order| ==> newBeliefs[t] == bs[order[t]]
      modifies base
      ensures Valid() && base.beliefs == Added(bs, order)
    {
      var t := 0;
      while t < |newBeliefs|
        invariant t <= |newBeliefs|
        invariant base.Valid() && base.beliefs == Added(bs, order[..t])
      {
        assert order[..t + 1][..t] == order[..t];
        base.Add(newBeliefs[t].formula, newBeliefs[t].priority);
        t := t + 1;
      }
      assert order[..t] == order;
    }

    /** Adds `formula` at `priority`, whether or not the base stays consistent. */
    method Expand(formula: Formula, priority: int := 0)
      requires Valid()
      modifies base
      ensures Valid()
      ensures base.beliefs == Insert(old(base.beliefs), Entry(ToCnf(formula), priority))
    {
      base.Add(formula, priority);
    }

    /** Revision by the Levi identity: contract by `¬formula`, then expand by `formula`. */
    method Revise(formula: Formula)
      requires Valid()
      modifies base
      ensures Valid()
      ensures base.beliefs == Revision(old(base.beliefs), formula)
    {
      ContractPartialMeet(Not(formula));
      Expand(formula);
    }
  }
}
