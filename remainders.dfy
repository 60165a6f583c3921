/**
 * What `compute_remainders` finds, stated on the meaning of the beliefs: the
 * remainders are exactly the largest index sets whose beliefs do not entail
 * the formula, and adding any further belief to one of them entails it.
 */
module RemainderProperties {
  import opened Results
  import opened Formulas
  import opened Cnf
  import opened CnfMeaning
  import opened Clauses
  import opened Resolution
  import opened BeliefBases

  /** No stored formula holds an And or an Or without operands. */
  predicate NoEmptyJunctionsIn(bs: seq<Entry>) {
    forall i :: 0 <= i < |bs| ==> NoEmptyJunctions(bs[i].formula)
  }

  /** `a` satisfies every belief whose index is in `R`. */
  predicate HoldsOn(a: Assignment, bs: seq<Entry>, R: set<nat>) {
    forall j :: j in R && j < |bs| ==> Evaluate(bs[j].formula, a)
  }

  /** The beliefs indexed by `R` entail `phi`: every assignment satisfying them satisfies `phi`. */
  ghost predicate SetEntailed(bs: seq<Entry>, R: set<nat>, phi: Formula) {
    forall a :: HoldsOn(a, bs, R) ==> Evaluate(phi, a)
  }

  /** A larger set of beliefs entails whatever a smaller one does. */
  lemma SetEntailedMono(bs: seq<Entry>, R: set<nat>, S: set<nat>, phi: Formula)
    requires R <= S
    ensures SetEntailed(bs, R, phi) ==> SetEntailed(bs, S, phi)
  {
    if SetEntailed(bs, R, phi) {
      forall a | HoldsOn(a, bs, S) ensures Evaluate(phi, a) {
        assert HoldsOn(a, bs, R);
      }
    }
  }

  // ---------------------------------------------------------------------------
  // The temporary base
  // ---------------------------------------------------------------------------

  predicate EntriesHold(a: Assignment, xs: seq<Entry>) {
    forall e :: e in xs ==> Evaluate(e.formula, a)
  }

  lemma EntriesHoldFormulas(a: Assignment, xs: seq<Entry>)
    ensures BeliefsHold(a, BeliefFormulas(xs)) <==> EntriesHold(a, xs)
  {
    var fs := BeliefFormulas(xs);
    if BeliefsHold(a, fs) {
      forall e | e in xs ensures Evaluate(e.formula, a) {
        var i :| 0 <= i < |xs| && xs[i] == e;
        assert fs[i] == e.formula;
      }
    }
    if EntriesHold(a, xs) {
      forall i | 0 <= i < |fs| ensures Evaluate(fs[i], a) {
        assert xs[i] in xs;
      }
    }
  }

  lemma InsertMembers(xs: seq<Entry>, e: Entry)
    ensures forall x :: x in Insert(xs, e) <==> x in xs || x == e
  {
    var m := Cut(xs, e.priority);
    assert xs == xs[..m] + xs[m..];
  }

  /** The temporary base holds exactly the converted beliefs picked by `idx`. */
  lemma AddedMembers(bs: seq<Entry>, idx: seq<nat>)
    requires Within(idx, |bs|)
    ensures forall e :: e in Added(bs, idx) <==>
      exists t :: 0 <= t < |idx| && e == Converted(bs[idx[t]])
  {
    forall e | e in Added(bs, idx) ensures exists t :: 0 <= t < |idx| && e == Converted(bs[idx[t]]) {
      var t := AddedFrom(bs, idx, e);
    }
    forall t | 0 <= t < |idx| ensures Converted(bs[idx[t]]) in Added(bs, idx) {
      AddedHas(bs, idx, t);
    }
  }

  /** Each entry of the rebuilt base comes from one of the indexes. */
  lemma {:induction false} AddedFrom(bs: seq<Entry>, idx: seq<nat>, e: Entry) returns (t: nat)
    requires Within(idx, |bs|) && e in Added(bs, idx)
    ensures t < |idx| && e == Converted(bs[idx[t]])
    decreases |idx|
  {
    var init := idx[..|idx| - 1];
    var last := idx[|idx| - 1];
    InsertMembers(Added(bs, init), Converted(bs[last]));
    if e == Converted(bs[last]) {
      t := |idx| - 1;
    } else {
      t := AddedFrom(bs, init, e);
      assert idx[t] == init[t];
    }
  }

  /** The entry of each index is in the rebuilt base. */
  lemma {:induction false} AddedHas(bs: seq<Entry>, idx: seq<nat>, t: nat)
    requires Within(idx, |bs|) && t < |idx|
    ensures Converted(bs[idx[t]]) in Added(bs, idx)
    decreases |idx|
  {
    var init := idx[..|idx| - 1];
    var last := idx[|idx| - 1];
    InsertMembers(Added(bs, init), Converted(bs[last]));
    if t < |init| {
      assert idx[t] == init[t];
      AddedHas(bs, init, t);
    }
  }

  /** Every formula of the temporary base is in CNF shape, so entailment on it never fails. */
  lemma AddedCnf(bs: seq<Entry>, idx: seq<nat>)
    requires Within(idx, |bs|)
    ensures forall i :: 0 <= i < |Added(bs, idx)| ==> IsCnfShape(BeliefFormulas(Added(bs, idx))[i])
  {
    AddedMembers(bs, idx);
    var xs := Added(bs, idx);
    forall i | 0 <= i < |xs| ensures IsCnfShape(BeliefFormulas(xs)[i]) {
      assert xs[i] in xs;
    }
  }

  lemma AddedNoEmpty(bs: seq<Entry>, idx: seq<nat>)
    requires Within(idx, |bs|) && NoEmptyJunctionsIn(bs)
    ensures forall i :: 0 <= i < |Added(bs, idx)| ==> NoEmptyJunctions(BeliefFormulas(Added(bs, idx))[i])
  {
    AddedMembers(bs, idx);
    var xs := Added(bs, idx);
    forall i | 0 <= i < |xs| ensures NoEmptyJunctions(BeliefFormulas(xs)[i]) {
      assert xs[i] in xs;
      var t :| 0 <= t < |idx| && xs[i] == Converted(bs[idx[t]]);
      CnfMeaning.ToCnfNoEmpty(bs[idx[t]].formula);
    }
  }

  /** The temporary base is satisfied exactly when the picked beliefs are. */
  lemma AddedHolds(bs: seq<Entry>, idx: seq<nat>, a: Assignment)
    requires Within(idx, |bs|)
    ensures BeliefsHold(a, BeliefFormulas(Added(bs, idx))) <==> HoldsOn(a, bs, Rem(idx))
  {
    var xs := Added(bs, idx);
    AddedMembers(bs, idx);
    EntriesHoldFormulas(a, xs);
    if EntriesHold(a, xs) {
      forall j | j in Rem(idx) && j < |bs| ensures Evaluate(bs[j].formula, a) {
        var t :| 0 <= t < |idx| && idx[t] == j;
        assert Converted(bs[idx[t]]) in xs;
        ToCnfPreservesMeaning(bs[j].formula, a);
      }
    }
    if HoldsOn(a, bs, Rem(idx)) {
      forall e | e in xs ensures Evaluate(e.formula, a) {
        var t :| 0 <= t < |idx| && e == Converted(bs[idx[t]]);
        assert idx[t] in Rem(idx);
        ToCnfPreservesMeaning(bs[idx[t]].formula, a);
      }
    }
  }

  /** A positive answer on the temporary base means the picked beliefs entail `phi`. */
  lemma SubsetEntailsSound(bs: seq<Entry>, idx: seq<nat>, phi: Formula)
    requires Within(idx, |bs|)
    ensures SubsetEntails(bs, idx, phi) ==> SetEntailed(bs, Rem(idx), phi)
  {
    if SubsetEntails(bs, idx, phi) {
      forall a | HoldsOn(a, bs, Rem(idx)) ensures Evaluate(phi, a) {
        AddedHolds(bs, idx, a);
        EntailsSound(BeliefFormulas(Added(bs, idx)), phi, a);
      }
    }
  }

  /** Without empty And or Or, the answer on the temporary base is exactly entailment. */
  lemma SubsetEntailsExact(bs: seq<Entry>, idx: seq<nat>, phi: Formula)
    requires Within(idx, |bs|) && NoEmptyJunctionsIn(bs) && NoEmptyJunctions(phi)
    ensures SubsetEntails(bs, idx, phi) <==> SetEntailed(bs, Rem(idx), phi)
  {
    var fs := BeliefFormulas(Added(bs, idx));
    AddedCnf(bs, idx);
    EntailsOk(fs, phi);
    AddedNoEmpty(bs, idx);
    EntailsExact(fs, phi);
    SubsetEntailsSound(bs, idx, phi);
    if SetEntailed(bs, Rem(idx), phi) {
      forall a | BeliefsHold(a, fs) ensures Evaluate(phi, a) {
        AddedHolds(bs, idx, a);
      }
    }
  }

  // ---------------------------------------------------------------------------
  // Combinations
  // ---------------------------------------------------------------------------

  /** Every `k`-combination of `lo`, ..., `n - 1` is generated. */
  lemma {:induction false} CombosComplete(lo: nat, n: nat, idx: seq<nat>)
    requires IsCombo(idx, lo, n, |idx|)
    ensures idx in Combos(lo, n, |idx|)
    decreases n - lo
  {
    if idx != [] {
      assert lo <= idx[0] < n;
      if idx[0] == lo {
        var rest := idx[1..];
        assert IsCombo(rest, lo + 1, n, |rest|) by {
          assert forall t :: 0 <= t < |rest| ==> rest[t] == idx[t + 1];
        }
        CombosComplete(lo + 1, n, rest);
        CombosCompleteHead(lo, n, idx);
      } else {
        assert IsCombo(idx, lo + 1, n, |idx|) by {
          assert forall t :: 0 <= t < |idx| ==> idx[0] <= idx[t];
        }
        CombosComplete(lo + 1, n, idx);
        CombosCompleteSkip(lo, n, idx);
      }
    }
  }

  /** A combination starting at `lo` comes from the combinations of the rest. */
  lemma CombosCompleteHead(lo: nat, n: nat, idx: seq<nat>)
    requires idx != [] && idx[0] == lo < n
    requires idx[1..] in Combos(lo + 1, n, |idx| - 1)
    ensures idx in Combos(lo, n, |idx|)
  {
    var first := Combos(lo + 1, n, |idx| - 1);
    var t :| 0 <= t < |first| && first[t] == idx[1..];
    assert Prepend(lo, first)[t] == idx;
  }

  /** A combination that does not use `lo` is one of those from `lo + 1`. */
  lemma CombosCompleteSkip(lo: nat, n: nat, idx: seq<nat>)
    requires idx != [] && lo < n
    requires idx in Combos(lo + 1, n, |idx|)
    ensures idx in Combos(lo, n, |idx|)
  {
  }

  /** An increasing tuple has as many distinct indexes as positions. */
  lemma {:induction false} IncreasingCard(idx: seq<nat>)
    requires Increasing(idx)
    ensures |Rem(idx)| == |idx|
    decreases |idx|
  {
    if idx != [] {
      var init := idx[..|idx| - 1];
      assert Increasing(init) by {
        forall s, t | 0 <= s < t < |init| ensures init[s] < init[t] {
          assert init[s] == idx[s] && init[t] == idx[t];
        }
      }
      IncreasingCard(init);
      IncreasingCardStep(idx);
    }
  }

  lemma IncreasingCardStep(idx: seq<nat>)
    requires idx != [] && Increasing(idx)
    requires |Rem(idx[..|idx| - 1])| == |idx| - 1
    ensures |Rem(idx)| == |idx|
  {
    var init := idx[..|idx| - 1];
    var last := idx[|idx| - 1];
    assert Rem(idx) == Rem(init) + {last};
    assert last !in Rem(init) by {
      forall t | 0 <= t < |init| ensures init[t] != last {
        assert init[t] == idx[t];
      }
    }
  }

  lemma SameSizeSubset(A: set<nat>, B: set<nat>)
    requires A <= B && |A| == |B|
    ensures A == B
  {
    if A != B {
      var x :| x in B && x !in A;
      ProperSubsetSmaller(A, B, x);
    }
  }

  /** The sorted tuple of a set of valid indexes is one of its size's combinations. */
  lemma AscendingCombo(S: set<nat>, n: nat)
    requires forall j :: j in S ==> j < n
    ensures Rem(Ascending(S, n)) == S && |S| <= n
    ensures Ascending(S, n) in Combos(0, n, |S|)
  {
    var idx := Ascending(S, n);
    assert Rem(idx) == S;
    assert forall t :: 0 <= t < |idx| ==> idx[t] in idx;
    IncreasingCard(idx);
    CombosComplete(0, n, idx);
  }

  // ---------------------------------------------------------------------------
  // The loops over sizes and combinations
  // ---------------------------------------------------------------------------

  /**
   * At one size, the remainders are exactly the sets of the tuples the test
   * rejects: a tuple is only ever skipped when its own set is already listed.
   */
  lemma {:induction false} ScanSpec(test: seq<nat> -> bool, n: nat, k: nat, cs: seq<seq<nat>>)
    requires forall idx :: idx in cs ==> IsCombo(idx, 0, n, k)
    ensures forall R :: R in Scan(test, [], cs) ==>
      |R| == k && exists idx :: idx in cs && R == Rem(idx) && !test(idx)
    ensures forall idx :: idx in cs && !test(idx) ==> Rem(idx) in Scan(test, [], cs)
    decreases |cs|
  {
    if cs != [] {
      var init := cs[..|cs| - 1];
      var last := cs[|cs| - 1];
      assert forall idx :: idx in cs <==> idx in init || idx == last;
      ScanSpec(test, n, k, init);
      var found := Scan(test, [], init);
      assert last in cs;
      IncreasingCard(last);
      if Covered(found, last) {
        var R0 :| R0 in found && Rem(last) <= R0;
        SameSizeSubset(Rem(last), R0);
      }
    }
  }

  /** Where the search over sizes stops: the first size, from the top, with a remainder. */
  lemma {:induction false} SearchLevel(level: nat -> seq<set<nat>>, m: nat, R: set<nat>) returns (k: nat)
    requires R in Search(level, m)
    ensures 1 <= k <= m && Search(level, m) == level(k)
    ensures forall k' :: k < k' <= m ==> level(k') == []
    decreases m
  {
    if level(m) != [] {
      k := m;
    } else {
      k := SearchLevel(level, m - 1, R);
    }
  }

  /** A search that finds nothing met only empty sizes. */
  lemma {:induction false} SearchEmpty(level: nat -> seq<set<nat>>, m: nat)
    requires Search(level, m) == []
    ensures forall k :: 1 <= k <= m ==> level(k) == []
    decreases m
  {
    if m > 0 {
      SearchEmpty(level, m - 1);
    }
  }

  /** At a size with no remainder, every combination of that size entails `phi`. */
  lemma EmptyLevelEntails(bs: seq<Entry>, phi: Formula, S: set<nat>)
    requires forall j :: j in S ==> j < |bs|
    requires Level(Tester(bs, phi), |bs|, |S|) == []
    ensures SetEntailed(bs, S, phi)
  {
    var n := |bs|;
    var idx := Ascending(S, n);
    AscendingCombo(S, n);
    ScanSpec(Tester(bs, phi), n, |S|, Combos(0, n, |S|));
    assert Tester(bs, phi)(idx) == SubsetEntails(bs, idx, phi);
    SubsetEntailsSound(bs, idx, phi);
  }

  /** A remainder is the set of a non-entailing tuple of the size where the search stopped. */
  lemma RemainderWitness(bs: seq<Entry>, phi: Formula, R: set<nat>) returns (idx: seq<nat>)
    requires R in Remainders(bs, phi)
    ensures idx in Combos(0, |bs|, |R|) && Within(idx, |bs|) && R == Rem(idx)
    ensures !SubsetEntails(bs, idx, phi)
    ensures 1 <= |R| && Remainders(bs, phi) == Level(Tester(bs, phi), |bs|, |R|)
    ensures forall k :: |R| < k <= |bs| ==> Level(Tester(bs, phi), |bs|, k) == []
  {
    var test := Tester(bs, phi);
    var level := Levels(test, |bs|);
    var k := SearchLevel(level, |bs|, R);
    assert level(k) == Level(test, |bs|, k);
    forall k' | k < k' <= |bs| ensures Level(test, |bs|, k') == [] {
      assert level(k') == Level(test, |bs|, k');
    }
    ScanSpec(test, |bs|, k, Combos(0, |bs|, k));
    idx :| idx in Combos(0, |bs|, k) && R == Rem(idx) && !test(idx);
    assert test(idx) == SubsetEntails(bs, idx, phi);
  }

  // ---------------------------------------------------------------------------
  // What the remainders are
  // ---------------------------------------------------------------------------

  /** Every remainder is a non-empty set of valid indexes. */
  lemma RemaindersWithin(bs: seq<Entry>, phi: Formula, R: set<nat>)
    requires R in Remainders(bs, phi)
    ensures R != {} && forall j :: j in R ==> j < |bs|
  {
    var idx := RemainderWitness(bs, phi, R);
  }

  /** Every index set larger than a remainder entails `phi`: remainders have the largest size. */
  lemma LargerSetsEntail(bs: seq<Entry>, phi: Formula, R: set<nat>, S: set<nat>)
    requires R in Remainders(bs, phi)
    requires forall j :: j in S ==> j < |bs|
    requires |S| > |R|
    ensures SetEntailed(bs, S, phi)
  {
    var _ := RemainderWitness(bs, phi, R);
    AscendingCombo(S, |bs|);
    EmptyLevelEntails(bs, phi, S);
  }

  /** Adding any other belief to a remainder entails `phi`. */
  lemma RemaindersMaximal(bs: seq<Entry>, phi: Formula, R: set<nat>, j: nat)
    requires R in Remainders(bs, phi) && j < |bs| && j !in R
    ensures SetEntailed(bs, R + {j}, phi)
  {
    RemaindersWithin(bs, phi, R);
    LargerSetsEntail(bs, phi, R, R + {j});
  }

  /** Every non-entailing index set of a remainder's size is itself a remainder. */
  lemma RemaindersComplete(bs: seq<Entry>, phi: Formula, R: set<nat>, S: set<nat>)
    requires R in Remainders(bs, phi)
    requires forall j :: j in S ==> j < |bs|
    requires |S| == |R| && !SetEntailed(bs, S, phi)
    ensures S in Remainders(bs, phi)
  {
    var n := |bs|;
    var _ := RemainderWitness(bs, phi, R);
    var idx := Ascending(S, n);
    AscendingCombo(S, n);
    SubsetEntailsSound(bs, idx, phi);
    assert Tester(bs, phi)(idx) == SubsetEntails(bs, idx, phi);
    ScanSpec(Tester(bs, phi), n, |S|, Combos(0, n, |S|));
  }

  /** Without empty And or Or, the beliefs of a remainder do not entail `phi`. */
  lemma RemaindersNotEntailing(bs: seq<Entry>, phi: Formula, R: set<nat>)
    requires R in Remainders(bs, phi)
    requires NoEmptyJunctionsIn(bs) && NoEmptyJunctions(phi)
    ensures !SetEntailed(bs, R, phi)
  {
    var idx := RemainderWitness(bs, phi, R);
    SubsetEntailsExact(bs, idx, phi);
  }

  /** There is no remainder exactly when every single belief entails `phi`. */
  lemma NoRemaindersExact(bs: seq<Entry>, phi: Formula)
    requires NoEmptyJunctionsIn(bs) && NoEmptyJunctions(phi)
    ensures Remainders(bs, phi) == [] <==> forall j :: 0 <= j < |bs| ==> SetEntailed(bs, {j}, phi)
  {
    var n := |bs|;
    if Remainders(bs, phi) == [] {
      var level := Levels(Tester(bs, phi), n);
      SearchEmpty(level, n);
      forall j | 0 <= j < n ensures SetEntailed(bs, {j}, phi) {
        assert |{j}| == 1 && level(1) == Level(Tester(bs, phi), n, 1);
        EmptyLevelEntails(bs, phi, {j});
      }
    } else {
      var R := Remainders(bs, phi)[0];
      RemaindersWithin(bs, phi, R);
      RemaindersNotEntailing(bs, phi, R);
      var j :| j in R;
      SetEntailedMono(bs, {j}, R, phi);
    }
  }
}
