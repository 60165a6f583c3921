/**
 * The belief base of Belief_base/belief_base.py: a list of (formula,
 * priority) entries kept in descending priority order, the maximal subsets
 * that do not entail a formula (`compute_remainders`), and the selection and
 * intersection of remainders used by partial meet contraction.
 */
module BeliefBases {
  import opened Results
  import opened Formulas
  import opened Cnf
  import opened Clauses
  import opened Resolution

  /** One stored belief: a formula in CNF and its priority (higher is more important). */
  datatype Entry = Entry(formula: Formula, priority: int)

  /** Priorities never increase along the list. */
  predicate SortedByPriority(bs: seq<Entry>) {
    forall i, j :: 0 <= i < j < |bs| ==> bs[i].priority >= bs[j].priority
  }

  /** The entries of priority `k`, in list order. */
  function WithPriority(bs: seq<Entry>, k: int): seq<Entry> {
    if bs == [] then []
    else (if bs[0].priority == k then [bs[0]] else []) + WithPriority(bs[1..], k)
  }

  /**
   * What a stable sort by descending priority of `xs` yields: sorted, the
   * same entries, and entries of equal priority in their original order.
   */
  ghost predicate StableSortOf(r: seq<Entry>, xs: seq<Entry>) {
    SortedByPriority(r) && multiset(r) == multiset(xs) &&
    forall k :: WithPriority(r, k) == WithPriority(xs, k)
  }

  /** The number of leading entries that stay ahead of a new entry of priority `p`. */
  function Cut(bs: seq<Entry>, p: int): (m: nat)
    ensures m <= |bs|
    ensures forall i :: m <= i < |bs| ==> bs[i].priority < p
    ensures m > 0 ==> bs[m - 1].priority >= p
  {
    if bs == [] then 0
    else if bs[|bs| - 1].priority >= p then |bs|
    else Cut(bs[..|bs| - 1], p)
  }

  /**
   * `add`'s append followed by the stable sort, on a list already sorted:
   * the new entry goes after every entry of priority at least its own.
   */
  function Insert(bs: seq<Entry>, e: Entry): seq<Entry> {
    var m := Cut(bs, e.priority);
    bs[..m] + [e] + bs[m..]
  }

  lemma {:induction false} WithPriorityAppend(xs: seq<Entry>, ys: seq<Entry>, k: int)
    ensures WithPriority(xs + ys, k) == WithPriority(xs, k) + WithPriority(ys, k)
    decreases |xs|
  {
    if xs == [] {
      assert xs + ys == ys;
    } else {
      WithPriorityAppend(xs[1..], ys, k);
      WithPriorityAppendStep(xs, ys, k);
    }
  }

  lemma WithPriorityAppendStep(xs: seq<Entry>, ys: seq<Entry>, k: int)
    requires xs != [] && WithPriority(xs[1..] + ys, k) == WithPriority(xs[1..], k) + WithPriority(ys, k)
    ensures WithPriority(xs + ys, k) == WithPriority(xs, k) + WithPriority(ys, k)
  {
    var head := if xs[0].priority == k then [xs[0]] else [];
    var zs := xs + ys;
    assert zs != [] && zs[0] == xs[0] && zs[1..] == xs[1..] + ys;
    assert WithPriority(zs, k) == head + WithPriority(xs[1..] + ys, k);
    assert WithPriority(xs, k) == head + WithPriority(xs[1..], k);
    AppendAssociative(head, WithPriority(xs[1..], k), WithPriority(ys, k));
  }

  lemma AppendAssociative<T>(a: seq<T>, b: seq<T>, c: seq<T>)
    ensures a + (b + c) == (a + b) + c
  {
  }

  lemma {:induction false} WithPriorityNone(xs: seq<Entry>, k: int)
    requires forall i :: 0 <= i < |xs| ==> xs[i].priority < k
    ensures WithPriority(xs, k) == []
    decreases |xs|
  {
    if xs != [] {
      WithPriorityNone(xs[1..], k);
    }
  }

  lemma InsertSorted(bs: seq<Entry>, e: Entry)
    requires SortedByPriority(bs)
    ensures SortedByPriority(Insert(bs, e))
  {
    var m := Cut(bs, e.priority);
    var r := Insert(bs, e);
    forall i, j | 0 <= i < j < |r| ensures r[i].priority >= r[j].priority {
      if i < m && j == m {
        assert r[i] == bs[i];
        assert bs[i].priority >= bs[m - 1].priority;
      } else if i < m {
        assert r[i] == bs[i];
        assert r[j] == bs[j - 1] || r[j] == bs[j];
      } else if i == m {
        assert r[j] == bs[j - 1];
      } else {
        assert r[i] == bs[i - 1] && r[j] == bs[j - 1];
      }
    }
  }

  lemma InsertWithPriority(bs: seq<Entry>, e: Entry, k: int)
    ensures WithPriority(Insert(bs, e), k) == WithPriority(bs + [e], k)
  {
    var m := Cut(bs, e.priority);
    var front, back := bs[..m], bs[m..];
    assert bs == front + back;
    WithPriorityAppend(front + [e], back, k);
    WithPriorityAppend(front, [e], k);
    WithPriorityAppend(front, back, k);
    WithPriorityAppend(bs, [e], k);
    if k == e.priority {
      WithPriorityNone(back, k);
    } else {
      assert WithPriority([e], k) == [] by {
        assert [e][1..] == [];
      }
    }
    SwapEmpty(WithPriority(front, k), WithPriority(back, k), WithPriority([e], k));
  }

  /** Two pieces, one of them empty, may follow the first in either order. */
  lemma SwapEmpty<T>(a: seq<T>, b: seq<T>, c: seq<T>)
    requires b == [] || c == []
    ensures (a + c) + b == (a + b) + c
  {
  }

  /** Insertion is the stable descending sort of the list with the entry appended. */
  lemma InsertIsStableSort(bs: seq<Entry>, e: Entry)
    requires SortedByPriority(bs)
    ensures StableSortOf(Insert(bs, e), bs + [e])
  {
    InsertSorted(bs, e);
    InsertPermutes(bs, Cut(bs, e.priority), e);
    forall k ensures WithPriority(Insert(bs, e), k) == WithPriority(bs + [e], k) {
      InsertWithPriority(bs, e, k);
    }
  }

  /** Putting an element at any position is a permutation of appending it. */
  lemma InsertPermutes<T>(xs: seq<T>, m: nat, x: T)
    requires m <= |xs|
    ensures multiset(xs[..m] + [x] + xs[m..]) == multiset(xs + [x])
  {
    assert xs == xs[..m] + xs[m..];
  }

  /** The formulas of the entries, in order (`get_beliefs`). */
  function BeliefFormulas(bs: seq<Entry>): (fs: seq<Formula>)
    ensures |fs| == |bs| && forall i :: 0 <= i < |bs| ==> fs[i] == bs[i].formula
  {
    seq(|bs|, i requires 0 <= i < |bs| => bs[i].formula)
  }

  /** The entries whose formula is not equal, in the source's sense, to `f`. */
  function Removed(bs: seq<Entry>, f: Formula): seq<Entry> {
    if bs == [] then []
    else (if FEq(bs[0].formula, f) then [] else [bs[0]]) + Removed(bs[1..], f)
  }

  lemma {:induction false} RemovedMembers(bs: seq<Entry>, f: Formula)
    ensures forall e :: e in Removed(bs, f) <==> e in bs && !FEq(e.formula, f)
    decreases |bs|
  {
    if bs != [] {
      RemovedMembers(bs[1..], f);
      assert forall e :: e in bs <==> e == bs[0] || e in bs[1..];
    }
  }

  /** Removal keeps the surviving entries in their order, so the list stays sorted. */
  lemma {:induction false} RemovedSorted(bs: seq<Entry>, f: Formula)
    requires SortedByPriority(bs)
    ensures SortedByPriority(Removed(bs, f))
    decreases |bs|
  {
    if bs != [] {
      RemovedSorted(bs[1..], f);
      RemovedMembers(bs[1..], f);
      var rest := Removed(bs[1..], f);
      forall e | e in rest ensures bs[0].priority >= e.priority {
        var j :| 0 <= j < |bs[1..]| && bs[1..][j] == e;
        assert bs[j + 1] == e;
      }
    }
  }

  /** Removing twice removes nothing more. */
  lemma {:induction false} RemovedIdempotent(bs: seq<Entry>, f: Formula)
    ensures Removed(Removed(bs, f), f) == Removed(bs, f)
    decreases |bs|
  {
    if bs != [] {
      RemovedIdempotent(bs[1..], f);
      var head := if FEq(bs[0].formula, f) then [] else [bs[0]];
      RemovedAppend(head, Removed(bs[1..], f), f);
      if head != [] {
        assert head[1..] == [];
        assert Removed(head, f) == head;
      }
    }
  }

  lemma {:induction false} RemovedAppend(xs: seq<Entry>, ys: seq<Entry>, f: Formula)
    ensures Removed(xs + ys, f) == Removed(xs, f) + Removed(ys, f)
    decreases |xs|
  {
    if xs == [] {
      assert xs + ys == ys;
    } else {
      assert (xs + ys)[0] == xs[0];
      assert (xs + ys)[1..] == xs[1..] + ys;
      RemovedAppend(xs[1..], ys, f);
    }
  }

  /** Every stored formula is the output of the CNF conversion's shape. */
  predicate AllCnf(bs: seq<Entry>) {
    forall i :: 0 <= i < |bs| ==> IsCnfShape(bs[i].formula)
  }

  /** The entry that `add` stores for `e`: its formula converted once more. */
  function Converted(e: Entry): Entry {
    Entry(ToCnf(e.formula), e.priority)
  }

  /**
   * The entries of a fresh base after adding `bs[idx[0]]`, `bs[idx[1]]`, …
   * in that order.
   */
  function Added(bs: seq<Entry>, idx: seq<nat>): seq<Entry>
    requires Within(idx, |bs|)
  {
    if idx == [] then []
    else Insert(Added(bs, idx[..|idx| - 1]), Converted(bs[idx[|idx| - 1]]))
  }

  // ---------------------------------------------------------------------------
  // Index subsets
  // ---------------------------------------------------------------------------

  /** Every index of `idx` is below `n`. */
  predicate Within(idx: seq<nat>, n: nat) {
    forall t :: 0 <= t < |idx| ==> idx[t] < n
  }

  /** Strictly increasing, as every tuple `itertools.combinations` yields. */
  predicate Increasing(idx: seq<nat>) {
    forall s, t :: 0 <= s < t < |idx| ==> idx[s] < idx[t]
  }

  /** The indexes of a tuple as a set (`set(indexes)`). */
  function Rem(idx: seq<nat>): set<nat> {
    set j | j in idx
  }

  function Prepend(x: nat, css: seq<seq<nat>>): (r: seq<seq<nat>>)
    ensures |r| == |css| && forall t :: 0 <= t < |css| ==> r[t] == [x] + css[t]
  {
    seq(|css|, t requires 0 <= t < |css| => [x] + css[t])
  }

  /** A `k`-element combination of `lo`, ..., `n - 1`, listed in increasing order. */
  predicate IsCombo(idx: seq<nat>, lo: nat, n: nat, k: nat) {
    |idx| == k && Increasing(idx) && Within(idx, n) &&
    forall t :: 0 <= t < |idx| ==> lo <= idx[t]
  }

  lemma PrependCombo(x: nat, idx: seq<nat>, n: nat, k: nat)
    requires x < n && IsCombo(idx, x + 1, n, k)
    ensures IsCombo([x] + idx, x, n, k + 1)
  {
    var r := [x] + idx;
    forall s, t | 0 <= s < t < |r| ensures r[s] < r[t] {
      assert r[t] == idx[t - 1];
      if s > 0 {
        assert r[s] == idx[s - 1];
      }
    }
  }

  /**
   * The `k`-element combinations of `lo`, ..., `n - 1` in lexicographic
   * order: `combinations(range(lo, n), k)`.
   */
  function Combos(lo: nat, n: nat, k: nat): (cs: seq<seq<nat>>)
    ensures forall idx :: idx in cs ==> IsCombo(idx, lo, n, k)
    decreases n - lo
  {
    if k == 0 then [[]]
    else if lo >= n then []
    else
      var first := Combos(lo + 1, n, k - 1);
      var rest := Combos(lo + 1, n, k);
      assert forall idx :: idx in Prepend(lo, first) ==> IsCombo(idx, lo, n, k) by {
        forall idx | idx in Prepend(lo, first) ensures IsCombo(idx, lo, n, k) {
          var t :| 0 <= t < |first| && Prepend(lo, first)[t] == idx;
          assert first[t] in first;
          PrependCombo(lo, first[t], n, k - 1);
        }
      }
      Prepend(lo, first) + rest
  }

  /** The members of `S` below `n`, in increasing order (`sorted`). */
  function Ascending(S: set<nat>, n: nat): (r: seq<nat>)
    ensures Increasing(r) && |r| <= n && Within(r, n)
    ensures forall j :: j in r <==> j in S && j < n
  {
    if n == 0 then []
    else
      var init := Ascending(S, n - 1);
      var r := init + (if n - 1 in S then [n - 1] else []);
      assert forall s, t :: 0 <= s < t < |r| ==> r[s] < r[t] by {
        forall s, t | 0 <= s < t < |r| ensures r[s] < r[t] {
          assert r[s] == init[s];
          if t >= |init| {
            assert init[s] in init;
          }
        }
      }
      r
  }

  // ---------------------------------------------------------------------------
  // The remainders, as compute_remainders finds them
  // ---------------------------------------------------------------------------

  /** The beliefs picked by `idx`, added to a fresh base, entail `phi`. */
  predicate SubsetEntails(bs: seq<Entry>, idx: seq<nat>, phi: Formula)
    requires Within(idx, |bs|)
  {
    Entails(BeliefFormulas(Added(bs, idx)), phi) == Ok(true)
  }

  /** `test` answers exactly the entailment question for every tuple of valid indexes. */
  ghost predicate Decides(test: seq<nat> -> bool, bs: seq<Entry>, phi: Formula) {
    forall idx {:trigger SubsetEntails(bs, idx, phi)} :: Within(idx, |bs|) ==>
      (test(idx) <==> SubsetEntails(bs, idx, phi))
  }

  /**
   * The entailment test of `compute_remainders` as a value: for every tuple of
   * valid indexes, whether the beliefs it picks entail `phi`. Only that is
   * known of it, so reasoning about the loops never unfolds the test itself.
   */
  ghost function Tester(bs: seq<Entry>, phi: Formula): (test: seq<nat> -> bool)
    ensures Decides(test, bs, phi)
  {
    TesterExists(bs, phi);
    var test: seq<nat> -> bool :| Decides(test, bs, phi);
    test
  }

  lemma TesterExists(bs: seq<Entry>, phi: Formula)
    ensures exists test :: Decides(test, bs, phi)
  {
    var direct := (idx: seq<nat>) => Within(idx, |bs|) && SubsetEntails(bs, idx, phi);
    assert Decides(direct, bs, phi);
  }

  /** Some remainder found so far already contains the tuple. */
  predicate Covered(found: seq<set<nat>>, idx: seq<nat>) {
    exists R :: R in found && Rem(idx) <= R
  }

  /** One iteration of the inner loop over the combinations, with `test` deciding entailment. */
  function Visit(test: seq<nat> -> bool, found: seq<set<nat>>, idx: seq<nat>): seq<set<nat>> {
    if Covered(found, idx) then found
    else if test(idx) then found
    else found + [Rem(idx)]
  }

  /** The remainders after visiting the tuples of `cs` in order. */
  function Scan(test: seq<nat> -> bool, found: seq<set<nat>>, cs: seq<seq<nat>>): seq<set<nat>> {
    if cs == [] then found
    else Visit(test, Scan(test, found, cs[..|cs| - 1]), cs[|cs| - 1])
  }

  /** What the size `k` contributes among `n` beliefs, starting from no remainders. */
  function Level(test: seq<nat> -> bool, n: nat, k: nat): seq<set<nat>> {
    Scan(test, [], Combos(0, n, k))
  }

  /** What each size contributes among `n` beliefs, as a function of the size. */
  function Levels(test: seq<nat> -> bool, n: nat): nat -> seq<set<nat>> {
    k => Level(test, n, k)
  }

  /** The sizes `k`, `k - 1`, ..., 1 tried in turn until one yields a remainder. */
  function Search(level: nat -> seq<set<nat>>, k: nat): seq<set<nat>> {
    if k == 0 then []
    else if level(k) != [] then level(k)
    else Search(level, k - 1)
  }

  /** The result of `compute_remainders(phi)` on a base holding `bs`. */
  ghost function Remainders(bs: seq<Entry>, phi: Formula): seq<set<nat>> {
    Search(Levels(Tester(bs, phi), |bs|), |bs|)
  }

  // ---------------------------------------------------------------------------
  // Selection and intersection
  // ---------------------------------------------------------------------------

  /** The priorities of the entries, in order. */
  function Priorities(bs: seq<Entry>): (pr: seq<int>)
    ensures |pr| == |bs| && forall i :: 0 <= i < |bs| ==> pr[i] == bs[i].priority
  {
    seq(|bs|, i requires 0 <= i < |bs| => bs[i].priority)
  }

  /** The sum of the priorities of the indexes of `R` below `m`. */
  function ScoreBelow(R: set<nat>, pr: seq<int>, m: nat): int
    requires m <= |pr|
  {
    if m == 0 then 0
    else ScoreBelow(R, pr, m - 1) + (if m - 1 in R then pr[m - 1] else 0)
  }

  /** `sum(priorities[i] for i in rem)`, for a remainder of valid indexes. */
  function Score(R: set<nat>, pr: seq<int>): int {
    ScoreBelow(R, pr, |pr|)
  }

  /** The empty remainder scores 0. */
  lemma {:induction false} ScoreEmpty(pr: seq<int>, m: nat)
    requires m <= |pr|
    ensures ScoreBelow({}, pr, m) == 0
  {
    if m > 0 {
      ScoreEmpty(pr, m - 1);
    }
  }

  /** Adding an index to a remainder adds its priority to the score, once. */
  lemma {:induction false} ScoreAddIndex(R: set<nat>, pr: seq<int>, m: nat, i: nat)
    requires m <= |pr| && i < |pr| && i !in R
    ensures ScoreBelow(R + {i}, pr, m) == ScoreBelow(R, pr, m) + (if i < m then pr[i] else 0)
  {
    if m > 0 {
      ScoreAddIndex(R, pr, m - 1, i);
    }
  }

  /** The score is the sum of the priorities of the remainder's indexes. */
  lemma ScoreSum(R: set<nat>, pr: seq<int>, i: nat)
    requires i < |pr| && i !in R
    ensures Score({}, pr) == 0
    ensures Score(R + {i}, pr) == Score(R, pr) + pr[i]
  {
    ScoreEmpty(pr, |pr|);
    ScoreAddIndex(R, pr, |pr|, i);
  }

  /** `max(scores)`: the largest score of a remainder in `rs`. */
  function MaxScore(rs: seq<set<nat>>, pr: seq<int>): (m: int)
    requires rs != []
    ensures exists R :: R in rs && Score(R, pr) == m
    ensures forall R :: R in rs ==> Score(R, pr) <= m
  {
    if |rs| == 1 then Score(rs[0], pr)
    else
      var init := rs[..|rs| - 1];
      var m0 := MaxScore(init, pr);
      var s := Score(rs[|rs| - 1], pr);
      assert forall R :: R in rs ==> R in init || R == rs[|rs| - 1];
      if s > m0 then s else m0
  }

  /** The remainders of `rs` whose score is `m`, in order. */
  function WithScore(rs: seq<set<nat>>, pr: seq<int>, m: int): (sel: seq<set<nat>>)
    ensures forall R :: R in sel <==> R in rs && Score(R, pr) == m
  {
    if rs == [] then []
    else
      var init := rs[..|rs| - 1];
      var last := rs[|rs| - 1];
      assert forall R :: R in rs <==> R in init || R == last;
      WithScore(init, pr, m) + (if Score(last, pr) == m then [last] else [])
  }

  /**
   * `select_remainders`: the remainders of highest total priority. `max`
   * fails on no remainders, and every index must be a valid position.
   */
  function SelectRemainders(rs: seq<set<nat>>, pr: seq<int>): (sel: seq<set<nat>>)
    requires rs != []
    requires forall R, i :: R in rs && i in R ==> i < |pr|
    ensures sel != []
    ensures forall R :: R in sel <==>
      R in rs && forall R' :: R' in rs ==> Score(R', pr) <= Score(R, pr)
  {
    var m := MaxScore(rs, pr);
    var sel := WithScore(rs, pr, m);
    assert exists R :: R in rs && Score(R, pr) == m;
    var R :| R in rs && Score(R, pr) == m;
    assert R in sel;
    sel
  }

  /** `intersect_selected`: `reduce(and_, selected)`, or no index for no remainders. */
  function IntersectSelected(sel: seq<set<nat>>): (keep: set<nat>)
    ensures sel == [] ==> keep == {}
    ensures sel != [] ==> forall i :: i in keep <==> forall R :: R in sel ==> i in R
  {
    if sel == [] then {}
    else if |sel| == 1 then sel[0]
    else
      var init := sel[..|sel| - 1];
      assert forall R :: R in sel <==> R in init || R == sel[|sel| - 1];
      IntersectSelected(init) * sel[|sel| - 1]
  }

  /** Whether a fresh base holding the beliefs picked by `indexes` entails `phi`. */
  method TempBaseEntails(bs: seq<Entry>, indexes: seq<nat>, phi: Formula) returns (entailed: bool)
    requires Within(indexes, |bs|)
    ensures entailed == SubsetEntails(bs, indexes, phi)
  {
    var temp := new BeliefBase();
    var t := 0;
    while t < |indexes|
      invariant t <= |indexes|
      invariant temp.Valid() && temp.beliefs == Added(bs, indexes[..t])
    {
      assert indexes[..t + 1][..t] == indexes[..t];
      var e := bs[indexes[t]];
      temp.Add(e.formula, e.priority);
      t := t + 1;
    }
    assert indexes[..t] == indexes;
    var r := ResolutionEntails(temp.GetBeliefs(), phi);
    EntailsOk(temp.GetBeliefs(), phi);
    entailed := r.value;
  }

  /** The inner loop of `compute_remainders` for the size `k`, from no remainders. */
  method ScanLevel(bs: seq<Entry>, phi: Formula, k: nat) returns (remainders: seq<set<nat>>)
    ensures remainders == Level(Tester(bs, phi), |bs|, k)
  {
    var combos := Combos(0, |bs|, k);
    ghost var test := Tester(bs, phi);
    remainders := [];
    var j := 0;
    while j < |combos|
      invariant j <= |combos|
      invariant remainders == Scan(test, [], combos[..j])
    {
      var indexes := combos[j];
      assert indexes in combos;
      assert IsCombo(indexes, 0, |bs|, k);
      assert combos[..j + 1][..j] == combos[..j];
      remainders := VisitCombo(bs, phi, remainders, indexes);
      j := j + 1;
    }
    assert combos[..j] == combos;
  }

  /** One pass of the inner loop: skip a covered tuple, else test it and keep it if it fails. */
  method VisitCombo(bs: seq<Entry>, phi: Formula, found: seq<set<nat>>, indexes: seq<nat>)
    returns (remainders: seq<set<nat>>)
    requires Within(indexes, |bs|)
    ensures remainders == Visit(Tester(bs, phi), found, indexes)
  {
    remainders := found;
    if exists R :: R in remainders && Rem(indexes) <= R {
      return;
    }
    var entailed := TempBaseEntails(bs, indexes, phi);
    assert entailed == Tester(bs, phi)(indexes);
    if !entailed {
      remainders := remainders + [Rem(indexes)];
    }
  }

  class BeliefBase {
    var beliefs: seq<Entry>

    ghost predicate Valid()
      reads this
    {
      SortedByPriority(beliefs) && AllCnf(beliefs)
    }

    constructor()
      ensures Valid() && beliefs == []
    {
      beliefs := [];
    }

    /** Stores the CNF of `formula` with `priority`, keeping the list sorted by priority. */
    method Add(formula: Formula, priority: int := 0)
      requires Valid()
      modifies this
      ensures Valid()
      ensures beliefs == Insert(old(beliefs), Entry(ToCnf(formula), priority))
    {
      var cnfFormula := ToCnf(formula);
      InsertIsStableSort(beliefs, Entry(cnfFormula, priority));
      beliefs := Insert(beliefs, Entry(cnfFormula, priority));
    }

    function GetBeliefs(): (fs: seq<Formula>)
      reads this
      ensures |fs| == |beliefs| && forall i :: 0 <= i < |beliefs| ==> fs[i] == beliefs[i].formula
    {
      BeliefFormulas(beliefs)
    }

    function GetPrioritizedBeliefs(): (bs: seq<Entry>)
      reads this
      requires Valid()
      ensures SortedByPriority(bs) && AllCnf(bs)
    {
      beliefs
    }

    /** Drops every entry whose formula equals `formula`. */
    method Remove(formula: Formula)
      requires Valid()
      modifies this
      ensures Valid()
      ensures beliefs == Removed(old(beliefs), formula)
    {
      RemovedSorted(beliefs, formula);
      RemovedMembers(beliefs, formula);
      beliefs := Removed(beliefs, formula);
    }

    /** The maximal subsets of the base, as index sets, that do not entail `phi`. */
    method ComputeRemainders(phi: Formula) returns (remainders: seq<set<nat>>)
      requires Valid()
      ensures remainders == Remainders(beliefs, phi)
    {
      var bs := GetPrioritizedBeliefs();
      var n := |bs|;
      ghost var level := Levels(Tester(bs, phi), n);
      remainders := [];
      var k: nat := n;
      while k > 0
        invariant k <= n && remainders == []
        invariant Search(level, n) == Search(level, k)
      {
        remainders := ScanLevel(bs, phi, k);
        assert remainders == level(k);
        if remainders != [] {
          break;
        }
        k := k - 1;
      }
    }

    method Clear()
      modifies this
      ensures Valid() && beliefs == []
    {
      beliefs := [];
    }
  }
}
