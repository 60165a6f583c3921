# BeliefAgent core, modelled in Dafny

BeliefAgent is a propositional belief-revision agent. Its belief base holds
formulas together with integer priorities. Each formula is stored in
conjunctive normal form (CNF), and the list is kept sorted by priority,
highest first. The agent supports four operations:

- **ask:** does the base entail a query? This is decided by resolution
  refutation.
- **contract:** partial-meet contraction. The agent enumerates the remainders,
  which are the largest subsets of the base that do not entail the formula.
  It keeps the remainders with the highest total priority, intersects them,
  and rebuilds the base from what survives.
- **expand:** add a formula.
- **revise:** revision by the Levi identity, that is, contract by the negation
  and then expand.

A recursive-descent parser turns token sequences into formulas.

The model follows the shape of the code:

| module | file | models |
|---|---|---|
| `Formulas` | `formulas.dfy` | the formula tree, `evaluate`, `symbols` and the source's `==` (`FEq`) |
| `Cnf` | `cnf.dfy` | `to_cnf` of every connective, as the code computes it |
| `CnfMeaning` | `cnf_meaning.dfy` | what the conversion preserves |
| `Clauses` | `clauses.dfy` | literals and clauses, `is_tautology`, `extract_clauses`, `cnf_clauses_for_query` |
| `Resolution` | `resolution.dfy` | `resolution_entails`, with its soundness and completeness |
| `BeliefBases` | `belief_base.dfy` | the `BeliefBase` class, `compute_remainders`, `select_remainders`, `intersect_selected` |
| `RemainderProperties` | `remainders.dfy` | what the remainders are |
| `Agents` | `agent.dfy` | the `BeliefRevisionAgent` class, plus specification functions for contraction and revision and the AGM-style postulates they satisfy |
| `Parser` | `parser.dfy` | `parse_formula` and its nested levels |
| `ParserProperties` | `parser_properties.dfy` | a print–parse round trip, associativity, precedence |
| `EntailmentExamples` | `entailment_examples.dfy` | the test of the source, the counterexample under "Findings", and its effect on a contraction |
| `Results` | `results.dfy` | `Result`, standing for a raised `ValueError` |

The following are imperative in the source and modelled as methods with loop
invariants: the object state, the loops of `resolution_entails`,
`extract_clauses`, `compute_remainders` and `contract_partial_meet`, and the
loops of the parser. Each method is proved equal to a pure specification
function. The lemmas then state what those functions mean: truth under every
assignment, maximality, priority order.

## Model

Source paths are relative to the repository root.

| member | source | states |
|---|---|---|
| Formulas.Evaluate | BeliefAgent-main/Belief_base/formula.py:83-331 | the six `evaluate` methods: an atom missing from the assignment is false, an empty And is true and an empty Or false. Its partners: `EvaluateDependsOnlyOnSymbols`, `FEqSound` and `CnfMeaning.ToCnfPreservesMeaning` |
| Formulas.Symbols | BeliefAgent-main/Belief_base/formula.py:77-327 | the six `symbols` methods. Its partner `EvaluateDependsOnlyOnSymbols` shows that the truth value depends on these symbols only |
| Formulas.FEq | BeliefAgent-main/Belief_base/formula.py:66-320 | the six `__eq__` methods. Its partners `FEqReflexive`, `FEqSymmetric` and `FEqTransitive` make it an equivalence; `FEqSound` shows that equal formulas have the same truth value |
| Formulas.EvaluateDependsOnlyOnSymbols | BeliefAgent-main/Belief_base/formula.py:77-84 | a formula's truth value depends only on the atoms `symbols` returns; an atom missing from the assignment reads as false |
| Formulas.FEqReflexive | BeliefAgent-main/Belief_base/formula.py:66-69 | every formula equals itself under the source's `==` |
| Formulas.FEqSymmetric | BeliefAgent-main/Belief_base/formula.py:101-104 | the source's `==` is symmetric |
| Formulas.FEqTransitive | BeliefAgent-main/Belief_base/formula.py:206-209 | the source's `==` is transitive, including the set comparison of And/Or children |
| Formulas.FEqSound | BeliefAgent-main/Belief_base/formula.py:159-162 | formulas equal under `==` are true under exactly the same assignments |
| Formulas.SameMembersSound | BeliefAgent-main/Belief_base/formula.py:159-162 | And/Or children equal as sets give the same truth value |
| Formulas.CommutativeEquality | BeliefAgent-main/Belief_base/formula.py:315-318 | And and Or ignore the order and repetition of their children; Equiv(l, r) equals Equiv(r, l) |
| Cnf.ToCnf | BeliefAgent-main/Belief_base/formula.py:44-51 | the conversion terminates and yields clauses under (possibly nested) Ands |
| Cnf.NotToCnf | BeliefAgent-main/Belief_base/formula.py:123-146 | the CNF of a negation (De Morgan, double negation, negated → and ↔) has CNF shape |
| Cnf.AndToCnf | BeliefAgent-main/Belief_base/formula.py:178-194 | converting the children and splicing one level of nested And yields CNF shape |
| Cnf.OrToCnf | BeliefAgent-main/Belief_base/formula.py:225-237 | converting the children and splicing one level of nested Or yields CNF shape |
| Cnf.DistributeOr | BeliefAgent-main/Belief_base/formula.py:239-264 | distributing Or over the first And among the disjuncts yields CNF shape, and the recursion on the new Ors terminates |
| Cnf.CnfShapeIsNnf | BeliefAgent-main/Belief_base/formula.py:123-146 | a converted formula has negation only on atoms and no → or ↔ |
| Cnf.ToCnfOfClause | BeliefAgent-main/Belief_base/formula.py:225-241 | a clause is its own CNF |
| Cnf.ToCnfOfCnfShapeIsFlat | BeliefAgent-main/Belief_base/formula.py:184-194 | converting a formula of CNF shape again yields flat CNF: one clause, or an And of clauses |
| Cnf.ToCnfTwiceIsFlat | BeliefAgent-main/Belief_base/entailment.py:43-44 | the second conversion in `extract_clauses` always yields flat CNF |
| Cnf.ToCnfDoubleNegation | BeliefAgent-main/Belief_base/formula.py:125-130 | the CNF of ¬¬A is the CNF of A |
| CnfMeaning.ToCnfPreservesMeaning | BeliefAgent-main/Belief_base/formula.py:44-48 | the CNF of f is true under exactly the assignments that make f true |
| CnfMeaning.NotToCnfPreservesMeaning | BeliefAgent-main/Belief_base/formula.py:123-146 | the CNF of ¬g is true exactly when g is false |
| CnfMeaning.NegAndPreservesMeaning | BeliefAgent-main/Belief_base/formula.py:131-133 | De Morgan for ¬(A ∧ …) preserves the truth value |
| CnfMeaning.NegOrPreservesMeaning | BeliefAgent-main/Belief_base/formula.py:134-136 | De Morgan for ¬(A ∨ …) preserves the truth value |
| CnfMeaning.NegImpliesPreservesMeaning | BeliefAgent-main/Belief_base/formula.py:137-139 | ¬(A → B) becomes A ∧ ¬B with the same truth value |
| CnfMeaning.NegEquivPreservesMeaning | BeliefAgent-main/Belief_base/formula.py:140-143 | ¬(A ↔ B) becomes (A ∧ ¬B) ∨ (¬A ∧ B) with the same truth value |
| CnfMeaning.AndToCnfPreservesMeaning | BeliefAgent-main/Belief_base/formula.py:178-194 | the And conversion preserves the truth value |
| CnfMeaning.OrToCnfPreservesMeaning | BeliefAgent-main/Belief_base/formula.py:225-264 | the Or conversion preserves the truth value |
| CnfMeaning.DistributeOrPreservesMeaning | BeliefAgent-main/Belief_base/formula.py:239-264 | distribution preserves the truth value, although the other disjuncts are those not `==` to the chosen And |
| CnfMeaning.FlattenAndEval | BeliefAgent-main/Belief_base/formula.py:184-192 | splicing nested Ands preserves the truth value |
| CnfMeaning.FlattenOrEval | BeliefAgent-main/Belief_base/formula.py:231-237 | splicing nested Ors preserves the truth value |
| CnfMeaning.ToCnfNoEmpty | BeliefAgent-main/Belief_base/formula.py:49-51 | a formula with no empty And/Or converts to one with none |
| Clauses.Comp | BeliefAgent-main/Belief_base/entailment.py:143 | the complement of a literal has the same atom and the opposite sign |
| Clauses.TautologyAlwaysHolds | BeliefAgent-main/Belief_base/entailment.py:11-21 | a clause holding a literal and its complement is true under every assignment |
| Clauses.IsTautology | BeliefAgent-main/Belief_base/entailment.py:13-21 | the loop over the clause returns true exactly when some atom occurs with both signs |
| Clauses.LiteralOf | BeliefAgent-main/Belief_base/entailment.py:72-81 | succeeds exactly on an atom or a negated atom, and the literal is true exactly when the formula is; anything else fails with "Non literal in clause: " followed by `str(lit)` (`Formulas.Show`) |
| Clauses.LiteralsOf | BeliefAgent-main/Belief_base/entailment.py:69-84 | the literal set of one conjunct, or the error of its first non-literal disjunct. Its partners: `LiteralsOfSpec` (success exactly when every disjunct is a literal, with their set) and `LiteralsOfErrorPersists` |
| Clauses.ClausesOf | BeliefAgent-main/Belief_base/entailment.py:41-86 | `extract_clauses`: convert again, split the conjuncts, one clause each. Its partners: `ClausesOfMeaning` (the formula is true exactly when every clause is), `ClausesOfConverted` (never fails on a converted formula) and `ExtractClauses` (the loops compute it) |
| Clauses.LiteralsOfSpec | BeliefAgent-main/Belief_base/entailment.py:69-84 | the clause of a disjunct list exists exactly when every disjunct is a literal, and it is the set of their literals |
| Clauses.ClausesOfConjunctsSpec | BeliefAgent-main/Belief_base/entailment.py:47-86 | extraction succeeds exactly when every conjunct is a clause, and gives one clause per conjunct, in order |
| Clauses.ClauseOfMeaning | BeliefAgent-main/Belief_base/entailment.py:58-84 | a conjunct is true exactly when its extracted clause is |
| Clauses.ClausesOfMeaning | BeliefAgent-main/Belief_base/entailment.py:41-86 | a formula is true exactly when every clause extracted from it is |
| Clauses.ClausesOfCnfShape | BeliefAgent-main/Belief_base/entailment.py:41-86 | a formula of CNF shape never raises "Non literal in clause", and yields one clause per conjunct |
| Clauses.ClausesOfConverted | BeliefAgent-main/Belief_base/entailment.py:44 | extracting from any converted formula never raises |
| Clauses.ClausesOfNoEmpty | BeliefAgent-main/Belief_base/entailment.py:84 | with no empty Or, no extracted clause is empty |
| Clauses.LiteralsOfErrorPersists | BeliefAgent-main/Belief_base/entailment.py:79-81 | the first non-literal disjunct decides the error message, which names that disjunct |
| Clauses.ClausesOfConjunctsErrorPersists | BeliefAgent-main/Belief_base/entailment.py:59-81 | the first failing conjunct decides the error message, which names its first non-literal disjunct |
| Clauses.ExtractClauses | BeliefAgent-main/Belief_base/entailment.py:41-86 | the method with its loops computes the clause extraction, including its error |
| Clauses.ConjunctClauses | BeliefAgent-main/Belief_base/entailment.py:59-86 | the outer loop over the conjuncts computes their clauses |
| Clauses.DisjunctLiterals | BeliefAgent-main/Belief_base/entailment.py:62-84 | the inner loop over the disjuncts computes the clause, or the error naming the first non-literal disjunct |
| Clauses.WithoutTautologies | BeliefAgent-main/Belief_base/entailment.py:124-125 | the final filter of `cnf_clauses_for_query`. Its partner `WithoutTautologiesSpec` shows that it keeps exactly the clauses that are not tautologies |
| Clauses.WithoutTautologiesSpec | BeliefAgent-main/Belief_base/entailment.py:124-125 | the filter keeps exactly the clauses that are not tautologies |
| Clauses.BeliefClauses | BeliefAgent-main/Belief_base/entailment.py:105-107 | the clauses of every belief, concatenated in order. Its partners: `BeliefClausesOk`, `BeliefClausesMeaning` and `BeliefClausesMembers` |
| Clauses.BeliefClausesOk | BeliefAgent-main/Belief_base/entailment.py:105-107 | gathering the beliefs' clauses succeeds exactly when each belief's extraction does |
| Clauses.BeliefClausesMeaning | BeliefAgent-main/Belief_base/entailment.py:105-107 | the gathered clauses all hold exactly when every belief is true |
| Clauses.BeliefClausesMembers | BeliefAgent-main/Belief_base/entailment.py:105-107 | every gathered clause comes from one of the beliefs |
| Clauses.QueryClauses | BeliefAgent-main/Belief_base/entailment.py:96-125 | `cnf_clauses_for_query`. Its partners: `QueryClausesOk`, `QueryClausesMeaning`, `QueryClausesNoEmpty` and `CnfClausesForQuery` (the loop computes it) |
| Clauses.QueryClausesOk | BeliefAgent-main/Belief_base/entailment.py:96-125 | for a base of converted beliefs the query clauses never raise |
| Clauses.QueryClausesMeaning | BeliefAgent-main/Belief_base/entailment.py:96-125 | the query clauses all hold exactly when every belief is true and the query is false; none is a tautology |
| Clauses.QueryClausesNoEmpty | BeliefAgent-main/Belief_base/entailment.py:96-125 | with no empty And/Or anywhere, no query clause is empty |
| Clauses.CnfClausesForQuery | BeliefAgent-main/Belief_base/entailment.py:96-125 | the method with its loops computes the query clauses |
| Resolution.Resolvent | BeliefAgent-main/Belief_base/entailment.py:150 | `(C1 | C2) - {(sym, pos), comp}`. Its partner `ResolventSound` shows that it is true whenever both non-tautological parents are |
| Resolution.RawStep | BeliefAgent-main/Belief_base/entailment.py:138-156 | one pass as written: every resolvent of two distinct clauses, tautologies included. Its partner `EntailmentExamples.AsWrittenUnsound` shows that saturating with it is unsound |
| Resolution.Step | BeliefAgent-main/Belief_base/entailment.py:138-156 | the corrected pass, which drops tautological resolvents. Its partners: `StepSound` (every model of the clauses survives a pass) and `ResolvePass` (the loops compute it) |
| Resolution.RefutesAsWritten | BeliefAgent-main/Belief_base/entailment.py:135-164 | the saturation loop as written: true on an empty resolvent, false when a pass adds nothing new. Its partner `EntailmentExamples.AsWrittenUnsound` gives a satisfiable clause set it refutes |
| Resolution.Refutes | BeliefAgent-main/Belief_base/entailment.py:135-164 | the corrected saturation loop. Its partners `RefutesSound` and `RefutesComplete`: true exactly when the clauses have no model |
| Resolution.CompInvolutive | BeliefAgent-main/Belief_base/entailment.py:143 | complementing twice gives the literal back |
| Resolution.PairResolventsSymmetric | BeliefAgent-main/Belief_base/entailment.py:138-156 | resolving C1 against C2 gives the same clauses as C2 against C1, so unordered pairs suffice |
| Resolution.ResolventSound | BeliefAgent-main/Belief_base/entailment.py:150 | a resolvent of two non-tautological true clauses is true |
| Resolution.StepSound | BeliefAgent-main/Belief_base/entailment.py:138-156 | one corrected pass keeps every model of the clauses |
| Resolution.GrowthMeasure | BeliefAgent-main/Belief_base/entailment.py:158-164 | a pass that adds something new shrinks the set of possible clauses not yet present, so the loop ends |
| Resolution.RefutesSound | BeliefAgent-main/Belief_base/entailment.py:151-154 | reaching the empty clause means no assignment satisfies the clauses |
| Resolution.SaturatedSatisfiable | BeliefAgent-main/Belief_base/entailment.py:158-161 | a set closed under the corrected pass, without the empty clause, has a model |
| Resolution.ExtendModel | BeliefAgent-main/Belief_base/entailment.py:158-161 | a model of the clauses avoiding one atom extends to all clauses of a saturated set |
| Resolution.RefutesComplete | BeliefAgent-main/Belief_base/entailment.py:158-161 | if saturation never reaches the empty clause, the clauses have a model |
| Resolution.Entails | BeliefAgent-main/Belief_base/entailment.py:128-164 | `resolution_entails` with the corrected pass. Its partners: `EntailsSound`, `EntailsExact`, `EntailsOk` and `ResolutionEntails` (the method computes it) |
| Resolution.EntailsAsWritten | BeliefAgent-main/Belief_base/entailment.py:128-164 | `resolution_entails` as written. Its partner `EntailmentExamples.AsWrittenUnsound` shows a true answer for a query that does not follow |
| Resolution.EntailsSound | BeliefAgent-main/Belief_base/entailment.py:128-164 | a true answer means every model of the beliefs makes the query true |
| Resolution.EntailsExact | BeliefAgent-main/Belief_base/entailment.py:128-164 | with no empty And/Or, the answer is true exactly when the beliefs entail the query |
| Resolution.EntailsOk | BeliefAgent-main/Belief_base/entailment.py:79-81 | for converted beliefs, entailment never raises |
| Resolution.ResolvePair | BeliefAgent-main/Belief_base/entailment.py:141-156 | the loop over C1's literals finds the empty resolvent if there is one, else the non-tautological resolvents |
| Resolution.ResolveWith | BeliefAgent-main/Belief_base/entailment.py:138-156 | the loop over partners collects one clause's resolvents |
| Resolution.ResolvePass | BeliefAgent-main/Belief_base/entailment.py:138-156 | the loop over all pairs stops on the empty clause, else returns the pass |
| Resolution.SaturationPass | BeliefAgent-main/Belief_base/entailment.py:158-164 | adding a pass's new clauses keeps the answer and decreases the measure |
| Resolution.ResolutionEntails | BeliefAgent-main/Belief_base/entailment.py:128-164 | the saturation loop returns the corrected entailment answer |
| BeliefBases.Insert | BeliefAgent-main/Belief_base/belief_base.py:16-23 | `add` appends and stable-sorts by priority, modelled as an insertion at the cut. Its partners: `Cut`, `InsertSorted` and `InsertIsStableSort` |
| BeliefBases.Cut | BeliefAgent-main/Belief_base/belief_base.py:22-23 | the insertion point: everything after it has lower priority, the entry before it has at least the new priority |
| BeliefBases.InsertSorted | BeliefAgent-main/Belief_base/belief_base.py:22-23 | inserting keeps the list sorted by priority, highest first |
| BeliefBases.InsertIsStableSort | BeliefAgent-main/Belief_base/belief_base.py:20-23 | inserting equals appending and then stable-sorting: sorted, a permutation, equal priorities in their original order |
| BeliefBases.Removed | BeliefAgent-main/Belief_base/belief_base.py:39-41 | the comprehension of `remove`. Its partners: `RemovedMembers`, `RemovedSorted`, `RemovedIdempotent` and `RemovedAppend` |
| BeliefBases.RemovedMembers | BeliefAgent-main/Belief_base/belief_base.py:39-41 | removal keeps exactly the entries whose formula is not `==` the argument |
| BeliefBases.RemovedSorted | BeliefAgent-main/Belief_base/belief_base.py:39-41 | removal keeps the priority order |
| BeliefBases.RemovedIdempotent | BeliefAgent-main/Belief_base/belief_base.py:39-41 | removing twice is removing once |
| BeliefBases.RemovedAppend | BeliefAgent-main/Belief_base/belief_base.py:39-41 | removal acts on each entry independently |
| BeliefBases.BeliefBase.constructor | BeliefAgent-main/Belief_base/belief_base.py:12-14 | a new base is empty |
| BeliefBases.BeliefBase.Add | BeliefAgent-main/Belief_base/belief_base.py:16-23 | stores the CNF at its place in priority order (the invariant is kept) |
| BeliefBases.BeliefBase.GetBeliefs | BeliefAgent-main/Belief_base/belief_base.py:25-27 | the formulas without priorities, in order |
| BeliefBases.BeliefBase.GetPrioritizedBeliefs | BeliefAgent-main/Belief_base/belief_base.py:29-31 | the entries, sorted by priority and in CNF shape |
| BeliefBases.BeliefBase.Remove | BeliefAgent-main/Belief_base/belief_base.py:39-41 | the new list is the old one without the entries `==` the formula |
| BeliefBases.BeliefBase.Clear | BeliefAgent-main/Belief_base/belief_base.py:43-45 | the base becomes empty |
| BeliefBases.Combos | BeliefAgent-main/Belief_base/belief_base.py:61 | every tuple enumerated has k strictly increasing valid indexes |
| BeliefBases.Ascending | BeliefAgent-main/Agent/agent.py:48 | `sorted(keep_indexes)`: increasing, holding exactly the valid members of the set |
| BeliefBases.TempBaseEntails | BeliefAgent-main/Belief_base/belief_base.py:68-76 | building the temporary base and asking it gives the entailment answer for that subset |
| BeliefBases.VisitCombo | BeliefAgent-main/Belief_base/belief_base.py:62-77 | one inner iteration: skip a covered tuple, else keep it when it does not entail |
| BeliefBases.ScanLevel | BeliefAgent-main/Belief_base/belief_base.py:61-77 | the inner loop computes the remainders of one size |
| BeliefBases.Remainders | BeliefAgent-main/Belief_base/belief_base.py:49-82 | `compute_remainders` as a value. Its partners: `BeliefBase.ComputeRemainders` (the loops compute it) and the lemmas of `RemainderProperties` (`RemaindersWithin`, `LargerSetsEntail`, `RemaindersMaximal`, `RemaindersComplete`, `RemaindersNotEntailing`, `NoRemaindersExact`) |
| BeliefBases.BeliefBase.ComputeRemainders | BeliefAgent-main/Belief_base/belief_base.py:49-82 | the outer loop descends from n and stops at the first size that yields a remainder |
| BeliefBases.Priorities | BeliefAgent-main/Agent/agent.py:32 | one priority per entry, in the order of the base |
| BeliefBases.Score | BeliefAgent-main/Belief_base/belief_base.py:89 | `sum(priorities[i] for i in rem)`. Its partner is `ScoreSum` |
| BeliefBases.ScoreSum | BeliefAgent-main/Belief_base/belief_base.py:89 | the empty remainder scores 0, and adding a valid index adds its priority exactly once: the score is the sum of the remainder's priorities |
| BeliefBases.MaxScore | BeliefAgent-main/Belief_base/belief_base.py:89-91 | the maximum score is reached by some remainder and bounds all of them |
| BeliefBases.WithScore | BeliefAgent-main/Belief_base/belief_base.py:93 | keeps exactly the remainders with the given score |
| BeliefBases.SelectRemainders | BeliefAgent-main/Belief_base/belief_base.py:86-93 | not empty, and holds exactly the remainders whose score no other remainder exceeds |
| BeliefBases.IntersectSelected | BeliefAgent-main/Belief_base/belief_base.py:96-100 | empty for no selection, else exactly the indexes in every selected remainder |
| RemainderProperties.SubsetEntailsSound | BeliefAgent-main/Belief_base/belief_base.py:68-76 | a subset the temporary base says entails phi does entail it |
| RemainderProperties.SubsetEntailsExact | BeliefAgent-main/Belief_base/belief_base.py:68-76 | with no empty And/Or, the test is exact |
| RemainderProperties.CombosComplete | BeliefAgent-main/Belief_base/belief_base.py:61 | every increasing tuple of k valid indexes is enumerated |
| RemainderProperties.IncreasingCard | BeliefAgent-main/Belief_base/belief_base.py:77 | an increasing tuple of k indexes gives a set of k indexes |
| RemainderProperties.AscendingCombo | BeliefAgent-main/Agent/agent.py:48 | sorting a set of valid indexes gives one of the enumerated tuples |
| RemainderProperties.ScanSpec | BeliefAgent-main/Belief_base/belief_base.py:61-77 | a level's remainders are exactly the non-entailing tuples of that size; the subsumption skip never drops one |
| RemainderProperties.SearchLevel | BeliefAgent-main/Belief_base/belief_base.py:59-80 | a non-empty result is the first non-empty level, all larger levels being empty |
| RemainderProperties.SearchEmpty | BeliefAgent-main/Belief_base/belief_base.py:59-80 | an empty result means every level was empty |
| RemainderProperties.RemainderWitness | BeliefAgent-main/Belief_base/belief_base.py:59-80 | each remainder comes from a non-entailing tuple of its size, and no larger size yielded one |
| RemainderProperties.RemaindersWithin | BeliefAgent-main/Belief_base/belief_base.py:59-77 | remainders are non-empty sets of valid indexes |
| RemainderProperties.LargerSetsEntail | BeliefAgent-main/Belief_base/belief_base.py:57-80 | every larger subset of the base entails phi |
| RemainderProperties.RemaindersMaximal | BeliefAgent-main/Belief_base/belief_base.py:47-48 | adding any other belief to a remainder makes it entail phi |
| RemainderProperties.RemaindersComplete | BeliefAgent-main/Belief_base/belief_base.py:61-77 | every non-entailing subset of a remainder's size is a remainder |
| RemainderProperties.RemaindersNotEntailing | BeliefAgent-main/Belief_base/belief_base.py:75-77 | with no empty And/Or, no remainder entails phi |
| RemainderProperties.NoRemaindersExact | BeliefAgent-main/Belief_base/belief_base.py:78-82 | no remainders exactly when every single belief entails phi |
| Agents.RemainderIndexesValid | BeliefAgent-main/Agent/agent.py:31-38 | the remainders index the base, as `select_remainders` needs |
| Agents.KeptIndexes | BeliefAgent-main/Agent/agent.py:38-42 | the kept indexes are those in every best-scoring remainder, and they lie inside one remainder |
| Agents.AddedInOrder | BeliefAgent-main/Agent/agent.py:53-55 | re-adding entries of a sorted base in index order rebuilds them in that order |
| Agents.InsertAtEnd | BeliefAgent-main/Belief_base/belief_base.py:21-23 | an entry of priority no higher than any other goes last |
| Agents.Contraction | BeliefAgent-main/Agent/agent.py:16-55 | the base after `contract_partial_meet`. Its partners: `ContractionVacuity`, `ContractionClears`, `ContractionRebuilds`, `ContractionKeeps`, `ContractionInclusion`, `ContractionSuccess` and `BeliefRevisionAgent.ContractPartialMeet` (the method computes it) |
| Agents.Revision | BeliefAgent-main/Agent/agent.py:63-66 | the Levi identity: contract by the negation, then add. Its partners: `RevisionSuccess`, `RevisionInclusion`, `RevisionConsistency` and `BeliefRevisionAgent.Revise` (the method computes it) |
| Agents.ContractionVacuity | BeliefAgent-main/Agent/agent.py:18-20 | when the base does not entail the formula, contraction changes nothing |
| Agents.ContractionClears | BeliefAgent-main/Agent/agent.py:25-29 | when every single belief entails the formula, contraction empties the base |
| Agents.ContractingValidEmpties | BeliefAgent-main/Agent/agent.py:25-29 | contracting by a tautology empties the base |
| Agents.ContractionRebuilds | BeliefAgent-main/Agent/agent.py:44-55 | otherwise the base is rebuilt from the kept indexes, in ascending order |
| Agents.ContractionKeeps | BeliefAgent-main/Agent/agent.py:44-55 | the rebuilt base holds exactly the kept beliefs, converted again, in their old order |
| Agents.PickedMembers | BeliefAgent-main/Agent/agent.py:48 | the picked entries are exactly the converted entries at the kept indexes |
| Agents.ContractionInclusion | BeliefAgent-main/Agent/agent.py:16-55 | every model of the old base is a model of the contracted one (inclusion) |
| Agents.ContractionSuccess | BeliefAgent-main/Agent/agent.py:16-55 | when the formula is not a tautology, the contracted base does not entail it (success) |
| Agents.ExpansionMeaning | BeliefAgent-main/Agent/agent.py:57-61 | the expanded base is true exactly when the old base and the formula are |
| Agents.RevisionSuccess | BeliefAgent-main/Agent/agent.py:63-66 | the revised base entails the formula |
| Agents.RevisionInclusion | BeliefAgent-main/Agent/agent.py:63-66 | every model of the old base that satisfies the formula satisfies the revised base |
| Agents.RevisionConsistency | BeliefAgent-main/Agent/agent.py:63-66 | revising by a satisfiable formula leaves a consistent base |
| Agents.BeliefRevisionAgent.constructor | BeliefAgent-main/Agent/agent.py:6-7 | the agent starts with an empty base |
| Agents.BeliefRevisionAgent.Ask | BeliefAgent-main/Agent/agent.py:10-11 | the answer is the entailment answer for the base, which never raises |
| Agents.BeliefRevisionAgent.ContractPartialMeet | BeliefAgent-main/Agent/agent.py:16-55 | the new base is the contraction of the old one, and the base invariant is kept |
| Agents.BeliefRevisionAgent.AddEach | BeliefAgent-main/Agent/agent.py:54-55 | the loop that re-adds the kept entries to the cleared base |
| Agents.BeliefRevisionAgent.Expand | BeliefAgent-main/Agent/agent.py:57-61 | the new base is the old one with the CNF inserted at its priority |
| Agents.BeliefRevisionAgent.Revise | BeliefAgent-main/Agent/agent.py:63-66 | the new base is the contraction by ¬formula, expanded by formula at priority 0 |
| Parser.Built | BeliefAgent-main/Belief_base/parser.py:26-77 | the formulas the parse levels build: atoms are names, and every And and Or has two operands. Its partners: `Primary` and `ParseFormula` build only such formulas, and `ParserProperties.BuiltNoEmpty` and `ParserProperties.RoundTrip` are stated over them |
| Parser.Operator | BeliefAgent-main/Belief_base/parser.py:4-12 | each level's operator token has that level's looseness |
| Parser.Tighter | BeliefAgent-main/Belief_base/parser.py:24 | the next level down binds one step tighter |
| Parser.Primary | BeliefAgent-main/Belief_base/parser.py:65-77 | `parse_atom`: on success it consumes at least one token and builds a parser formula |
| Parser.NotChain | BeliefAgent-main/Belief_base/parser.py:58-63 | `parse_not`: on success it consumes at least one token |
| Parser.Binary | BeliefAgent-main/Belief_base/parser.py:26-56 | one binary level: on success it consumes at least one token |
| Parser.BinaryRest | BeliefAgent-main/Belief_base/parser.py:28-31 | the `while` loop of a level never moves backwards |
| Parser.Parsed | BeliefAgent-main/Belief_base/parser.py:79-86 | a successful parse builds only binary And/Or over alphanumeric atoms |
| Parser.ParseAtom | BeliefAgent-main/Belief_base/parser.py:65-77 | the method computes `parse_atom`, including its three errors |
| Parser.ParseNot | BeliefAgent-main/Belief_base/parser.py:58-63 | the method computes `parse_not` |
| Parser.ParseOperand | BeliefAgent-main/Belief_base/parser.py:27 | the method parses one operand of a level |
| Parser.ParseLevel | BeliefAgent-main/Belief_base/parser.py:26-56 | the loop of `parse_equiv`/`parse_imp`/`parse_or`/`parse_and` computes the level |
| Parser.ParseFormula | BeliefAgent-main/Belief_base/parser.py:21-86 | the method computes `parse_formula`, including the extra-tokens error |
| ParserProperties.Unparse | BeliefAgent-main/Belief_base/parser.py:69-73 | every parser formula prints to a non-empty token sequence, each binary node in parentheses |
| ParserProperties.RoundTrip | BeliefAgent-main/Belief_base/parser.py:21-86 | parsing a printed parser formula gives the formula back |
| ParserProperties.ParsedWhole | BeliefAgent-main/Belief_base/parser.py:79-81 | a parse succeeds exactly when the top level consumes every token |
| ParserProperties.ParenPrimary | BeliefAgent-main/Belief_base/parser.py:69-73 | a parenthesised formula parses as the formula inside |
| ParserProperties.NotNesting | BeliefAgent-main/Belief_base/parser.py:58-63 | k leading ¬ wrap the following atom or parenthesis in k Nots |
| ParserProperties.LeftAssociative | BeliefAgent-main/Belief_base/parser.py:26-32 | a ∘ b ∘ c with one operator parses as (a ∘ b) ∘ c |
| ParserProperties.TighterOnRight | BeliefAgent-main/Belief_base/parser.py:34-40 | a looser operator followed by a tighter one groups the tighter on the right |
| ParserProperties.TighterOnLeft | BeliefAgent-main/Belief_base/parser.py:42-48 | a tighter operator followed by a looser one groups the tighter on the left |
| ParserProperties.BuiltNoEmpty | BeliefAgent-main/Belief_base/parser.py:47 | parser formulas have no empty And/Or |
| ParserProperties.ParsedNoEmpty | BeliefAgent-main/Belief_base/parser.py:79-86 | whatever the parser returns has no empty And/Or, so entailment over it is exact |
| EntailmentExamples.RuleIsConverted | BeliefAgent-main/Tests/test_belief_base.py:7-10 | the base of the test holds ¬p ∨ q and p |
| EntailmentExamples.ModusPonens | BeliefAgent-main/Tests/test_belief_base.py:6-12 | that base entails q and does not entail ¬q |
| EntailmentExamples.AsWrittenUnsound | BeliefAgent-main/Belief_base/entailment.py:150-156 | with unfiltered resolvents, {p ∨ q, ¬p ∨ ¬q} is said to entail q although p=true, q=false is a model; the corrected procedure answers false |
| EntailmentExamples.ContractionDiverges | BeliefAgent-main/Agent/agent.py:18-20 | on that base held at priority 0, the vacuity test as written answers true for q, while `Agents.Contraction` by q leaves the base unchanged |

## Left out

- `__hash__`, `BeliefBase.__str__`, the tokenizer `_tokenize` and `parse_file`: these are printing, hashing and file input. The formulas' `__str__` is modelled (`Formulas.Show`) only as the text of the "Non literal in clause" error; no property of it is proved. The parser works on a token sequence, and `Parser.ListRepr` renders the leftover tokens of the extra-tokens error without Python's escaping of quotes.
- `ParserProperties.Unparse` is a printer for the round trip, not the source's `__str__`.
- Formula equality `FEq` assumes Python's set comparison of And/Or children follows `__eq__`. That means `__hash__` is taken to agree with `__eq__`; the model does not capture hash collisions or the cases where the two disagree.
- The order in which `itertools.combinations` produces pairs and tuples is left out. Resolution collects the resolvents of all pairs of one pass as a set, and `Resolution.PairResolventsSymmetric` shows that the order within a pair does not matter. Remainders are enumerated in lexicographic order, as `combinations` does.
- Running time and memory are left out. This includes the exponential blow-up of CNF conversion, and no space bound is stated.
- `to_cnf` splices only one level of nested And/Or. One pass therefore yields clauses under possibly nested Ands (`Cnf.IsCnfShape`), not flat CNF. The flat result is proved for the second pass that `extract_clauses` performs.
- Cnf.ToCnf: the contract states the shape and termination only; that meaning is preserved is stated separately, by `CnfMeaning.ToCnfPreservesMeaning`.
- Resolution.EntailsExact: completeness is stated only for formulas with no empty And/Or. `And()` and `Or()` with no operands can be built by hand, and an empty clause in the initial set is never checked for. Every formula the parser returns qualifies (`ParserProperties.ParsedNoEmpty`).
- RemainderProperties.SubsetEntailsExact, RemainderProperties.RemaindersNotEntailing, RemainderProperties.NoRemaindersExact, Agents.ContractionSuccess, Agents.RevisionConsistency, Agents.ContractionClears and Agents.ContractingValidEmpties: these rely on exactness and carry the same requirement of no empty And/Or.
- Remainders are the non-entailing subsets of the largest size that has any, because the search stops at the first such size. They are not all the inclusion-maximal non-entailing subsets. The model states what the code computes (`RemaindersMaximal`, `LargerSetsEntail`) and not the AGM notion of a remainder.
- Clearing the base when there are no remainders, and re-converting every kept belief on re-adding, are modelled as the code does them. Neither is an AGM postulate.
- A raised `ValueError` is a `Result.Err` carrying the same message; the extra-tokens error of the parser differs only in the quoting of `Parser.ListRepr`, noted above. Exceptions that the code relies on never happening become `requires` clauses:
  - an `IndexError` from a remainder index outside the base (`BeliefBases.SelectRemainders`);
  - `max` of an empty list.
- Priorities are unbounded integers, as Python's are.
- Agents.BeliefRevisionAgent.Ask, Agents.BeliefRevisionAgent.ContractPartialMeet, BeliefBases.BeliefBase.ComputeRemainders and BeliefBases.TempBaseEntails use the corrected resolution procedure (see Findings), so they model the intended behaviour and not the code as written. The as-written procedure is kept as `Resolution.RefutesAsWritten` and `Resolution.EntailsAsWritten`. The difference is observable in contraction and revision too, through the vacuity test (agent.py:19) and the remainder test (belief_base.py:76). Example: a base holding p ∨ q and ¬p ∨ ¬q at priority 0, contracted by q. As written, the vacuity test answers true; the remainders {0} and {1} tie; their intersection is empty; the base is emptied. In the model, the base does not entail q, so `Agents.Contraction` leaves it unchanged (`EntailmentExamples.ContractionDiverges`).

## Findings

| source | as written | input that shows it | evidently intended | confidence | as-written member | corrected member |
|---|---|---|---|---|---|---|
| BeliefAgent-main/Belief_base/entailment.py:150-156 | every resolvent joins the clause set, tautologies included. The resolvent removes both the literal and its complement from the union, so resolving the tautology q ∨ ¬q with ¬q gives the empty clause | beliefs p ∨ q and ¬p ∨ ¬q, query q: answered true, although p = true, q = false satisfies both beliefs and falsifies q | drop tautological resolvents, as the comment at lines 11-12 and the filter at line 125 do for the initial clauses; the procedure is then sound and complete. Every caller of `resolution_entails` inherits the error: `ask`, the vacuity test of `contract_partial_meet` and the remainder test of `compute_remainders` (see "Left out") | not executed | EntailmentExamples.AsWrittenUnsound | Resolution.ResolutionEntails |
