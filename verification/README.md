# Exact probabilities over provenance circuits

ProvSQL keeps, for every tuple of a query answer, a circuit that says from which input tuples the answer follows, and computes probabilities from it. The reference meaning of such a probability is a sum over exponentially many possible worlds; the program uses recursions, memo tables, closed forms, in-place rewritings and a persistent store instead. This project models those fast forms as the code states them and proves that they compute, bound or keep what the sum over worlds defines.

- **World measure.** `Worlds`, `Probability`, `Categorical`, `RandomValues`, `IndependentImages`: a world gives each variable an outcome; the probability of an event is a recursion over independent variables, from which independence, Shannon expansion, the union and Bonferroni bounds, and images of worlds are derived.
- **Boolean circuits.** The two anytime d-trees (`CircuitDTree`, `DnfDTree`), the bucket bounds, inclusion-exclusion, world enumeration, read-once evaluation with marked islands (`Footprints`, `IndependentEvaluation`), the clausal encoding and its weighted model count, and the rewriting of multivalued inputs.
- **HAVING predicates.** The recursive distributions of COUNT, SUM, AVG, MIN and MAX over contributors that share tuples, the exact set of inputs these recursions accept, the closed forms for contributors that share nothing, and the replacement of a comparison by an independent input.
- **Rewriting of circuits.** The folding of semiring identities to a fixpoint on a shared graph, the memoised evaluation in a semiring, and the peephole simplifier of scalar circuits.
- **The persistent store.** The open-addressing table, gate creation write by write, mark and sweep, and the commit protocol of a clean-up.

Objects that the program updates in place are classes here (contexts with memo tables, walks with a set of seen variables, union-find, the circuit being folded, rewritten or simplified, the hash table, the mapped circuit, the store directory); loops are loops. Each such method is proved against a ghost function of the inputs or of the old state.

## Reading the results

- `P(p, e)` is the probability of event `e` when variable `v` is true with probability `p[v]`, independently; `Pr(d, e)` allows more than two outcomes. `Holds(c, g)` is the event that gate `g` is true.
- A circuit carries a rank that falls along every wire: wires are acyclic. Exceptions are failure results, and the theorems say when a result is a failure.
- Contributors to an aggregate are sets of leaves. `Distinct(contribs)`, no leaf set occurring twice, is the hypothesis under which the recursive engines are exact. It is needed only inside product blocks: `Accepts(contribs, Unrepeated)` says that the recursion accepts the contributors and no product block lists a member twice, and is enough for COUNT and for the all-absent probability. `Distinct` contributors that are accepted at all are accepted in this sense (`Acceptance.DistinctAccepts`).
- `Accepts(contribs, Any)` is an order-independent definition of what the recursions accept: every independence block is a single contributor, has a shared root with accepted residuals, or is a complete product with accepted factors. `Accepts(contribs, Nested)` leaves out products.
- `Separable(rows, Sums)` and `Separable(rows, Products)`: distinct, accepted rows whose weights are all one constant plus the sum, or times the product and not zero, of values of their leaves. `RoomyPairs(rows)`: the absolute weights together plus one, times the number of rows plus one, do not exceed the cap of 2^20 listed values.

## Model

| member | source | states |
|---|---|---|
| CircuitDTree.DTreeBoundsCircuit | src/DTree.cpp:651-662 | on any circuit a returned interval contains the probability of the root and is at most as wide as asked; at width zero both ends are the probability; failure only for an unsupported gate in the cone or an exceeded budget |
| CircuitDTree.GenContext.Refine | src/DTree.cpp:540-573 | the interval of a gate under a partial assignment contains its conditional probability and is narrow enough, the memo stays sound, the assignment is left as found, and the mutual recursion terminates |
| CircuitDTree.GenContext.RefineGroup | src/DTree.cpp:575-647 | the same for a conjunction or disjunction of a group, through memo lookup, components and Shannon expansion |
| CircuitDTree.GenContext.Bound | src/DTree.cpp:445-508 | the interval computed without expansion (Bonferroni and union bounds inside a component) contains the conditional probability |
| CircuitDTree.GenContext.Components | src/DTree.cpp:386-416 | the groups partition the children and share no free variable |
| KeyText.KeyInjective | src/DTree.cpp:513-534 | two subproblems with the same memo text have the same operator, gates and relevant assignment |
| DnfDTree.DTreeBounds | src/DTree.cpp:272-282 | on any monotone DNF a returned interval contains its probability, is narrow enough, and is exact at width zero; failure only when the budget is exceeded |
| DnfDTree.DTreeContext.Recurse | src/DTree.cpp:185-268 | every recursive call keeps the memo sound and meets its own width; the total number of literals decreases |
| DnfCanonical.RemoveSubsumed | src/DTree.cpp:99-128 | what is kept is an antichain of the given clauses with the same function and no more literals |
| DnfCanonical.CanonicalKey | src/DTree.cpp:198-213 | reduced and sorted clause lists, the memo keys, are equal exactly when they denote the same function |
| DnfBounds.Bounds | src/BooleanCircuit.cpp:754-827 | the greedy buckets give a lower and an upper bound of the probability; both are the probability when no two clauses have a leaf in common, the lower is at least each clause's probability and the upper at most their sum |
| Frequency.MostFrequent | src/DTree.cpp:167-183 | the pivot occurs in the most clauses, and is the smallest such variable |
| Sieve.InclusionExclusion | src/BooleanCircuit.cpp:718-752 | the signed sum over the non-empty clause masks of the products over united supports is the probability of the disjunction, for any number of overlapping clauses |
| Sieve.SieveProbability | src/BooleanCircuit.cpp:718-752 | the loop over masks returns that sum, and refuses exactly beyond 24 clauses |
| PossibleWorlds.TotalWeight | src/BooleanCircuit.cpp:829-880 | the weight of the satisfying input sets is the probability of the gate, and is refused exactly when there are 64 reachable inputs or more |
| PossibleWorlds.Evaluate | src/BooleanCircuit.cpp:322-357 | evaluation under a set of true inputs is the circuit's value in that world |
| IndependentEvaluation.IndependentProbability | src/BooleanCircuit.cpp:1911-1916 | a value is returned exactly when no variable is used twice outside marked islands, and it is then the probability of the gate, given marks that are true |
| IndependentEvaluation.IndependentWalk.Evaluate | src/BooleanCircuit.cpp:1703-1818 | a gate succeeds exactly when its parts use their variables once each and none seen before; it then adds exactly its variables to those seen, and only gates without variables are remembered |
| IndependentEvaluation.IndependentWalk.EvaluateIsland | src/BooleanCircuit.cpp:1820-1909 | the stack walk of a marked island succeeds exactly when the gates on its border have no variables in common, alternatives of one key excepted, and returns the probability of its root |
| IndependentEvaluation.MemoConstant | src/BooleanCircuit.cpp:1707-1716 | remembered gates have the value zero or one |
| Footprints.VisitKey | src/BooleanCircuit.cpp:1749-1765 | one more alternative of a key fits beside the gates visited before exactly when its key is new or was met among them |
| Tseytin.TseytinCNF | src/BooleanCircuit.cpp:882-941 | the clauses hold exactly in the assignments in which every gate follows from its children and the root is true; refused exactly when a multivalued input is left |
| ModelCounting.UniqueExtension | src/BooleanCircuit.cpp:882-941 | each assignment of the leaves extends to exactly one that satisfies the gate clauses, with the circuit's values |
| ModelCounting.CountIsProbability | src/BooleanCircuit.cpp:882-957 | the weighted model count is the probability of the root, doubled for each gate with neither clauses nor weights |
| ModelCounting.CompiledProbability | src/BooleanCircuit.cpp:882-957 | the count of the clauses the program writes is the probability exactly when there is no such gate or the probability is zero |
| ModelCounting.LooseGateDoubles | src/BooleanCircuit.cpp:923-926 | a coin beside one gate without clauses or weights: the count is 1, the probability one half |
| MultivaluedRewrite.MulRewriter.Rewrite | src/BooleanCircuit.cpp:1981-2009 | all multivalued inputs are gone, each key has its selection tree, and every old gate keeps its probability when each key's total is one or not almost one; in any case an alternative keeps it up to 10^-14, and exactly when what its key leaves to no alternative is zero or at least that much |
| MultivaluedRewrite.MulRewriter.RewriteRec | src/BooleanCircuit.cpp:1933-1971 | the recursion builds the selection tree of the alternatives below the current prefix |
| KeyBlocks.AtMostOne | src/BooleanCircuit.cpp:1933-2009 | in no world are two rewritten alternatives of one key true |
| KeyBlocks.AlternativePr | src/BooleanCircuit.cpp:1973-2009 | an alternative keeps its probability exactly when the total is one, or is not almost one, or the alternative has probability zero |
| KeyBlocks.AlternativeError | src/BooleanCircuit.cpp:1973-2009 | whatever the total, a rewritten alternative is off by less than 10^-14, and by nothing when the total is one or at least that far from one |
| KeyBlocks.AlmostCertain | src/BooleanCircuit.cpp:1973-2009 | a single alternative of probability 0.999999999999999 becomes certain |
| KeyBlocks.BlockSize | src/BooleanCircuit.cpp:1933-2009 | n alternatives take n - 1 new inputs, one more when guarded, and each conjunction has logarithmic length |
| KeyWorlds.RewritingKeepsProbability | src/BooleanCircuit.cpp:1981-2009 | every gate of the rewritten circuit has the probability it had with mutually exclusive outcomes |
| CompiledBlocks.CountMultivalued | src/BooleanCircuit.cpp:882-957 | rewriting a multivalued circuit and counting its clauses gives the probability over its categorical keys, doubled for each gate without weights |
| CompiledBlocks.KeysCount | src/BooleanCircuit.cpp:923-957 | with the keys held as plain inputs the count is the probability itself |
| Blocks.Partition | src/AggMarginalEvaluator.cpp:249-268 | union-find with path halving puts two contributors in one block exactly when a chain of shared leaves links them |
| ProductDecomposition.DecomposeProduct | src/AggMarginalEvaluator.cpp:365-429 | a block is accepted exactly when its leaves fall into two classes or more, every member meets every class, and there are as many members as combinations of their parts; the classes and parts returned are those |
| ProductBlocks.ProductIff | src/AggMarginalEvaluator.cpp:411-429 | an accepted block is in bijection with the full product of its parts exactly when no member is repeated |
| ProductDuplicates.DuplicatesRefuteProduct | src/AggMarginalEvaluator.cpp:411-429 | a block with every member listed twice passes the test although its count is not the product of its factors' counts |
| BlockAcceptance.ProductTest | src/AggMarginalEvaluator.cpp:365-429 | the test on numbered classes is the order-independent definition of a product |
| BlockAcceptance.AcceptsByBlocks | src/AggMarginalEvaluator.cpp:457-522 | acceptance can be read off any partition into independence blocks |
| Acceptance.LeafDisjointAccepts | src/AggMarginalEvaluator.cpp:457-470 | contributors without common leaves are always accepted |
| CountMarginals.CountPmf | src/AggMarginalEvaluator.cpp:457-522 | the recursion answers exactly on the accepted contributors, and its answer is then the distribution of the number of present contributors unless a product block lists a member twice |
| RandomValues.PmfTotal | src/AggMarginalEvaluator.cpp:457-522 | the entries of a count distribution are probabilities that sum to one |
| AllAbsent.PAllAbsent | src/AggMarginalEvaluator.cpp:563-604 | answers exactly where the count recursion does, with the probability that nothing is present |
| AllAbsent.AbsentAgreesWithCount | src/AggMarginalEvaluator.cpp:457-604 | both calls accept or refuse together, and on distinct contributors the absence probability is the count's mass at zero |
| CountHaving.PrFromPmf | src/AggMarginalEvaluator.cpp:532-549 | the mass selected from a count distribution is the probability of the predicate, with or without the empty group |
| CountHaving.ClosedFormMass | src/CountCmpEvaluator.cpp:23-202 | the flat evaluator, shortest side and complement included, gives the probability of the COUNT predicate on contributors that share no leaf |
| CountHaving.FlatAgrees | src/CountCmpEvaluator.cpp:158-202 | where both apply, the flat evaluator and the recursive one give the same number |
| MinMaxHaving.MinMaxProb | src/AggMarginalEvaluator.cpp:611-666 | the combination of absence probabilities is the probability of MIN or MAX compared with a constant, empty group excluded; answered exactly when the recursion accepts every subset asked about |
| MinMaxClosedForm.ClosedFormMass | src/MinMaxCmpEvaluator.cpp:21-98 | the flat products are the same probability on contributors that share no leaf |
| SumMarginals.SumPmf | src/AggMarginalEvaluator.cpp:983-1110 | a returned map is the distribution of the weighted sum, through blocks, roots and all three kinds of product blocks; always answered are rows without product blocks whose sums fit under the cap, and accepted rows with product blocks whose weights are sums, or products other than zero, of leaf values and whose sums and counts fit |
| JointMarginals.JointPmf | src/AggMarginalEvaluator.cpp:775-850 | a returned map is the joint distribution of sum and count; always answered are rows without product blocks whose pairs fit under the cap, and accepted rows with product blocks whose weights are sums of leaf values and, measured from somewhere, fit |
| SeparationRecovery.RecoverAdditive | src/AggMarginalEvaluator.cpp:720-772 | the recovered part values add up to every weight, and are not found only when no part values do |
| MultiplicativeRecovery.RecoverMultiplicative | src/AggMarginalEvaluator.cpp:886-944 | axis values and a power of the pivot whose products are the weights times that power; found, with no product over 128 bits, whenever the weights are products of leaf values and their powers fit |
| OneFactorBlocks.NotBothWays | src/AggMarginalEvaluator.cpp:1070-1090 | weights of a product block that separate by addition and by multiplication depend on one factor |
| SumMarginals.ExactDivision | src/AggMarginalEvaluator.cpp:886-974 | in every world the product of the axis sums is divisible by the power of the pivot, and the quotient is the sum |
| SumHaving.HavingSum | src/AggMarginalEvaluator.cpp:1242-1294 | the probability that a non-empty group's sum or average compares as asked; always answered for rows without product blocks whose shifted sums fit under the cap, for weights that are sums of leaf values and, for SUM, products of them |
| PrivateContributors.ComputeRefCounts | src/CmpEvaluatorCommon.cpp:109-121 | the array counts, for each gate, how often it is a wire of any gate |
| PrivateContributors.ContributorProb | src/CmpEvaluatorCommon.cpp:123-167 | a marginal is returned exactly when all inputs and connectives of the contributor are referenced once, and is then the probability of its presence |
| PrivateContributors.ContributorsApart | src/CmpEvaluatorCommon.cpp:109-167 | two such contributors have no gate in common |
| AggregatePrivacy.AggSubtreePrivate | src/AggMarginalEvaluator.cpp:101-127 | the walk answers yes exactly when every gate below the aggregate, constants excepted, has all its references from below the aggregate |
| ResolvedComparisons.ResolutionKeepsProbability | src/AggMarginalEvaluator.cpp:83-127 | replacing a comparison over a private aggregate by an independent input of its probability keeps the probability of every gate outside, whatever the gates make of their children |
| ResolvedComparisons.ResolveComparison | src/AggMarginalEvaluator.cpp:1140-1308 | the comparison is resolved exactly when its aggregate has one reference and a private subtree, and all gates outside then keep their probabilities |
| SemiringFold.FoldCircuit.FoldSemiringIdentities | src/GenericCircuit.cpp:45-192 | in every commutative semiring every gate, and every name, keeps its value; the result is in normal form and each pass lowers a measure |
| SemiringFold.FoldCircuit.FoldToFixpoint | src/GenericCircuit.cpp:194-346 | the absorptive rules keep all values in every absorptive semiring, the Boolean rules in every distributive lattice; the joint fixpoint loop ends where no rule applies; in every absorptive semiring each gate and name keeps its value unless a gate marked Boolean feeds it, and in any semiring in which gates that are always one are one, unless a gate marked either way does |
| FoldGuarantee.MarksProtect | src/GenericCircuit.cpp:171-312 | after any run of fold steps, marks and redirections included, in a semiring over any carrier a gate that no minded mark feeds has its old value |
| FoldGuarantee.MarksProtectNames | src/GenericCircuit.cpp:171-312 | the same for the gates that names lead to |
| FoldLoss.LostMark | src/GenericCircuit.cpp:99-110 | one plus a tuple, as the only factor of a product: counting gives 2 before folding and 1 after, and no mark is left on the product |
| FoldLoss.MarksSufficeExactly | src/GenericCircuit.cpp:99-312 | for a circuit and a semiring, both kinds of marks protect a product over any one gate exactly when every gate that is always one is one |
| FoldLoss.FoldReused | src/GenericCircuit.cpp:314-346 | folding a product over any one gate ends in such a circuit |
| NetEvaluation.Evaluate | src/GenericCircuit.hpp:47-279 | the memoised walk on an explicit stack returns the value of the root in the semiring |
| LinearTerms.TermIsValue | src/HybridEvaluator.cpp:361-440 | where a gate decomposes as a multiple of one variable plus an offset, that is its value in every draw |
| LinearTerms.ConstantIsValue | src/HybridEvaluator.cpp:111-205 | where a subtree evaluates to a constant, that is its value in every draw |
| ScalarNet.ApplyExtremes | src/HybridEvaluator.cpp:161-178 | the maximum and the minimum are operands that bound all the others |
| ScalarNet.ApplyUndone | src/HybridEvaluator.cpp:111-205 | differences, quotients and negations are undone by sums and products |
| PeepholeRules.LiftMixture | src/HybridEvaluator.cpp:736-805 | pushing a sum or product into both arms of a mixture keeps every value and nests mixtures less deeply |
| CategoricalRule.LiftCategorical | src/HybridEvaluator.cpp:683-734 | pushing constants into the labels of a categorical mixture keeps every value |
| Peephole.SumRebuilt | src/HybridEvaluator.cpp:910-1023 | the sum rebuilt with one term for each random variable has the value of the sum it replaces |
| Peephole.Simplifier.ApplyRules | src/HybridEvaluator.cpp:1036-1183 | the rules applied to one gate keep the value of every gate in every draw, rewrite no other old gate, and terminate through nested mixtures |
| Peephole.Simplifier.RunSimplifier | src/HybridEvaluator.cpp:1194-1380 | after the whole bottom-up pass every gate of the original circuit has its value in every draw |
| UuidHashTable.Run | src/MMappedUUIDHashTable.cpp:86-172 | any sequence of insertions does to the table what it does to a map, without probing gaps and at most half full |
| UuidHashTable.HashTable.Grow | src/MMappedUUIDHashTable.cpp:86-117 | twice as many slots, the same map |
| UuidHashTable.HashTable.Lookup | src/MMappedUUIDHashTable.cpp:126-142 | probing ends and finds an identifier exactly when it is in the map |
| UuidHashTable.FirstWriteWins | src/MMappedUUIDHashTable.cpp:144-172 | an identifier keeps the value of its first insertion, and counted insertions get fresh values |
| GateStore.CreateSafe | src/MMappedCircuit.cpp:101-149 | after every prefix of the writes of a gate creation no mapping entry dangles and no record runs past its vector; all of them create or upgrade the gate |
| MappedCircuit.Circuit.CreateGate | src/MMappedCircuit.cpp:112-149 | the method performs exactly those writes, changes the circuit as the message says, leaves the probability, annotations and extra string of every old record alone, and gives new records none |
| MappedCircuit.Circuit.SetExtra | src/MMappedCircuit.cpp:285-320 | an extra string is written once, later different ones are refused, and a crash in between leaves a consistent store |
| GateArrival.ArrivalOrderDoesNotMatter | src/MMappedCircuit.cpp:112-149 | with one definition for each token, every order and duplication of the messages gives the same circuit |
| GateArrival.ReceiveAll | src/MMappedCircuit.cpp:112-149 | the store after the messages stands for that circuit |
| GateArrival.ResentUpgrade | src/MMappedCircuit.cpp:125-143 | a message sent again after a crash completes its upgrade exactly unless the crash came between the child count and the type |
| MarkAndSweep.Mark | src/MMappedCircuit.cpp:915-949 | the flags are exactly the gates that the roots reach |
| MarkAndSweep.SweepInto | src/MMappedCircuit.cpp:951-1036 | the rebuilt store has the live records in order, each with its type, children, annotations and extra string, and with its probability unless a version-1 store has one for unset |
| MarkAndSweep.CheckStore | src/MMappedCircuit.cpp:884-912 | the four counters count the dangling entries, unreferenced records and overrunning ranges |
| MarkAndSweep.CleanUp | src/MMappedCircuit.cpp:884-1036 | after marking, sweeping and checking all counters are zero, live tokens carry what they carried, dead tokens are absent; a probability is kept as it is except that a version-1 store's one on an input, update or multivalued input becomes unset |
| CleanupCommit.ServedStoreIsWhole | src/MMappedCircuit.cpp:362-471 | after any run of clean-ups, crashes and interrupted recoveries a served store has four files of one version and no marker |
| CleanupCommit.VersionKept | src/MMappedCircuit.cpp:362-471 | unless a marker is created meanwhile, the version at which the store settles does not change |
| CleanupCommit.MarkerCommits | src/MMappedCircuit.cpp:448-459 | once the marker is made the store settles at the version that was built |
| CleanupCommit.CommitInstalls | src/MMappedCircuit.cpp:448-471 | an undisturbed commit goes on through marker, four renames and marker, and leaves the version that was built |
| CleanupCommit.Directory.FinishInterruptedCleanup | src/MMappedCircuit.cpp:362-383 | recovery ends with all four files at the version the crash had settled, nothing beside them and no marker |
| CleanupCommit.FailedRenames | src/MMappedCircuit.cpp:367-383 | when renames fail during recovery, the files are of one version exactly when every outstanding rename succeeded, or all four were outstanding and failed |

## Findings

Properties that fail for the code as it is, each with an input and the condition under which it holds.

- **A product block with repeated members is counted wrongly.** `decomposeProduct` compares cardinalities only. The eight members of `ProductDuplicates.TWICE` are four of the eight combinations of three pairs of leaves, each listed twice; they pass every test for three factors although their count is not the product of the factors' counts. Given a decomposition, the members are the full product exactly when none is repeated (`ProductBlocks.ProductIff`), and the count is exact whenever no product block met in the recursion repeats a member (`CountMarginals.CountPmf`).
- **A total that is almost one is rounded to one.** With a single alternative of probability 0.999999999999999 the rewritten alternative is certain (`KeyBlocks.AlmostCertain`). An alternative keeps its probability exactly when the total of its key is one, or is not almost one, or the alternative has probability zero (`KeyBlocks.AlternativePr`).
- **An absorptive mark is dropped with its gate.** The documentation promises that a semiring in which a rule is no identity is refused (`src/GenericCircuit.hpp:86-103`). A sum with a one in it becomes one and is marked absorptive; where it is a factor, the product drops it as an identity and is left unmarked. `FoldLoss.LostMark` folds one plus a tuple under a product: a count of two becomes one, and no mark is left to refuse it. The marks protect a product over any gate of a circuit, in a given semiring, exactly when every gate that is one whatever the tuples are has the value one there (`FoldLoss.MarksSufficeExactly`): one Boolean evaluation with all tuples false finds those gates. In absorptive semirings that always holds (`FoldMarks.OneInAbsorptive`).
- **A gate with neither clauses nor weights doubles the model count.** A counter that gives unweighted literals the weight one answers 1 for a coin of probability one half beside an undetermined gate (`ModelCounting.LooseGateDoubles`). The count is the probability exactly when every gate is an input or a connective, or the probability is zero (`ModelCounting.CompiledProbability`). Keys that are plain inputs, as `src/CircuitFromMMap.cpp:92-98` builds them, have weights and do no harm (`CompiledBlocks.KeysCount`).
- **A crash in an upgrade is not always repaired by sending the message again.** If it comes after the child count has been written and before the type, the record is an input with children, which no later message upgrades; `GateArrival.ResentUpgrade` gives the exact position.
- **Recovery ignores failed renames.** The marker is removed all the same, so a rename that fails can leave files of two versions; `CleanupCommit.FailedRenames` says exactly when it does not.

## Left out

- SumMarginals.SumPmf: an answer is promised for product blocks whose weights are made of values of leaves in one way throughout the rows; values that separate over the parts of a factor but not over their leaves, or differently from block to block, are often answered too, which is not stated.
- JointMarginals.JointPmf: the same, for weights that are sums of values of leaves.
- SumHaving.HavingSum: the same, since it calls the sum and the absence recursions.
- SemiringFold.FoldCircuit.FoldToFixpoint: gates other than sums, products and constants are opaque: their value is any function of their children's values.
- Peephole.Simplifier.RunSimplifier: the rules that replace a gate by a new random variable (sum, product, transform, scalar and negation closures) and the second pass made of them are not modelled; they preserve distributions only, through distribution families that are not part of this model.
- Peephole.Simplifier.ApplyRules: a division is real division; the guard that leaves divisions of aggregates alone is modelled, their integer semantics is not. A numeric library parameter stands for powers, logarithms, exponentials and divisions by zero; infinities and NaN are no numbers here.
- ResolvedComparisons.ResolveComparison: the probability of the comparison is a parameter; parsing the comparison into contributors, the mixing in of blocks of exclusive alternatives for COUNT and SUM, and the clamping of the result are not modelled.
- CompiledBlocks.CountMultivalued: a key is a gate of its own kind; in circuits built from the store it is an input that nothing else uses, for which KeysCount applies.
- MultivaluedRewrite.MulRewriter.Rewrite: a conditional probability of zero over zero is read as one, which is what an unset probability means to the program.
- IndependentEvaluation.IndependentProbability: that the determinism and decomposability marks are true is a hypothesis; how they are set is not modelled.
- Tseytin.TseytinCNF: the DIMACS text, its comments and the external counters are not modelled.
- GateArrival.ArrivalOrderDoesNotMatter: messages of tokens with one definition each; probabilities and annotations travel in other messages.
- CleanupCommit.ServedStoreIsWhole: a rename, the creation of the marker and its removal are single steps that reach the directory in program order; page write-back and fsync are not modelled.
- GateStore.CreateSafe: each scalar field is written atomically.
- UuidHashTable.Run: capacities are unbounded; the overflow of the size computation near the word size is not modelled.
- Doubles are reals: rounding, clamps of values already in range and equality up to rounding are not modelled, except where a tolerance decides a branch.
- Integers are unbounded; the 128-bit products and the conversion to 64 bits are kept as guards that refuse.
- Probabilities lie between zero and one; an unset probability (NaN) is not modelled except as above.
- Maps and sets keyed by gate number are iterated in any order, and sorting returns any sorted permutation; results do not depend on it.
- Recursion-depth checks and interrupts, logging, inter-process messages, serialisation and catalogue lookups.
- Monte Carlo and Karp-Luby sampling, external compilers and parsers of their output, tree decompositions.
- Quadrature, moments of distributions and analytic closed forms of continuous distributions.
- `contributorExactMarginal` and the moments of averages: enumeration of one contributor and a division, easy next to the distributions above.
