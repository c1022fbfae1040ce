# Module advice model

A Dafny model of the advice model of the Dependency Analysis Gradle Plugin
(`src/main/kotlin/com/autonomousapps/model/ModuleAdvice.kt`): the sealed
`ModuleAdvice` hierarchy with its two kinds, `InternalAccessAdvice` (one
module reaching into symbols another module declares internal) and
`AndroidScore` (how much of the Android platform a module uses, folded over
its build variants), together with

- the canonical order `compareTo` over mixed advice,
- which advice is actionable, and the set-level `isEmpty` / `isNotEmpty` gate,
- the suppression hook `shouldIgnore`,
- the fold `AndroidScore.ofVariants`, the weighted `score` and the verdicts
  `shouldBeJvm` / `couldBeJvm`,
- the report line `InternalAccess.getDisplayDescription`.

Files, one module each:

- `wrappers.dfy` — `Option`, standing for Kotlin's nullable types.
- `comparisons.dfy` — the comparison primitives `compareTo` is built from:
  the JVM's `String.compareTo` (difference of the first differing characters,
  else difference of the lengths), `Boolean.compareTo` (false before true) and
  one `thenBy` step; proved lexicographic, exactly antisymmetric and transitive.
- `internal_access.dfy` — `AccessType`, `Recommendation`, `InternalAccess`,
  `InternalAccessAdvice`, the display description and `of`.
- `android_score.dfy` — `AndroidScore`, the per-variant record, the score in
  quarter units, the verdicts, and `ofVariants` as a loop over the variants
  proved against the fold it computes.
- `module_advice.dfy` — `ModuleAdvice` as a datatype over the two kinds,
  `compareTo`, `isActionable`, `shouldIgnore`, `isEmpty`, `isNotEmpty`.

The score is a `Float` in the source, built from the weights 2, 2, 2, 0.5,
100 and 0.25 and compared with 0 and with the threshold 2. All of these are
multiples of 0.25 and every partial sum stays below 107, so the float
arithmetic is exact. The model counts quarter units instead: weights 8, 8, 8,
2, 400, 1 and threshold 8. Both comparisons give the same answers.

## Model

| member | source | states |
|---|---|---|
| `Comparisons.CompareStringsIsLexicographic` | src/main/kotlin/com/autonomousapps/model/ModuleAdvice.kt:42 | `String.compareTo` is negative exactly when the first string is lexicographically smaller: a smaller character at the first difference, or a proper prefix |
| `Comparisons.CompareStringsZero` | src/main/kotlin/com/autonomousapps/model/ModuleAdvice.kt:36-37 | string comparison is 0 exactly for equal strings |
| `Comparisons.CompareStringsAntisymmetric` | src/main/kotlin/com/autonomousapps/model/ModuleAdvice.kt:42 | swapping the strings negates the result exactly |
| `Comparisons.CompareStringsTransitive` | src/main/kotlin/com/autonomousapps/model/ModuleAdvice.kt:42 | string comparison is transitive, strictly when either step is strict |
| `Comparisons.CompareBools` | src/main/kotlin/com/autonomousapps/model/ModuleAdvice.kt:27-31 | boolean keys compare as 0 exactly when equal, and false sorts before true |
| `Comparisons.ThenBy` | src/main/kotlin/com/autonomousapps/model/ModuleAdvice.kt:27-32 | a `thenBy` chain ties only when both keys tie, and is negative when the earlier key is, or the earlier ties and the later is |
| `InternalAccesses.AccessTypeLabels` | src/main/kotlin/com/autonomousapps/model/ModuleAdvice.kt:96 | each access type is shown as its enum name lower-cased with spaces for underscores, e.g. "method call" |
| `InternalAccesses.RecommendationLabels` | src/main/kotlin/com/autonomousapps/model/ModuleAdvice.kt:102 | each recommendation is shown lower-cased with spaces for underscores, e.g. "refactor access" |
| `InternalAccesses.DisplayDescription` | src/main/kotlin/com/autonomousapps/model/ModuleAdvice.kt:95-103 | the line starts with "Accesses internal <type> of <class>", has ".<member>" right after exactly when a member is present, " (marked as internal API)" right before the tail exactly when marked, and ends with " - Recommendation: <recommendation>"; its length is the sum of those parts |
| `InternalAccesses.MethodCallDescription` | src/main/kotlin/com/autonomousapps/model/ModuleAdvice.kt:95-103 | a method call on `doSomething` of `com.example.internal.InternalClass`, not marked, to be refactored, reads "Accesses internal method call of com.example.internal.InternalClass.doSomething - Recommendation: refactor access" |
| `InternalAccesses.AccessTypeLabelsDiffer` | src/main/kotlin/com/autonomousapps/model/ModuleAdvice.kt:75-82 | no access type's label is a prefix of another's: distinct types differ at a position both labels have |
| `InternalAccesses.DescriptionDeterminesAccessType` | src/main/kotlin/com/autonomousapps/model/ModuleAdvice.kt:96 | accesses of different types always get different descriptions, whatever their class and member |
| `InternalAccesses.DescriptionDeterminesRecommendation` | src/main/kotlin/com/autonomousapps/model/ModuleAdvice.kt:102 | accesses with different recommendations always get different descriptions |
| `InternalAccesses.Of` | src/main/kotlin/com/autonomousapps/model/ModuleAdvice.kt:107-117 | `of` keeps the pair and the accesses as given, and the advice is actionable exactly when the access set is non-empty |
| `AndroidScores.Score` | src/main/kotlin/com/autonomousapps/model/ModuleAdvice.kt:135-144 | the score is at most the sum of all weights, and reaches the dependency weight exactly when the module has Android dependencies |
| `AndroidScores.ComputeScore` | src/main/kotlin/com/autonomousapps/model/ModuleAdvice.kt:136-143 | the running count with one guarded step per flag ends at the weighted sum |
| `AndroidScores.ShouldBeJvm` | src/main/kotlin/com/autonomousapps/model/ModuleAdvice.kt:147 | a zero score means exactly that all six flags are false |
| `AndroidScores.CouldBeJvm` | src/main/kotlin/com/autonomousapps/model/ModuleAdvice.kt:150-155 | a score below the threshold means exactly no assets, no resources, no Android classes and no Android dependencies; build config and source splits alone never reach it |
| `AndroidScores.IsActionable` | src/main/kotlin/com/autonomousapps/model/ModuleAdvice.kt:152 | a module with Android dependencies is never actionable |
| `AndroidScores.Fold` | src/main/kotlin/com/autonomousapps/model/ModuleAdvice.kt:157-185 | no variants give no score; otherwise each of the six flags is true exactly when some variant reports it |
| `AndroidScores.OfVariants` | src/main/kotlin/com/autonomousapps/model/ModuleAdvice.kt:157-185 | the loop that ORs six running flags over the variants returns exactly the fold |
| `AndroidScores.FoldIgnoresOrderAndDuplicates` | src/main/kotlin/com/autonomousapps/model/ModuleAdvice.kt:168-175 | two variant collections with the same members fold to the same result, whatever their order and repetitions |
| `AndroidScores.DependencyVetoes` | src/main/kotlin/com/autonomousapps/model/ModuleAdvice.kt:141-155 | an Android dependency in any one variant makes the folded score neither a could-be-JVM nor actionable |
| `AndroidScores.SilentVariantsShouldBeJvm` | src/main/kotlin/com/autonomousapps/model/ModuleAdvice.kt:157-185 | a non-empty collection of variants reporting nothing folds to a present score of 0 that should be JVM |
| `AndroidScores.ResourcesAloneReachThreshold` | src/main/kotlin/com/autonomousapps/model/ModuleAdvice.kt:137-155 | resources in one variant and nothing else give a score of exactly the threshold, so the module neither should nor could be JVM |
| `ModuleAdvices.ShouldIgnoreIsPerKind` | src/main/kotlin/com/autonomousapps/model/ModuleAdvice.kt:17-19 | the filter sees only the name, so two advice of the same kind are suppressed alike |
| `ModuleAdvices.IsActionable` | src/main/kotlin/com/autonomousapps/model/ModuleAdvice.kt:64 | internal-access advice is actionable exactly when it holds an access; an Android score exactly when it has no assets, resources, Android classes or Android dependencies |
| `ModuleAdvices.NamesOrdered` | src/main/kotlin/com/autonomousapps/model/ModuleAdvice.kt:62 | "android" sorts before "internal-access" |
| `ModuleAdvices.ScoresBeforeAccesses` | src/main/kotlin/com/autonomousapps/model/ModuleAdvice.kt:41-42 | every Android score sorts strictly before every internal-access advice, in both argument orders |
| `ModuleAdvices.CompareZeroIffSameSortKey` | src/main/kotlin/com/autonomousapps/model/ModuleAdvice.kt:23-43 | two advice compare as 0 exactly when they are of one kind and agree on that kind's key; advice of different kinds never tie |
| `ModuleAdvices.CompareReflexive` | src/main/kotlin/com/autonomousapps/model/ModuleAdvice.kt:24 | every advice compares as 0 with itself |
| `ModuleAdvices.CompareAntisymmetric` | src/main/kotlin/com/autonomousapps/model/ModuleAdvice.kt:23-43 | swapping the operands negates the result exactly |
| `ModuleAdvices.CompareTransitive` | src/main/kotlin/com/autonomousapps/model/ModuleAdvice.kt:23-43 | the order over mixed advice is transitive, strictly when either step is strict |
| `ModuleAdvices.AccessesTransitive` | src/main/kotlin/com/autonomousapps/model/ModuleAdvice.kt:35-39 | the (source, target) order on internal-access advice is transitive |
| `ModuleAdvices.ScoreOrderIsLexicographic` | src/main/kotlin/com/autonomousapps/model/ModuleAdvice.kt:26-33 | one Android score sorts before another exactly when, at the first of (assets, res, classes, build config, dependencies) where they differ, it has false |
| `ModuleAdvices.AccessOrderIsLexicographic` | src/main/kotlin/com/autonomousapps/model/ModuleAdvice.kt:35-39 | one internal-access advice sorts before another exactly when its source project is lexicographically smaller, or the sources are equal and its target is smaller |
| `ModuleAdvices.SourceSplitsDoNotOrder` | src/main/kotlin/com/autonomousapps/model/ModuleAdvice.kt:26-33 | two different scores that differ only in source splits compare as 0 |
| `ModuleAdvices.AccessesDoNotOrder` | src/main/kotlin/com/autonomousapps/model/ModuleAdvice.kt:35-39 | internal-access advice that differ only in their accesses compare as 0 |
| `ModuleAdvices.IsEmpty` | src/main/kotlin/com/autonomousapps/model/ModuleAdvice.kt:47 | a set is empty for gating exactly when none of its advice is actionable; the empty set is empty |
| `ModuleAdvices.IsNotEmpty` | src/main/kotlin/com/autonomousapps/model/ModuleAdvice.kt:50 | a set is not empty exactly when some advice in it is actionable, so it has at least one element |
| `ModuleAdvices.IsEmptyUnion` | src/main/kotlin/com/autonomousapps/model/ModuleAdvice.kt:47 | the union of two sets is empty for gating exactly when both are |
| `ModuleAdvices.GateExample` | src/main/kotlin/com/autonomousapps/model/ModuleAdvice.kt:47-50 | a set holding only a score with Android dependencies is empty; adding an internal-access advice with one access makes it not empty |

## Left out

- `src/main/kotlin/com/autonomousapps/model/Warning.kt`: its order delegates to `LexicographicIterableComparator` and to the order of `DuplicateClass`, neither of which is part of this model; its `isEmpty` is plain set emptiness.
- `src/test/kotlin/com/autonomousapps/tasks/InternalAccessAnalysisTaskTest.kt`: a build-tool integration test that writes files and runs a build.
- How a recommendation is derived, allowlist matching, and checking the access type against the presence of a member: none of this is in the modelled code, where `recommendation` is a constructor argument; the model takes it as given.
- The ignore filter (`behavior.filter.anyMatches`) is external; `ShouldIgnore` takes it as a function from the advice's name to a boolean.
- The identity short-circuit `this === other` in `compareTo` compares references, which values do not have; it returns 0, which `CompareReflexive` shows the field comparisons return for equal values anyway.
- The `Float` score is replaced by exact quarter units (see above); IEEE arithmetic is not modelled.
- `CompareStrings` compares Dafny characters (Unicode scalar values), where the JVM compares UTF-16 code units. The two agree on strings of Basic Multilingual Plane characters; for characters beyond it the sign can differ against characters from U+E000 to U+FFFF.
- `Lowercase` lowers ASCII letters only; the enum names it is applied to are ASCII.
- `AndroidScoreVariant` is defined in a file not part of this model; it is modelled as a record of the six booleans `ofVariants` reads. The Kotlin `Collection` of variants is a sequence; `FoldIgnoresOrderAndDuplicates` shows the result depends only on which variants occur.
- Moshi/JSON annotations, `@Transient` and the `unsafeLazy` memoisation: serialisation and laziness; the score is computed on demand as a function.
