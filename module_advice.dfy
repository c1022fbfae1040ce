/**
 * `ModuleAdvice`: the sealed base of the per-module advice kinds. It fixes
 * the canonical order over mixed advice, which advice is worth acting on,
 * the suppression hook, and the set-level emptiness gate.
 */
module ModuleAdvices {
  import opened Comparisons
  import IA = InternalAccesses
  import AS = AndroidScores

  /** The two subclasses of the sealed class. */
  datatype ModuleAdvice =
    | AccessAdvice(access: IA.InternalAccessAdvice)
    | ScoreAdvice(score: AS.AndroidScore)

  /** The `name` each subclass overrides. */
  function Name(x: ModuleAdvice): string {
    match x
    case AccessAdvice(_) => IA.Name
    case ScoreAdvice(_) => AS.Name
  }

  /**
   * `shouldIgnore(behavior)`: the configured filter, which is outside this
   * model and given here as `filterMatches`, is asked about the advice's name.
   */
  function ShouldIgnore(x: ModuleAdvice, filterMatches: string -> bool): bool {
    filterMatches(Name(x))
  }

  /** Suppression is per kind of advice: two advice of one kind are ignored alike. */
  lemma ShouldIgnoreIsPerKind(x: ModuleAdvice, y: ModuleAdvice, filterMatches: string -> bool)
    requires x.AccessAdvice? == y.AccessAdvice?
    ensures ShouldIgnore(x, filterMatches) == ShouldIgnore(y, filterMatches)
  {
  }

  /** `isActionable()`, dispatched to the subclass. */
  function IsActionable(x: ModuleAdvice): (r: bool)
    ensures x.AccessAdvice? ==> (r <==> x.access.internalAccesses != {})
    ensures x.ScoreAdvice? ==> (r <==> !x.score.hasAndroidAssets && !x.score.hasAndroidRes
                                       && !x.score.usesAndroidClasses && !x.score.hasAndroidDependencies)
  {
    match x
    case AccessAdvice(a) => IA.IsActionable(a)
    case ScoreAdvice(s) => AS.IsActionable(s)
  }

  /** `compareBy(hasAndroidAssets).thenBy(hasAndroidRes)...thenBy(hasAndroidDependencies)`. */
  function CompareScores(a: AS.AndroidScore, b: AS.AndroidScore): int {
    ThenBy(
      ThenBy(
        ThenBy(
          ThenBy(
            CompareBools(a.hasAndroidAssets, b.hasAndroidAssets),
            CompareBools(a.hasAndroidRes, b.hasAndroidRes)),
          CompareBools(a.usesAndroidClasses, b.usesAndroidClasses)),
        CompareBools(a.hasBuildConfig, b.hasBuildConfig)),
      CompareBools(a.hasAndroidDependencies, b.hasAndroidDependencies))
  }

  /** `compareBy(sourceProject).thenBy(targetProject)`. */
  function CompareAccesses(a: IA.InternalAccessAdvice, b: IA.InternalAccessAdvice): int {
    ThenBy(CompareStrings(a.sourceProject, b.sourceProject),
           CompareStrings(a.targetProject, b.targetProject))
  }

  /**
   * `ModuleAdvice.compareTo`: advice of one kind by that kind's key, advice
   * of different kinds by their names.
   */
  function Compare(x: ModuleAdvice, y: ModuleAdvice): int {
    match (x, y)
    case (ScoreAdvice(a), ScoreAdvice(b)) => CompareScores(a, b)
    case (AccessAdvice(a), AccessAdvice(b)) => CompareAccesses(a, b)
    case _ => CompareStrings(Name(x), Name(y))
  }

  /** The five flags an Android score is ordered by; source splits are not among them. */
  function ScoreKey(s: AS.AndroidScore): (k: seq<bool>)
    ensures |k| == 5
  {
    [s.hasAndroidAssets, s.hasAndroidRes, s.usesAndroidClasses, s.hasBuildConfig, s.hasAndroidDependencies]
  }

  /** The two advice agree on the key the order looks at. */
  predicate SameSortKey(x: ModuleAdvice, y: ModuleAdvice) {
    match (x, y)
    case (ScoreAdvice(a), ScoreAdvice(b)) => ScoreKey(a) == ScoreKey(b)
    case (AccessAdvice(a), AccessAdvice(b)) =>
      a.sourceProject == b.sourceProject && a.targetProject == b.targetProject
    case _ => false
  }

  /** "android" sorts before "internal-access". */
  lemma NamesOrdered()
    ensures CompareStrings(AS.Name, IA.Name) < 0
    ensures CompareStrings(IA.Name, AS.Name) > 0
  {
  }

  /** Every Android score sorts before every internal-access advice. */
  lemma ScoresBeforeAccesses(s: AS.AndroidScore, a: IA.InternalAccessAdvice)
    ensures Compare(ScoreAdvice(s), AccessAdvice(a)) < 0
    ensures Compare(AccessAdvice(a), ScoreAdvice(s)) > 0
  {
  }

  /** Compare returns 0 exactly when both advice are of one kind with the same sort key. */
  lemma CompareZeroIffSameSortKey(x: ModuleAdvice, y: ModuleAdvice)
    ensures Compare(x, y) == 0 <==> SameSortKey(x, y)
  {
    match (x, y)
    case (AccessAdvice(a), AccessAdvice(b)) =>
      CompareStringsZero(a.sourceProject, b.sourceProject);
      CompareStringsZero(a.targetProject, b.targetProject);
    case (ScoreAdvice(a), ScoreAdvice(b)) =>
      assert ScoreKey(a) == ScoreKey(b) <==>
        a.hasAndroidAssets == b.hasAndroidAssets && a.hasAndroidRes == b.hasAndroidRes
        && a.usesAndroidClasses == b.usesAndroidClasses && a.hasBuildConfig == b.hasBuildConfig
        && a.hasAndroidDependencies == b.hasAndroidDependencies;
    case (ScoreAdvice(s), AccessAdvice(a)) => NamesOrdered();
    case (AccessAdvice(a), ScoreAdvice(s)) => NamesOrdered();
  }

  /** Every advice compares as 0 with itself (what the identity short-circuit returns). */
  lemma CompareReflexive(x: ModuleAdvice)
    ensures Compare(x, x) == 0
  {
    CompareZeroIffSameSortKey(x, x);
  }

  /** Swapping the operands negates the result exactly. */
  lemma CompareAntisymmetric(x: ModuleAdvice, y: ModuleAdvice)
    ensures Compare(x, y) == -Compare(y, x)
  {
    match (x, y)
    case (AccessAdvice(a), AccessAdvice(b)) =>
      CompareStringsAntisymmetric(a.sourceProject, b.sourceProject);
      CompareStringsAntisymmetric(a.targetProject, b.targetProject);
    case (ScoreAdvice(a), ScoreAdvice(b)) =>
    case (ScoreAdvice(s), AccessAdvice(a)) => CompareStringsAntisymmetric(AS.Name, IA.Name);
    case (AccessAdvice(a), ScoreAdvice(s)) => CompareStringsAntisymmetric(IA.Name, AS.Name);
  }

  /** The order is transitive, and strictly so when either step is strict. */
  lemma CompareTransitive(x: ModuleAdvice, y: ModuleAdvice, z: ModuleAdvice)
    requires Compare(x, y) <= 0 && Compare(y, z) <= 0
    ensures Compare(x, z) <= 0
    ensures Compare(x, y) < 0 || Compare(y, z) < 0 ==> Compare(x, z) < 0
  {
    NamesOrdered();
    match (x, y, z)
    case (AccessAdvice(a), AccessAdvice(b), AccessAdvice(c)) =>
      AccessesTransitive(a, b, c);
    case (ScoreAdvice(a), ScoreAdvice(b), ScoreAdvice(c)) =>
    case (_, _, _) =>
  }

  /** The (source project, target project) order is transitive, strictly so when either step is strict. */
  lemma AccessesTransitive(a: IA.InternalAccessAdvice, b: IA.InternalAccessAdvice, c: IA.InternalAccessAdvice)
    requires CompareAccesses(a, b) <= 0 && CompareAccesses(b, c) <= 0
    ensures CompareAccesses(a, c) <= 0
    ensures CompareAccesses(a, b) < 0 || CompareAccesses(b, c) < 0 ==> CompareAccesses(a, c) < 0
  {
    CompareStringsZero(a.sourceProject, b.sourceProject);
    CompareStringsZero(b.sourceProject, c.sourceProject);
    CompareStringsZero(a.sourceProject, c.sourceProject);
    CompareStringsTransitive(a.sourceProject, b.sourceProject, c.sourceProject);
    if a.sourceProject == b.sourceProject == c.sourceProject {
      CompareStringsTransitive(a.targetProject, b.targetProject, c.targetProject);
    }
  }

  /**
   * Two Android scores are ordered lexicographically on their key, false
   * before true: the first flag in which they differ is false in the smaller.
   */
  lemma ScoreOrderIsLexicographic(a: AS.AndroidScore, b: AS.AndroidScore)
    ensures Compare(ScoreAdvice(a), ScoreAdvice(b)) < 0 <==>
      exists k :: 0 <= k < 5 && ScoreKey(a)[..k] == ScoreKey(b)[..k] && !ScoreKey(a)[k] && ScoreKey(b)[k]
  {
    var ka, kb := ScoreKey(a), ScoreKey(b);
    if Compare(ScoreAdvice(a), ScoreAdvice(b)) < 0 {
      var k := if ka[0] != kb[0] then 0 else if ka[1] != kb[1] then 1 else if ka[2] != kb[2] then 2
               else if ka[3] != kb[3] then 3 else 4;
      assert ka[..k] == kb[..k];
    }
    if k :| 0 <= k < 5 && ka[..k] == kb[..k] && !ka[k] && kb[k] {
      forall j | 0 <= j < k ensures ka[j] == kb[j] {
        assert ka[j] == ka[..k][j];
      }
      if k == 0 {
      } else if k == 1 {
        assert ka[0] == kb[0];
      } else if k == 2 {
        assert ka[0] == kb[0] && ka[1] == kb[1];
      } else if k == 3 {
        assert ka[0] == kb[0] && ka[1] == kb[1] && ka[2] == kb[2];
      } else {
        assert ka[0] == kb[0] && ka[1] == kb[1] && ka[2] == kb[2] && ka[3] == kb[3];
      }
    }
  }

  /** Two internal-access advice are ordered by source project, then by target project. */
  lemma AccessOrderIsLexicographic(a: IA.InternalAccessAdvice, b: IA.InternalAccessAdvice)
    ensures Compare(AccessAdvice(a), AccessAdvice(b)) < 0 <==>
      || LexLess(a.sourceProject, b.sourceProject)
      || (a.sourceProject == b.sourceProject && LexLess(a.targetProject, b.targetProject))
  {
    CompareStringsZero(a.sourceProject, b.sourceProject);
    CompareStringsIsLexicographic(a.sourceProject, b.sourceProject);
    CompareStringsIsLexicographic(a.targetProject, b.targetProject);
  }

  /** Scores that differ only in source splits compare as 0 although they are different values. */
  lemma SourceSplitsDoNotOrder(a: AS.AndroidScore)
    ensures var b := a.(hasBuildTypeSourceSplits := !a.hasBuildTypeSourceSplits);
      ScoreAdvice(a) != ScoreAdvice(b) && Compare(ScoreAdvice(a), ScoreAdvice(b)) == 0
  {
  }

  /** Internal-access advice that differ only in their accesses compare as 0. */
  lemma AccessesDoNotOrder(a: IA.InternalAccessAdvice, accesses: set<IA.InternalAccess>)
    ensures Compare(AccessAdvice(a), AccessAdvice(a.(internalAccesses := accesses))) == 0
  {
    CompareStringsZero(a.sourceProject, a.sourceProject);
    CompareStringsZero(a.targetProject, a.targetProject);
  }

  /** Companion `isEmpty`: no advice in the set is actionable. */
  function IsEmpty(moduleAdvice: set<ModuleAdvice>): (r: bool)
    ensures r <==> forall x :: x in moduleAdvice ==> !IsActionable(x)
    ensures moduleAdvice == {} ==> r
  {
    !exists x :: x in moduleAdvice && IsActionable(x)
  }

  /** Companion `isNotEmpty`: some advice in the set is actionable. */
  function IsNotEmpty(moduleAdvice: set<ModuleAdvice>): (r: bool)
    ensures r <==> exists x :: x in moduleAdvice && IsActionable(x)
    ensures r ==> moduleAdvice != {}
  {
    !IsEmpty(moduleAdvice)
  }

  /** The gate of a union is the conjunction of the gates of its parts. */
  lemma IsEmptyUnion(s: set<ModuleAdvice>, t: set<ModuleAdvice>)
    ensures IsEmpty(s + t) <==> IsEmpty(s) && IsEmpty(t)
  {
  }

  /**
   * A set holding only a score that could not be a JVM module is empty for
   * gating; adding an internal-access advice with one access makes it not empty.
   */
  lemma GateExample(s: AS.AndroidScore, a: IA.InternalAccessAdvice)
    requires s.hasAndroidDependencies
    requires |a.internalAccesses| == 1
    ensures IsEmpty({ScoreAdvice(s)})
    ensures IsNotEmpty({ScoreAdvice(s), AccessAdvice(a)})
  {
  }
}
