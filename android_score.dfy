/**
 * `AndroidScore`: how much of the Android platform one module uses, folded
 * over its build variants, with a weighted score and two verdicts on whether
 * the module could be a plain JVM module instead.
 *
 * The source keeps the score as a `Float` built from the weights 2, 2, 2,
 * 0.5, 100 and 0.25 and compares it with 0 and with the threshold 2. Every
 * partial sum is a multiple of 0.25 below 107, so the float arithmetic is
 * exact; here the score is an integer count of quarter units instead.
 */
module AndroidScores {
  import opened Wrappers

  /** The module-level score: each flag is true when some variant reports it. */
  datatype AndroidScore = AndroidScore(
    hasAndroidAssets: bool,
    hasAndroidRes: bool,
    usesAndroidClasses: bool,
    hasBuildConfig: bool,
    hasAndroidDependencies: bool,
    hasBuildTypeSourceSplits: bool)

  /** The signals one build variant of the module reports. */
  datatype AndroidScoreVariant = AndroidScoreVariant(
    hasAndroidAssets: bool,
    hasAndroidRes: bool,
    usesAndroidClasses: bool,
    hasBuildConfig: bool,
    hasAndroidDependencies: bool,
    hasBuildTypeSourceSplits: bool)

  /** Names the six signals, so that statements about all of them can quantify. */
  datatype Signal = Assets | Res | Classes | BuildConfig | Dependencies | SourceSplits

  /** The advice's discriminator, used for suppression and cross-variant ordering. */
  const Name: string := "android"

  // Weights and threshold in quarter units (2.0 == 8, 0.5 == 2, 100.0 == 400, 0.25 == 1).
  const AssetsWeight: nat := 8
  const ResWeight: nat := 8
  const ClassesWeight: nat := 8
  const BuildConfigWeight: nat := 2
  const DependenciesWeight: nat := 400
  const SourceSplitsWeight: nat := 1
  const Threshold: nat := 8

  function Flag(s: AndroidScore, sig: Signal): bool {
    match sig
    case Assets => s.hasAndroidAssets
    case Res => s.hasAndroidRes
    case Classes => s.usesAndroidClasses
    case BuildConfig => s.hasBuildConfig
    case Dependencies => s.hasAndroidDependencies
    case SourceSplits => s.hasBuildTypeSourceSplits
  }

  function VariantFlag(v: AndroidScoreVariant, sig: Signal): bool {
    match sig
    case Assets => v.hasAndroidAssets
    case Res => v.hasAndroidRes
    case Classes => v.usesAndroidClasses
    case BuildConfig => v.hasBuildConfig
    case Dependencies => v.hasAndroidDependencies
    case SourceSplits => v.hasBuildTypeSourceSplits
  }

  /** A score is nothing but its six flags. */
  lemma FlagsDetermineScore(a: AndroidScore, b: AndroidScore)
    requires forall sig :: Flag(a, sig) == Flag(b, sig)
    ensures a == b
  {
    assert Flag(a, Assets) == Flag(b, Assets) && Flag(a, Res) == Flag(b, Res);
    assert Flag(a, Classes) == Flag(b, Classes) && Flag(a, BuildConfig) == Flag(b, BuildConfig);
    assert Flag(a, Dependencies) == Flag(b, Dependencies) && Flag(a, SourceSplits) == Flag(b, SourceSplits);
  }

  /** The `score`: the weight of every signal the module reports, added up. */
  function Score(s: AndroidScore): (r: nat)
    ensures r <= AssetsWeight + ResWeight + ClassesWeight + BuildConfigWeight
                 + DependenciesWeight + SourceSplitsWeight
    ensures r >= DependenciesWeight <==> s.hasAndroidDependencies
  {
    (if s.hasAndroidAssets then AssetsWeight else 0)
    + (if s.hasAndroidRes then ResWeight else 0)
    + (if s.usesAndroidClasses then ClassesWeight else 0)
    + (if s.hasBuildConfig then BuildConfigWeight else 0)
    + (if s.hasAndroidDependencies then DependenciesWeight else 0)
    + (if s.hasBuildTypeSourceSplits then SourceSplitsWeight else 0)
  }

  /** The lazy initialiser of `score`: a running count with one guarded step per signal. */
  method ComputeScore(s: AndroidScore) returns (count: nat)
    ensures count == Score(s)
  {
    count := 0;
    if s.hasAndroidAssets { count := count + AssetsWeight; }
    if s.hasAndroidRes { count := count + ResWeight; }
    if s.usesAndroidClasses { count := count + ClassesWeight; }
    if s.hasBuildConfig { count := count + BuildConfigWeight; }
    if s.hasAndroidDependencies { count := count + DependenciesWeight; }
    if s.hasBuildTypeSourceSplits { count := count + SourceSplitsWeight; }
  }

  /** `shouldBeJvm()`: the score is zero, that is, the module uses no Android facility at all. */
  function ShouldBeJvm(s: AndroidScore): (r: bool)
    ensures r <==> !s.hasAndroidAssets && !s.hasAndroidRes && !s.usesAndroidClasses
                   && !s.hasBuildConfig && !s.hasAndroidDependencies && !s.hasBuildTypeSourceSplits
  {
    Score(s) == 0
  }

  /**
   * `couldBeJvm()`: the score is below the threshold. Build config (0.5) and
   * source splits (0.25) together stay below it; any one of the other four
   * signals reaches it.
   */
  function CouldBeJvm(s: AndroidScore): (r: bool)
    ensures r <==> !s.hasAndroidAssets && !s.hasAndroidRes && !s.usesAndroidClasses
                   && !s.hasAndroidDependencies
    ensures ShouldBeJvm(s) ==> r
  {
    Score(s) < Threshold
  }

  /** `AndroidScore.isActionable()`: the module could drop the Android plugin. */
  function IsActionable(s: AndroidScore): (r: bool)
    ensures s.hasAndroidDependencies ==> !r
  {
    CouldBeJvm(s)
  }

  /** Some variant in `variants` reports `sig`. */
  predicate AnyVariant(variants: seq<AndroidScoreVariant>, sig: Signal) {
    exists v :: v in variants && VariantFlag(v, sig)
  }

  /** Adding one variant adds exactly its own signals. */
  lemma AnyVariantAppend(variants: seq<AndroidScoreVariant>, v: AndroidScoreVariant)
    ensures forall sig :: AnyVariant(variants + [v], sig) == (AnyVariant(variants, sig) || VariantFlag(v, sig))
  {
  }

  /**
   * What `ofVariants` returns: nothing for a module with no variants (a JVM
   * module), otherwise the score whose every flag is the OR of that flag
   * over the variants.
   */
  function Fold(variants: seq<AndroidScoreVariant>): (r: Option<AndroidScore>)
    ensures r.None? <==> |variants| == 0
    ensures r.Some? ==> forall sig :: Flag(r.value, sig) == AnyVariant(variants, sig)
  {
    if |variants| == 0 then None
    else Some(AndroidScore(
      AnyVariant(variants, Assets),
      AnyVariant(variants, Res),
      AnyVariant(variants, Classes),
      AnyVariant(variants, BuildConfig),
      AnyVariant(variants, Dependencies),
      AnyVariant(variants, SourceSplits)))
  }

  /** `AndroidScore.ofVariants`: one pass over the variants, OR-ing six running flags. */
  method OfVariants(variants: seq<AndroidScoreVariant>) returns (r: Option<AndroidScore>)
    ensures r == Fold(variants)
  {
    if |variants| == 0 {
      return None;
    }
    var hasAndroidAssets := false;
    var hasAndroidRes := false;
    var hasBuildConfig := false;
    var usesAndroidClasses := false;
    var hasAndroidDependencies := false;
    var hasBuildTypeSourceSplits := false;
    for i := 0 to |variants|
      invariant hasAndroidAssets == AnyVariant(variants[..i], Assets)
      invariant hasAndroidRes == AnyVariant(variants[..i], Res)
      invariant hasBuildConfig == AnyVariant(variants[..i], BuildConfig)
      invariant usesAndroidClasses == AnyVariant(variants[..i], Classes)
      invariant hasAndroidDependencies == AnyVariant(variants[..i], Dependencies)
      invariant hasBuildTypeSourceSplits == AnyVariant(variants[..i], SourceSplits)
    {
      var v := variants[i];
      assert variants[..i + 1] == variants[..i] + [v];
      AnyVariantAppend(variants[..i], v);
      hasAndroidAssets := hasAndroidAssets || v.hasAndroidAssets;
      hasAndroidRes := hasAndroidRes || v.hasAndroidRes;
      hasBuildConfig := hasBuildConfig || v.hasBuildConfig;
      usesAndroidClasses := usesAndroidClasses || v.usesAndroidClasses;
      hasAndroidDependencies := hasAndroidDependencies || v.hasAndroidDependencies;
      hasBuildTypeSourceSplits := hasBuildTypeSourceSplits || v.hasBuildTypeSourceSplits;
    }
    assert variants[..|variants|] == variants;
    r := Some(AndroidScore(
      hasAndroidAssets := hasAndroidAssets,
      hasAndroidRes := hasAndroidRes,
      usesAndroidClasses := usesAndroidClasses,
      hasBuildConfig := hasBuildConfig,
      hasAndroidDependencies := hasAndroidDependencies,
      hasBuildTypeSourceSplits := hasBuildTypeSourceSplits));
  }

  /** The fold sees only which variants occur: not their order, not how often. */
  lemma FoldIgnoresOrderAndDuplicates(vs: seq<AndroidScoreVariant>, ws: seq<AndroidScoreVariant>)
    requires forall v :: v in vs <==> v in ws
    ensures Fold(vs) == Fold(ws)
  {
    assert |vs| == 0 <==> |ws| == 0 by {
      if |vs| != 0 { assert vs[0] in ws; }
      if |ws| != 0 { assert ws[0] in vs; }
    }
    if |vs| != 0 {
      forall sig ensures Flag(Fold(vs).value, sig) == Flag(Fold(ws).value, sig) {
        assert AnyVariant(vs, sig) == AnyVariant(ws, sig);
      }
      FlagsDetermineScore(Fold(vs).value, Fold(ws).value);
    }
  }

  /** A dependency on an Android library in any one variant vetoes the move to the JVM. */
  lemma DependencyVetoes(variants: seq<AndroidScoreVariant>, v: AndroidScoreVariant)
    requires v in variants && v.hasAndroidDependencies
    ensures Fold(variants).Some?
    ensures !CouldBeJvm(Fold(variants).value) && !IsActionable(Fold(variants).value)
  {
  }

  /** Variants that report nothing fold to a present score of zero, not to absence. */
  lemma SilentVariantsShouldBeJvm(variants: seq<AndroidScoreVariant>)
    requires |variants| > 0
    requires forall v, sig :: v in variants ==> !VariantFlag(v, sig)
    ensures Fold(variants).Some?
    ensures Score(Fold(variants).value) == 0 && ShouldBeJvm(Fold(variants).value)
  {
  }

  /**
   * Resources in one variant and nothing else anywhere: the score is exactly
   * the threshold, which is not below it, so the module could not be a JVM one.
   */
  lemma ResourcesAloneReachThreshold(variants: seq<AndroidScoreVariant>, v: AndroidScoreVariant)
    requires v in variants && v.hasAndroidRes
    requires forall w, sig :: w in variants && sig != Res ==> !VariantFlag(w, sig)
    ensures Fold(variants).Some?
    ensures Score(Fold(variants).value) == Threshold
    ensures !ShouldBeJvm(Fold(variants).value) && !CouldBeJvm(Fold(variants).value)
  {
  }
}
