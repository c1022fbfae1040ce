/**
 * `InternalAccessAdvice`: one module's accesses to symbols another module
 * declares internal, and the `InternalAccess` records it groups.
 */
module InternalAccesses {
  import opened Wrappers

  /** How the internal symbol is touched. */
  datatype AccessType =
    | MethodCall
    | FieldAccess
    | ClassReference
    | ConstructorCall
    | InterfaceImplementation
    | ClassExtension

  /** What the report recommends doing about one access. */
  datatype Recommendation =
    | ExposeAsApi
    | RefactorAccess
    | Acceptable
    | ManualReview

  /** One distinct internal symbol accessed; `accessedMember` is Kotlin's nullable `String?`. */
  datatype InternalAccess = InternalAccess(
    accessedClass: string,
    accessedMember: Option<string>,
    accessType: AccessType,
    isInternalApi: bool,
    recommendation: Recommendation)

  /** All internal accesses from `sourceProject` into `targetProject`. */
  datatype InternalAccessAdvice = InternalAccessAdvice(
    sourceProject: string,
    targetProject: string,
    internalAccesses: set<InternalAccess>)

  /** The advice's discriminator, used for suppression and cross-variant ordering. */
  const Name: string := "internal-access"

  /** The Kotlin enum constant's `name`. */
  function AccessTypeName(t: AccessType): string {
    match t
    case MethodCall => "METHOD_CALL"
    case FieldAccess => "FIELD_ACCESS"
    case ClassReference => "CLASS_REFERENCE"
    case ConstructorCall => "CONSTRUCTOR_CALL"
    case InterfaceImplementation => "INTERFACE_IMPLEMENTATION"
    case ClassExtension => "CLASS_EXTENSION"
  }

  /** The Kotlin enum constant's `name`. */
  function RecommendationName(r: Recommendation): string {
    match r
    case ExposeAsApi => "EXPOSE_AS_API"
    case RefactorAccess => "REFACTOR_ACCESS"
    case Acceptable => "ACCEPTABLE"
    case ManualReview => "MANUAL_REVIEW"
  }

  /** `Char.lowercaseChar()` on the ASCII letters the enum names are made of. */
  function LowerChar(c: char): char {
    if 'A' <= c <= 'Z' then (c as int + 32) as char else c
  }

  /** `String.lowercase()`. */
  function Lowercase(s: string): string {
    seq(|s|, i requires 0 <= i < |s| => LowerChar(s[i]))
  }

  /** `String.replace(from, to)` on single characters. */
  function ReplaceChar(s: string, from: char, to: char): string {
    seq(|s|, i requires 0 <= i < |s| => if s[i] == from then to else s[i])
  }

  /** `name.lowercase().replace('_', ' ')`: the humanised form of an enum constant. */
  function Humanize(name: string): string {
    ReplaceChar(Lowercase(name), '_', ' ')
  }

  /** The humanised access type, as it appears in the description. */
  function AccessTypeLabel(t: AccessType): string {
    Humanize(AccessTypeName(t))
  }

  /** The humanised recommendation, as it appears in the description. */
  function RecommendationLabel(rec: Recommendation): string {
    Humanize(RecommendationName(rec))
  }

  /** Each access type's label is its enum name in lower case with spaces for underscores. */
  lemma AccessTypeLabels()
    ensures AccessTypeLabel(MethodCall) == "method call"
    ensures AccessTypeLabel(FieldAccess) == "field access"
    ensures AccessTypeLabel(ClassReference) == "class reference"
    ensures AccessTypeLabel(ConstructorCall) == "constructor call"
    ensures AccessTypeLabel(InterfaceImplementation) == "interface implementation"
    ensures AccessTypeLabel(ClassExtension) == "class extension"
  {
    MethodCallLabel();
    FieldAccessLabel();
    ClassReferenceLabel();
    ConstructorCallLabel();
    InterfaceImplementationLabel();
    ClassExtensionLabel();
  }

  lemma MethodCallLabel() ensures AccessTypeLabel(MethodCall) == "method call" {}
  lemma FieldAccessLabel() ensures AccessTypeLabel(FieldAccess) == "field access" {}
  lemma ClassReferenceLabel() ensures AccessTypeLabel(ClassReference) == "class reference" {}
  lemma ConstructorCallLabel() ensures AccessTypeLabel(ConstructorCall) == "constructor call" {}
  lemma InterfaceImplementationLabel()
    ensures AccessTypeLabel(InterfaceImplementation) == "interface implementation"
  {}
  lemma ClassExtensionLabel() ensures AccessTypeLabel(ClassExtension) == "class extension" {}

  /** Each recommendation's label is its enum name in lower case with spaces for underscores. */
  lemma RecommendationLabels()
    ensures RecommendationLabel(ExposeAsApi) == "expose as api"
    ensures RecommendationLabel(RefactorAccess) == "refactor access"
    ensures RecommendationLabel(Acceptable) == "acceptable"
    ensures RecommendationLabel(ManualReview) == "manual review"
  {
    ExposeAsApiLabel();
    RefactorAccessLabel();
    AcceptableLabel();
    ManualReviewLabel();
  }

  lemma ExposeAsApiLabel() ensures RecommendationLabel(ExposeAsApi) == "expose as api" {}
  lemma RefactorAccessLabel() ensures RecommendationLabel(RefactorAccess) == "refactor access" {}
  lemma AcceptableLabel() ensures RecommendationLabel(Acceptable) == "acceptable" {}
  lemma ManualReviewLabel() ensures RecommendationLabel(ManualReview) == "manual review" {}

  /** The opening of every description: the access type and the class. */
  function DescriptionHead(acc: InternalAccess): string {
    "Accesses internal " + AccessTypeLabel(acc.accessType) + " of " + acc.accessedClass
  }

  /** The close of every description: the recommendation. */
  function DescriptionTail(acc: InternalAccess): string {
    " - Recommendation: " + RecommendationLabel(acc.recommendation)
  }

  const InternalApiMarker: string := " (marked as internal API)"

  /**
   * `InternalAccess.getDisplayDescription()`: the head, then `.member` exactly
   * when a member is present, then the internal-API marker exactly when the
   * symbol is marked so, then the tail.
   */
  function DisplayDescription(acc: InternalAccess): (r: string)
    ensures var head, tail := DescriptionHead(acc), DescriptionTail(acc);
      && |r| == |head| + (if acc.accessedMember.Some? then 1 + |acc.accessedMember.value| else 0)
                       + (if acc.isInternalApi then |InternalApiMarker| else 0) + |tail|
      && r[..|head|] == head
      && r[|r| - |tail|..] == tail
      && (acc.accessedMember.Some? ==>
            r[|head|..|head| + 1 + |acc.accessedMember.value|] == "." + acc.accessedMember.value)
      && (acc.isInternalApi ==>
            r[|r| - |tail| - |InternalApiMarker|..|r| - |tail|] == InternalApiMarker)
  {
    var head := "Accesses internal " + AccessTypeLabel(acc.accessType) + " of " + acc.accessedClass;
    var member := match acc.accessedMember
      case Some(m) => "." + m
      case None => "";
    var marker := if acc.isInternalApi then InternalApiMarker else "";
    var tail := " - Recommendation: " + RecommendationLabel(acc.recommendation);
    var r := head + member + marker + tail;
    assert r[..|head|] == head;
    assert r[|head|..|head| + |member|] == member;
    assert r[|head| + |member|..|head| + |member| + |marker|] == marker;
    assert r[|r| - |tail|..] == tail;
    r
  }

  /** The description of the access the build reports for `:lib2` reaching into `:lib1`'s internals. */
  lemma MethodCallDescription()
    ensures DisplayDescription(InternalAccess("com.example.internal.InternalClass", Some("doSomething"),
                                              MethodCall, false, RefactorAccess))
         == "Accesses internal " + "method call" + " of " + "com.example.internal.InternalClass"
            + "." + "doSomething" + " - Recommendation: " + "refactor access"
  {
    MethodCallLabel();
    RefactorAccessLabel();
  }

  /** Two distinct access types have labels that differ at a position both labels have. */
  lemma AccessTypeLabelsDiffer(s: AccessType, t: AccessType) returns (k: nat)
    requires s != t
    ensures k < |AccessTypeLabel(s)| && k < |AccessTypeLabel(t)|
    ensures AccessTypeLabel(s)[k] != AccessTypeLabel(t)[k]
  {
    AccessTypeLabels();
    k := if AccessTypeLabel(s)[0] != AccessTypeLabel(t)[0] then 0
         else if AccessTypeLabel(s)[1] != AccessTypeLabel(t)[1] then 1
         else 6;
  }

  /** The description names the access type unambiguously, whatever the class and member. */
  lemma DescriptionDeterminesAccessType(a: InternalAccess, b: InternalAccess)
    requires a.accessType != b.accessType
    ensures DisplayDescription(a) != DisplayDescription(b)
  {
    var k := AccessTypeLabelsDiffer(a.accessType, b.accessType);
    var i := |"Accesses internal "| + k;
    assert DisplayDescription(a)[i] == DescriptionHead(a)[i] == AccessTypeLabel(a.accessType)[k];
    assert DisplayDescription(b)[i] == DescriptionHead(b)[i] == AccessTypeLabel(b.accessType)[k];
  }

  /** The description names the recommendation unambiguously: its last character already tells them apart. */
  lemma DescriptionDeterminesRecommendation(a: InternalAccess, b: InternalAccess)
    requires a.recommendation != b.recommendation
    ensures DisplayDescription(a) != DisplayDescription(b)
  {
    RecommendationLabels();
    var da, db := DisplayDescription(a), DisplayDescription(b);
    var ta, tb := DescriptionTail(a), DescriptionTail(b);
    assert da[|da| - 1] == ta[|ta| - 1] == RecommendationLabel(a.recommendation)[|RecommendationLabel(a.recommendation)| - 1];
    assert db[|db| - 1] == tb[|tb| - 1] == RecommendationLabel(b.recommendation)[|RecommendationLabel(b.recommendation)| - 1];
  }

  /** `InternalAccessAdvice.isActionable()`: there is at least one access to report. */
  predicate IsActionable(advice: InternalAccessAdvice) {
    |advice.internalAccesses| > 0
  }

  /** `InternalAccessAdvice.of`: groups the accesses of one (source, target) pair. */
  function Of(sourceProject: string, targetProject: string, internalAccesses: set<InternalAccess>): (r: InternalAccessAdvice)
    ensures r.sourceProject == sourceProject && r.targetProject == targetProject
    ensures r.internalAccesses == internalAccesses
    ensures IsActionable(r) <==> internalAccesses != {}
  {
    InternalAccessAdvice(sourceProject, targetProject, internalAccesses)
  }
}
