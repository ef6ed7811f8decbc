/** Which node platforms a pod's node selector and required node affinity admit, following the
    kube-scheduler's rules restricted to the operating-system and architecture labels. */
module Affinity {
  import opened Wrappers
  import P = Platform
  import opened K8sTypes

  type DockerPlatform = P.DockerPlatform

  const ArchLabel := "kubernetes.io/arch"
  const BetaArchLabel := "beta.kubernetes.io/arch"
  const OSLabel := "kubernetes.io/os"
  const BetaOSLabel := "beta.kubernetes.io/os"

  /** `getLabel`: the value a node of the platform has for a label key, for the architecture and
      operating-system keys (current and beta forms); other keys are unknown. */
  function GetLabel(key: string, platform: DockerPlatform): (r: Option<string>)
    ensures r.Some? <==> key in {ArchLabel, BetaArchLabel, OSLabel, BetaOSLabel}
  {
    if key == ArchLabel || key == BetaArchLabel then Some(platform.architecture)
    else if key == OSLabel || key == BetaOSLabel then Some(platform.os)
    else None
  }

  /** `evaluateMatchExpression`: an unknown key or an unknown operator matches. */
  function EvaluateMatchExpression(expr: NodeSelectorRequirement, platform: DockerPlatform): bool {
    match GetLabel(expr.key, platform)
    case None => true
    case Some(value) =>
      if expr.operator == "In" then value in expr.values
      else if expr.operator == "NotIn" then value !in expr.values
      else if expr.operator == "Exists" then true
      else if expr.operator == "DoesNotExist" then false
      else true
  }

  /** `evaluateNodeSelectorTerm`: the expressions of a term are AND-ed. */
  predicate EvaluateNodeSelectorTerm(term: NodeSelectorTerm, platform: DockerPlatform) {
    forall i :: 0 <= i < |term.matchExpressions| ==> EvaluateMatchExpression(term.matchExpressions[i], platform)
  }

  /** `EvaluateNodeSelector`: a missing selector matches all; the terms of a present one are OR-ed. */
  predicate EvaluateNodeSelector(nodeSelector: Option<NodeSelector>, platform: DockerPlatform) {
    match nodeSelector
    case None => true
    case Some(s) => exists i :: 0 <= i < |s.nodeSelectorTerms| && EvaluateNodeSelectorTerm(s.nodeSelectorTerms[i], platform)
  }

  /** `EvaluateLabelSelector`: every known label the selector names has the expected value. */
  predicate EvaluateLabelSelector(labelSelector: map<string, string>, platform: DockerPlatform) {
    forall key :: key in labelSelector && GetLabel(key, platform).Some? ==>
      GetLabel(key, platform).value == labelSelector[key]
  }

  /** `EvaluateSelectors`. */
  predicate EvaluateSelectors(labelSelector: map<string, string>, nodeSelector: Option<NodeSelector>, platform: DockerPlatform) {
    EvaluateLabelSelector(labelSelector, platform) && EvaluateNodeSelector(nodeSelector, platform)
  }

  /** The required node selector of a pod, if its affinity and node affinity are present. */
  function RequiredNodeSelector(spec: PodSpec): Option<NodeSelector> {
    if spec.affinity.Some? && spec.affinity.value.nodeAffinity.Some? then spec.affinity.value.nodeAffinity.value.required
    else None
  }

  /** `EvaluatePodAffinity`. */
  predicate EvaluatePodAffinity(spec: PodSpec, platform: DockerPlatform) {
    EvaluateSelectors(spec.nodeSelector, RequiredNodeSelector(spec), platform)
  }

  /** The node platforms the pod admits, in their order. */
  function Admitted(spec: PodSpec, nodePlatforms: seq<DockerPlatform>): (r: seq<DockerPlatform>)
    ensures |r| <= |nodePlatforms|
    ensures forall x :: x in r <==> x in nodePlatforms && EvaluatePodAffinity(spec, x)
  {
    if |nodePlatforms| == 0 then []
    else
      var last := nodePlatforms[|nodePlatforms| - 1];
      assert forall x :: x in nodePlatforms <==> x in nodePlatforms[..|nodePlatforms| - 1] || x == last;
      Admitted(spec, nodePlatforms[..|nodePlatforms| - 1]) + (if EvaluatePodAffinity(spec, last) then [last] else [])
  }

  /** `PodPlatforms`. */
  method PodPlatforms(spec: PodSpec, nodePlatforms: seq<DockerPlatform>) returns (platforms: seq<DockerPlatform>)
    ensures platforms == Admitted(spec, nodePlatforms)
  {
    platforms := [];
    for i := 0 to |nodePlatforms|
      invariant platforms == Admitted(spec, nodePlatforms[..i])
    {
      assert nodePlatforms[..i + 1][..i] == nodePlatforms[..i];
      if EvaluatePodAffinity(spec, nodePlatforms[i]) {
        platforms := platforms + [nodePlatforms[i]];
      }
    }
    assert nodePlatforms[..|nodePlatforms|] == nodePlatforms;
  }

  /** Filtering keeps order: the admitted platforms of a concatenation are the concatenation of
      the admitted platforms. */
  lemma {:induction false} AdmittedAppend(spec: PodSpec, a: seq<DockerPlatform>, b: seq<DockerPlatform>)
    ensures Admitted(spec, a + b) == Admitted(spec, a) + Admitted(spec, b)
    decreases |b|
  {
    if |b| == 0 {
      assert a + b == a;
    } else {
      var b' := b[..|b| - 1];
      assert (a + b)[..|a + b| - 1] == a + b';
      assert (a + b)[|a + b| - 1] == b[|b| - 1];
      AdmittedAppend(spec, a, b');
    }
  }

  /** The expression semantics, operator by operator, for a known key. */
  lemma MatchExpressionSemantics(expr: NodeSelectorRequirement, platform: DockerPlatform)
    ensures GetLabel(expr.key, platform).None? ==> EvaluateMatchExpression(expr, platform)
    ensures GetLabel(expr.key, platform).Some? ==>
      var value := GetLabel(expr.key, platform).value;
      (expr.operator == "In" ==> (EvaluateMatchExpression(expr, platform) <==> value in expr.values))
      && (expr.operator == "NotIn" ==> (EvaluateMatchExpression(expr, platform) <==> value !in expr.values))
      && (expr.operator == "Exists" ==> EvaluateMatchExpression(expr, platform))
      && (expr.operator == "DoesNotExist" ==> !EvaluateMatchExpression(expr, platform))
      && (expr.operator !in {"In", "NotIn", "Exists", "DoesNotExist"} ==> EvaluateMatchExpression(expr, platform))
  {
  }

  /** The label selector fails exactly when an architecture or operating-system key, in its
      current or beta form, expects a different value; other keys are ignored. */
  lemma LabelSelectorSemantics(labelSelector: map<string, string>, platform: DockerPlatform)
    ensures EvaluateLabelSelector(labelSelector, platform) <==>
      (ArchLabel in labelSelector ==> labelSelector[ArchLabel] == platform.architecture)
      && (BetaArchLabel in labelSelector ==> labelSelector[BetaArchLabel] == platform.architecture)
      && (OSLabel in labelSelector ==> labelSelector[OSLabel] == platform.os)
      && (BetaOSLabel in labelSelector ==> labelSelector[BetaOSLabel] == platform.os)
  {
    assert GetLabel(ArchLabel, platform) == Some(platform.architecture);
    assert GetLabel(BetaArchLabel, platform) == Some(platform.architecture);
    assert GetLabel(OSLabel, platform) == Some(platform.os);
    assert GetLabel(BetaOSLabel, platform) == Some(platform.os);
  }

  /** A missing affinity, node affinity or required selector, together with an empty node
      selector map, admits every platform. */
  lemma NoConstraintsAdmitAll(spec: PodSpec, platform: DockerPlatform)
    requires spec.nodeSelector == map[] && RequiredNodeSelector(spec).None?
    ensures EvaluatePodAffinity(spec, platform)
  {
  }

  /** A present selector with no terms admits nothing; a term with no expressions admits all. */
  lemma SelectorEdgeCases(term: NodeSelectorTerm, platform: DockerPlatform)
    ensures !EvaluateNodeSelector(Some(NodeSelector([])), platform)
    ensures term.matchExpressions == [] ==> EvaluateNodeSelectorTerm(term, platform)
  {
  }

  /** Only the operating system and architecture matter: the variant never changes the verdict. */
  lemma AffinityIgnoresVariant(spec: PodSpec, p: DockerPlatform, q: DockerPlatform)
    requires p.os == q.os && p.architecture == q.architecture
    ensures EvaluatePodAffinity(spec, p) <==> EvaluatePodAffinity(spec, q)
  {
    assert forall key :: GetLabel(key, p) == GetLabel(key, q);
  }
}
