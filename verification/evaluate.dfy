/** `EvaluateObjects`: one report row per virtual pod of every object, comparing the platforms
    the pod may be scheduled on with the platforms its images are built for. */
module Evaluate {
  import opened Wrappers
  import P = Platform
  import PL = PlatformList
  import opened K8sTypes
  import Affinity
  import Kinds
  import opened ManifestAnalysis
  import opened Inspect
  import opened Cache

  type DockerPlatform = P.DockerPlatform

  /** What the platform inspector answered for one container image. */
  type Answer = Result<seq<DockerPlatform>>

  /** `Row`, without the CPU and memory usage figures. */
  datatype Row = Row(
    namespace: string,
    apiVersion: string,
    kind: string,
    name: string,
    subName: string,
    scheduledPlatform: Option<DockerPlatform>,
    declaredPlatforms: seq<DockerPlatform>,
    imagePlatforms: seq<DockerPlatform>,
    imagePlatformDetails: map<string, seq<DockerPlatform>>,
    hasViolation: bool,
    error: string)

  const OsLabel := "kubernetes.io/os"
  const ArchLabel := "kubernetes.io/arch"

  /** A label of a node, "" when absent, as a Go map lookup gives it. */
  function LabelOr(labels: map<string, string>, key: string): (r: string)
    ensures key in labels ==> r == labels[key]
    ensures key !in labels ==> r == ""
  {
    if key in labels then labels[key] else ""
  }

  /** `nodesByName`: each node name maps to the last node of that name. */
  function NodeIndex(nodes: seq<Node>): (m: map<string, Node>)
    ensures forall name :: name in m <==> exists i :: 0 <= i < |nodes| && nodes[i].name == name
    ensures forall name :: name in m ==> m[name].name == name && m[name] in nodes
  {
    if |nodes| == 0 then map[]
    else
      var init := nodes[..|nodes| - 1];
      var last := nodes[|nodes| - 1];
      assert forall i :: 0 <= i < |init| ==> init[i] == nodes[i];
      NodeIndex(init)[last.name := last]
  }

  /** The node a later node of the same name does not replace is the one recorded. */
  lemma {:induction false} NodeIndexLastWins(nodes: seq<Node>, j: nat)
    requires j < |nodes|
    requires forall j' :: j < j' < |nodes| ==> nodes[j'].name != nodes[j].name
    ensures NodeIndex(nodes)[nodes[j].name] == nodes[j]
    decreases |nodes|
  {
    if j < |nodes| - 1 {
      NodeIndexLastWins(nodes[..|nodes| - 1], j);
    }
  }

  /** The platform a pod object is scheduled on: set only for pods bound to a known node, from
      that node's OS and architecture labels, with no variant. */
  function ScheduledPlatform(obj: Object, nodesByName: map<string, Node>): (r: Option<DockerPlatform>)
    ensures r.Some? <==> obj.body.PodBody? && obj.body.spec.nodeName in nodesByName
    ensures r.Some? ==> (
      && r.value.variant == ""
      && r.value.os == LabelOr(nodesByName[obj.body.spec.nodeName].labels, OsLabel)
      && r.value.architecture == LabelOr(nodesByName[obj.body.spec.nodeName].labels, ArchLabel))
  {
    if obj.body.PodBody? && obj.body.spec.nodeName in nodesByName then
      var labels := nodesByName[obj.body.spec.nodeName].labels;
      Some(P.DockerPlatform(LabelOr(labels, OsLabel), LabelOr(labels, ArchLabel), ""))
    else None
  }

  /** The intersection of the variantless lists of the successful answers, in answer order; the
      first success seeds it; None when nothing succeeded. */
  function Common(answers: seq<Answer>): Option<seq<DockerPlatform>> {
    if |answers| == 0 then None
    else
      var acc := Common(answers[..|answers| - 1]);
      var last := answers[|answers| - 1];
      if last.Failure? then acc
      else if acc.None? then Some(PL.VariantlessOf(last.value))
      else Some(PL.Filter(acc.value, PL.VariantlessOf(last.value)))
  }

  /** `ImagePlatforms`: the common platforms of the inspected images, or the node platforms when
      no image could be inspected. */
  function ImagePlatforms(answers: seq<Answer>, nodePlatforms: seq<DockerPlatform>): seq<DockerPlatform> {
    var common := Common(answers);
    if common.Some? then common.value else nodePlatforms
  }

  /** `ImagePlatformDetails`: per container name, the variantless platforms of its image; later
      containers of the same name replace earlier ones, and failed inspections leave no entry. */
  function Details(containers: seq<Container>, answers: seq<Answer>): map<string, seq<DockerPlatform>>
    requires |containers| == |answers|
  {
    if |containers| == 0 then map[]
    else
      var n := |containers| - 1;
      var acc := Details(containers[..n], answers[..n]);
      if answers[n].Failure? then acc else acc[containers[n].name := PL.VariantlessOf(answers[n].value)]
  }

  /** The inspection errors of one virtual pod, in container order. */
  function InspectionErrors(answers: seq<Answer>): (r: seq<Error>)
    ensures |r| <= |answers|
    ensures forall k :: 0 <= k < |r| ==> |r[k].msg| > 0
  {
    if |answers| == 0 then []
    else
      var last := answers[|answers| - 1];
      InspectionErrors(answers[..|answers| - 1])
        + (if last.Failure? then [Wrap("inspecting image platforms", last.error)] else [])
  }

  /** `Row.Error`: the first error's message, or "" when there is none. */
  function FirstMessage(errs: seq<Error>): string {
    if |errs| > 0 then errs[0].msg else ""
  }

  /** The row `evaluateVirtualPod` produces for `obj` and one of its virtual pods, given the
      inspector's answers for the pod's containers. */
  function RowOf(obj: Object, vp: VirtualPod, nodesByName: map<string, Node>, nodePlatforms: seq<DockerPlatform>,
                 answers: seq<Answer>): Row
    requires |answers| == |vp.spec.containers|
  {
    var declared := Affinity.Admitted(vp.spec, nodePlatforms);
    var image := ImagePlatforms(answers, nodePlatforms);
    Row(obj.meta.namespace, obj.apiVersion, obj.kind, obj.meta.name, vp.subName,
        ScheduledPlatform(obj, nodesByName), declared, image, Details(vp.spec.containers, answers),
        !PL.IncludesAll(image, declared), FirstMessage(InspectionErrors(answers)))
  }

  /** The virtual pods of `obj`: those of the first processor for which the object was created
      after the cutoff or is active, none when there is no such processor. */
  function PodsFor(obj: Object, processors: seq<Kinds.Processor>, after: int): seq<VirtualPod> {
    if |processors| == 0 then []
    else if obj.meta.creationTimestamp > after || Kinds.IsActive(processors[0], obj) then
      Kinds.VirtualPods(processors[0], obj)
    else PodsFor(obj, processors[1..], after)
  }

  /** The parts `f` gives for the elements of `xs`, one after another. */
  function Concat<T, U>(xs: seq<T>, f: T -> seq<U>): seq<U> {
    if |xs| == 0 then [] else Concat(xs[..|xs| - 1], f) + f(xs[|xs| - 1])
  }

  lemma {:induction false} ConcatAppend<T, U>(a: seq<T>, b: seq<T>, f: T -> seq<U>)
    ensures Concat(a + b, f) == Concat(a, f) + Concat(b, f)
    decreases |b|
  {
    if |b| == 0 {
      assert a + b == a;
    } else {
      var b' := b[..|b| - 1];
      assert (a + b)[..|a + b| - 1] == a + b';
      assert (a + b)[|a + b| - 1] == b[|b| - 1];
      ConcatAppend(a, b', f);
    }
  }

  /** The (object, virtual pod) pairs the rows are made for, objects in order and each object's
      pods in order. */
  function Pairs(objs: seq<Object>, processors: seq<Kinds.Processor>, after: int): seq<(Object, VirtualPod)> {
    Concat(objs, obj => ObjectPairs(obj, PodsFor(obj, processors, after)))
  }


  /** Each virtual pod paired with its object. */
  function ObjectPairs(obj: Object, vps: seq<VirtualPod>): (r: seq<(Object, VirtualPod)>)
    ensures |r| == |vps|
    ensures forall k :: 0 <= k < |vps| ==> r[k] == (obj, vps[k])
  {
    if |vps| == 0 then [] else ObjectPairs(obj, vps[..|vps| - 1]) + [(obj, vps[|vps| - 1])]
  }

  /** Every row is `RowOf` its pair and the answers for that pair's containers. */
  ghost predicate RowsOf(rows: seq<Row>, pairs: seq<(Object, VirtualPod)>, answers: seq<seq<Answer>>,
                         nodesByName: map<string, Node>, nodePlatforms: seq<DockerPlatform>) {
    && |rows| == |pairs| == |answers|
    && (forall n :: 0 <= n < |rows| ==> RowFor(rows[n], pairs[n], answers[n], nodesByName, nodePlatforms))
  }

  /** `row` is `RowOf` the pair and the answers for its containers. */
  ghost predicate RowFor(row: Row, pair: (Object, VirtualPod), answers: seq<Answer>,
                         nodesByName: map<string, Node>, nodePlatforms: seq<DockerPlatform>) {
    |answers| == |pair.1.spec.containers| && row == RowOf(pair.0, pair.1, nodesByName, nodePlatforms, answers)
  }

  /** `errors.Wrap(err, context)` of every error, in order. */
  function WrapAll(context: string, errs: seq<Error>): (r: seq<Error>)
    ensures |r| == |errs|
    ensures forall i :: 0 <= i < |errs| ==> r[i] == Wrap(context, errs[i])
  {
    if |errs| == 0 then [] else WrapAll(context, errs[..|errs| - 1]) + [Wrap(context, errs[|errs| - 1])]
  }

  /** The errors `EvaluateObjects` aggregates: each row's inspection errors wrapped once more,
      rows in order. */
  function AllErrors(answers: seq<seq<Answer>>): seq<Error> {
    Concat(answers, RowErrors)
  }

  /** The errors one row adds to the aggregate. */
  function RowErrors(rowAnswers: seq<Answer>): seq<Error> {
    WrapAll("evaluating pod platforms", InspectionErrors(rowAnswers))
  }


  /** What the inspector answers for one image, as far as the answer does not depend on what the
      cache holds: a reference that does not parse is that parse error, wrapped, and with the
      no-op cache the answer is the manifest analysis of the normalized reference. */
  ghost predicate Answered(inspector: PlatformInspector, image: string, parse: string -> Result<Reference>, a: Answer) {
    && (parse(image).Failure? ==> a == Failure(Wrap("parsing image reference", parse(image).error)))
    && (parse(image).Success? && inspector.cache.nop ==>
          a == Analysis(NormalizeRef(parse(image).value), inspector.retriever))
  }

  /** The answers, in order, are the inspector's answers for the first containers' images. */
  ghost predicate AnsweredAll(inspector: PlatformInspector, containers: seq<Container>,
                              parse: string -> Result<Reference>, answers: seq<Answer>) {
    && |answers| <= |containers|
    && forall k :: 0 <= k < |answers| ==> Answered(inspector, containers[k].image, parse, answers[k])
  }

  /** The answers of every row are the inspector's answers for the images of its pair's pod. */
  ghost predicate PairsAnswered(inspector: PlatformInspector, pairs: seq<(Object, VirtualPod)>,
                                parse: string -> Result<Reference>, answers: seq<seq<Answer>>) {
    && |answers| == |pairs|
    && forall n :: 0 <= n < |answers| ==> AnsweredAll(inspector, pairs[n].1.spec.containers, parse, answers[n])
  }

  /** Answers of two runs of pairs, side by side, answer the joined pairs. */
  lemma PairsAnsweredAppend(inspector: PlatformInspector, pairs: seq<(Object, VirtualPod)>, answers: seq<seq<Answer>>,
                            pairs': seq<(Object, VirtualPod)>, answers': seq<seq<Answer>>,
                            parse: string -> Result<Reference>)
    requires PairsAnswered(inspector, pairs, parse, answers)
    requires PairsAnswered(inspector, pairs', parse, answers')
    ensures PairsAnswered(inspector, pairs + pairs', parse, answers + answers')
  {
    var n := |answers|;
    forall m | n <= m < |answers + answers'|
      ensures AnsweredAll(inspector, (pairs + pairs')[m].1.spec.containers, parse, (answers + answers')[m])
    {
      assert (pairs + pairs')[m] == pairs'[m - n];
      assert (answers + answers')[m] == answers'[m - n];
    }
  }

  /** A YAML cache in state `s` remembers every parsable image among the first answered
      containers under its cache key, with the answer given for it. */
  ghost predicate CachedAll(s: CacheState, containers: seq<Container>, parse: string -> Result<Reference>,
                            answers: seq<Answer>) {
    forall k :: 0 <= k < |answers| && k < |containers| && parse(containers[k].image).Success? && !s.nop ==>
      Remembers(s, CacheKey(parse(containers[k].image).value), answers[k])
  }

  /** A YAML cache in state `s` remembers the answers of every row for its pair's pod. */
  ghost predicate PairsCached(s: CacheState, pairs: seq<(Object, VirtualPod)>, parse: string -> Result<Reference>,
                              answers: seq<seq<Answer>>) {
    forall n :: 0 <= n < |answers| && n < |pairs| ==> CachedAll(s, pairs[n].1.spec.containers, parse, answers[n])
  }

  /** What the cache remembers about a pod's images survives its growth. */
  lemma CachedAllKept(s0: CacheState, s1: CacheState, containers: seq<Container>, parse: string -> Result<Reference>,
                      answers: seq<Answer>)
    requires Grown(s0, s1) && CachedAll(s0, containers, parse, answers)
    ensures CachedAll(s1, containers, parse, answers)
  {
    forall k | 0 <= k < |answers| && k < |containers| && parse(containers[k].image).Success? && !s1.nop
      ensures Remembers(s1, CacheKey(parse(containers[k].image).value), answers[k])
    {
      RemembersKept(s0, s1, CacheKey(parse(containers[k].image).value), answers[k]);
    }
  }

  /** What the cache remembers about the earlier containers survives its growth, and the next
      container's answer, remembered in the grown cache, joins them. */
  lemma CachedAllNext(s0: CacheState, s1: CacheState, containers: seq<Container>, parse: string -> Result<Reference>,
                      answers: seq<Answer>, a: Answer)
    requires Grown(s0, s1) && CachedAll(s0, containers, parse, answers) && |answers| < |containers|
    requires var image := containers[|answers|].image;
      parse(image).Success? && !s1.nop ==> Remembers(s1, CacheKey(parse(image).value), a)
    ensures CachedAll(s1, containers, parse, answers + [a])
  {
    CachedAllKept(s0, s1, containers, parse, answers);
    assert forall k :: 0 <= k < |answers| ==> (answers + [a])[k] == answers[k];
  }

  /** What the cache remembers about earlier rows survives its growth, and the rows of the
      later pairs, remembered in the grown cache, join them. */
  lemma PairsCachedStep(s0: CacheState, s1: CacheState, pairs: seq<(Object, VirtualPod)>, answers: seq<seq<Answer>>,
                        pairs': seq<(Object, VirtualPod)>, answers': seq<seq<Answer>>,
                        parse: string -> Result<Reference>)
    requires Grown(s0, s1) && |answers| == |pairs|
    requires PairsCached(s0, pairs, parse, answers)
    requires PairsCached(s1, pairs', parse, answers')
    ensures PairsCached(s1, pairs + pairs', parse, answers + answers')
  {
    var n := |answers|;
    forall m | 0 <= m < |answers + answers'| && m < |pairs + pairs'|
      ensures CachedAll(s1, (pairs + pairs')[m].1.spec.containers, parse, (answers + answers')[m])
    {
      if m < n {
        CachedAllKept(s0, s1, pairs[m].1.spec.containers, parse, answers[m]);
      } else {
        assert (pairs + pairs')[m] == pairs'[m - n];
        assert (answers + answers')[m] == answers'[m - n];
      }
    }
  }

  /** Every answer so far is what the inspector provides for its container's image in a run
      that started in cache state `s0`. */
  ghost predicate ProvidedAll(s0: CacheState, containers: seq<Container>, parse: string -> Result<Reference>,
                              retriever: Retriever, answers: seq<Answer>) {
    forall k :: 0 <= k < |answers| && k < |containers| ==> Provided(s0, containers[k].image, parse, retriever, answers[k])
  }

  /** The answers of every row are provided, in a run started in `s0`, for its pair's pod. */
  ghost predicate PairsProvided(s0: CacheState, pairs: seq<(Object, VirtualPod)>, parse: string -> Result<Reference>,
                                retriever: Retriever, answers: seq<seq<Answer>>) {
    forall n :: 0 <= n < |answers| && n < |pairs| ==> ProvidedAll(s0, pairs[n].1.spec.containers, parse, retriever, answers[n])
  }

  /** Answers provided in a run started in `s`, once the cache filled from `s0` to `s`, are
      provided in the run started in `s0`. */
  lemma ProvidedAllFrom(s0: CacheState, s: CacheState, containers: seq<Container>, parse: string -> Result<Reference>,
                        retriever: Retriever, answers: seq<Answer>)
    requires Fills(s0, s, retriever) && ProvidedAll(s, containers, parse, retriever, answers)
    ensures ProvidedAll(s0, containers, parse, retriever, answers)
  {
    forall k | 0 <= k < |answers| && k < |containers|
      ensures Provided(s0, containers[k].image, parse, retriever, answers[k])
    {
      ProvidedFrom(s0, s, containers[k].image, parse, retriever, answers[k]);
    }
  }

  /** The cache loop invariant of `InspectContainers`: filled since `s0`, the cache in state `s`
      remembers the answers so far, and each was provided in the run started in `s0`. */
  ghost predicate ContainersKept(s0: CacheState, s: CacheState, containers: seq<Container>,
                                 parse: string -> Result<Reference>, retriever: Retriever, answers: seq<Answer>) {
    && Fills(s0, s, retriever)
    && CachedAll(s, containers, parse, answers)
    && ProvidedAll(s0, containers, parse, retriever, answers)
  }

  /** One more inspector call, served in state `s0` and leaving the cache in `s1`, keeps the
      cache loop invariant of `InspectContainers`. */
  lemma ContainersKeptNext(s00: CacheState, s0: CacheState, s1: CacheState, containers: seq<Container>,
                           parse: string -> Result<Reference>, retriever: Retriever, answers: seq<Answer>, a: Answer)
    requires ContainersKept(s00, s0, containers, parse, retriever, answers) && |answers| < |containers|
    requires Fills(s0, s1, retriever)
    requires Served(s0, containers[|answers|].image, parse, retriever, a)
    requires var image := containers[|answers|].image;
      parse(image).Success? && !s1.nop ==> Remembers(s1, CacheKey(parse(image).value), a)
    ensures ContainersKept(s00, s1, containers, parse, retriever, answers + [a])
  {
    CachedAllNext(s0, s1, containers, parse, answers, a);
    FillsTransitive(s00, s0, s1, retriever);
    ProvidedFrom(s00, s0, containers[|answers|].image, parse, retriever, a);
    assert forall k :: 0 <= k < |answers| ==> (answers + [a])[k] == answers[k];
  }

  /** The cache loop invariant of `EvaluatePods` and `EvaluateObjects`: filled since `s0`, the
      cache in state `s` remembers the rows so far, and their answers were provided in the run
      started in `s0`. */
  ghost predicate PairsKept(s0: CacheState, s: CacheState, pairs: seq<(Object, VirtualPod)>,
                            parse: string -> Result<Reference>, retriever: Retriever, answers: seq<seq<Answer>>) {
    && Fills(s0, s, retriever)
    && PairsCached(s, pairs, parse, answers)
    && PairsProvided(s0, pairs, parse, retriever, answers)
  }

  /** Rows provided in a run started in `s`, once the cache filled from `s0` to `s`, are
      provided in the run started in `s0`. */
  lemma PairsProvidedFrom(s0: CacheState, s: CacheState, pairs: seq<(Object, VirtualPod)>,
                          parse: string -> Result<Reference>, retriever: Retriever, answers: seq<seq<Answer>>)
    requires Fills(s0, s, retriever) && PairsProvided(s, pairs, parse, retriever, answers)
    ensures PairsProvided(s0, pairs, parse, retriever, answers)
  {
    forall n | 0 <= n < |answers| && n < |pairs|
      ensures ProvidedAll(s0, pairs[n].1.spec.containers, parse, retriever, answers[n])
    {
      ProvidedAllFrom(s0, s, pairs[n].1.spec.containers, parse, retriever, answers[n]);
    }
  }

  /** Rows provided in one run, side by side. */
  lemma PairsProvidedAppend(s0: CacheState, pairs: seq<(Object, VirtualPod)>, answers: seq<seq<Answer>>,
                            pairs': seq<(Object, VirtualPod)>, answers': seq<seq<Answer>>,
                            parse: string -> Result<Reference>, retriever: Retriever)
    requires |answers| == |pairs|
    requires PairsProvided(s0, pairs, parse, retriever, answers)
    requires PairsProvided(s0, pairs', parse, retriever, answers')
    ensures PairsProvided(s0, pairs + pairs', parse, retriever, answers + answers')
  {
    var n := |answers|;
    forall m | n <= m < |answers + answers'| && m < |pairs + pairs'|
      ensures ProvidedAll(s0, (pairs + pairs')[m].1.spec.containers, parse, retriever, (answers + answers')[m])
    {
      assert (pairs + pairs')[m] == pairs'[m - n];
      assert (answers + answers')[m] == answers'[m - n];
    }
  }

  /** One more run of rows, made in a run started in `s0` that left the cache in `s1`, keeps the
      cache loop invariant. */
  lemma PairsKeptStep(s00: CacheState, s0: CacheState, s1: CacheState,
                      pairs: seq<(Object, VirtualPod)>, answers: seq<seq<Answer>>,
                      pairs': seq<(Object, VirtualPod)>, answers': seq<seq<Answer>>,
                      parse: string -> Result<Reference>, retriever: Retriever)
    requires PairsKept(s00, s0, pairs, parse, retriever, answers) && |answers| == |pairs|
    requires Fills(s0, s1, retriever) && PairsCached(s1, pairs', parse, answers')
    requires PairsProvided(s0, pairs', parse, retriever, answers')
    ensures PairsKept(s00, s1, pairs + pairs', parse, retriever, answers + answers')
  {
    PairsCachedStep(s0, s1, pairs, answers, pairs', answers', parse);
    PairsProvidedFrom(s00, s0, pairs', parse, retriever, answers');
    PairsProvidedAppend(s00, pairs, answers, pairs', answers', parse, retriever);
    FillsTransitive(s00, s0, s1, retriever);
  }

  /** `evaluateVirtualPod`: inspects every container image once, in order, and assembles the
      row; the row is produced even when inspections fail.  `answers` are the inspector's
      answers, one per container. */
  method EvaluateVirtualPod(obj: Object, nodesByName: map<string, Node>, nodePlatforms: seq<DockerPlatform>,
                            inspector: PlatformInspector, vp: VirtualPod, parse: string -> Result<Reference>)
      returns (row: Row, errs: seq<Error>, ghost answers: seq<Answer>)
    requires inspector.cache.Valid()
    modifies inspector, inspector.cache
    ensures inspector.cache.Valid()
    ensures |answers| == |vp.spec.containers|
    ensures AnsweredAll(inspector, vp.spec.containers, parse, answers)
    ensures Fills(old(inspector.cache.State()), inspector.cache.State(), inspector.retriever)
    ensures CachedAll(inspector.cache.State(), vp.spec.containers, parse, answers)
    ensures ProvidedAll(old(inspector.cache.State()), vp.spec.containers, parse, inspector.retriever, answers)
    ensures row == RowOf(obj, vp, nodesByName, nodePlatforms, answers)
    ensures errs == InspectionErrors(answers)
  {
    var declared := Affinity.PodPlatforms(vp.spec, nodePlatforms);
    var details, found, image;
    details, found, image, errs, answers := InspectContainers(vp.spec.containers, inspector, parse);
    if !found {
      image := nodePlatforms;
    }
    var includes := PL.Includes(image, declared);
    row := Row(obj.meta.namespace, obj.apiVersion, obj.kind, obj.meta.name, vp.subName,
               ScheduledPlatform(obj, nodesByName), declared, image, details,
               !includes, FirstMessage(errs));
  }

  /** The rows of one object's virtual pods, in order, with their errors wrapped once more. */
  method EvaluatePods(obj: Object, vps: seq<VirtualPod>, nodesByName: map<string, Node>,
                      nodePlatforms: seq<DockerPlatform>, inspector: PlatformInspector,
                      parse: string -> Result<Reference>)
      returns (rows: seq<Row>, errs: seq<Error>, ghost answers: seq<seq<Answer>>)
    requires inspector.cache.Valid()
    modifies inspector, inspector.cache
    ensures inspector.cache.Valid()
    ensures RowsOf(rows, ObjectPairs(obj, vps), answers, nodesByName, nodePlatforms)
    ensures PairsAnswered(inspector, ObjectPairs(obj, vps), parse, answers)
    ensures Fills(old(inspector.cache.State()), inspector.cache.State(), inspector.retriever)
    ensures PairsCached(inspector.cache.State(), ObjectPairs(obj, vps), parse, answers)
    ensures PairsProvided(old(inspector.cache.State()), ObjectPairs(obj, vps), parse, inspector.retriever, answers)
    ensures errs == AllErrors(answers)
  {
    rows, errs, answers := [], [], [];
    for j := 0 to |vps|
      invariant inspector.cache.Valid()
      invariant PodsSoFar(obj, vps[..j], rows, errs, answers, nodesByName, nodePlatforms, inspector, parse)
      invariant PairsKept(old(inspector.cache.State()), inspector.cache.State(), ObjectPairs(obj, vps[..j]), parse,
                          inspector.retriever, answers)
    {
      ghost var before := inspector.cache.State();
      var row, rowErrs, rowAnswers := EvaluateVirtualPod(obj, nodesByName, nodePlatforms, inspector, vps[j], parse);
      PodsStep(obj, vps, j, rows, errs, answers, row, rowErrs, rowAnswers, nodesByName, nodePlatforms, inspector, parse);
      PodsCachedStep(old(inspector.cache.State()), before, inspector.cache.State(), obj, vps, j, answers, rowAnswers,
                     parse, inspector.retriever);
      rows, errs, answers := rows + [row], errs + WrapAll("evaluating pod platforms", rowErrs), answers + [rowAnswers];
    }
    assert vps[..|vps|] == vps;
  }

  /** The loop invariant of `EvaluatePods`: the rows, errors and answers of the pods so far. */
  ghost predicate PodsSoFar(obj: Object, vps: seq<VirtualPod>, rows: seq<Row>, errs: seq<Error>, answers: seq<seq<Answer>>,
                            nodesByName: map<string, Node>, nodePlatforms: seq<DockerPlatform>,
                            inspector: PlatformInspector, parse: string -> Result<Reference>) {
    && RowsOf(rows, ObjectPairs(obj, vps), answers, nodesByName, nodePlatforms)
    && PairsAnswered(inspector, ObjectPairs(obj, vps), parse, answers)
    && errs == AllErrors(answers)
  }

  /** One more virtual pod keeps the invariant of `EvaluatePods`. */
  lemma PodsStep(obj: Object, vps: seq<VirtualPod>, j: nat, rows: seq<Row>, errs: seq<Error>, answers: seq<seq<Answer>>,
                 row: Row, rowErrs: seq<Error>, rowAnswers: seq<Answer>,
                 nodesByName: map<string, Node>, nodePlatforms: seq<DockerPlatform>,
                 inspector: PlatformInspector, parse: string -> Result<Reference>)
    requires j < |vps|
    requires PodsSoFar(obj, vps[..j], rows, errs, answers, nodesByName, nodePlatforms, inspector, parse)
    requires |rowAnswers| == |vps[j].spec.containers|
    requires AnsweredAll(inspector, vps[j].spec.containers, parse, rowAnswers)
    requires row == RowOf(obj, vps[j], nodesByName, nodePlatforms, rowAnswers)
    requires rowErrs == InspectionErrors(rowAnswers)
    ensures PodsSoFar(obj, vps[..j + 1], rows + [row], errs + WrapAll("evaluating pod platforms", rowErrs),
                      answers + [rowAnswers], nodesByName, nodePlatforms, inspector, parse)
  {
    PodRowsStep(obj, vps, j, rows, answers, row, rowAnswers, nodesByName, nodePlatforms);
    assert vps[..j + 1][..j] == vps[..j];
    assert ObjectPairs(obj, vps[..j + 1]) == ObjectPairs(obj, vps[..j]) + [(obj, vps[j])];
    PairsAnsweredAppend(inspector, ObjectPairs(obj, vps[..j]), answers, [(obj, vps[j])], [rowAnswers], parse);
    AllErrorsStep(answers, rowAnswers);
  }

  /** The cache facts of one more virtual pod keep the invariant of `EvaluatePods`. */
  lemma PodsCachedStep(s00: CacheState, s0: CacheState, s1: CacheState, obj: Object, vps: seq<VirtualPod>, j: nat,
                       answers: seq<seq<Answer>>, rowAnswers: seq<Answer>, parse: string -> Result<Reference>,
                       retriever: Retriever)
    requires j < |vps| && |answers| == j && Fills(s0, s1, retriever)
    requires PairsKept(s00, s0, ObjectPairs(obj, vps[..j]), parse, retriever, answers)
    requires CachedAll(s1, vps[j].spec.containers, parse, rowAnswers)
    requires ProvidedAll(s0, vps[j].spec.containers, parse, retriever, rowAnswers)
    ensures PairsKept(s00, s1, ObjectPairs(obj, vps[..j + 1]), parse, retriever, answers + [rowAnswers])
  {
    assert vps[..j + 1][..j] == vps[..j];
    assert ObjectPairs(obj, vps[..j + 1]) == ObjectPairs(obj, vps[..j]) + [(obj, vps[j])];
    assert PairsCached(s1, [(obj, vps[j])], parse, [rowAnswers]);
    assert PairsProvided(s0, [(obj, vps[j])], parse, retriever, [rowAnswers]);
    PairsKeptStep(s00, s0, s1, ObjectPairs(obj, vps[..j]), answers, [(obj, vps[j])], [rowAnswers], parse, retriever);
  }

  /** The container loop of `evaluateVirtualPod`: inspects the image of every container in
      order, recording the variantless platforms of each image that could be inspected, their
      running intersection and the wrapped error of each that could not. */
  method InspectContainers(containers: seq<Container>, inspector: PlatformInspector, parse: string -> Result<Reference>)
      returns (details: map<string, seq<DockerPlatform>>, found: bool, image: seq<DockerPlatform>, errs: seq<Error>,
               ghost answers: seq<Answer>)
    requires inspector.cache.Valid()
    modifies inspector, inspector.cache
    ensures inspector.cache.Valid()
    ensures |answers| == |containers|
    ensures AnsweredAll(inspector, containers, parse, answers)
    ensures Fills(old(inspector.cache.State()), inspector.cache.State(), inspector.retriever)
    ensures CachedAll(inspector.cache.State(), containers, parse, answers)
    ensures ProvidedAll(old(inspector.cache.State()), containers, parse, inspector.retriever, answers)
    ensures details == Details(containers, answers)
    ensures found == Common(answers).Some?
    ensures found ==> image == Common(answers).value
    ensures errs == InspectionErrors(answers)
  {
    details, image, found := map[], [], false;
    errs, answers := [], [];
    for i := 0 to |containers|
      invariant inspector.cache.Valid()
      invariant AnsweredAll(inspector, containers, parse, answers)
      invariant ContainersSoFar(containers, i, answers, details, found, image, errs)
      invariant ContainersKept(old(inspector.cache.State()), inspector.cache.State(), containers, parse,
                               inspector.retriever, answers)
    {
      details, found, image, errs, answers :=
        InspectNext(containers, i, inspector, parse, details, found, image, errs, answers, old(inspector.cache.State()));
    }
    assert containers[..|containers|] == containers;
  }

  /** One call of the inspector, seen through what its answer is known to be. */
  method InspectImage(inspector: PlatformInspector, image: string, parse: string -> Result<Reference>) returns (a: Answer)
    requires inspector.cache.Valid()
    modifies inspector, inspector.cache
    ensures inspector.cache.Valid()
    ensures Answered(inspector, image, parse, a)
    ensures Fills(old(inspector.cache.State()), inspector.cache.State(), inspector.retriever)
    ensures Served(old(inspector.cache.State()), image, parse, inspector.retriever, a)
    ensures parse(image).Success? && !inspector.cache.nop ==>
      Remembers(inspector.cache.State(), CacheKey(parse(image).value), a)
  {
    a := inspector.GetPlatforms(image, parse);
  }

  /** The inspector call for the next container, with what the container loop keeps about the
      answers and the cache. */
  method InspectKept(containers: seq<Container>, i: nat, inspector: PlatformInspector, parse: string -> Result<Reference>,
                     ghost answers: seq<Answer>, ghost s00: CacheState) returns (a: Answer)
    requires inspector.cache.Valid() && i == |answers| < |containers|
    requires AnsweredAll(inspector, containers, parse, answers)
    requires ContainersKept(s00, inspector.cache.State(), containers, parse, inspector.retriever, answers)
    modifies inspector, inspector.cache
    ensures inspector.cache.Valid()
    ensures AnsweredAll(inspector, containers, parse, answers + [a])
    ensures ContainersKept(s00, inspector.cache.State(), containers, parse, inspector.retriever, answers + [a])
  {
    ghost var before := inspector.cache.State();
    a := InspectImage(inspector, containers[i].image, parse);
    ContainersKeptNext(s00, before, inspector.cache.State(), containers, parse, inspector.retriever, answers, a);
  }

  /** The loop invariant of `InspectContainers` after the first `i` containers. */
  ghost predicate ContainersSoFar(containers: seq<Container>, i: nat, answers: seq<Answer>,
                                  details: map<string, seq<DockerPlatform>>, found: bool,
                                  image: seq<DockerPlatform>, errs: seq<Error>) {
    && i <= |containers| && |answers| == i
    && details == Details(containers[..i], answers)
    && found == Common(answers).Some?
    && (found ==> image == Common(answers).value)
    && errs == InspectionErrors(answers)
  }

  /** One round of the container loop: the image of container `i` inspected and recorded. */
  method InspectNext(containers: seq<Container>, i: nat, inspector: PlatformInspector, parse: string -> Result<Reference>,
                     details: map<string, seq<DockerPlatform>>, found: bool, image: seq<DockerPlatform>,
                     errs: seq<Error>, ghost answers: seq<Answer>, ghost s00: CacheState)
      returns (details': map<string, seq<DockerPlatform>>, found': bool, image': seq<DockerPlatform>,
               errs': seq<Error>, ghost answers': seq<Answer>)
    requires inspector.cache.Valid() && i < |containers|
    requires AnsweredAll(inspector, containers, parse, answers)
    requires ContainersSoFar(containers, i, answers, details, found, image, errs)
    requires ContainersKept(s00, inspector.cache.State(), containers, parse, inspector.retriever, answers)
    modifies inspector, inspector.cache
    ensures inspector.cache.Valid()
    ensures AnsweredAll(inspector, containers, parse, answers')
    ensures ContainersSoFar(containers, i + 1, answers', details', found', image', errs')
    ensures ContainersKept(s00, inspector.cache.State(), containers, parse, inspector.retriever, answers')
  {
    var platforms := InspectKept(containers, i, inspector, parse, answers, s00);
    InspectStep(containers, i, answers, platforms);
    details', found', image', errs', answers' := details, found, image, errs, answers + [platforms];
    if platforms.Failure? {
      errs' := errs + [Wrap("inspecting image platforms", platforms.error)];
      return;
    }
    var platforms2 := PL.Variantless(platforms.value);
    details' := details[containers[i].name := platforms2];
    if found {
      image' := PL.Intersection(image, platforms2);
    } else {
      image' := platforms2;
      found' := true;
    }
  }

  lemma InspectStep(containers: seq<Container>, i: nat, answers: seq<Answer>, a: Answer)
    requires i < |containers| && |answers| == i
    ensures Details(containers[..i + 1], answers + [a])
         == if a.Failure? then Details(containers[..i], answers)
            else Details(containers[..i], answers)[containers[i].name := PL.VariantlessOf(a.value)]
    ensures Common(answers + [a])
         == if a.Failure? then Common(answers)
            else if Common(answers).None? then Some(PL.VariantlessOf(a.value))
            else Some(PL.Filter(Common(answers).value, PL.VariantlessOf(a.value)))
    ensures InspectionErrors(answers + [a])
         == InspectionErrors(answers) + if a.Failure? then [Wrap("inspecting image platforms", a.error)] else []
  {
    DetailsStep(containers, i, answers, a);
    CommonStep(answers, a);
    ErrorsStep(answers, a);
  }

  lemma DetailsStep(containers: seq<Container>, i: nat, answers: seq<Answer>, a: Answer)
    requires i < |containers| && |answers| == i
    ensures Details(containers[..i + 1], answers + [a])
         == if a.Failure? then Details(containers[..i], answers)
            else Details(containers[..i], answers)[containers[i].name := PL.VariantlessOf(a.value)]
  {
    assert containers[..i + 1][..i] == containers[..i];
    assert (answers + [a])[..i] == answers;
  }

  lemma CommonStep(answers: seq<Answer>, a: Answer)
    ensures Common(answers + [a])
         == if a.Failure? then Common(answers)
            else if Common(answers).None? then Some(PL.VariantlessOf(a.value))
            else Some(PL.Filter(Common(answers).value, PL.VariantlessOf(a.value)))
  {
    assert (answers + [a])[..|answers|] == answers;
  }

  lemma ErrorsStep(answers: seq<Answer>, a: Answer)
    ensures InspectionErrors(answers + [a])
         == InspectionErrors(answers) + if a.Failure? then [Wrap("inspecting image platforms", a.error)] else []
  {
    assert (answers + [a])[..|answers|] == answers;
  }

  /** One more virtual pod of an object, and its row. */
  lemma PodRowsStep(obj: Object, vps: seq<VirtualPod>, j: nat, rows: seq<Row>, answers: seq<seq<Answer>>,
                    row: Row, rowAnswers: seq<Answer>, nodesByName: map<string, Node>, nodePlatforms: seq<DockerPlatform>)
    requires j < |vps|
    requires RowsOf(rows, ObjectPairs(obj, vps[..j]), answers, nodesByName, nodePlatforms)
    requires |rowAnswers| == |vps[j].spec.containers|
    requires row == RowOf(obj, vps[j], nodesByName, nodePlatforms, rowAnswers)
    ensures RowsOf(rows + [row], ObjectPairs(obj, vps[..j + 1]), answers + [rowAnswers], nodesByName, nodePlatforms)
  {
    assert vps[..j + 1][..j] == vps[..j];
    assert ObjectPairs(obj, vps[..j + 1]) == ObjectPairs(obj, vps[..j]) + [(obj, vps[j])];
    RowsOfAppend(rows, ObjectPairs(obj, vps[..j]), answers, [row], [(obj, vps[j])], [rowAnswers], nodesByName, nodePlatforms);
  }

  /** One more row's answers add that row's wrapped inspection errors to the aggregate. */
  lemma AllErrorsStep(answers: seq<seq<Answer>>, rowAnswers: seq<Answer>)
    ensures AllErrors(answers + [rowAnswers])
         == AllErrors(answers) + WrapAll("evaluating pod platforms", InspectionErrors(rowAnswers))
  {
    assert (answers + [rowAnswers])[..|answers|] == answers;
  }

  /** Rows of two runs of pairs, side by side, are the rows of the joined pairs. */
  lemma RowsOfAppend(rows: seq<Row>, pairs: seq<(Object, VirtualPod)>, answers: seq<seq<Answer>>,
                     rows': seq<Row>, pairs': seq<(Object, VirtualPod)>, answers': seq<seq<Answer>>,
                     nodesByName: map<string, Node>, nodePlatforms: seq<DockerPlatform>)
    requires RowsOf(rows, pairs, answers, nodesByName, nodePlatforms)
    requires RowsOf(rows', pairs', answers', nodesByName, nodePlatforms)
    ensures RowsOf(rows + rows', pairs + pairs', answers + answers', nodesByName, nodePlatforms)
  {
    var n := |rows|;
    forall m | 0 <= m < |rows + rows'|
      ensures RowFor((rows + rows')[m], (pairs + pairs')[m], (answers + answers')[m], nodesByName, nodePlatforms)
    {
      if m < n {
        assert (rows + rows')[m] == rows[m] && (pairs + pairs')[m] == pairs[m] && (answers + answers')[m] == answers[m];
      } else {
        assert (rows + rows')[m] == rows'[m - n] && (pairs + pairs')[m] == pairs'[m - n] && (answers + answers')[m] == answers'[m - n];
      }
    }
  }

  /** The aggregate of two runs of rows is the two aggregates in order. */
  lemma AllErrorsAppend(a: seq<seq<Answer>>, b: seq<seq<Answer>>)
    ensures AllErrors(a + b) == AllErrors(a) + AllErrors(b)
  {
    ConcatAppend(a, b, RowErrors);
  }


  /** The loop invariant of `EvaluateObjects`: the rows, errors and answers of the pairs so far. */
  ghost predicate ObjectsSoFar(pairs: seq<(Object, VirtualPod)>, rows: seq<Row>, errs: seq<Error>, answers: seq<seq<Answer>>,
                               nodesByName: map<string, Node>, nodePlatforms: seq<DockerPlatform>,
                               inspector: PlatformInspector, parse: string -> Result<Reference>) {
    && RowsOf(rows, pairs, answers, nodesByName, nodePlatforms)
    && PairsAnswered(inspector, pairs, parse, answers)
    && errs == AllErrors(answers)
  }

  /** The rows of one more object keep the invariant of `EvaluateObjects`. */
  lemma ObjectsStep(pairs: seq<(Object, VirtualPod)>, rows: seq<Row>, errs: seq<Error>, answers: seq<seq<Answer>>,
                    pairs': seq<(Object, VirtualPod)>, rows': seq<Row>, errs': seq<Error>, answers': seq<seq<Answer>>,
                    nodesByName: map<string, Node>, nodePlatforms: seq<DockerPlatform>,
                    inspector: PlatformInspector, parse: string -> Result<Reference>)
    requires ObjectsSoFar(pairs, rows, errs, answers, nodesByName, nodePlatforms, inspector, parse)
    requires ObjectsSoFar(pairs', rows', errs', answers', nodesByName, nodePlatforms, inspector, parse)
    ensures ObjectsSoFar(pairs + pairs', rows + rows', errs + errs', answers + answers', nodesByName, nodePlatforms, inspector, parse)
  {
    RowsOfAppend(rows, pairs, answers, rows', pairs', answers', nodesByName, nodePlatforms);
    PairsAnsweredAppend(inspector, pairs, answers, pairs', answers', parse);
    AllErrorsAppend(answers, answers');
  }

  /** The processor loop of `EvaluateObjects`: the virtual pods of the first processor whose
      condition holds. */
  method ChooseVirtualPods(obj: Object, processors: seq<Kinds.Processor>, after: int) returns (vps: seq<VirtualPod>)
    ensures vps == PodsFor(obj, processors, after)
  {
    vps := [];
    for i := 0 to |processors|
      invariant PodsFor(obj, processors, after) == PodsFor(obj, processors[i..], after)
    {
      assert processors[i..][1..] == processors[i + 1..];
      if obj.meta.creationTimestamp > after || Kinds.IsActive(processors[i], obj) {
        vps := Kinds.CollectVirtualPods(processors[i], obj);
        return;
      }
    }
  }

  /** `EvaluateObjects`, without pod metrics: the node platforms are made variantless, the
      rows follow the (object, virtual pod) pairs in order, and the aggregate error is present
      exactly when some inspection failed, listing every failure. */
  method EvaluateObjects(objs: seq<Object>, nodes: seq<Node>, after: int, nodePlatforms: seq<DockerPlatform>,
                         inspector: PlatformInspector, processors: seq<Kinds.Processor>,
                         parse: string -> Result<Reference>)
      returns (rows: seq<Row>, aggregate: Option<seq<Error>>, ghost answers: seq<seq<Answer>>)
    requires inspector.cache.Valid()
    modifies inspector, inspector.cache
    ensures inspector.cache.Valid()
    ensures RowsOf(rows, Pairs(objs, processors, after), answers, NodeIndex(nodes), PL.VariantlessOf(nodePlatforms))
    ensures PairsAnswered(inspector, Pairs(objs, processors, after), parse, answers)
    ensures Fills(old(inspector.cache.State()), inspector.cache.State(), inspector.retriever)
    ensures PairsCached(inspector.cache.State(), Pairs(objs, processors, after), parse, answers)
    ensures PairsProvided(old(inspector.cache.State()), Pairs(objs, processors, after), parse, inspector.retriever, answers)
    ensures aggregate.Some? <==> |AllErrors(answers)| > 0
    ensures aggregate.Some? ==> aggregate.value == AllErrors(answers)
  {
    var platforms := PL.Variantless(nodePlatforms);
    var nodesByName: map<string, Node> := map[];
    for i := 0 to |nodes|
      invariant nodesByName == NodeIndex(nodes[..i])
    {
      assert nodes[..i + 1][..i] == nodes[..i];
      nodesByName := nodesByName[nodes[i].name := nodes[i]];
    }
    assert nodes[..|nodes|] == nodes;

    var errs: seq<Error> := [];
    rows, answers := [], [];
    for i := 0 to |objs|
      invariant inspector.cache.Valid()
      invariant ObjectsSoFar(Pairs(objs[..i], processors, after), rows, errs, answers, nodesByName, platforms, inspector, parse)
      invariant PairsKept(old(inspector.cache.State()), inspector.cache.State(), Pairs(objs[..i], processors, after), parse,
                          inspector.retriever, answers)
    {
      rows, errs, answers := EvaluateNext(objs, i, nodesByName, platforms, inspector, processors, after, parse,
                                          rows, errs, answers, old(inspector.cache.State()));
    }
    assert objs[..|objs|] == objs;
    aggregate := if |errs| > 0 then Some(errs) else None;
  }

  /** One round of the object loop of `EvaluateObjects`: the rows of object `i` appended. */
  method EvaluateNext(objs: seq<Object>, i: nat, nodesByName: map<string, Node>, platforms: seq<DockerPlatform>,
                      inspector: PlatformInspector, processors: seq<Kinds.Processor>, after: int,
                      parse: string -> Result<Reference>, rows: seq<Row>, errs: seq<Error>, ghost answers: seq<seq<Answer>>,
                      ghost s00: CacheState)
      returns (rows': seq<Row>, errs': seq<Error>, ghost answers': seq<seq<Answer>>)
    requires i < |objs| && inspector.cache.Valid()
    requires ObjectsSoFar(Pairs(objs[..i], processors, after), rows, errs, answers, nodesByName, platforms, inspector, parse)
    requires PairsKept(s00, inspector.cache.State(), Pairs(objs[..i], processors, after), parse, inspector.retriever, answers)
    modifies inspector, inspector.cache
    ensures inspector.cache.Valid()
    ensures ObjectsSoFar(Pairs(objs[..i + 1], processors, after), rows', errs', answers', nodesByName, platforms, inspector, parse)
    ensures PairsKept(s00, inspector.cache.State(), Pairs(objs[..i + 1], processors, after), parse, inspector.retriever, answers')
  {
    ghost var before := inspector.cache.State();
    assert objs[..i + 1][..i] == objs[..i];
    var vps := ChooseVirtualPods(objs[i], processors, after);
    var objRows, objErrs, objAnswers := EvaluatePods(objs[i], vps, nodesByName, platforms, inspector, parse);
    ObjectsStep(Pairs(objs[..i], processors, after), rows, errs, answers, ObjectPairs(objs[i], vps), objRows, objErrs, objAnswers,
                nodesByName, platforms, inspector, parse);
    PairsKeptStep(s00, before, inspector.cache.State(), Pairs(objs[..i], processors, after), answers,
                  ObjectPairs(objs[i], vps), objAnswers, parse, inspector.retriever);
    rows', errs', answers' := rows + objRows, errs + objErrs, answers + objAnswers;
  }

  /** Some inspection of the pod's images succeeded. */
  predicate AnySuccess(answers: seq<Answer>) {
    exists i :: 0 <= i < |answers| && answers[i].Success?
  }

  /** `x` is, without variant, a platform of every image that could be inspected. */
  predicate InEverySuccess(x: DockerPlatform, answers: seq<Answer>) {
    forall i :: 0 <= i < |answers| && answers[i].Success? ==> x in PL.VariantlessOf(answers[i].value)
  }

  /** The image platforms are the node platforms when no image could be inspected, and otherwise
      exactly the variantless platforms every inspected image supports. */
  lemma {:induction false} ImagePlatformsMeaning(answers: seq<Answer>, nodePlatforms: seq<DockerPlatform>)
    ensures !AnySuccess(answers) ==> ImagePlatforms(answers, nodePlatforms) == nodePlatforms
    ensures AnySuccess(answers) ==>
      forall x :: x in ImagePlatforms(answers, nodePlatforms) <==> InEverySuccess(x, answers)
  {
    CommonMeaning(answers);
  }

  lemma {:induction false} CommonMeaning(answers: seq<Answer>)
    ensures Common(answers).Some? <==> AnySuccess(answers)
    ensures Common(answers).Some? ==> forall x :: x in Common(answers).value <==> InEverySuccess(x, answers)
    decreases |answers|
  {
    if |answers| > 0 {
      var n := |answers| - 1;
      var init := answers[..n];
      CommonMeaning(init);
      AnySuccessSnoc(answers);
      forall x
        ensures InEverySuccess(x, answers) <==>
          InEverySuccess(x, init) && (answers[n].Success? ==> x in PL.VariantlessOf(answers[n].value))
      {
        InEverySuccessSnoc(x, answers);
      }
      if answers[n].Success? && Common(init).None? {
        forall x
          ensures InEverySuccess(x, init)
        {
          NoSuccessEvery(x, init);
        }
      }
    }
  }

  /** One more answer: some inspection succeeded exactly when one did before or the new one did. */
  lemma AnySuccessSnoc(answers: seq<Answer>)
    requires |answers| > 0
    ensures AnySuccess(answers) <==> AnySuccess(answers[..|answers| - 1]) || answers[|answers| - 1].Success?
  {
    var n := |answers| - 1;
    if AnySuccess(answers) && !answers[n].Success? {
      var i :| 0 <= i < |answers| && answers[i].Success?;
      assert answers[..n][i] == answers[i];
    }
    if AnySuccess(answers[..n]) {
      var i :| 0 <= i < n && answers[..n][i].Success?;
      assert answers[i] == answers[..n][i];
    }
  }

  /** One more answer: a platform is in every successful inspection exactly when it was before and
      the new answer, if a success, holds it. */
  lemma InEverySuccessSnoc(x: DockerPlatform, answers: seq<Answer>)
    requires |answers| > 0
    ensures InEverySuccess(x, answers) <==>
      InEverySuccess(x, answers[..|answers| - 1])
      && (answers[|answers| - 1].Success? ==> x in PL.VariantlessOf(answers[|answers| - 1].value))
  {
    var n := |answers| - 1;
    assert forall i :: 0 <= i < n ==> answers[..n][i] == answers[i];
  }

  /** With no successful inspection, every platform is vacuously in all of them. */
  lemma NoSuccessEvery(x: DockerPlatform, answers: seq<Answer>)
    requires !AnySuccess(answers)
    ensures InEverySuccess(x, answers)
  {
  }

  /** A row flags a violation exactly when some node platform the pod admits is missing from
      some inspected image; when no image could be inspected there is no violation. */
  lemma RowViolation(obj: Object, vp: VirtualPod, nodesByName: map<string, Node>, nodePlatforms: seq<DockerPlatform>,
                     answers: seq<Answer>)
    requires |answers| == |vp.spec.containers|
    ensures !AnySuccess(answers) ==> !RowOf(obj, vp, nodesByName, nodePlatforms, answers).hasViolation
    ensures AnySuccess(answers) ==>
      (RowOf(obj, vp, nodesByName, nodePlatforms, answers).hasViolation <==>
       exists x :: x in nodePlatforms && Affinity.EvaluatePodAffinity(vp.spec, x) && !InEverySuccess(x, answers))
  {
    ImagePlatformsMeaning(answers, nodePlatforms);
  }

  /** The row's error is the first failed inspection's error, and "" when every inspection
      succeeded. */
  lemma RowError(obj: Object, vp: VirtualPod, nodesByName: map<string, Node>, nodePlatforms: seq<DockerPlatform>,
                 answers: seq<Answer>)
    requires |answers| == |vp.spec.containers|
    ensures (RowOf(obj, vp, nodesByName, nodePlatforms, answers).error == "") <==>
      forall i :: 0 <= i < |answers| ==> answers[i].Success?
    ensures forall i :: 0 <= i < |answers| && answers[i].Failure? && (forall j :: 0 <= j < i ==> answers[j].Success?) ==>
      RowOf(obj, vp, nodesByName, nodePlatforms, answers).error == "inspecting image platforms: " + answers[i].error.msg
  {
    assert RowOf(obj, vp, nodesByName, nodePlatforms, answers).error == FirstMessage(InspectionErrors(answers));
    FirstInspectionError(answers);
  }

  /** The first inspection error's message is empty exactly when every inspection succeeded,
      and otherwise names the first failure. */
  lemma FirstInspectionError(answers: seq<Answer>)
    ensures (FirstMessage(InspectionErrors(answers)) == "") <==> forall i :: 0 <= i < |answers| ==> answers[i].Success?
    ensures forall i :: 0 <= i < |answers| && answers[i].Failure? && (forall j :: 0 <= j < i ==> answers[j].Success?) ==>
      FirstMessage(InspectionErrors(answers)) == "inspecting image platforms: " + answers[i].error.msg
  {
    var errs := InspectionErrors(answers);
    InspectionErrorsEmpty(answers);
    if |errs| > 0 {
      assert |errs[0].msg| > 0;
    }
    forall i | 0 <= i < |answers| && answers[i].Failure? && (forall j :: 0 <= j < i ==> answers[j].Success?)
      ensures FirstMessage(errs) == "inspecting image platforms: " + answers[i].error.msg
    {
      InspectionErrorsFirst(answers, i);
      InspectingMessage(answers[i].error);
    }
  }

  lemma InspectingMessage(e: Error)
    ensures Wrap("inspecting image platforms", e).msg == "inspecting image platforms: " + e.msg
  {
    assert "inspecting image platforms" + ": " == "inspecting image platforms: ";
  }

  lemma {:induction false} InspectionErrorsEmpty(answers: seq<Answer>)
    ensures |InspectionErrors(answers)| == 0 <==> forall i :: 0 <= i < |answers| ==> answers[i].Success?
    decreases |answers|
  {
    if |answers| > 0 {
      var n := |answers| - 1;
      InspectionErrorsEmpty(answers[..n]);
      assert forall i :: 0 <= i < n ==> answers[i] == answers[..n][i];
    }
  }

  lemma {:induction false} InspectionErrorsFirst(answers: seq<Answer>, i: nat)
    requires i < |answers| && answers[i].Failure?
    requires forall j :: 0 <= j < i ==> answers[j].Success?
    ensures |InspectionErrors(answers)| > 0
    ensures InspectionErrors(answers)[0] == Wrap("inspecting image platforms", answers[i].error)
    decreases |answers|
  {
    var n := |answers| - 1;
    if i < n {
      InspectionErrorsFirst(answers[..n], i);
    } else {
      InspectionErrorsEmpty(answers[..n]);
    }
  }

  /** `EvaluateObjects` reports an aggregate error exactly when some row carries an error. */
  lemma AggregateMeaning(rows: seq<Row>, pairs: seq<(Object, VirtualPod)>, answers: seq<seq<Answer>>,
                         nodesByName: map<string, Node>, nodePlatforms: seq<DockerPlatform>)
    requires RowsOf(rows, pairs, answers, nodesByName, nodePlatforms)
    ensures |AllErrors(answers)| > 0 <==> exists n :: 0 <= n < |rows| && rows[n].error != ""
  {
    AllErrorsEmpty(answers);
    forall n | 0 <= n < |rows|
      ensures rows[n].error != "" <==> |InspectionErrors(answers[n])| > 0
    {
      RowError(pairs[n].0, pairs[n].1, nodesByName, nodePlatforms, answers[n]);
      InspectionErrorsEmpty(answers[n]);
    }
  }

  lemma {:induction false} AllErrorsEmpty(answers: seq<seq<Answer>>)
    ensures |AllErrors(answers)| > 0 <==> exists n :: 0 <= n < |answers| && |InspectionErrors(answers[n])| > 0
    decreases |answers|
  {
    if |answers| > 0 {
      var n := |answers| - 1;
      var init := answers[..n];
      AllErrorsEmpty(init);
      assert answers == init + [answers[n]];
      AllErrorsStep(init, answers[n]);
      if |AllErrors(answers)| > 0 {
        if |InspectionErrors(answers[n])| == 0 {
          var i :| 0 <= i < n && |InspectionErrors(init[i])| > 0;
          assert init[i] == answers[i];
        }
      } else {
        forall i | 0 <= i < |answers| ensures |InspectionErrors(answers[i])| == 0 {
          if i < n {
            assert answers[i] == init[i];
          }
        }
      }
    }
  }

  /** For an object created no later than the cutoff, the active processor decides: its virtual
      pods are taken, and none when no processor calls the object active. */
  lemma {:induction false} OldObjectPods(obj: Object, processors: seq<Kinds.Processor>, after: int)
    requires obj.meta.creationTimestamp <= after
    ensures (forall p :: p in processors ==> !Kinds.IsActive(p, obj)) ==> PodsFor(obj, processors, after) == []
    ensures forall p :: p in processors && Kinds.IsActive(p, obj) ==> PodsFor(obj, processors, after) == Kinds.VirtualPods(p, obj)
    decreases |processors|
  {
    if |processors| > 0 {
      OldObjectPods(obj, processors[1..], after);
      forall p | p in processors && Kinds.IsActive(p, obj)
        ensures PodsFor(obj, processors, after) == Kinds.VirtualPods(p, obj)
      {
        if Kinds.IsActive(processors[0], obj) {
          Kinds.OwnKindOnly(p, obj);
          Kinds.OwnKindOnly(processors[0], obj);
          Kinds.ProcessorsDisjoint(p, processors[0], obj);
        } else {
          assert p in processors[1..];
        }
      }
    }
  }

  /** An object created after the cutoff takes the first processor's virtual pods whatever its
      kind, so with the pod processor first a newly created controller yields no rows. */
  lemma NewObjectPods(obj: Object, processors: seq<Kinds.Processor>, after: int)
    requires obj.meta.creationTimestamp > after && |processors| > 0
    ensures PodsFor(obj, processors, after) == Kinds.VirtualPods(processors[0], obj)
    ensures processors[0] == Kinds.PodProcessor && !obj.body.PodBody? ==> PodsFor(obj, processors, after) == []
  {
  }

  /** One row per virtual pod: the pairs of a list of objects are the pairs of each object in
      turn. */
  lemma PairsAppend(a: seq<Object>, b: seq<Object>, processors: seq<Kinds.Processor>, after: int)
    ensures Pairs(a + b, processors, after) == Pairs(a, processors, after) + Pairs(b, processors, after)
  {
    ConcatAppend(a, b, obj => ObjectPairs(obj, PodsFor(obj, processors, after)));
  }


  /** Container `i` is named `name`, its image could be inspected, and no later container of
      that name could. */
  predicate LastSuccessNamed(containers: seq<Container>, answers: seq<Answer>, name: string, i: int)
    requires |containers| == |answers|
  {
    && 0 <= i < |containers| && containers[i].name == name && answers[i].Success?
    && forall j :: i < j < |containers| && containers[j].name == name ==> answers[j].Failure?
  }

  /** The details have an entry exactly for the names of the containers whose image could be
      inspected. */
  lemma {:induction false} DetailsKeys(containers: seq<Container>, answers: seq<Answer>, name: string)
    requires |containers| == |answers|
    ensures name in Details(containers, answers) <==>
      exists i :: 0 <= i < |containers| && containers[i].name == name && answers[i].Success?
    decreases |containers|
  {
    if |containers| > 0 {
      var n := |containers| - 1;
      DetailsKeys(containers[..n], answers[..n], name);
      assert forall i :: 0 <= i < n ==> containers[..n][i] == containers[i] && answers[..n][i] == answers[i];
    }
  }

  /** The entry of a name holds the variantless platforms of the last container of that name
      whose image could be inspected. */
  lemma {:induction false} DetailsValue(containers: seq<Container>, answers: seq<Answer>, name: string, i: int)
    requires |containers| == |answers|
    requires LastSuccessNamed(containers, answers, name, i)
    ensures name in Details(containers, answers)
    ensures Details(containers, answers)[name] == PL.VariantlessOf(answers[i].value)
    decreases |containers|
  {
    var n := |containers| - 1;
    if i < n {
      var cs, ans := containers[..n], answers[..n];
      assert forall k :: 0 <= k < n ==> cs[k] == containers[k] && ans[k] == answers[k];
      assert LastSuccessNamed(cs, ans, name, i);
      DetailsValue(cs, ans, name, i);
    }
  }
}
