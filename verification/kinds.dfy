/** The kind processors: for each supported kind, whether an object of that kind is still
    active, and the pods it would run. */
module Kinds {
  import opened Wrappers
  import opened K8sTypes
  import Workflows

  datatype Processor =
    | PodProcessor
    | ReplicaSetProcessor
    | DeploymentProcessor
    | StatefulSetProcessor
    | DaemonSetProcessor
    | JobProcessor
    | CronJobProcessor
    | WorkflowProcessor
    | CronWorkflowProcessor

  /** The type test each processor starts with: the object has the processor's kind. */
  predicate Handles(p: Processor, obj: Object) {
    match p
    case PodProcessor => obj.body.PodBody?
    case ReplicaSetProcessor => obj.body.ReplicaSetBody?
    case DeploymentProcessor => obj.body.DeploymentBody?
    case StatefulSetProcessor => obj.body.StatefulSetBody?
    case DaemonSetProcessor => obj.body.DaemonSetBody?
    case JobProcessor => obj.body.JobBody?
    case CronJobProcessor => obj.body.CronJobBody?
    case WorkflowProcessor => obj.body.WorkflowBody?
    case CronWorkflowProcessor => obj.body.CronWorkflowBody?
  }

  /** `podFinishedOrDeleted`. */
  predicate PodFinishedOrDeleted(phase: string, meta: ObjectMeta) {
    phase == "Succeeded" || phase == "Failed" || meta.deletionTimestamp.Some?
  }

  /** `replicaSetReplicas`: the declared replica count, 1 when unset. */
  function ReplicaSetReplicas(replicas: Option<int>): int {
    if replicas.None? then 1 else replicas.value
  }

  /** `hasJobFinished`: some condition with status True has type Complete or Failed. */
  predicate HasJobFinished(conditions: seq<JobCondition>) {
    exists i :: 0 <= i < |conditions| && conditions[i].status == "True"
      && (conditions[i].conditionType == "Complete" || conditions[i].conditionType == "Failed")
  }

  /** `IsActive` (`IsRelevant` for the kinds that name it so). */
  predicate IsActive(p: Processor, obj: Object) {
    match p
    case PodProcessor => obj.body.PodBody? && !PodFinishedOrDeleted(obj.body.phase, obj.meta)
    case ReplicaSetProcessor => obj.body.ReplicaSetBody? && ReplicaSetReplicas(obj.body.replicas) > 0
    case JobProcessor => obj.body.JobBody? && !HasJobFinished(obj.body.conditions)
    case _ => Handles(p, obj)
  }

  /** A pod template as a virtual pod. */
  function FromTemplate(t: PodTemplate): VirtualPod {
    VirtualPod(t.meta, t.spec, "")
  }

  /** `VirtualPods`: the pods an object of the processor's kind runs; none for other objects. */
  function VirtualPods(p: Processor, obj: Object): seq<VirtualPod> {
    if !Handles(p, obj) then []
    else
      match obj.body
      case PodBody(spec, _) => [VirtualPod(obj.meta, spec, "")]
      case ReplicaSetBody(_, template) => [FromTemplate(template)]
      case DeploymentBody(template) => [FromTemplate(template)]
      case StatefulSetBody(template) => [FromTemplate(template)]
      case DaemonSetBody(template) => [FromTemplate(template)]
      case JobBody(template, _) => [FromTemplate(template)]
      case CronJobBody(jobTemplate) => [FromTemplate(jobTemplate)]
      case WorkflowBody(spec) => Workflows.WorkflowPods(spec)
      case CronWorkflowBody(spec) => Workflows.WorkflowPods(spec)
      case OtherBody => []
  }

  /** `VirtualPods`, collecting the pods of workflow kinds with the imperative walk. */
  method CollectVirtualPods(p: Processor, obj: Object) returns (pods: seq<VirtualPod>)
    ensures pods == VirtualPods(p, obj)
  {
    if Handles(p, obj) && (obj.body.WorkflowBody? || obj.body.CronWorkflowBody?) {
      pods := Workflows.CollectWorkflowPods(obj.body.workflowSpec);
    } else {
      pods := VirtualPods(p, obj);
    }
  }

  /** A processor considers only objects of its own kind: it never calls another kind active and
      never gives it pods. */
  lemma OwnKindOnly(p: Processor, obj: Object)
    ensures IsActive(p, obj) ==> Handles(p, obj)
    ensures VirtualPods(p, obj) != [] ==> Handles(p, obj)
  {
  }

  /** Each object has at most one processor. */
  lemma ProcessorsDisjoint(p: Processor, q: Processor, obj: Object)
    requires Handles(p, obj) && Handles(q, obj)
    ensures p == q
  {
  }

  /** Every non-workflow kind gives exactly one virtual pod for an object of its kind, and the
      deployment, stateful set, daemon set and cron job kinds are always active. */
  lemma TemplateKinds(p: Processor, obj: Object)
    requires Handles(p, obj) && p != WorkflowProcessor && p != CronWorkflowProcessor
    ensures |VirtualPods(p, obj)| == 1
    ensures p in {DeploymentProcessor, StatefulSetProcessor, DaemonSetProcessor, CronJobProcessor} ==> IsActive(p, obj)
  {
  }

  /** A pod is active exactly when it has neither succeeded nor failed and is not being deleted;
      its only virtual pod carries the pod's own metadata and spec. */
  lemma PodActivity(obj: Object)
    requires obj.body.PodBody?
    ensures IsActive(PodProcessor, obj) <==>
      obj.body.phase != "Succeeded" && obj.body.phase != "Failed" && obj.meta.deletionTimestamp.None?
    ensures VirtualPods(PodProcessor, obj) == [VirtualPod(obj.meta, obj.body.spec, "")]
  {
  }

  /** A replica set is active exactly when its replica count, 1 when unset, is positive, so a
      scaled-to-zero replica set is inactive. */
  lemma ReplicaSetActivity(obj: Object)
    requires obj.body.ReplicaSetBody?
    ensures obj.body.replicas.None? ==> IsActive(ReplicaSetProcessor, obj)
    ensures obj.body.replicas == Some(0) ==> !IsActive(ReplicaSetProcessor, obj)
    ensures IsActive(ReplicaSetProcessor, obj) <==> obj.body.replicas.None? || obj.body.replicas.value > 0
  {
  }

  /** Whether a job has finished depends only on the set of its conditions, so their order does
      not matter, and a condition that is not True never finishes a job. */
  lemma JobFinishedSetSemantics(a: seq<JobCondition>, b: seq<JobCondition>)
    requires forall c :: c in a <==> c in b
    ensures HasJobFinished(a) <==> HasJobFinished(b)
  {
    if HasJobFinished(a) {
      var i :| 0 <= i < |a| && a[i].status == "True" && (a[i].conditionType == "Complete" || a[i].conditionType == "Failed");
      assert a[i] in b;
    }
    if HasJobFinished(b) {
      var i :| 0 <= i < |b| && b[i].status == "True" && (b[i].conditionType == "Complete" || b[i].conditionType == "Failed");
      assert b[i] in a;
    }
  }

  /** Conditions accumulate: a job has finished after a list of conditions exactly when it has
      finished after one of the two parts. */
  lemma JobFinishedAppend(a: seq<JobCondition>, b: seq<JobCondition>)
    ensures HasJobFinished(a + b) <==> HasJobFinished(a) || HasJobFinished(b)
  {
    if HasJobFinished(a + b) {
      var i :| 0 <= i < |a + b| && (a + b)[i].status == "True"
        && ((a + b)[i].conditionType == "Complete" || (a + b)[i].conditionType == "Failed");
      if i >= |a| {
        assert b[i - |a|] == (a + b)[i];
      }
    }
    if HasJobFinished(b) {
      var i :| 0 <= i < |b| && b[i].status == "True" && (b[i].conditionType == "Complete" || b[i].conditionType == "Failed");
      assert (a + b)[|a| + i] == b[i];
    }
    if HasJobFinished(a) {
      var i :| 0 <= i < |a| && a[i].status == "True" && (a[i].conditionType == "Complete" || a[i].conditionType == "Failed");
      assert (a + b)[i] == a[i];
    }
  }

  /** A cron workflow runs the pods a workflow with the same spec runs. */
  lemma CronWorkflowAsWorkflow(meta: ObjectMeta, apiVersion: string, kind: string, spec: WorkflowSpec)
    ensures VirtualPods(CronWorkflowProcessor, Object(apiVersion, kind, meta, CronWorkflowBody(spec)))
         == VirtualPods(WorkflowProcessor, Object(apiVersion, kind, meta, WorkflowBody(spec)))
  {
  }
}
