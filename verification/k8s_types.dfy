/** The parts of Kubernetes and Argo Workflows objects the platform audit reads. */
module K8sTypes {
  import opened Wrappers

  /** A reference from an object to an object that owns it (in the same namespace). */
  datatype OwnerReference = OwnerReference(apiVersion: string, kind: string, name: string)

  /** Object metadata; timestamps are instants on an integer clock. */
  datatype ObjectMeta = ObjectMeta(
    namespace: string,
    name: string,
    labels: map<string, string>,
    creationTimestamp: int,
    deletionTimestamp: Option<int>,
    ownerReferences: seq<OwnerReference>)

  datatype NodeSelectorRequirement = NodeSelectorRequirement(key: string, operator: string, values: seq<string>)
  datatype NodeSelectorTerm = NodeSelectorTerm(matchExpressions: seq<NodeSelectorRequirement>)
  datatype NodeSelector = NodeSelector(nodeSelectorTerms: seq<NodeSelectorTerm>)
  /** `requiredDuringSchedulingIgnoredDuringExecution`, the only node-affinity part consulted. */
  datatype NodeAffinity = NodeAffinity(required: Option<NodeSelector>)
  datatype Affinity = Affinity(nodeAffinity: Option<NodeAffinity>)

  datatype Toleration = Toleration(key: string, operator: string, value: string, effect: string)
  datatype Container = Container(name: string, image: string)

  datatype PodSpec = PodSpec(
    nodeSelector: map<string, string>,
    affinity: Option<Affinity>,
    tolerations: seq<Toleration>,
    initContainers: seq<Container>,
    containers: seq<Container>,
    nodeName: string)

  datatype PodTemplate = PodTemplate(meta: ObjectMeta, spec: PodSpec)

  /** A pod an object would run: metadata, spec, and a name telling pods of one object apart. */
  datatype VirtualPod = VirtualPod(meta: ObjectMeta, spec: PodSpec, subName: string)

  datatype JobCondition = JobCondition(conditionType: string, status: string)

  /** Argo Workflows templates: a container, script or container-set template, or a steps or DAG
      template whose steps and tasks may carry an inline template. */
  datatype Template = Template(
    container: Option<Container>,
    script: Option<Container>,
    containerSet: Option<seq<Container>>,
    sidecars: seq<Container>,
    initContainers: seq<Container>,
    nodeSelector: map<string, string>,
    affinity: Option<Affinity>,
    tolerations: seq<Toleration>,
    steps: Option<StepsList>,
    dag: Option<DAGTemplate>)
  /** A present (non-nil) list of step groups. */
  datatype StepsList = StepsList(groups: seq<ParallelSteps>)
  datatype ParallelSteps = ParallelSteps(steps: seq<WorkflowStep>)
  datatype WorkflowStep = WorkflowStep(inline: Option<Template>)
  datatype DAGTemplate = DAGTemplate(tasks: seq<DAGTask>)
  datatype DAGTask = DAGTask(inline: Option<Template>)

  datatype WorkflowSpec = WorkflowSpec(
    templates: seq<Template>,
    nodeSelector: map<string, string>,
    affinity: Option<Affinity>,
    tolerations: seq<Toleration>)

  /** The kind-specific part of an object; the variant is the object's Go type. */
  datatype Body =
    | PodBody(spec: PodSpec, phase: string)
    | ReplicaSetBody(replicas: Option<int>, template: PodTemplate)
    | DeploymentBody(template: PodTemplate)
    | StatefulSetBody(template: PodTemplate)
    | DaemonSetBody(template: PodTemplate)
    | JobBody(template: PodTemplate, conditions: seq<JobCondition>)
    | CronJobBody(jobTemplate: PodTemplate)
    | WorkflowBody(workflowSpec: WorkflowSpec)
    | CronWorkflowBody(workflowSpec: WorkflowSpec)
    | OtherBody

  /** A cluster object: its group-version text, kind, metadata and kind-specific body. */
  datatype Object = Object(apiVersion: string, kind: string, meta: ObjectMeta, body: Body)

  datatype Node = Node(name: string, labels: map<string, string>)
}
