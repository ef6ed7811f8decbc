/** The pods an Argo workflow spec runs: one per container or script template, found by walking
    the templates and the inline templates of steps and DAG tasks. */
module Workflows {
  import opened Wrappers
  import opened K8sTypes

  /** The zero metadata that workflow pods carry. */
  const EmptyMeta := ObjectMeta("", "", map[], 0, None, [])

  /** The main containers of a template: its container alone, else its container set, else its
      script container; then the sidecars in order. */
  function TemplateContainers(t: Template): seq<Container> {
    (if t.container.Some? then [t.container.value]
     else if t.containerSet.Some? then t.containerSet.value
     else if t.script.Some? then [t.script.value]
     else [])
    + t.sidecars
  }

  /** The pod of a container or script template: node selector, affinity and tolerations come
      from the template when it sets them and from the workflow spec otherwise. */
  function TemplatePod(spec: WorkflowSpec, t: Template): VirtualPod {
    VirtualPod(EmptyMeta, PodSpec(
      nodeSelector := if |t.nodeSelector| > 0 then t.nodeSelector else spec.nodeSelector,
      affinity := if t.affinity.Some? then t.affinity else spec.affinity,
      tolerations := if |t.tolerations| > 0 then t.tolerations else spec.tolerations,
      initContainers := t.initContainers,
      containers := TemplateContainers(t),
      nodeName := ""), "")
  }

  /** The pods of one template and, recursively, of its inline step and task templates. */
  function TemplatePods(spec: WorkflowSpec, t: Template): seq<VirtualPod>
    decreases t, 2
  {
    if t.container.Some? || t.script.Some? then [TemplatePod(spec, t)]
    else if t.steps.Some? then StepsPods(spec, t, |t.steps.value.groups|)
    else if t.dag.Some? then TasksPods(spec, t, |t.dag.value.tasks|)
    else []
  }

  /** The pods of the first `n` step groups of a steps template. */
  function StepsPods(spec: WorkflowSpec, t: Template, n: nat): seq<VirtualPod>
    requires t.steps.Some? && n <= |t.steps.value.groups|
    decreases t, 1, n
  {
    if n == 0 then []
    else StepsPods(spec, t, n - 1) + GroupPods(spec, t, n - 1, |t.steps.value.groups[n - 1].steps|)
  }

  /** The pods of the first `m` steps of group `g` of a steps template. */
  function GroupPods(spec: WorkflowSpec, t: Template, g: nat, m: nat): seq<VirtualPod>
    requires t.steps.Some? && g < |t.steps.value.groups| && m <= |t.steps.value.groups[g].steps|
    decreases t, 0, m
  {
    if m == 0 then []
    else
      var step := t.steps.value.groups[g].steps[m - 1];
      StepInlineSmaller(t, g, m - 1);
      GroupPods(spec, t, g, m - 1) + (if step.inline.Some? then TemplatePods(spec, step.inline.value) else [])
  }

  /** The pods of the first `n` tasks of a DAG template. */
  function TasksPods(spec: WorkflowSpec, t: Template, n: nat): seq<VirtualPod>
    requires t.dag.Some? && n <= |t.dag.value.tasks|
    decreases t, 1, n
  {
    if n == 0 then []
    else
      var task := t.dag.value.tasks[n - 1];
      TaskInlineSmaller(t, n - 1);
      TasksPods(spec, t, n - 1) + (if task.inline.Some? then TemplatePods(spec, task.inline.value) else [])
  }

  lemma StepInlineSmaller(t: Template, g: nat, j: nat)
    requires t.steps.Some? && g < |t.steps.value.groups| && j < |t.steps.value.groups[g].steps|
    ensures t.steps.value.groups[g].steps[j].inline.Some? ==> t.steps.value.groups[g].steps[j].inline.value < t
  {
    assert t.steps.value.groups[g] in t.steps.value.groups;
    assert t.steps.value.groups[g].steps[j] in t.steps.value.groups[g].steps;
  }

  lemma TaskInlineSmaller(t: Template, j: nat)
    requires t.dag.Some? && j < |t.dag.value.tasks|
    ensures t.dag.value.tasks[j].inline.Some? ==> t.dag.value.tasks[j].inline.value < t
  {
    assert t.dag.value.tasks[j] in t.dag.value.tasks;
  }

  /** The pods of a list of top-level templates, in order. */
  function TemplatesPods(spec: WorkflowSpec, templates: seq<Template>): seq<VirtualPod> {
    if |templates| == 0 then []
    else TemplatesPods(spec, templates[..|templates| - 1]) + TemplatePods(spec, templates[|templates| - 1])
  }

  /** `collectWorkflowPods` as a function of the spec. */
  function WorkflowPods(spec: WorkflowSpec): seq<VirtualPod> {
    TemplatesPods(spec, spec.templates)
  }

  /** `collectWorkflowPods`. */
  method CollectWorkflowPods(spec: WorkflowSpec) returns (pods: seq<VirtualPod>)
    ensures pods == WorkflowPods(spec)
  {
    pods := [];
    for i := 0 to |spec.templates|
      invariant pods == TemplatesPods(spec, spec.templates[..i])
    {
      assert spec.templates[..i + 1][..i] == spec.templates[..i];
      pods := CollectWorkflowPodsImpl(spec, spec.templates[i], pods);
    }
    assert spec.templates[..|spec.templates|] == spec.templates;
  }

  /** `collectWorkflowPodsImpl`: appends the pods of `template` to `pods`. */
  method CollectWorkflowPodsImpl(spec: WorkflowSpec, template: Template, pods: seq<VirtualPod>)
    returns (out: seq<VirtualPod>)
    ensures out == pods + TemplatePods(spec, template)
    decreases template
  {
    if template.container.Some? || template.script.Some? {
      var pod := BuildTemplatePod(spec, template);
      out := pods + [pod];
    } else if template.steps.Some? {
      out := pods;
      var groups := template.steps.value.groups;
      for i := 0 to |groups|
        invariant out == pods + StepsPods(spec, template, i)
      {
        var steps := groups[i].steps;
        for j := 0 to |steps|
          invariant out == pods + StepsPods(spec, template, i) + GroupPods(spec, template, i, j)
        {
          if steps[j].inline.Some? {
            StepInlineSmaller(template, i, j);
            out := CollectWorkflowPodsImpl(spec, steps[j].inline.value, out);
          }
        }
      }
    } else if template.dag.Some? {
      out := pods;
      var tasks := template.dag.value.tasks;
      for i := 0 to |tasks|
        invariant out == pods + TasksPods(spec, template, i)
      {
        if tasks[i].inline.Some? {
          TaskInlineSmaller(template, i);
          out := CollectWorkflowPodsImpl(spec, tasks[i].inline.value, out);
        }
      }
    } else {
      out := pods;
    }
  }

  /** The pod branch of `collectWorkflowPodsImpl`: the containers (the main container, the
      container set or the script, then the sidecars) and the init containers, with node
      selector, affinity and tolerations from the template, or else from the workflow spec. */
  method BuildTemplatePod(spec: WorkflowSpec, template: Template) returns (pod: VirtualPod)
    ensures pod == TemplatePod(spec, template)
  {
    var containers: seq<Container> := [];
    if template.container.Some? {
      containers := [template.container.value];
    } else if template.containerSet.Some? {
      var members := template.containerSet.value;
      for i := 0 to |members|
        invariant containers == members[..i]
      {
        containers := containers + [members[i]];
      }
    } else if template.script.Some? {
      containers := [template.script.value];
    }
    ghost var main := containers;
    for i := 0 to |template.sidecars|
      invariant containers == main + template.sidecars[..i]
    {
      containers := containers + [template.sidecars[i]];
    }
    assert containers == TemplateContainers(template);

    var initContainers: seq<Container> := [];
    for i := 0 to |template.initContainers|
      invariant initContainers == template.initContainers[..i]
    {
      initContainers := initContainers + [template.initContainers[i]];
    }
    assert initContainers == template.initContainers;

    var nodeSelector: map<string, string> := map[];
    if |template.nodeSelector| > 0 {
      nodeSelector := template.nodeSelector;
    } else if |spec.nodeSelector| > 0 {
      nodeSelector := spec.nodeSelector;
    }
    assert |spec.nodeSelector| == 0 ==> spec.nodeSelector == map[];

    var affinity: Option<Affinity> := None;
    if template.affinity.Some? {
      affinity := template.affinity;
    } else if spec.affinity.Some? {
      affinity := spec.affinity;
    }

    var tolerations: seq<Toleration> := [];
    if |template.tolerations| > 0 {
      tolerations := template.tolerations;
    } else if |spec.tolerations| > 0 {
      tolerations := spec.tolerations;
    }

    pod := VirtualPod(EmptyMeta, PodSpec(
      nodeSelector := nodeSelector,
      affinity := affinity,
      tolerations := tolerations,
      initContainers := initContainers,
      containers := containers,
      nodeName := ""), "");
  }

  /** Top-level templates contribute in order: the pods of a concatenation of template lists are
      the concatenation of their pods. */
  lemma {:induction false} TemplatesPodsAppend(spec: WorkflowSpec, a: seq<Template>, b: seq<Template>)
    ensures TemplatesPods(spec, a + b) == TemplatesPods(spec, a) + TemplatesPods(spec, b)
    decreases |b|
  {
    if |b| == 0 {
      assert a + b == a;
    } else {
      var b' := b[..|b| - 1];
      assert (a + b)[..|a + b| - 1] == a + b';
      assert (a + b)[|a + b| - 1] == b[|b| - 1];
      TemplatesPodsAppend(spec, a, b');
    }
  }

  /** A container or script template yields exactly one pod, with the template's containers and
      the template's scheduling settings where it sets them. */
  lemma ContainerTemplatePod(spec: WorkflowSpec, t: Template)
    requires t.container.Some? || t.script.Some?
    ensures |TemplatePods(spec, t)| == 1
    ensures var pod := TemplatePods(spec, t)[0];
      pod.spec.containers == TemplateContainers(t)
      && (t.container.Some? ==> pod.spec.containers == [t.container.value] + t.sidecars)
      && (t.container.None? && t.containerSet.Some? ==> pod.spec.containers == t.containerSet.value + t.sidecars)
      && (t.container.None? && t.containerSet.None? ==> pod.spec.containers == [t.script.value] + t.sidecars)
      && (|t.nodeSelector| > 0 ==> pod.spec.nodeSelector == t.nodeSelector)
      && (|t.nodeSelector| == 0 ==> pod.spec.nodeSelector == spec.nodeSelector)
      && (t.affinity.Some? ==> pod.spec.affinity == t.affinity)
      && (t.affinity.None? ==> pod.spec.affinity == spec.affinity)
      && (|t.tolerations| > 0 ==> pod.spec.tolerations == t.tolerations)
      && (|t.tolerations| == 0 ==> pod.spec.tolerations == spec.tolerations)
  {
  }

  /** A template with neither container, script, steps nor DAG yields no pod, even when it has a
      container set. */
  lemma EmptyTemplateNoPods(spec: WorkflowSpec, t: Template)
    requires t.container.None? && t.script.None? && t.steps.None? && t.dag.None?
    ensures TemplatePods(spec, t) == []
  {
  }

  /** Steps that reference templates by name, rather than inline, yield nothing. */
  lemma {:induction false} ReferencedStepsNoPods(spec: WorkflowSpec, t: Template, n: nat)
    requires t.steps.Some? && n <= |t.steps.value.groups|
    requires forall g, j :: 0 <= g < |t.steps.value.groups| && 0 <= j < |t.steps.value.groups[g].steps| ==>
      t.steps.value.groups[g].steps[j].inline.None?
    ensures StepsPods(spec, t, n) == []
    decreases n
  {
    if n > 0 {
      ReferencedStepsNoPods(spec, t, n - 1);
      GroupNoPods(spec, t, n - 1, |t.steps.value.groups[n - 1].steps|);
    }
  }

  lemma {:induction false} GroupNoPods(spec: WorkflowSpec, t: Template, g: nat, m: nat)
    requires t.steps.Some? && g < |t.steps.value.groups| && m <= |t.steps.value.groups[g].steps|
    requires forall j :: 0 <= j < |t.steps.value.groups[g].steps| ==> t.steps.value.groups[g].steps[j].inline.None?
    ensures GroupPods(spec, t, g, m) == []
    decreases m
  {
    if m > 0 {
      GroupNoPods(spec, t, g, m - 1);
      assert t.steps.value.groups[g].steps[m - 1].inline.None?;
    }
  }
}
