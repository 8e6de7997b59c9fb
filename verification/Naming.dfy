/** Names and labels of the objects that belong to an instance. */
module Naming {
  import opened Cluster
  import opened GrafooApi

  const NAME_LABEL := "app.kubernetes.io/name"
  const INSTANCE_LABEL := "app.kubernetes.io/instance"
  const COMPONENT_LABEL := "app.kubernetes.io/component"

  function ComponentName(instance: string, component: string): string {
    instance + "-" + component
  }

  function LabelsFor(inst: Instance, component: string): Labels {
    map[NAME_LABEL := "grafana", INSTANCE_LABEL := inst.name, COMPONENT_LABEL := component]
  }

  /** An object of the instance's namespace. */
  function OwnRef(inst: Instance, kind: Kind, component: string): Ref {
    Ref(kind, inst.namespace, ComponentName(inst.name, component))
  }

  function ClusterRef(inst: Instance, kind: Kind, component: string): Ref {
    Ref(kind, "", ComponentName(inst.name, component))
  }

  predicate SameInstance(a: Instance, b: Instance) { a.name == b.name && a.namespace == b.namespace }
}
