/** Instances do not interfere: whatever passes of other instances do, the objects
    of an instance stay as they are. */
module Isolation {
  import opened GrafooApi
  import opened Cluster
  import opened Naming
  import opened Traces
  import DataSources
  import Dex
  import MariaDb
  import GrafanaCr

  // ----- the objects of an instance -------------------------------------

  function Components(kind: Kind): seq<string> {
    match kind
    case ServiceAccount => ["dex", "mariadb"]
    case Secret => ["dex", "mariadb", "dex-token", "dex-client-secret"]
    case Deployment => ["dex", "mariadb"]
    case Service => ["dex", "mariadb"]
    case Ingress => ["dex"]
    case PersistentVolumeClaim => ["mariadb"]
    case ClusterRole => [GrafanaCr.AUTH_REVIEWER, GrafanaCr.TRACES_READER]
    case ClusterRoleBinding =>
      [GrafanaCr.AUTH_REVIEWER, GrafanaCr.TRACES_READER, GrafanaCr.MONITORING_VIEW,
       GrafanaCr.RoleName(GrafanaCr.Application), GrafanaCr.RoleName(GrafanaCr.Infrastructure),
       GrafanaCr.RoleName(GrafanaCr.Audit)]
    case _ => []
  }

  predicate ClusterScoped(kind: Kind) { kind.ClusterRole? || kind.ClusterRoleBinding? }

  /** The name is an instance's with a dash and a key of the stored datasources' length. */
  predicate KeyedBy(name: string, instance: string) {
    |name| == |instance| + 1 + KEY_LENGTH && name[..|instance| + 1] == instance + "-"
  }

  /** The objects that the operator writes for an instance. */
  predicate Footprint(inst: Instance, r: Ref) {
    && r.namespace == (if ClusterScoped(r.kind) then "" else inst.namespace)
    && match r.kind
       case Grafana => r.name == inst.name
       case GrafanaDatasource => KeyedBy(r.name, inst.name)
       case _ => exists i :: 0 <= i < |Components(r.kind)| && r.name == ComponentName(inst.name, Components(r.kind)[i])
  }

  // ----- names do not collide -------------------------------------------

  /** d ends in a dash and c. */
  predicate DashSuffix(c: string, d: string) {
    |c| < |d| && d[|d| - |c| - 1] == '-' && d[|d| - |c|..] == c
  }

  lemma CollidingNames(a: string, c: string, b: string, d: string)
    requires ComponentName(a, c) == ComponentName(b, d) && a != b
    ensures DashSuffix(c, d) || DashSuffix(d, c)
  {
    var n := ComponentName(a, c);
    assert n[|a| + 1..] == c && n[|b| + 1..] == d && n[..|a|] == a && n[..|b|] == b;
    assert n[|a|] == '-' && n[|b|] == '-';
    if |a| < |b| {
      assert c[|b| - |a|..] == d;
    } else if |b| < |a| {
      assert d[|a| - |b|..] == c;
    }
  }

  lemma NoDashSuffix(kind: Kind, i: nat, j: nat)
    requires i < |Components(kind)| && j < |Components(kind)|
    ensures !DashSuffix(Components(kind)[i], Components(kind)[j])
  {
    if kind.ClusterRoleBinding? {
      NoRoleDashSuffix(i, j);
    }
  }

  lemma NoRoleDashSuffix(i: nat, j: nat)
    requires i < |Components(ClusterRoleBinding)| && j < |Components(ClusterRoleBinding)|
    ensures !DashSuffix(Components(ClusterRoleBinding)[i], Components(ClusterRoleBinding)[j])
  {
    hide DashSuffix;
    if i < 2 {
      NoShortSuffix(i, j);
    } else {
      NoLongSuffix(i, j);
    }
  }

  lemma NoShortSuffix(i: nat, j: nat)
    requires i < 2 && j < |Components(ClusterRoleBinding)|
    ensures !DashSuffix(Components(ClusterRoleBinding)[i], Components(ClusterRoleBinding)[j])
  {
  }

  lemma NoLongSuffix(i: nat, j: nat)
    requires 2 <= i < |Components(ClusterRoleBinding)| && j < |Components(ClusterRoleBinding)|
    ensures !DashSuffix(Components(ClusterRoleBinding)[i], Components(ClusterRoleBinding)[j])
  {
  }

  lemma KeyedOnce(r: string, a: string, b: string)
    requires KeyedBy(r, a) && KeyedBy(r, b)
    ensures a == b
  {
    assert r[..|a| + 1][..|a|] == a && r[..|b| + 1][..|b|] == b;
  }

  lemma ComponentsApart(kind: Kind, a: string, b: string, i: nat, j: nat)
    requires i < |Components(kind)| && j < |Components(kind)|
    requires ComponentName(a, Components(kind)[i]) == ComponentName(b, Components(kind)[j])
    ensures a == b
  {
    hide Components, ComponentName, DashSuffix;
    if a != b {
      CollidingNames(a, Components(kind)[i], b, Components(kind)[j]);
      NoDashSuffix(kind, i, j);
      NoDashSuffix(kind, j, i);
    }
  }

  /** An object belongs to one instance name at most. */
  lemma FootprintsApart(a: Instance, b: Instance, r: Ref)
    requires Footprint(a, r) && Footprint(b, r)
    ensures a.name == b.name
  {
    hide Components, ComponentName, KeyedBy;
    if r.kind.GrafanaDatasource? {
      KeyedOnce(r.name, a.name, b.name);
    } else if !r.kind.Grafana? {
      var parts := Components(r.kind);
      var i :| 0 <= i < |parts| && r.name == ComponentName(a.name, parts[i]);
      var j :| 0 <= j < |parts| && r.name == ComponentName(b.name, parts[j]);
      ComponentsApart(r.kind, a.name, b.name, i, j);
    }
  }

  /** Two instances share no object exactly when their names differ: with one name in
      two namespaces they share the cluster-scoped objects. */
  lemma FootprintsDisjointIff(a: Instance, b: Instance)
    ensures (forall r :: !(Footprint(a, r) && Footprint(b, r))) <==> a.name != b.name
  {
    if a.name == b.name {
      var r := ClusterRef(a, ClusterRole, GrafanaCr.AUTH_REVIEWER);
      assert Components(ClusterRole)[0] == GrafanaCr.AUTH_REVIEWER;
      assert Footprint(a, r) && Footprint(b, r);
    } else {
      forall r | Footprint(a, r) && Footprint(b, r) ensures false {
        FootprintsApart(a, b, r);
      }
    }
  }

  // ----- labels stay with their owners ----------------------------------

  /** Whoever a datasource's name points to is who its label names. */
  ghost predicate HonestLabel(r: Ref, o: Object) {
    forall name :: r.kind == GrafanaDatasource && KeyedBy(r.name, name) ==>
      INSTANCE_LABEL in o.labels && o.labels[INSTANCE_LABEL] == name
  }

  ghost predicate Honest(st: Store) {
    forall r :: r in st ==> HonestLabel(r, st[r])
  }

  lemma StoredNameIsKeyed(d: Digest, inst: Instance, ds: DataSource, name: string)
    ensures var n := DataSources.StoredRef(d, inst, ds).name;
      KeyedBy(n, inst.name) && (KeyedBy(n, name) ==> name == inst.name)
  {
    var n := DataSources.StoredRef(d, inst, ds).name;
    assert n[..|inst.name| + 1] == inst.name + "-";
    if KeyedBy(n, name) {
      KeyedOnce(n, inst.name, name);
    }
  }

  // ----- every operation stays within a footprint -----------------------

  lemma OwnComponent(inst: Instance, kind: Kind, i: nat, component: string)
    requires i < |Components(kind)| && Components(kind)[i] == component
    ensures Footprint(inst,
                      Ref(kind, if ClusterScoped(kind) then "" else inst.namespace,
                          ComponentName(inst.name, component)))
  {
    hide ComponentName;
  }

  lemma DexStaysHome(w: Work, op: Op)
    requires (w.DexWork? || w.DexTeardown?) && op in WorkOps(w)
    ensures Footprint(w.inst, op.ref) && op.ref.kind != GrafanaDatasource
  {
    if w.DexWork? {
      Dex.PlannedRefs(w.inst, w.routes, w.sha, w.read, w.refresh, w.uuid, op);
    }
    hide WorkOps;
    DexRefsAreOwn(w.inst, op.ref);
  }

  lemma DexRefsAreOwn(inst: Instance, r: Ref)
    requires r in Dex.DexRefs(inst)
    ensures Footprint(inst, r) && r.kind != GrafanaDatasource
  {
    hide Footprint, ComponentName;
    OwnComponent(inst, ServiceAccount, 0, "dex");
    OwnComponent(inst, Secret, 0, "dex");
    OwnComponent(inst, Secret, 2, "dex-token");
    OwnComponent(inst, Secret, 3, "dex-client-secret");
    OwnComponent(inst, Deployment, 0, "dex");
    OwnComponent(inst, Service, 0, "dex");
    OwnComponent(inst, Ingress, 0, "dex");
  }

  lemma MariaDbStaysHome(w: Work, op: Op)
    requires (w.MariaDbWork? || w.MariaDbTeardown?) && WellFormed(w) && op in WorkOps(w)
    ensures Footprint(w.inst, op.ref) && op.ref.kind != GrafanaDatasource
  {
    if w.MariaDbWork? {
      MariaDb.PlannedRefs(w.inst, w.read, w.parses, w.password, w.rootPassword, op);
    }
    hide WorkOps;
    MariaDbRefsAreOwn(w.inst, op.ref);
  }

  lemma MariaDbRefsAreOwn(inst: Instance, r: Ref)
    requires r in MariaDb.MariaDbRefs(inst)
    ensures Footprint(inst, r) && r.kind != GrafanaDatasource
  {
    hide Footprint, ComponentName;
    OwnComponent(inst, ServiceAccount, 1, "mariadb");
    OwnComponent(inst, Secret, 1, "mariadb");
    OwnComponent(inst, PersistentVolumeClaim, 0, "mariadb");
    OwnComponent(inst, Deployment, 1, "mariadb");
    OwnComponent(inst, Service, 1, "mariadb");
  }

  lemma GrafanaStaysHome(w: Work, op: Op)
    requires w.GrafanaWork? && op in WorkOps(w)
    ensures Footprint(w.inst, op.ref) && op.ref.kind != GrafanaDatasource
  {
    GrafanaCr.PlannedOps(w.inst, w.routes, w.read, w.db, w.found, op);
    hide WorkOps;
    if op.ref in GrafanaCr.RoleRefs(w.inst) {
      RoleRefsAreOwn(w.inst, op.ref);
    } else {
      assert Footprint(w.inst, GrafanaCr.GrafanaRef(w.inst));
    }
  }

  lemma RoleRefsAreOwn(inst: Instance, r: Ref)
    requires r in GrafanaCr.RoleRefs(inst)
    ensures Footprint(inst, r) && r.kind != GrafanaDatasource
  {
    hide Footprint, ComponentName, GrafanaCr.RoleName;
    OwnComponent(inst, ClusterRole, 0, GrafanaCr.AUTH_REVIEWER);
    OwnComponent(inst, ClusterRole, 1, GrafanaCr.TRACES_READER);
    OwnComponent(inst, ClusterRoleBinding, 0, GrafanaCr.AUTH_REVIEWER);
    OwnComponent(inst, ClusterRoleBinding, 1, GrafanaCr.TRACES_READER);
    OwnComponent(inst, ClusterRoleBinding, 2, GrafanaCr.MONITORING_VIEW);
    OwnComponent(inst, ClusterRoleBinding, 3, GrafanaCr.RoleName(GrafanaCr.Application));
    OwnComponent(inst, ClusterRoleBinding, 4, GrafanaCr.RoleName(GrafanaCr.Infrastructure));
    OwnComponent(inst, ClusterRoleBinding, 5, GrafanaCr.RoleName(GrafanaCr.Audit));
  }

  /** An operation of a work names an object of its own instance, or deletes a
      datasource that its listing showed with the instance's label. */
  lemma WorkStaysHome(w: Work, op: Op)
    requires WellFormed(w) && op in WorkOps(w)
    ensures Footprint(w.inst, op.ref)
      || (w.DatasourceWork? && op.Delete? && DataSources.IsListed(w.view, w.inst, op.ref))
  {
    hide Footprint, WorkOps;
    match w
    case DexWork(_, _, _, _, _, _) => DexStaysHome(w, op);
    case DexTeardown(_) => DexStaysHome(w, op);
    case MariaDbWork(_, _, _, _, _) => MariaDbStaysHome(w, op);
    case MariaDbTeardown(_) => MariaDbStaysHome(w, op);
    case GrafanaWork(_, _, _, _, _) => GrafanaStaysHome(w, op);
    case DatasourceWork(_, _, _, _, _) => DatasourceStaysHome(w, op);
  }

  lemma DatasourceStaysHome(w: Work, op: Op)
    requires w.DatasourceWork? && WellFormed(w) && op in WorkOps(w)
    ensures Footprint(w.inst, op.ref) || (op.Delete? && DataSources.IsListed(w.view, w.inst, op.ref))
  {
    hide WorkOps, DataSources.IsListed;
    DatasourceOpKinds(w, op);
    if op.Upsert? {
      var ds :| WritesEntry(w.digest, w.inst, op, ds);
      StoredNameIsKeyed(w.digest, w.inst, ds, w.inst.name);
    }
  }

  /** Applying an operation of some work keeps labels honest. */
  lemma HonestStep(w: Work, op: Op, st: Store)
    requires WellFormed(w) && op in WorkOps(w) && Honest(st) && Accepts(st, op)
    ensures Honest(Apply(st, op))
  {
    hide WorkOps, WellFormed;
    var st' := Apply(st, op);
    forall r | r in st' ensures HonestLabel(r, st'[r]) {
      if r == op.ref && r.kind == GrafanaDatasource {
        HonestWrite(w, op, st);
      } else if r == op.ref {
      } else {
        assert HonestLabel(r, st[r]);
      }
    }
  }

  lemma HonestWrite(w: Work, op: Op, st: Store)
    requires WellFormed(w) && op in WorkOps(w) && op.ref.kind == GrafanaDatasource && Accepts(st, op)
    ensures op.ref in Apply(st, op) ==> HonestLabel(op.ref, Apply(st, op)[op.ref])
  {
    WorkStaysHome(w, op);
    OnlyDatasourceWork(w, op);
    DatasourceOpKinds(w, op);
    if op.Upsert? {
      var ds :| WritesEntry(w.digest, w.inst, op, ds);
      forall name | KeyedBy(op.ref.name, name) ensures name == w.inst.name {
        StoredNameIsKeyed(w.digest, w.inst, ds, name);
      }
    }
  }

  lemma OnlyDatasourceWork(w: Work, op: Op)
    requires WellFormed(w) && op in WorkOps(w) && op.ref.kind == GrafanaDatasource
    ensures w.DatasourceWork?
  {
    hide WorkOps, Footprint;
    match w
    case DexWork(_, _, _, _, _, _) => DexStaysHome(w, op);
    case DexTeardown(_) => DexStaysHome(w, op);
    case MariaDbWork(_, _, _, _, _) => MariaDbStaysHome(w, op);
    case MariaDbTeardown(_) => MariaDbStaysHome(w, op);
    case GrafanaWork(_, _, _, _, _) => GrafanaStaysHome(w, op);
    case DatasourceWork(_, _, _, _, _) =>
  }

  // ----- isolation over runs of many instances --------------------------

  lemma {:induction false} AlwaysHonest(states: seq<Store>, log: seq<Op>, works: seq<Work>, j: nat)
    requires OperatorTrace(states, log, works) && j < |states| && Honest(states[0])
    ensures Honest(states[j])
    decreases j
  {
    hide WorkOps, WellFormed, Honest, IsTrace, Accepts, Apply;
    if j > 0 {
      TraceLengths(states, log, works);
      AlwaysHonest(states, log, works, j - 1);
      TraceStep(states, log, j - 1);
      HonestStep(works[j - 1], log[j - 1], states[j - 1]);
    }
  }

  lemma TraceLengths(states: seq<Store>, log: seq<Op>, works: seq<Work>)
    requires OperatorTrace(states, log, works)
    ensures |states| == |log| + 1 && |works| == |log|
  {
    hide WorkOps, WellFormed;
  }

  /** Only work for the instance names its objects. */
  lemma NamedOnlyByOwner(states: seq<Store>, log: seq<Op>, works: seq<Work>, i: nat, b: Instance)
    requires OperatorTrace(states, log, works) && AllGrounded(states, works) && Honest(states[0])
    requires i < |works| && i < |log| && Footprint(b, log[i].ref)
    ensures works[i].inst.name == b.name
  {
    TraceLengths(states, log, works);
    var w, r := works[i], log[i].ref;
    assert WellFormed(w) && log[i] in WorkOps(w);
    assert Grounded(w, states[..i + 1]);
    hide WorkOps, WellFormed, IsTrace, Footprint;
    WorkStaysHome(w, log[i]);
    if Footprint(w.inst, r) {
      FootprintsApart(w.inst, b, r);
    } else {
      var h :| 0 <= h < i + 1 && states[..i + 1][h] == w.view;
      AlwaysHonest(states, log, works, h);
      ListedIsOwn(w.view, w.inst, b, r);
    }
  }

  lemma ListedIsOwn(view: Store, a: Instance, b: Instance, r: Ref)
    requires Honest(view) && DataSources.IsListed(view, a, r) && Footprint(b, r)
    ensures a.name == b.name
  {
    assert HonestLabel(r, view[r]);
  }

  predicate SameAt(r: Ref, a: Store, b: Store) {
    (r in b <==> r in a) && (r in a ==> b[r] == a[r])
  }

  /** In any run in which passes of any number of instances interleave, an operation
      issued for one instance leaves the objects of every other instance alone. */
  lemma Isolated(states: seq<Store>, log: seq<Op>, works: seq<Work>, i: nat, b: Instance, r: Ref)
    requires OperatorTrace(states, log, works) && AllGrounded(states, works)
    requires Honest(states[0])
    requires i < |works| && works[i].inst.name != b.name && Footprint(b, r)
    ensures |states| == |log| + 1 == |works| + 1
    ensures SameAt(r, states[i], states[i + 1])
  {
    TraceLengths(states, log, works);
    TraceStep(states, log, i);
    if log[i].ref == r {
      NamedOnlyByOwner(states, log, works, i, b);
    }
  }

  /** And so does any stretch of the run in which no work is for that instance. */
  lemma {:induction false} IsolatedStretch(states: seq<Store>, log: seq<Op>, works: seq<Work>, i: nat, j: nat,
                                           b: Instance, r: Ref)
    requires OperatorTrace(states, log, works) && AllGrounded(states, works)
    requires Honest(states[0])
    requires i <= j < |states| && Footprint(b, r)
    requires forall k :: i <= k < j && k < |works| ==> works[k].inst.name != b.name
    ensures SameAt(r, states[i], states[j])
    decreases j
  {
    hide OperatorTrace, AllGrounded, Honest, Footprint;
    if i < j {
      TraceLengths(states, log, works);
      IsolatedStretch(states, log, works, i, j - 1, b, r);
      Isolated(states, log, works, j - 1, b, r);
    }
  }
}
