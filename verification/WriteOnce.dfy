/** What holds of an instance over every run that never disables its Dex or MariaDB, with
    any other instances in the same run: credentials and claims never change once
    created, and Dex and Grafana share one secret. */
module WriteOnce {
  import opened Wrappers
  import opened GrafooApi
  import opened Cluster
  import opened Naming
  import opened Traces
  import Dex
  import MariaDb
  import GrafanaCr
  import DataSources
  import opened Isolation

  /** The client secret, the database credentials and the volume claim. */
  function Kept(inst: Instance): set<Ref> {
    {Dex.ClientSecretRef(inst), MariaDb.SecretRef(inst), MariaDb.ClaimRef(inst)}
  }

  // ----- what single operations do to these objects ---------------------

  /** The operation leaves the bodies of kept objects alone. */
  predicate KeepsBodies(inst: Instance, op: Op) {
    op.ref in Kept(inst) ==>
      match op
      case Create(_, _) => true
      case Update(_, read, want) => want.body == read.body
      case Upsert(_, _, patch) => patch.body.None?
      case Delete(_) => false
  }

  /** The operation puts a client secret into the configuration or into Grafana
      only as the work read it, and creates the client secret at most. */
  predicate CopiesSecret(inst: Instance, w: Work, op: Op) {
    && (op.ref == Dex.ConfigRef(inst) ==>
          && op.Upsert? && op.patch.body.Some? && op.patch.body.value.ConfigSecret? && w.DexWork?
          && Dex.ClientSecretValue(w.read) == Ok(op.patch.body.value.config.clientSecret))
    && (op.ref == GrafanaCr.GrafanaRef(inst) ==>
          && op.Upsert? && op.patch.body.Some? && op.patch.body.value.GrafanaSpec? && w.GrafanaWork?
          && Dex.ClientSecretValue(w.read) == Ok(op.patch.body.value.clientSecret))
    && (op.ref == Dex.ClientSecretRef(inst) ==> op.Create?)
  }

  lemma SecretNamesDiffer(inst: Instance)
    ensures Dex.ClientSecretRef(inst) != MariaDb.SecretRef(inst)
    ensures Dex.ClientSecretRef(inst) != Dex.ConfigRef(inst) && Dex.ConfigRef(inst) != MariaDb.SecretRef(inst)
    ensures OwnRef(inst, Secret, "dex-token") !in Kept(inst) + {Dex.ConfigRef(inst)}
  {
    assert |"dex-token"| == 9 && |"dex-client-secret"| == 17 && |"mariadb"| == 7 && |"dex"| == 3;
    assert |Dex.ClientSecretRef(inst).name| == |inst.name| + 18;
    assert |OwnRef(inst, Secret, "dex-token").name| == |inst.name| + 10;
  }

  lemma DexOps(inst: Instance, w: Work, op: Op)
    requires w.DexWork? && SameInstance(w.inst, inst) && op in WorkOps(w)
    ensures KeepsBodies(inst, op) && CopiesSecret(inst, w, op)
  {
    hide *;
    DexForms(w, op);
    DexForm(inst, w, op);
  }

  ghost predicate IsDexForm(w: Work, op: Op)
    requires w.DexWork?
  {
    || op.ref.kind !in {Secret, PersistentVolumeClaim, Grafana}
    || op == Dex.TokenSecretOp(w.inst)
    || op == Dex.ClientSecretOp(w.inst, w.uuid)
    || exists config ::
         op == Dex.ConfigOp(w.inst, w.sha, config) && Dex.ClientSecretValue(w.read) == Ok(config.clientSecret)
  }

  lemma DexForms(w: Work, op: Op)
    requires w.DexWork? && op in WorkOps(w)
    ensures IsDexForm(w, op)
  {
    hide Dex.TokenSecretOp, Dex.ClientSecretOp, Dex.ConfigOp, ComponentName;
    if Dex.ClientSecretValue(w.read).Ok? {
      var config :=
        Dex.ConfigFor(w.inst, w.routes, if w.refresh.Some? then w.refresh.value else "",
                      Dex.ClientSecretValue(w.read).value);
      assert op == Dex.ConfigOp(w.inst, w.sha, config) ==> IsDexForm(w, op);
    }
  }

  lemma DexForm(inst: Instance, w: Work, op: Op)
    requires w.DexWork? && SameInstance(w.inst, inst) && IsDexForm(w, op)
    ensures KeepsBodies(inst, op) && CopiesSecret(inst, w, op)
  {
    hide ComponentName, LabelsFor;
    SecretNamesDiffer(inst);
  }

  lemma MariaDbOps(inst: Instance, w: Work, op: Op)
    requires w.MariaDbWork? && WellFormed(w) && SameInstance(w.inst, inst) && op in WorkOps(w)
    ensures KeepsBodies(inst, op) && CopiesSecret(inst, w, op)
  {
    hide *;
    MariaDbForms(w, op);
    MariaDbForm(inst, w, op);
  }

  predicate IsMariaDbForm(w: Work, op: Op)
    requires w.MariaDbWork? && WellFormed(w)
  {
    || op.ref.kind !in {Secret, PersistentVolumeClaim, Grafana}
    || op == MariaDb.ClaimOp(w.inst, w.inst.spec.mariadb.value.storageSize)
    || op in MariaDb.SecretPlan(w.inst, w.read, w.password, w.rootPassword)
  }

  lemma MariaDbForms(w: Work, op: Op)
    requires w.MariaDbWork? && WellFormed(w) && op in WorkOps(w)
    ensures IsMariaDbForm(w, op)
  {
    hide MariaDb.ClaimOp, MariaDb.SecretPlan, ComponentName, LabelsFor;
  }

  lemma MariaDbForm(inst: Instance, w: Work, op: Op)
    requires w.MariaDbWork? && WellFormed(w) && SameInstance(w.inst, inst) && IsMariaDbForm(w, op)
    ensures KeepsBodies(inst, op) && CopiesSecret(inst, w, op)
  {
    hide ComponentName, LabelsFor, MariaDb.Merged, MariaDb.Credentials;
    SecretNamesDiffer(inst);
  }

  lemma GrafanaOps(inst: Instance, w: Work, op: Op)
    requires w.GrafanaWork? && SameInstance(w.inst, inst) && op in WorkOps(w)
    ensures KeepsBodies(inst, op) && CopiesSecret(inst, w, op)
  {
    hide GrafanaCr.GrafanaPlan, GrafanaCr.RoleRefs, LabelsFor;
    GrafanaCr.PlannedOps(w.inst, w.routes, w.read, w.db, w.found, op);
  }

  /** The objects that the properties are about. */
  function Watched(inst: Instance): set<Ref> {
    Kept(inst) + {Dex.ConfigRef(inst), GrafanaCr.GrafanaRef(inst)}
  }

  lemma WatchedIsOwn(inst: Instance, r: Ref)
    requires r in Watched(inst)
    ensures Footprint(inst, r) && r.namespace == inst.namespace && !ClusterScoped(r.kind) && r.kind != GrafanaDatasource
  {
    hide Footprint, ComponentName;
    OwnComponent(inst, Secret, 0, "dex");
    OwnComponent(inst, Secret, 1, "mariadb");
    OwnComponent(inst, Secret, 3, "dex-client-secret");
    OwnComponent(inst, PersistentVolumeClaim, 0, "mariadb");
    if r == GrafanaCr.GrafanaRef(inst) {
      OwnGrafana(inst);
    }
  }

  lemma OwnGrafana(inst: Instance)
    ensures Footprint(inst, GrafanaCr.GrafanaRef(inst))
  {
  }

  lemma HomeNamespace(inst: Instance, r: Ref)
    requires Footprint(inst, r) && !ClusterScoped(r.kind)
    ensures r.namespace == inst.namespace
  {
  }

  /** Work for any other instance, enabled or not, stays away from these objects. */
  lemma OthersStayAway(inst: Instance, w: Work, op: Op)
    requires WellFormed(w) && !SameInstance(w.inst, inst) && op in WorkOps(w)
    ensures op.ref !in Watched(inst)
  {
    hide WellFormed, WorkOps, Footprint, Watched, ClusterScoped, DataSources.IsListed;
    if op.ref in Watched(inst) {
      WatchedIsOwn(inst, op.ref);
      WorkStaysHome(w, op);
      if Footprint(w.inst, op.ref) {
        FootprintsApart(w.inst, inst, op.ref);
        HomeNamespace(w.inst, op.ref);
      } else {
        DatasourceOpKinds(w, op);
      }
      assert false;
    }
  }

  lemma Unwatched(inst: Instance, w: Work, op: Op)
    requires op.ref !in Watched(inst)
    ensures KeepsBodies(inst, op) && CopiesSecret(inst, w, op)
  {
  }

  lemma OpsOfRun(inst: Instance, w: Work, op: Op)
    requires WellFormed(w) && (SameInstance(w.inst, inst) ==> !Teardown(w)) && op in WorkOps(w)
    ensures KeepsBodies(inst, op) && CopiesSecret(inst, w, op)
  {
    hide *;
    if SameInstance(w.inst, inst) {
      EnabledOps(inst, w, op);
    } else {
      OthersStayAway(inst, w, op);
      Unwatched(inst, w, op);
    }
  }

  lemma EnabledOps(inst: Instance, w: Work, op: Op)
    requires WellFormed(w) && !Teardown(w) && SameInstance(w.inst, inst) && op in WorkOps(w)
    ensures KeepsBodies(inst, op) && CopiesSecret(inst, w, op)
  {
    hide WorkOps;
    match w
    case DexWork(_, _, _, _, _, _) => DexOps(inst, w, op);
    case MariaDbWork(_, _, _, _, _) => MariaDbOps(inst, w, op);
    case GrafanaWork(_, _, _, _, _) => GrafanaOps(inst, w, op);
    case DatasourceWork(_, _, _, _, _) => DatasourceOpKinds(w, op);
    case _ =>
  }

  // ----- write once -----------------------------------------------------

  /** A run that never disables the instance's Dex or MariaDB. */
  ghost predicate EnabledRun(inst: Instance, states: seq<Store>, log: seq<Op>, works: seq<Work>) {
    && OperatorTrace(states, log, works)
    && forall i :: 0 <= i < |works| ==> SameInstance(works[i].inst, inst) ==> !Teardown(works[i])
  }

  lemma BodyStep(inst: Instance, op: Op, st: Store, r: Ref)
    requires KeepsBodies(inst, op) && Accepts(st, op) && r in Kept(inst) && r in st
    ensures r in Apply(st, op) && Apply(st, op)[r].body == st[r].body
  {
  }

  lemma TraceLength(inst: Instance, states: seq<Store>, log: seq<Op>, works: seq<Work>)
    requires EnabledRun(inst, states, log, works)
    ensures |states| == |log| + 1 && |works| == |log|
  {
    hide WorkOps, WellFormed;
  }

  lemma WorkStep(inst: Instance, states: seq<Store>, log: seq<Op>, works: seq<Work>, i: nat)
    requires EnabledRun(inst, states, log, works) && i < |log|
    ensures |states| == |log| + 1 && Accepts(states[i], log[i]) && states[i + 1] == Apply(states[i], log[i])
    ensures KeepsBodies(inst, log[i]) && CopiesSecret(inst, works[i], log[i])
  {
    hide WorkOps, WellFormed, IsTrace, Accepts, Apply, KeepsBodies, CopiesSecret;
    TraceStep(states, log, i);
    OpsOfRun(inst, works[i], log[i]);
  }

  /** Whatever the passes read and wherever they are cut off: once created, the
      client secret, the database credentials and the claim's spec never change. */
  lemma {:induction false} WriteOnce(inst: Instance, states: seq<Store>, log: seq<Op>, works: seq<Work>, i: nat,
                                     j: nat, r: Ref)
    requires EnabledRun(inst, states, log, works)
    requires i <= j < |states| && r in Kept(inst) && r in states[i]
    ensures r in states[j] && states[j][r].body == states[i][r].body
    decreases j
  {
    hide EnabledRun, Accepts, Apply, KeepsBodies, CopiesSecret, Kept;
    TraceLength(inst, states, log, works);
    if i < j {
      WriteOnce(inst, states, log, works, i, j - 1, r);
      WorkStep(inst, states, log, works, j - 1);
      BodyStep(inst, log[j - 1], states[j - 1], r);
    }
  }

  // ----- one client secret ----------------------------------------------

  /** Configuration and Grafana carry the client secret that is stored. */
  predicate Agreement(inst: Instance, st: Store) {
    var s := Dex.ClientSecretRef(inst);
    var stored := Dex.ClientSecretValue(if s in st then Some(st[s]) else None);
    && (Dex.ConfigRef(inst) in st ==>
          var b := st[Dex.ConfigRef(inst)].body; b.ConfigSecret? && stored == Ok(b.config.clientSecret))
    && (GrafanaCr.GrafanaRef(inst) in st ==>
          var b := st[GrafanaCr.GrafanaRef(inst)].body; b.GrafanaSpec? && stored == Ok(b.clientSecret))
  }

  lemma AgreementStep(inst: Instance, w: Work, op: Op, st: Store)
    requires Agreement(inst, st) && Accepts(st, op)
    requires CopiesSecret(inst, w, op)
    requires w.DexWork? || w.GrafanaWork? ==> w.read.Some? ==>
      Dex.ClientSecretRef(inst) in st && st[Dex.ClientSecretRef(inst)].body == w.read.value.body
    ensures Agreement(inst, Apply(st, op))
  {
    SecretNamesDiffer(inst);
  }

  lemma AgreementElsewhere(inst: Instance, states: seq<Store>, log: seq<Op>, works: seq<Work>, i: nat)
    requires EnabledRun(inst, states, log, works) && i < |log|
    requires !SameInstance(works[i].inst, inst) && Agreement(inst, states[i])
    ensures Agreement(inst, states[i + 1])
  {
    hide WorkOps, WellFormed, IsTrace, Accepts;
    TraceStep(states, log, i);
    OthersStayAway(inst, works[i], log[i]);
  }

  lemma PastRead(inst: Instance, states: seq<Store>, log: seq<Op>, works: seq<Work>, i: nat)
    requires EnabledRun(inst, states, log, works) && AllGrounded(states, works) && i < |works| && i < |states|
    requires (works[i].DexWork? || works[i].GrafanaWork?) && SameInstance(works[i].inst, inst)
    ensures GrafanaCr.Seen(states[..i + 1], Dex.ClientSecretRef(inst), works[i].read)
  {
    hide WorkOps, WellFormed, GrafanaCr.Seen;
    assert Grounded(works[i], states[..i + 1]) && SameInstance(works[i].inst, inst);
  }

  lemma AgreementAtHome(inst: Instance, states: seq<Store>, log: seq<Op>, works: seq<Work>, i: nat)
    requires EnabledRun(inst, states, log, works) && AllGrounded(states, works) && i < |log|
    requires SameInstance(works[i].inst, inst) && |states| == |log| + 1 && |works| == |log|
    requires Agreement(inst, states[i])
    ensures Agreement(inst, states[i + 1])
  {
    hide *;
    WorkStep(inst, states, log, works, i);
    var w, r := works[i], Dex.ClientSecretRef(inst);
    if (w.DexWork? || w.GrafanaWork?) && w.read.Some? {
      PastRead(inst, states, log, works, i);
      var h := SeenAt(states, i, r, w.read.value);
      WriteOnce(inst, states, log, works, h, i, r) by { SecretIsKept(inst); }
    }
    AgreementStep(inst, w, log[i], states[i]);
  }

  lemma SecretIsKept(inst: Instance)
    ensures Dex.ClientSecretRef(inst) in Kept(inst)
  {
  }

  lemma SeenAt(states: seq<Store>, i: nat, r: Ref, o: Object) returns (h: nat)
    requires i < |states| && GrafanaCr.Seen(states[..i + 1], r, Some(o))
    ensures h <= i && r in states[h] && states[h][r] == o
  {
    h :| h < |states[..i + 1]| && r in states[..i + 1][h] && states[..i + 1][h][r] == o;
  }

  /** Across arbitrary failures and stale reads, Dex's configuration and Grafana
      never hold different client secrets. */
  lemma {:induction false} SecretsAgree(inst: Instance, states: seq<Store>, log: seq<Op>, works: seq<Work>, j: nat)
    requires EnabledRun(inst, states, log, works) && AllGrounded(states, works)
    requires states != [] && Agreement(inst, states[0]) && j < |states|
    ensures Agreement(inst, states[j])
    ensures Dex.ConfigRef(inst) in states[j] && GrafanaCr.GrafanaRef(inst) in states[j] ==>
      var config, grafana := states[j][Dex.ConfigRef(inst)].body, states[j][GrafanaCr.GrafanaRef(inst)].body;
      config.ConfigSecret? && grafana.GrafanaSpec? && config.config.clientSecret == grafana.clientSecret
    decreases j
  {
    hide *;
    TraceLength(inst, states, log, works);
    if j > 0 {
      SecretsAgree(inst, states, log, works, j - 1);
      if SameInstance(works[j - 1].inst, inst) {
        AgreementAtHome(inst, states, log, works, j - 1);
      } else {
        AgreementElsewhere(inst, states, log, works, j - 1);
      }
    }
    Agree(inst, states[j]);
  }

  lemma Agree(inst: Instance, st: Store)
    requires Agreement(inst, st)
    ensures Dex.ConfigRef(inst) in st && GrafanaCr.GrafanaRef(inst) in st ==>
      var config, grafana := st[Dex.ConfigRef(inst)].body, st[GrafanaCr.GrafanaRef(inst)].body;
      config.ConfigSecret? && grafana.GrafanaSpec? && config.config.clientSecret == grafana.clientSecret
  {
  }
}
