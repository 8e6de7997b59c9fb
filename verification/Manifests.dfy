/** What completed passes of the Dex, MariaDB and Grafana reconcilers leave in the cluster,
    object by object and spelled out, whatever was there before. */
module Manifests {
  import opened Wrappers
  import opened GrafooApi
  import opened Cluster
  import Naming
  import Dex
  import MariaDb
  import GrafanaCr

  // ----- names, labels and what was there -------------------------------

  /** The object of the instance's namespace that is named after the instance and the part. */
  function Own(inst: Instance, kind: Kind, part: string): Ref {
    Ref(kind, inst.namespace, inst.name + "-" + part)
  }

  lemma OwnKinds(inst: Instance)
    ensures forall kind, part :: Own(inst, kind, part).kind == kind
  {
  }

  function Tags(inst: Instance, component: string): Labels {
    map["app.kubernetes.io/name" := "grafana", "app.kubernetes.io/instance" := inst.name,
        "app.kubernetes.io/component" := component]
  }

  function Was(st: Store, r: Ref): Object { if r in st then st[r] else BLANK }

  predicate Has(st: Store, r: Ref, o: Object) { r in st && st[r] == o }

  predicate Unchanged(st: Store, st': Store, r: Ref) { (r in st' <==> r in st) && (r in st ==> st'[r] == st[r]) }

  /** Of operations on different objects, each upsert acts on what was there at the start. */
  lemma Upserted(st: Store, ops: seq<Op>, i: nat)
    requires i < |ops| && ops[i].Upsert? && forall j :: 0 <= j < |ops| && j != i ==> ops[j].ref != ops[i].ref
    ensures var op := ops[i];
      Has(Exec(st, ops), op.ref, Patched(if op.ref in st then st[op.ref] else op.initial, op.patch))
  {
    SingleWriter(st, ops, i);
  }

  /** No two of the operations name the same object. */
  predicate Apart(ops: seq<Op>) {
    forall i, j :: 0 <= i < j < |ops| ==> ops[i].ref != ops[j].ref
  }

  /** The i-th operation is this upsert. */
  predicate Puts(ops: seq<Op>, i: int, r: Ref, initial: Object, patch: Patch) {
    0 <= i < |ops| && ops[i] == Upsert(r, initial, patch)
  }

  lemma PutsLand(st: Store, ops: seq<Op>, i: int, r: Ref, initial: Object, patch: Patch)
    requires Apart(ops) && Puts(ops, i, r, initial, patch)
    ensures Has(Exec(st, ops), r, Patched(if r in st then st[r] else initial, patch))
  {
    Upserted(st, ops, i);
  }

  lemma Untouched(st: Store, ops: seq<Op>, r: Ref)
    requires forall j :: 0 <= j < |ops| ==> ops[j].ref != r
    ensures Unchanged(st, Exec(st, ops), r)
  {
    ExecFrame(st, ops, r);
  }

  /** A creation on an object that no other operation names. */
  lemma Created(st: Store, ops: seq<Op>, i: nat)
    requires i < |ops| && ops[i].Create? && forall j :: 0 <= j < |ops| && j != i ==> ops[j].ref != ops[i].ref
    ensures Has(Exec(st, ops), ops[i].ref, ops[i].want)
  {
    OnlyWriter(st, ops, i);
  }

  lemma OnlyWriter(st: Store, ops: seq<Op>, i: nat)
    requires i < |ops| && forall j :: 0 <= j < |ops| && j != i ==> ops[j].ref != ops[i].ref
    requires ops[i].Create? || ops[i].Update?
    ensures Has(Exec(st, ops), ops[i].ref, ops[i].want)
  {
    var before, after := ops[..i], ops[i..][1..];
    assert ops == before + ([ops[i]] + after);
    assert ([ops[i]] + after)[1..] == after;
    ExecAppend(st, before, [ops[i]] + after);
    forall j | 0 <= j < |after| ensures after[j].ref != ops[i].ref {
      assert after[j] == ops[i + 1 + j];
    }
    ExecFrame(Apply(Exec(st, before), ops[i]), after, ops[i].ref);
  }

  // ----- Dex ------------------------------------------------------------

  function DexConfigFor(inst: Instance, routes: Dex.Routes, token: string, secret: string): DexConfig {
    DexConfig(inst.namespace, inst.name, token, routes.dexUri, routes.grafanaUri, secret)
  }

  /** The client secret was read. */
  predicate Carries(read: Option<Object>, secret: string) {
    read.Some? && read.value.body.SecretData? && "clientSecret" in read.value.body.data
    && read.value.body.data["clientSecret"] == secret
  }

  /** What a pass writes anyway. */
  predicate DexBase(inst: Instance, routes: Dex.Routes, st: Store, st': Store) {
    var tags, account, token := Tags(inst, "dex"), Own(inst, ServiceAccount, "dex"), Own(inst, Secret, "dex-token");
    && Has(st', account,
           Object(tags, map["serviceaccounts.openshift.io/oauth-redirecturi.dex" := routes.dexUri + "/callback"],
                  Some(inst.name), Was(st, account).body))
    && Has(st', token,
           if token in st then Object(tags, st[token].annotations, Some(inst.name), st[token].body)
           else Object(tags, map["kubernetes.io/service-account.name" := inst.name + "-" + "dex"], Some(inst.name),
                       TokenSecret))
  }

  predicate DexFront(inst: Instance, routes: Dex.Routes, st: Store, st': Store) {
    var tags, service, ingress := Tags(inst, "dex"), Own(inst, Service, "dex"), Own(inst, Ingress, "dex");
    && Has(st', service,
           Object(tags, Was(st, service).annotations, Some(inst.name), ServiceSpec([5555, 5556, 5557], tags)))
    && Has(st', ingress,
           Object(tags, map["route.openshift.io/termination" := "edge"], Some(inst.name),
                  IngressSpec(routes.dexHost, inst.name + "-" + "dex", 5555)))
  }

  /** Configuration and deployment, with the token and the secret that were used. */
  predicate DexCore(inst: Instance, routes: Dex.Routes, sha: Dex.ConfigDigest, token: string, secret: string,
                    st: Store, st': Store) {
    var tags, config := Tags(inst, "dex"), DexConfigFor(inst, routes, token, secret);
    var deployment := Own(inst, Deployment, "dex");
    && Has(st', Own(inst, Secret, "dex"),
           Object(tags, map["checksum/config.yaml" := sha(config)], Some(inst.name), ConfigSecret(config)))
    && Has(st', deployment,
           Object(tags, Was(st, deployment).annotations, Some(inst.name),
                  DeploymentSpec("docker.io/dexidp/dex:v2.39.1-distroless", inst.name + "-" + "dex",
                                 inst.name + "-" + "dex", Some(sha(config)))))
  }

  lemma DexNamesApart(inst: Instance)
    ensures Own(inst, Secret, "dex") != Own(inst, Secret, "dex-token")
    ensures Own(inst, Secret, "dex") != Own(inst, Secret, "dex-client-secret")
    ensures Own(inst, Secret, "dex-token") != Own(inst, Secret, "dex-client-secret")
  {
    assert |"dex-token"| == 9 && |"dex-client-secret"| == 17 && |"dex"| == 3;
    assert |Own(inst, Secret, "dex").name| == |inst.name| + 4;
    assert |Own(inst, Secret, "dex-token").name| == |inst.name| + 10;
    assert |Own(inst, Secret, "dex-client-secret").name| == |inst.name| + 18;
  }

  /** The objects that a pass writes, in the order of the writes. */
  lemma DexOrder(inst: Instance, routes: Dex.Routes, sha: Dex.ConfigDigest, read: Option<Object>,
                 refresh: Option<string>, uuid: string)
    ensures var plan := Dex.DexPlan(inst, routes, sha, read, refresh, uuid);
      var start := [Own(inst, ServiceAccount, "dex"), Own(inst, Secret, "dex-token")];
      match Dex.ClientSecretValue(read)
      case Ok(_) =>
        plan.end == Success && Touches(plan.ops, DexTouched(inst, refresh.Some?))
      case Err(NotFound) =>
        plan.end == Failure(NotFound) && Touches(plan.ops, start + [Own(inst, Secret, "dex-client-secret")])
      case Err(why) => plan.end == Failure(why) && Touches(plan.ops, start)
  {
  }

  predicate Touches(ops: seq<Op>, refs: seq<Ref>) {
    |ops| == |refs| && forall i :: 0 <= i < |ops| ==> ops[i].ref == refs[i]
  }

  /** A pass that has read the client secret completes with the service account, the token
      secret, the service and the ingress; if it refreshes, with the configuration, which
      holds the fresh token, and the deployment; and it touches nothing else. */
  lemma DexStores(inst: Instance, routes: Dex.Routes, sha: Dex.ConfigDigest, read: Option<Object>,
                  refresh: Option<string>, uuid: string, secret: string, st: Store)
    requires Carries(read, secret)
    ensures var plan := Dex.DexPlan(inst, routes, sha, read, refresh, uuid);
      var st' := Exec(st, plan.ops);
      && plan.end.Success?
      && DexBase(inst, routes, st, st') && DexFront(inst, routes, st, st')
      && (refresh.Some? ==> DexCore(inst, routes, sha, refresh.value, secret, st, st'))
      && (refresh.None? ==>
            Unchanged(st, st', Own(inst, Secret, "dex")) && Unchanged(st, st', Own(inst, Deployment, "dex")))
      && (forall r :: r !in DexRefs(inst) ==> Unchanged(st, st', r))
  {
    hide *;
    var ops := Dex.DexPlan(inst, routes, sha, read, refresh, uuid).ops;
    SecretIsRead(read, secret);
    DexOrder(inst, routes, sha, read, refresh, uuid);
    DexPuts(inst, routes, sha, read, refresh, uuid, secret);
    DexApart(inst, routes, ops, refresh.Some?);
    BaseLands(inst, routes, st, ops);
    FrontLands(inst, routes, st, ops);
    if refresh.Some? {
      CoreLands(inst, routes, sha, refresh.value, secret, st, ops);
    }
    DexTouchesOnly(inst, st, ops, refresh.Some?);
  }

  lemma SecretIsRead(read: Option<Object>, secret: string)
    ensures Carries(read, secret) <==> Dex.ClientSecretValue(read) == Ok(secret)
  {
  }

  function DexTouched(inst: Instance, refreshes: bool): seq<Ref> {
    [Own(inst, ServiceAccount, "dex"), Own(inst, Secret, "dex-token")]
    + (if refreshes then [Own(inst, Secret, "dex"), Own(inst, Deployment, "dex")] else [])
    + [Own(inst, Service, "dex"), Own(inst, Ingress, "dex")]
  }

  function DexRefs(inst: Instance): set<Ref> {
    {Own(inst, ServiceAccount, "dex"), Own(inst, Secret, "dex-token"), Own(inst, Secret, "dex"),
     Own(inst, Deployment, "dex"), Own(inst, Service, "dex"), Own(inst, Ingress, "dex")}
  }

  lemma DexApart(inst: Instance, routes: Dex.Routes, ops: seq<Op>, refreshes: bool)
    requires Touches(ops, DexTouched(inst, refreshes))
    ensures Apart(ops)
  {
    DexNamesApart(inst);
  }

  lemma DexTouchesOnly(inst: Instance, st: Store, ops: seq<Op>, refreshes: bool)
    requires Touches(ops, DexTouched(inst, refreshes))
    ensures forall r :: r !in DexRefs(inst) ==> Unchanged(st, Exec(st, ops), r)
    ensures !refreshes ==>
      Unchanged(st, Exec(st, ops), Own(inst, Secret, "dex"))
        && Unchanged(st, Exec(st, ops), Own(inst, Deployment, "dex"))
  {
    DexNamesApart(inst);
    OwnKinds(inst);
    hide Own, Exec, Unchanged;
    forall r | r !in DexRefs(inst) || (!refreshes && r in {Own(inst, Secret, "dex"), Own(inst, Deployment, "dex")})
      ensures Unchanged(st, Exec(st, ops), r)
    {
      Untouched(st, ops, r);
    }
  }

  predicate PutsBase(inst: Instance, routes: Dex.Routes, ops: seq<Op>) {
    var tags := Tags(inst, "dex");
    && Puts(ops, 0, Own(inst, ServiceAccount, "dex"), Object(tags, map[], None, Empty),
            Patch(Some(tags),
                  Some(map["serviceaccounts.openshift.io/oauth-redirecturi.dex" := routes.dexUri + "/callback"]),
                  Some(inst.name), None))
    && Puts(ops, 1, Own(inst, Secret, "dex-token"),
            Object(tags, map["kubernetes.io/service-account.name" := inst.name + "-" + "dex"], None, TokenSecret),
            Patch(Some(tags), None, Some(inst.name), None))
  }

  predicate PutsFront(inst: Instance, routes: Dex.Routes, ops: seq<Op>) {
    var tags := Tags(inst, "dex");
    && Puts(ops, |ops| - 2, Own(inst, Service, "dex"), BLANK,
            Patch(Some(tags), None, Some(inst.name), Some(ServiceSpec([5555, 5556, 5557], tags))))
    && Puts(ops, |ops| - 1, Own(inst, Ingress, "dex"), BLANK,
            Patch(Some(tags), Some(map["route.openshift.io/termination" := "edge"]), Some(inst.name),
                  Some(IngressSpec(routes.dexHost, inst.name + "-" + "dex", 5555))))
  }

  predicate PutsCore(inst: Instance, routes: Dex.Routes, sha: Dex.ConfigDigest, token: string, secret: string,
                     ops: seq<Op>) {
    var tags, config, name := Tags(inst, "dex"), DexConfigFor(inst, routes, token, secret), inst.name + "-" + "dex";
    && Puts(ops, 2, Own(inst, Secret, "dex"), BLANK,
            Patch(Some(tags), Some(map["checksum/config.yaml" := sha(config)]), Some(inst.name),
                  Some(ConfigSecret(config))))
    && Puts(ops, 3, Own(inst, Deployment, "dex"), BLANK,
            Patch(Some(tags), None, Some(inst.name),
                  Some(DeploymentSpec("docker.io/dexidp/dex:v2.39.1-distroless", name, name, Some(sha(config))))))
  }

  lemma DexPuts(inst: Instance, routes: Dex.Routes, sha: Dex.ConfigDigest, read: Option<Object>,
                refresh: Option<string>, uuid: string, secret: string)
    requires Carries(read, secret)
    ensures var ops := Dex.DexPlan(inst, routes, sha, read, refresh, uuid).ops;
      && PutsBase(inst, routes, ops) && PutsFront(inst, routes, ops)
      && (refresh.Some? ==> PutsCore(inst, routes, sha, refresh.value, secret, ops))
  {
  }

  lemma BaseLands(inst: Instance, routes: Dex.Routes, st: Store, ops: seq<Op>)
    requires Apart(ops) && PutsBase(inst, routes, ops)
    ensures DexBase(inst, routes, st, Exec(st, ops))
  {
    hide Exec, Apart, Puts, Own, Tags;
    var tags := Tags(inst, "dex");
    PutsLand(st, ops, 0, Own(inst, ServiceAccount, "dex"), Object(tags, map[], None, Empty),
             Patch(Some(tags),
                   Some(map["serviceaccounts.openshift.io/oauth-redirecturi.dex" := routes.dexUri + "/callback"]),
                   Some(inst.name), None));
    PutsLand(st, ops, 1, Own(inst, Secret, "dex-token"),
             Object(tags, map["kubernetes.io/service-account.name" := inst.name + "-" + "dex"], None, TokenSecret),
             Patch(Some(tags), None, Some(inst.name), None));
  }

  lemma FrontLands(inst: Instance, routes: Dex.Routes, st: Store, ops: seq<Op>)
    requires Apart(ops) && PutsFront(inst, routes, ops)
    ensures DexFront(inst, routes, st, Exec(st, ops))
  {
    hide Exec, Apart, Puts, Own, Tags;
    var tags := Tags(inst, "dex");
    PutsLand(st, ops, |ops| - 2, Own(inst, Service, "dex"), BLANK,
             Patch(Some(tags), None, Some(inst.name), Some(ServiceSpec([5555, 5556, 5557], tags))));
    PutsLand(st, ops, |ops| - 1, Own(inst, Ingress, "dex"), BLANK,
             Patch(Some(tags), Some(map["route.openshift.io/termination" := "edge"]), Some(inst.name),
                   Some(IngressSpec(routes.dexHost, inst.name + "-" + "dex", 5555))));
  }

  lemma CoreLands(inst: Instance, routes: Dex.Routes, sha: Dex.ConfigDigest, token: string, secret: string, st: Store,
                  ops: seq<Op>)
    requires Apart(ops) && PutsCore(inst, routes, sha, token, secret, ops)
    ensures DexCore(inst, routes, sha, token, secret, st, Exec(st, ops))
  {
    hide Exec, Apart, Puts, Own, Tags, DexConfigFor;
    var tags, config, name := Tags(inst, "dex"), DexConfigFor(inst, routes, token, secret), inst.name + "-" + "dex";
    PutsLand(st, ops, 2, Own(inst, Secret, "dex"), BLANK,
             Patch(Some(tags), Some(map["checksum/config.yaml" := sha(config)]), Some(inst.name),
                   Some(ConfigSecret(config))));
    PutsLand(st, ops, 3, Own(inst, Deployment, "dex"), BLANK,
             Patch(Some(tags), None, Some(inst.name),
                   Some(DeploymentSpec("docker.io/dexidp/dex:v2.39.1-distroless", name, name, Some(sha(config))))));
  }

  /** A pass that finds no client secret creates one with the generated value, writes
      neither configuration nor deployment, and reports the error that it found. */
  lemma FirstDexPass(inst: Instance, routes: Dex.Routes, sha: Dex.ConfigDigest, refresh: Option<string>, uuid: string,
                     st: Store)
    ensures var plan := Dex.DexPlan(inst, routes, sha, None, refresh, uuid);
      var st' := Exec(st, plan.ops);
      && plan.end == Failure(NotFound)
      && Has(st', Own(inst, Secret, "dex-client-secret"),
             Object(Tags(inst, "dex"), map[], Some(inst.name), SecretData(map["clientSecret" := uuid])))
      && Unchanged(st, st', Own(inst, Secret, "dex")) && Unchanged(st, st', Own(inst, Deployment, "dex"))
  {
    var ops := Dex.DexPlan(inst, routes, sha, None, refresh, uuid).ops;
    DexOrder(inst, routes, sha, None, refresh, uuid);
    DexNamesApart(inst);
    assert ops[2] == Dex.ClientSecretOp(inst, uuid) && ops[2].Create?;
    assert ops[2].want == Object(Tags(inst, "dex"), map[], Some(inst.name), SecretData(map["clientSecret" := uuid]));
    hide Exec, Dex.DexPlan, Own, Has, Unchanged, Tags;
    Created(st, ops, 2);
    Untouched(st, ops, Own(inst, Secret, "dex"));
    Untouched(st, ops, Own(inst, Deployment, "dex"));
  }

  /** What is removed when Dex is disabled, in this order. */
  lemma DexIsRemoved(inst: Instance)
    ensures Dex.DexRefs(inst) == [
      Own(inst, ServiceAccount, "dex"), Own(inst, Secret, "dex"), Own(inst, Secret, "dex-client-secret"),
      Own(inst, Secret, "dex-token"), Own(inst, Deployment, "dex"), Own(inst, Service, "dex"),
      Own(inst, Ingress, "dex")]
    ensures Deletes(Dex.DexRefs(inst)) == [
      Delete(Own(inst, ServiceAccount, "dex")), Delete(Own(inst, Secret, "dex")),
      Delete(Own(inst, Secret, "dex-client-secret")), Delete(Own(inst, Secret, "dex-token")),
      Delete(Own(inst, Deployment, "dex")), Delete(Own(inst, Service, "dex")), Delete(Own(inst, Ingress, "dex"))]
  {
  }

  // ----- MariaDB --------------------------------------------------------

  /** The credentials: generated once, afterwards only relabelled. */
  predicate Credentials(inst: Instance, read: Option<Object>, password: string, rootPassword: string, st: Store,
                        st': Store) {
    var tags, secret := Tags(inst, "mariadb"), Own(inst, Secret, "mariadb");
    match read
    case None =>
      Has(st', secret, Object(tags, map[], Some(inst.name), SecretData(
        map["database-name" := "grafana", "database-password" := password,
            "database-root-password" := rootPassword, "database-user" := "grafana"])))
    case Some(o) =>
      if Relabelled(o.labels, tags) == o.labels then Unchanged(st, st', secret)
      else Has(st', secret, Object(Relabelled(o.labels, tags), o.annotations, o.owner, o.body))
  }

  /** Every tag as wanted, a missing one counting as empty, and every other label as it was. */
  function Relabelled(labels: Labels, tags: Labels): Labels {
    map k | k in labels.Keys + tags.Keys && (k in labels || tags[k] != "") :: if k in tags then tags[k] else labels[k]
  }

  /** Service account, claim, service and deployment; the size of a claim that is there
      already stays, and without a valid size none of the last three is written. */
  predicate MariaDbRest(inst: Instance, db: MariaDbSpec, parses: bool, st: Store, st': Store) {
    var tags, name := Tags(inst, "mariadb"), inst.name + "-" + "mariadb";
    var account, claim := Own(inst, ServiceAccount, "mariadb"), Own(inst, PersistentVolumeClaim, "mariadb");
    var service, deployment := Own(inst, Service, "mariadb"), Own(inst, Deployment, "mariadb");
    && Has(st', account,
           Object(if account in st then st[account].labels else tags, Was(st, account).annotations, Some(inst.name),
                  Was(st, account).body))
    && (if parses then
          && Has(st', claim,
                 Object(tags, Was(st, claim).annotations, Some(inst.name),
                        if claim in st then st[claim].body else ClaimSpec(db.storageSize)))
          && Has(st', service,
                 Object(tags, Was(st, service).annotations, Some(inst.name), ServiceSpec([3306], tags)))
          && Has(st', deployment,
                 Object(tags, Was(st, deployment).annotations, Some(inst.name),
                        DeploymentSpec(db.image, name, name, None)))
        else Unchanged(st, st', claim) && Unchanged(st, st', service) && Unchanged(st, st', deployment))
  }

  function MariaDbRefs(inst: Instance): set<Ref> {
    {Own(inst, Secret, "mariadb"), Own(inst, ServiceAccount, "mariadb"), Own(inst, PersistentVolumeClaim, "mariadb"),
     Own(inst, Service, "mariadb"), Own(inst, Deployment, "mariadb")}
  }

  /** The objects that a pass writes, in the order of the writes. */
  lemma MariaDbOrder(inst: Instance, read: Option<Object>, parses: bool, password: string, rootPassword: string)
    requires inst.spec.mariadb.Some?
    ensures var plan := MariaDb.MariaDbPlan(inst, read, parses, password, rootPassword);
      && plan.end == (if parses then Success else Failure(BadStorageSize))
      && Touches(plan.ops, MariaDbTouched(inst,
           read.None? || Relabelled(read.value.labels, Tags(inst, "mariadb")) != read.value.labels, parses))
  {
    if read.Some? {
      RelabelledIff(inst, read.value.labels);
    }
  }

  lemma RelabelledIff(inst: Instance, labels: Labels)
    ensures MariaDb.Merged(labels, LabelsOf(inst)) == Relabelled(labels, Tags(inst, "mariadb"))
  {
    var merged, all := MariaDb.Merged(labels, LabelsOf(inst)), Relabelled(labels, Tags(inst, "mariadb"));
    assert merged.Keys == all.Keys;
  }

  function LabelsOf(inst: Instance): Labels { Naming.LabelsFor(inst, "mariadb") }

  predicate PutsRest(inst: Instance, db: MariaDbSpec, parses: bool, ops: seq<Op>, k: nat) {
    var tags, name := Tags(inst, "mariadb"), inst.name + "-" + "mariadb";
    && Puts(ops, k, Own(inst, ServiceAccount, "mariadb"), Object(tags, map[], None, Empty),
            Patch(None, None, Some(inst.name), None))
    && (parses ==>
          && Puts(ops, k + 1, Own(inst, PersistentVolumeClaim, "mariadb"),
                  Object(map[], map[], None, ClaimSpec(db.storageSize)), Patch(Some(tags), None, Some(inst.name), None))
          && Puts(ops, k + 2, Own(inst, Service, "mariadb"), BLANK,
                  Patch(Some(tags), None, Some(inst.name), Some(ServiceSpec([3306], tags))))
          && Puts(ops, k + 3, Own(inst, Deployment, "mariadb"), BLANK,
                  Patch(Some(tags), None, Some(inst.name), Some(DeploymentSpec(db.image, name, name, None)))))
  }

  /** The first operation, if the credentials need one. */
  predicate PutsSecret(inst: Instance, read: Option<Object>, password: string, rootPassword: string, ops: seq<Op>,
                       k: nat) {
    var tags := Tags(inst, "mariadb");
    && k <= 1 <= |ops|
    && (k == 0 <==> read.Some? && Relabelled(read.value.labels, tags) == read.value.labels)
    && (k == 1 && read.Some? ==>
        ops[0].Update? && ops[0].want == read.value.(labels := Relabelled(read.value.labels, tags)))
    && (read.None? ==> ops[0].Create? && ops[0].want == Object(tags, map[], Some(inst.name), SecretData(
          map["database-name" := "grafana", "database-password" := password,
              "database-root-password" := rootPassword, "database-user" := "grafana"])))
  }

  lemma MariaDbPuts(inst: Instance, read: Option<Object>, parses: bool, password: string, rootPassword: string)
    returns (k: nat)
    requires inst.spec.mariadb.Some?
    ensures var ops := MariaDb.MariaDbPlan(inst, read, parses, password, rootPassword).ops;
      && PutsSecret(inst, read, password, rootPassword, ops, k)
      && PutsRest(inst, inst.spec.mariadb.value, parses, ops, k)
  {
    if read.Some? {
      RelabelledIff(inst, read.value.labels);
    }
    hide MariaDb.Merged;
    k := |MariaDb.MariaDbPlan(inst, read, parses, password, rootPassword).ops| - if parses then 4 else 1;
  }

  /** What a pass leaves, from any state, in every object. */
  lemma MariaDbStores(inst: Instance, read: Option<Object>, parses: bool, password: string, rootPassword: string,
                      st: Store)
    requires inst.spec.mariadb.Some?
    ensures var plan := MariaDb.MariaDbPlan(inst, read, parses, password, rootPassword);
      var st' := Exec(st, plan.ops);
      && (plan.end.Success? <==> parses)
      && Credentials(inst, read, password, rootPassword, st, st')
      && MariaDbRest(inst, inst.spec.mariadb.value, parses, st, st')
      && (forall r :: r !in MariaDbRefs(inst) ==> Unchanged(st, st', r))
  {
    hide *;
    var ops := MariaDb.MariaDbPlan(inst, read, parses, password, rootPassword).ops;
    var relabels := read.None? || Relabelled(read.value.labels, Tags(inst, "mariadb")) != read.value.labels;
    MariaDbOrder(inst, read, parses, password, rootPassword);
    var k := MariaDbPuts(inst, read, parses, password, rootPassword);
    MariaDbApart(inst, st, ops, relabels, parses);
    SecretLands(inst, read, password, rootPassword, st, ops, k, relabels, parses);
    RestLands(inst, inst.spec.mariadb.value, parses, st, ops, k, relabels);
  }

  function MariaDbTouched(inst: Instance, relabels: bool, parses: bool): seq<Ref> {
    (if relabels then [Own(inst, Secret, "mariadb")] else [])
    + [Own(inst, ServiceAccount, "mariadb")]
    + (if parses then [Own(inst, PersistentVolumeClaim, "mariadb"), Own(inst, Service, "mariadb"),
                       Own(inst, Deployment, "mariadb")] else [])
  }

  lemma MariaDbApart(inst: Instance, st: Store, ops: seq<Op>, relabels: bool, parses: bool)
    requires Touches(ops, MariaDbTouched(inst, relabels, parses))
    ensures Apart(ops)
    ensures forall r :: r !in MariaDbRefs(inst) ==> Unchanged(st, Exec(st, ops), r)
  {
    OwnKinds(inst);
    hide Own, Exec, Unchanged;
    forall r | r !in MariaDbRefs(inst) ensures Unchanged(st, Exec(st, ops), r) {
      Untouched(st, ops, r);
    }
  }

  lemma SecretLands(inst: Instance, read: Option<Object>, password: string, rootPassword: string, st: Store,
                    ops: seq<Op>, k: nat, relabels: bool, parses: bool)
    requires Apart(ops) && PutsSecret(inst, read, password, rootPassword, ops, k)
    requires relabels <==> read.None? || Relabelled(read.value.labels, Tags(inst, "mariadb")) != read.value.labels
    requires Touches(ops, MariaDbTouched(inst, relabels, parses))
    ensures Credentials(inst, read, password, rootPassword, st, Exec(st, ops))
  {
    OwnKinds(inst);
    hide Own, Exec, Unchanged, Relabelled, Tags;
    if relabels {
      OnlyWriter(st, ops, 0);
    } else {
      Untouched(st, ops, Own(inst, Secret, "mariadb"));
    }
  }

  lemma RestLands(inst: Instance, db: MariaDbSpec, parses: bool, st: Store, ops: seq<Op>, k: nat, relabels: bool)
    requires Apart(ops) && PutsRest(inst, db, parses, ops, k)
    requires Touches(ops, MariaDbTouched(inst, relabels, parses))
    ensures MariaDbRest(inst, db, parses, st, Exec(st, ops))
  {
    OwnKinds(inst);
    hide Own, Exec, Unchanged, Apart, Tags;
    var tags, name := Tags(inst, "mariadb"), inst.name + "-" + "mariadb";
    PutsLand(st, ops, k, Own(inst, ServiceAccount, "mariadb"), Object(tags, map[], None, Empty),
             Patch(None, None, Some(inst.name), None));
    if parses {
      hide Puts;
      PutsLand(st, ops, k + 1, Own(inst, PersistentVolumeClaim, "mariadb"),
               Object(map[], map[], None, ClaimSpec(db.storageSize)), Patch(Some(tags), None, Some(inst.name), None));
      PutsLand(st, ops, k + 2, Own(inst, Service, "mariadb"), BLANK,
               Patch(Some(tags), None, Some(inst.name), Some(ServiceSpec([3306], tags))));
      PutsLand(st, ops, k + 3, Own(inst, Deployment, "mariadb"), BLANK,
               Patch(Some(tags), None, Some(inst.name), Some(DeploymentSpec(db.image, name, name, None))));
    } else {
      Untouched(st, ops, Own(inst, PersistentVolumeClaim, "mariadb"));
      Untouched(st, ops, Own(inst, Service, "mariadb"));
      Untouched(st, ops, Own(inst, Deployment, "mariadb"));
    }
  }

  /** What is cleaned up when MariaDB is disabled, in this order. */
  lemma MariaDbIsRemoved(inst: Instance)
    ensures MariaDb.MariaDbRefs(inst) == [
      Own(inst, Deployment, "mariadb"), Own(inst, Service, "mariadb"), Own(inst, PersistentVolumeClaim, "mariadb"),
      Own(inst, Secret, "mariadb"), Own(inst, ServiceAccount, "mariadb")]
  {
  }

  // ----- Grafana --------------------------------------------------------

  function GrafanaOf(inst: Instance): Ref { Ref(Grafana, inst.namespace, inst.name) }

  /** A cluster-scoped object that is named after the instance and the part. */
  function Wide(inst: Instance, kind: Kind, part: string): Ref { Ref(kind, "", inst.name + "-" + part) }

  function Entry(o: Object, k: string): string {
    if o.body.SecretData? && k in o.body.data then o.body.data[k] else ""
  }

  /** SQLite unless MariaDB is enabled; else the database behind MariaDB's service, with
      the credentials that were read. */
  predicate DatabaseIs(inst: Instance, db: Option<Object>, database: map<string, string>) {
    inst.spec.mariadb.Some? &&
    if !inst.spec.mariadb.value.enabled then database == map["type" := "sqlite3"]
    else
      db.Some? &&
      database == map[
        "type" := "mysql",
        "url" := "mysql://" + Entry(db.value, "database-user") + ":" + Entry(db.value, "database-password") + "@"
                 + (inst.name + "-" + "mariadb") + ":3306/" + Entry(db.value, "database-name")]
  }

  predicate GrafanaIs(inst: Instance, routes: Dex.Routes, secret: string, database: map<string, string>, st: Store,
                      st': Store) {
    Has(st', GrafanaOf(inst),
        Object(Tags(inst, "grafana"), Was(st, GrafanaOf(inst)).annotations, Some(inst.name),
               GrafanaSpec(inst.spec.version, inst.spec.replicas, routes.grafanaHost, routes.grafanaUri, secret,
                           routes.dexUri, database)))
  }

  /** The role has these rules; cluster-scoped objects get no owner. */
  predicate RoleIs(inst: Instance, part: string, resources: seq<string>, verbs: seq<string>, st: Store, st': Store) {
    var r := Wide(inst, ClusterRole, part);
    Has(st', r, Object(Tags(inst, "grafana"), Was(st, r).annotations, Was(st, r).owner, RoleRules(resources, verbs)))
  }

  /** The binding gives the role to the instance's service account. */
  predicate BindingIs(inst: Instance, part: string, role: string, st: Store, st': Store) {
    var r := Wide(inst, ClusterRoleBinding, part);
    Has(st', r, Object(Tags(inst, "grafana"), Was(st, r).annotations, Was(st, r).owner,
                       RoleBinding(inst.name + "-" + "sa", inst.namespace, role)))
  }

  function LoggingName(role: GrafanaCr.LoggingRole): string {
    match role
    case Application => "cluster-logging-application-view"
    case Infrastructure => "cluster-logging-infrastructure-view"
    case Audit => "cluster-logging-audit-view"
  }

  /** The three roles that every pass binds, two of them its own. */
  predicate RolesAre(inst: Instance, st: Store, st': Store) {
    && RoleIs(inst, "auth-reviewer", ["subjectaccessreviews", "tokenreviews"], ["create"], st, st')
    && BindingIs(inst, "auth-reviewer", inst.name + "-" + "auth-reviewer", st, st')
    && RoleIs(inst, "tempostack-traces-reader", ["dev"], ["get"], st, st')
    && BindingIs(inst, "tempostack-traces-reader", inst.name + "-" + "tempostack-traces-reader", st, st')
    && BindingIs(inst, "cluster-monitoring-view", "cluster-monitoring-view", st, st')
  }

  /** The objects that a pass writes, in the order of the writes. */
  function GrafanaTouched(inst: Instance, found: seq<GrafanaCr.LoggingRole>): seq<Ref> {
    [GrafanaOf(inst), Wide(inst, ClusterRole, "auth-reviewer"), Wide(inst, ClusterRoleBinding, "auth-reviewer"),
     Wide(inst, ClusterRole, "tempostack-traces-reader"), Wide(inst, ClusterRoleBinding, "tempostack-traces-reader"),
     Wide(inst, ClusterRoleBinding, "cluster-monitoring-view")]
    + seq(|found|, i requires 0 <= i < |found| => Wide(inst, ClusterRoleBinding, LoggingName(found[i])))
  }

  predicate Distinct(found: seq<GrafanaCr.LoggingRole>) {
    forall i, j :: 0 <= i < j < |found| ==> found[i] != found[j]
  }

  lemma WideApart(inst: Instance)
    ensures Wide(inst, ClusterRoleBinding, "auth-reviewer") != Wide(inst, ClusterRoleBinding,
                                                                    "tempostack-traces-reader")
    ensures Wide(inst, ClusterRoleBinding, "auth-reviewer") != Wide(inst, ClusterRoleBinding, "cluster-monitoring-view")
    ensures Wide(inst, ClusterRoleBinding, "tempostack-traces-reader")
      != Wide(inst, ClusterRoleBinding, "cluster-monitoring-view")
    ensures Wide(inst, ClusterRole, "auth-reviewer") != Wide(inst, ClusterRole, "tempostack-traces-reader")
    ensures forall kind, part :: Wide(inst, kind, part).kind == kind
  {
    assert |"auth-reviewer"| == 13 && |"tempostack-traces-reader"| == 24 && |"cluster-monitoring-view"| == 23;
    assert forall kind, part :: |Wide(inst, kind, part).name| == |inst.name| + 1 + |part|;
  }

  lemma LoggingApart(inst: Instance, a: GrafanaCr.LoggingRole, b: GrafanaCr.LoggingRole)
    ensures a != b ==> Wide(inst, ClusterRoleBinding, LoggingName(a)) != Wide(inst, ClusterRoleBinding, LoggingName(b))
    ensures Wide(inst, ClusterRoleBinding, LoggingName(a)) !in {Wide(inst, ClusterRoleBinding, "auth-reviewer"),
      Wide(inst, ClusterRoleBinding, "tempostack-traces-reader"),
      Wide(inst, ClusterRoleBinding, "cluster-monitoring-view")}
  {
    assert |"auth-reviewer"| == 13 && |"tempostack-traces-reader"| == 24 && |"cluster-monitoring-view"| == 23;
    assert |LoggingName(GrafanaCr.Application)| == 32 && |LoggingName(GrafanaCr.Infrastructure)| == 35
      && |LoggingName(GrafanaCr.Audit)| == 26;
    assert |LoggingName(a)| > 24 && (a != b ==> |LoggingName(a)| != |LoggingName(b)|);
    hide LoggingName;
    assert forall part :: |Wide(inst, ClusterRoleBinding, part).name| == |inst.name| + 1 + |part|;
  }

  lemma GrafanaApart(inst: Instance, st: Store, ops: seq<Op>, found: seq<GrafanaCr.LoggingRole>)
    requires Distinct(found) && Touches(ops, GrafanaTouched(inst, found))
    ensures Apart(ops)
    ensures forall r :: r !in GrafanaTouched(inst, found) ==> Unchanged(st, Exec(st, ops), r)
  {
    hide Wide, LoggingName, Exec, Unchanged;
    var refs := GrafanaTouched(inst, found);
    WideApart(inst);
    forall i, j | 0 <= i < j < |refs| ensures refs[i] != refs[j] {
      if j >= 6 {
        LoggingApart(inst, found[j - 6], if i >= 6 then found[i - 6] else found[j - 6]);
      }
    }
    forall r | r !in refs ensures Unchanged(st, Exec(st, ops), r) {
      Untouched(st, ops, r);
    }
  }

  predicate PutsRoles(inst: Instance, ops: seq<Op>, found: seq<GrafanaCr.LoggingRole>) {
    && PutsRole(inst, ops, 1, "auth-reviewer", ["subjectaccessreviews", "tokenreviews"], ["create"])
    && PutsBinding(inst, ops, 2, "auth-reviewer", inst.name + "-" + "auth-reviewer")
    && PutsRole(inst, ops, 3, "tempostack-traces-reader", ["dev"], ["get"])
    && PutsBinding(inst, ops, 4, "tempostack-traces-reader", inst.name + "-" + "tempostack-traces-reader")
    && PutsBinding(inst, ops, 5, "cluster-monitoring-view", "cluster-monitoring-view")
    && forall i :: 0 <= i < |found| ==> PutsBinding(inst, ops, 6 + i, LoggingName(found[i]), LoggingName(found[i]))
  }

  predicate PutsRole(inst: Instance, ops: seq<Op>, i: nat, part: string, resources: seq<string>, verbs: seq<string>) {
    Puts(ops, i, Wide(inst, ClusterRole, part), BLANK,
         Patch(Some(Tags(inst, "grafana")), None, None, Some(RoleRules(resources, verbs))))
  }

  predicate PutsBinding(inst: Instance, ops: seq<Op>, i: nat, part: string, role: string) {
    Puts(ops, i, Wide(inst, ClusterRoleBinding, part), BLANK,
         Patch(Some(Tags(inst, "grafana")), None, None,
               Some(RoleBinding(inst.name + "-" + "sa", inst.namespace, role))))
  }

  predicate PutsGrafana(inst: Instance, routes: Dex.Routes, secret: string, database: map<string, string>,
                        ops: seq<Op>) {
    Puts(ops, 0, GrafanaOf(inst), BLANK,
         Patch(Some(Tags(inst, "grafana")), None, Some(inst.name),
               Some(GrafanaSpec(inst.spec.version, inst.spec.replicas, routes.grafanaHost, routes.grafanaUri, secret,
                                routes.dexUri, database))))
  }

  lemma GrafanaPuts(inst: Instance, routes: Dex.Routes, read: Option<Object>, db: Option<Object>,
                    found: seq<GrafanaCr.LoggingRole>, secret: string, database: map<string, string>)
    requires Carries(read, secret) && DatabaseIs(inst, db, database)
    ensures var plan := GrafanaCr.GrafanaPlan(inst, routes, read, db, found);
      && plan.end.Success? && Touches(plan.ops, GrafanaTouched(inst, found))
      && PutsGrafana(inst, routes, secret, database, plan.ops) && PutsRoles(inst, plan.ops, found)
  {
    DatabaseMatches(inst, db, database);
    hide GrafanaCr.DatabaseConfig, DatabaseIs;
  }

  lemma DatabaseMatches(inst: Instance, db: Option<Object>, database: map<string, string>)
    ensures DatabaseIs(inst, db, database) <==> GrafanaCr.DatabaseConfig(inst, db) == Ok(database)
  {
  }

  lemma RolesLand(inst: Instance, st: Store, ops: seq<Op>, found: seq<GrafanaCr.LoggingRole>)
    requires Apart(ops) && PutsRoles(inst, ops, found)
    ensures RolesAre(inst, st, Exec(st, ops))
    ensures forall role :: role in found ==> BindingIs(inst, LoggingName(role), LoggingName(role), st, Exec(st, ops))
  {
    hide Exec, Apart, Puts, PutsRole, PutsBinding, RoleIs, BindingIs, LoggingName;
    RoleLands(inst, st, ops, 1, "auth-reviewer", ["subjectaccessreviews", "tokenreviews"], ["create"]);
    BindingLands(inst, st, ops, 2, "auth-reviewer", inst.name + "-" + "auth-reviewer");
    RoleLands(inst, st, ops, 3, "tempostack-traces-reader", ["dev"], ["get"]);
    BindingLands(inst, st, ops, 4, "tempostack-traces-reader", inst.name + "-" + "tempostack-traces-reader");
    BindingLands(inst, st, ops, 5, "cluster-monitoring-view", "cluster-monitoring-view");
    forall role | role in found ensures BindingIs(inst, LoggingName(role), LoggingName(role), st, Exec(st, ops)) {
      var i :| 0 <= i < |found| && found[i] == role;
      BindingLands(inst, st, ops, 6 + i, LoggingName(role), LoggingName(role));
    }
  }

  lemma RoleLands(inst: Instance, st: Store, ops: seq<Op>, i: nat, part: string, resources: seq<string>,
                  verbs: seq<string>)
    requires Apart(ops) && PutsRole(inst, ops, i, part, resources, verbs)
    ensures RoleIs(inst, part, resources, verbs, st, Exec(st, ops))
  {
    hide Exec, Apart, Puts, Tags;
    PutsLand(st, ops, i, Wide(inst, ClusterRole, part), BLANK,
             Patch(Some(Tags(inst, "grafana")), None, None, Some(RoleRules(resources, verbs))));
  }

  lemma BindingLands(inst: Instance, st: Store, ops: seq<Op>, i: nat, part: string, role: string)
    requires Apart(ops) && PutsBinding(inst, ops, i, part, role)
    ensures BindingIs(inst, part, role, st, Exec(st, ops))
  {
    hide Exec, Apart, Puts, Tags;
    PutsLand(st, ops, i, Wide(inst, ClusterRoleBinding, part), BLANK,
             Patch(Some(Tags(inst, "grafana")), None, None,
                   Some(RoleBinding(inst.name + "-" + "sa", inst.namespace, role))));
  }

  lemma GrafanaLands(inst: Instance, routes: Dex.Routes, secret: string, database: map<string, string>, st: Store,
                     ops: seq<Op>)
    requires Apart(ops) && PutsGrafana(inst, routes, secret, database, ops)
    ensures GrafanaIs(inst, routes, secret, database, st, Exec(st, ops))
  {
    hide Exec, Apart, Puts, Tags;
    PutsLand(st, ops, 0, GrafanaOf(inst), BLANK,
             Patch(Some(Tags(inst, "grafana")), None, Some(inst.name),
                   Some(GrafanaSpec(inst.spec.version, inst.spec.replicas, routes.grafanaHost, routes.grafanaUri,
                                    secret, routes.dexUri, database))));
  }

  /** A pass that has the client secret and the database completes with Grafana, its roles,
      and a binding for each logging role that was found, and touches nothing else. */
  lemma GrafanaStores(inst: Instance, routes: Dex.Routes, read: Option<Object>, db: Option<Object>,
                      found: seq<GrafanaCr.LoggingRole>, secret: string, database: map<string, string>, st: Store)
    requires Carries(read, secret) && DatabaseIs(inst, db, database) && Distinct(found)
    ensures var plan := GrafanaCr.GrafanaPlan(inst, routes, read, db, found);
      var st' := Exec(st, plan.ops);
      && plan.end.Success? && Touches(plan.ops, GrafanaTouched(inst, found))
      && GrafanaIs(inst, routes, secret, database, st, st') && RolesAre(inst, st, st')
      && (forall role :: role in found ==> BindingIs(inst, LoggingName(role), LoggingName(role), st, st'))
      && (forall r :: r !in GrafanaTouched(inst, found) ==> Unchanged(st, st', r))
  {
    hide *;
    var ops := GrafanaCr.GrafanaPlan(inst, routes, read, db, found).ops;
    GrafanaPuts(inst, routes, read, db, found, secret, database);
    GrafanaApart(inst, st, ops, found);
    GrafanaLands(inst, routes, secret, database, st, ops);
    RolesLand(inst, st, ops, found);
  }

  /** The logging roles are looked up in this order. */
  lemma LookupOrder(answers: seq<GrafanaCr.Answer>)
    requires |answers| == 3
    ensures GrafanaCr.RoleLookups(answers) == [
      Got(Ref(ClusterRole, "", "cluster-logging-application-view"), answers[0]),
      Got(Ref(ClusterRole, "", "cluster-logging-infrastructure-view"), answers[1]),
      Got(Ref(ClusterRole, "", "cluster-logging-audit-view"), answers[2])]
  {
  }
}
