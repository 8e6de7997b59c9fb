/** What a pass of the datasource reconciler leaves in the cluster, spelled out: under
    which names the entries of a spec are stored, and what each object says. */
module StoredDatasources {
  import opened Wrappers
  import opened GrafooApi
  import opened Cluster
  import SecureJson
  import opened DataSources
  import opened Convergence
  import opened Webhook

  predicate KnownType(ds: DataSource) {
    ds.kind in {"prometheus-incluster", "loki-incluster", "tempo-incluster", "prometheus-mcoo"}
  }

  /** The name of an entry's object: the instance's, a dash, and six digits of the entry's name's digest. */
  function ObjectName(d: Digest, inst: Instance, name: string): string { inst.name + "-" + d(name)[..6] }

  /** A datasource of the namespace that is labelled with the instance. */
  predicate BelongsTo(st: Store, inst: Instance, name: string) {
    var r := Ref(GrafanaDatasource, inst.namespace, name);
    r in st && "app.kubernetes.io/instance" in st[r].labels && st[r].labels["app.kubernetes.io/instance"] == inst.name
  }

  /** The datasource that Grafana gets for the entry: its type, its URL, whether it is the
      default, and the header with the token. */
  predicate Shows(spec: DatasourceSpec, inst: Instance, ds: DataSource, token: string) {
    && spec.name == ds.name && spec.access == "proxy"
    && spec.jsonData == "{\"httpHeaderName1\": \"Authorization\", \"tlsSkipVerify\": true}"
    && spec.instanceSelector == map["app.kubernetes.io/name" := "grafana", "app.kubernetes.io/instance" := inst.name,
                                    "app.kubernetes.io/component" := "grafana"]
    && (spec.isDefault <==> ds.kind == "prometheus-incluster")
    && (ds.kind == "loki-incluster" ==> spec.kind == "loki" && ds.loki == Some(spec.url))
    && (ds.kind == "tempo-incluster" ==> spec.kind == "tempo" && ds.tempo == Some(spec.url))
    && (ds.kind in {"prometheus-incluster", "prometheus-mcoo"} ==>
          spec.kind == "prometheus" && ds.prometheus == Some(spec.url))
    && spec.secureJsonData == (if ds.kind == "prometheus-mcoo" then "{\"httpHeaderValue1\": \"" + token + "\"}"
                               else "{\"httpHeaderValue1\": \"Bearer " + token + "\"}")
  }

  predicate StoredAs(o: Object, inst: Instance, ds: DataSource, token: string) {
    && o.body.Datasource? && Shows(o.body.spec, inst, ds, token) && o.owner == Some(inst.name)
    && o.labels == map["app.kubernetes.io/name" := "grafana", "app.kubernetes.io/instance" := inst.name,
                       "app.kubernetes.io/component" := o.body.spec.kind]
  }

  lemma SecureText(ds: DataSource, token: string)
    ensures SecureData(ds, token) ==
      if ds.kind == "prometheus-mcoo" then "{\"httpHeaderValue1\": \"" + token + "\"}"
      else "{\"httpHeaderValue1\": \"Bearer " + token + "\"}"
  {
    var key := "{\"" + SecureJson.HEADER_KEY + "\": \"";
    assert key == "{\"httpHeaderValue1\": \"";
    assert key + (SecureJson.BEARER + token) == "{\"httpHeaderValue1\": \"Bearer " + token;
  }

  lemma RendersIff(o: Object, inst: Instance, ds: DataSource, token: string)
    requires KnownType(ds)
    ensures Renders(o, inst, ds, token) <==> StoredAs(o, inst, ds, token)
  {
    hide SecureData;
    SecureText(ds, token);
  }

  lemma StoredUnder(d: Digest, inst: Instance, ds: DataSource)
    ensures StoredRef(d, inst, ds) == Ref(GrafanaDatasource, inst.namespace, ObjectName(d, inst, ds.name))
    ensures Known(ds) <==> KnownType(ds)
  {
  }

  lemma BelongsIff(st: Store, inst: Instance, name: string)
    ensures BelongsTo(st, inst, name) <==> IsListed(st, inst, Ref(GrafanaDatasource, inst.namespace, name))
  {
  }

  /** After a pass that completes undisturbed, whatever was there before, the instance's
      datasources are named exactly after the names of the entries of known types. */
  lemma NamesIff(d: Digest, inst: Instance, token: string, st: Store, order: seq<Ref>, name: string)
    requires Enumerates(order, Listed(st, inst)) && PassPlan(d, inst, token, st, order).end.Success?
    ensures BelongsTo(Exec(st, PassPlan(d, inst, token, st, order).ops), inst, name) <==>
      exists ds :: ds in inst.spec.datasources && KnownType(ds) && name == ObjectName(d, inst, ds.name)
  {
    hide Exec, PassPlan, Enumerates, Listed, IsListed, BelongsTo, StoredRef, ObjectName, KnownType, Known, Renders;
    var entries, st' := inst.spec.datasources, Exec(st, PassPlan(d, inst, token, st, order).ops);
    var r := Ref(GrafanaDatasource, inst.namespace, name);
    BelongsIff(st', inst, name);
    ExactConvergence(d, inst, token, st, order);
    if Names(d, inst, entries, r) {
      var i :| 0 <= i < |entries| && Known(entries[i]) && StoredRef(d, inst, entries[i]) == r;
      StoredUnder(d, inst, entries[i]);
      assert entries[i] in entries;
    }
    forall ds | ds in entries && KnownType(ds) && name == ObjectName(d, inst, ds.name)
      ensures Names(d, inst, entries, r) {
      StoredUnder(d, inst, ds);
    }
  }

  /** Different names have different keys. */
  predicate KeysApart(d: Digest, entries: seq<DataSource>) {
    forall i, j :: 0 <= i < |entries| && 0 <= j < |entries| && entries[i].name != entries[j].name ==>
      d(entries[i].name)[..6] != d(entries[j].name)[..6]
  }

  /** No later entry of a known type has the same name. */
  predicate LastOfItsName(entries: seq<DataSource>, i: nat)
    requires i < |entries|
  {
    KnownType(entries[i]) && forall j :: i < j < |entries| && KnownType(entries[j]) ==>
      entries[j].name != entries[i].name
  }

  /** Then every entry whose name no later one repeats is stored under its own name, with
      everything that it says and the token that the pass has for it. */
  lemma EveryNameIsStored(d: Digest, inst: Instance, token: string, st: Store, order: seq<Ref>, i: nat)
    requires Enumerates(order, Listed(st, inst)) && PassPlan(d, inst, token, st, order).end.Success?
    requires KeysApart(d, inst.spec.datasources)
    requires i < |inst.spec.datasources| && LastOfItsName(inst.spec.datasources, i)
    ensures var st', ds := Exec(st, PassPlan(d, inst, token, st, order).ops), inst.spec.datasources[i];
      var r := Ref(GrafanaDatasource, inst.namespace, ObjectName(d, inst, ds.name));
      && r in st' && StoredAs(st'[r], inst, ds, TokenFor(d, inst, inst.spec.datasources, i, token, st))
      && (token != "" ==> StoredAs(st'[r], inst, ds, token))
  {
    hide Exec, PassPlan, Enumerates, Listed, StoredAs, Renders, FirstStored;
    var entries := inst.spec.datasources;
    ExactConvergence(d, inst, token, st, order);
    forall j | 0 <= j < |entries| ensures Known(entries[j]) <==> KnownType(entries[j]) {
      StoredUnder(d, inst, entries[j]);
    }
    KeyOrder(d, inst, i);
    StoredUnder(d, inst, entries[i]);
    var st' := Exec(st, PassPlan(d, inst, token, st, order).ops);
    RendersIff(st'[StoredRef(d, inst, entries[i])], inst, entries[i], TokenFor(d, inst, entries, i, token, st));
  }

  lemma KeyOrder(d: Digest, inst: Instance, i: nat)
    requires KeysApart(d, inst.spec.datasources)
    requires i < |inst.spec.datasources| && LastOfItsName(inst.spec.datasources, i)
    ensures IsLast(d, inst, inst.spec.datasources, i)
  {
    var entries := inst.spec.datasources;
    forall j | i < j < |entries| && Known(entries[j])
      ensures StoredRef(d, inst, entries[j]) != StoredRef(d, inst, entries[i])
    {
      NamesDiffer(d, inst, entries[i].name, entries[j].name);
      StoredUnder(d, inst, entries[i]);
      StoredUnder(d, inst, entries[j]);
    }
  }

  /** Different keys make different object names. */
  lemma NamesDiffer(d: Digest, inst: Instance, a: string, b: string)
    requires d(a)[..6] != d(b)[..6]
    ensures ObjectName(d, inst, a) != ObjectName(d, inst, b)
  {
    var start := inst.name + "-";
    assert ObjectName(d, inst, a)[|start|..] == d(a)[..6] && ObjectName(d, inst, b)[|start|..] == d(b)[..6];
  }

  /** The default datasources are stored in six objects of their own. */
  lemma SixDefaults(d: Digest, inst: Instance, spec: Spec, token: string, st: Store, order: seq<Ref>, i: nat, j: nat)
    requires spec.datasources == [] && !spec.enableMcoo && inst.spec == Defaulted(spec)
    requires KeysApart(d, inst.spec.datasources) && token != ""
    requires Enumerates(order, Listed(st, inst))
    requires i < j < 6
    ensures |inst.spec.datasources| == 6 && PassPlan(d, inst, token, st, order).end.Success?
    ensures var st', a, b := Exec(st, PassPlan(d, inst, token, st, order).ops), inst.spec.datasources[i],
      inst.spec.datasources[j];
      var r, r' := Ref(GrafanaDatasource, inst.namespace, ObjectName(d, inst, a.name)),
                   Ref(GrafanaDatasource, inst.namespace, ObjectName(d, inst, b.name));
      r != r' && r in st' && r' in st' && StoredAs(st'[r], inst, a, token) && StoredAs(st'[r'], inst, b, token)
  {
    hide *;
    DefaultNames(spec, i, j);
    DefaultsComplete(d, inst, token, st, order);
    EveryNameIsStored(d, inst, token, st, order, i);
    EveryNameIsStored(d, inst, token, st, order, j);
    ApartAt(d, inst.spec.datasources, i, j);
    NamesDiffer(d, inst, inst.spec.datasources[i].name, inst.spec.datasources[j].name);
  }

  lemma ApartAt(d: Digest, entries: seq<DataSource>, i: nat, j: nat)
    requires KeysApart(d, entries) && i < j < |entries| && entries[i].name != entries[j].name
    ensures d(entries[i].name)[..6] != d(entries[j].name)[..6]
  {
  }

  lemma DefaultNames(spec: Spec, i: nat, j: nat)
    requires spec.datasources == [] && !spec.enableMcoo && i < j < 6
    ensures var entries := Defaulted(spec).datasources;
      && entries == DEFAULT_DATASOURCES && |entries| == 6 && entries[i].name != entries[j].name
      && LastOfItsName(entries, i) && LastOfItsName(entries, j)
  {
    hide LOKI_GATEWAY, TEMPO_GATEWAY;
    var entries := Defaulted(spec).datasources;
    assert entries == DEFAULT_DATASOURCES;
    assert |"Prometheus"| == 10 && |"Loki (Application)"| == 18 && |"Loki (Infrastructure)"| == 21
      && |"Loki (Audit)"| == 12 && |"Tempo (Dev)"| == 11 && "Tempo (Prod)"[0] != "Loki (Audit)"[0];
    assert |"Tempo (Prod)"| == 12;
  }

  lemma DefaultsComplete(d: Digest, inst: Instance, token: string, st: Store, order: seq<Ref>)
    requires inst.spec.datasources == DEFAULT_DATASOURCES && token != ""
    ensures PassPlan(d, inst, token, st, order).end.Success?
  {
    PlanCompletesIff(d, inst, inst.spec.datasources, token, st);
  }
}
