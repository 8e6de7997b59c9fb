/** Admission: the defaulting and the validating webhook. */
module Webhook {
  import opened Wrappers
  import opened GrafooApi

  // Image and version strings are build-time constants of the repository.
  const GRAFANA_VERSION := "9.5.17"
  const GRAFANA_REPLICAS := 2
  const DEX_IMAGE := "docker.io/dexidp/dex:v2.39.1-distroless"
  const MARIADB_IMAGE := "registry.redhat.io/rhel9/mariadb-1011:1-12"
  const MARIADB_STORAGE_SIZE := "5Gi"

  const MCOO_ENTRY := DataSource("Prometheus (MCOO)", MCOO, true, None, None,
    Some("http://rbac-query-proxy.open-cluster-management-observability.svc.cluster.local:8080"))

  const LOKI_GATEWAY := "https://logging-loki-gateway-http.openshift-logging.svc.cluster.local:8080/api/logs/v1/"
  const TEMPO_GATEWAY := "https://tempo-tempo-gateway.openshift-tempo-operator.svc.cluster.local:8080/api/traces/v1/"

  const DEFAULT_DATASOURCES: seq<DataSource> := [
    DataSource("Prometheus", PROMETHEUS, true, None, None,
               Some("https://thanos-querier.openshift-monitoring.svc.cluster.local:9091")),
    DataSource("Loki (Application)", LOKI, true, Some(LOKI_GATEWAY + "application/"), None, None),
    DataSource("Loki (Infrastructure)", LOKI, true, Some(LOKI_GATEWAY + "infrastructure/"), None, None),
    DataSource("Loki (Audit)", LOKI, true, Some(LOKI_GATEWAY + "audit/"), None, None),
    DataSource("Tempo (Dev)", TEMPO, true, None, Some(TEMPO_GATEWAY + "dev/tempo"), None),
    DataSource("Tempo (Prod)", TEMPO, true, None, Some(TEMPO_GATEWAY + "prod/tempo"), None)
  ]

  // ----- defaulting -----------------------------------------------------

  function BaseDataSources(spec: Spec): seq<DataSource> {
    if spec.datasources == [] then DEFAULT_DATASOURCES else spec.datasources
  }

  function Defaulted(spec: Spec): Spec {
    spec.(version := if spec.version == "" then GRAFANA_VERSION else spec.version,
          dex := if spec.dex.None? then Some(DexSpec(true, DEX_IMAGE)) else spec.dex,
          mariadb := if spec.mariadb.None? then Some(MariaDbSpec(true, MARIADB_STORAGE_SIZE, MARIADB_IMAGE))
            else spec.mariadb,
          replicas := if spec.replicas.None? then Some(GRAFANA_REPLICAS) else spec.replicas,
          datasources := BaseDataSources(spec) + if spec.enableMcoo then [MCOO_ENTRY] else [])
  }

  /** The resource that the defaulter updates in place. */
  class Resource {
    var spec: Spec

    constructor (spec: Spec)
      ensures this.spec == spec
    {
      this.spec := spec;
    }

    method Default()
      modifies this
      ensures spec == Defaulted(old(spec))
    {
      if spec.version == "" {
        spec := spec.(version := GRAFANA_VERSION);
      }
      if spec.dex.None? {
        spec := spec.(dex := Some(DexSpec(true, DEX_IMAGE)));
      }
      if spec.mariadb.None? {
        spec := spec.(mariadb := Some(MariaDbSpec(true, MARIADB_STORAGE_SIZE, MARIADB_IMAGE)));
      }
      if spec.replicas.None? {
        spec := spec.(replicas := Some(GRAFANA_REPLICAS));
      }
      if |spec.datasources| == 0 {
        spec := spec.(datasources := DEFAULT_DATASOURCES);
      }
      if spec.enableMcoo {
        spec := spec.(datasources := spec.datasources + [MCOO_ENTRY]);
      }
    }

    /** Validates the receiver; the object handed in is not looked at. */
    method ValidateCreate(obj: Resource) returns (r: Option<Rejection>)
      ensures r.None? <==> Accepted(spec.datasources)
    {
      r := ValidateDataSources(spec.datasources);
    }
  }

  function DefaultedTimes(n: nat, spec: Spec): Spec {
    if n == 0 then spec else Defaulted(DefaultedTimes(n - 1, spec))
  }

  function Copies(n: nat): (r: seq<DataSource>)
    ensures |r| == n && forall i :: 0 <= i < n ==> r[i] == MCOO_ENTRY
  {
    seq(n, _ => MCOO_ENTRY)
  }

  /** Defaulting n times adds one copy of the MCOO entry per application, and
      settles after the first application otherwise. */
  lemma {:induction false} RepeatedDefaulting(n: nat, spec: Spec)
    requires n >= 1
    ensures DefaultedTimes(n, spec) ==
      Defaulted(spec).(datasources := BaseDataSources(spec) + if spec.enableMcoo then Copies(n) else [])
  {
    if n == 1 {
      assert DefaultedTimes(1, spec) == Defaulted(DefaultedTimes(0, spec));
      assert Copies(1) == [MCOO_ENTRY];
    } else {
      RepeatedDefaulting(n - 1, spec);
      var base := BaseDataSources(spec);
      assert Copies(n) == Copies(n - 1) + [MCOO_ENTRY];
      assert base + (Copies(n - 1) + [MCOO_ENTRY]) == (base + Copies(n - 1)) + [MCOO_ENTRY];
      assert base + [] == base;
    }
  }

  /** Defaulting is idempotent exactly for the specs without MCOO. */
  lemma DefaultIdempotentIff(spec: Spec)
    ensures Defaulted(Defaulted(spec)) == Defaulted(spec) <==> !spec.enableMcoo
  {
    var once := Defaulted(spec);
    assert |Defaulted(once).datasources| == |once.datasources| + if spec.enableMcoo then 1 else 0;
    assert once.datasources + [] == once.datasources;
  }

  /** What a spec sets stays as it is. */
  lemma SetFieldsStay(spec: Spec)
    ensures var s := Defaulted(spec);
      && (spec.version != "" ==> s.version == spec.version)
      && (spec.replicas.Some? ==> s.replicas == spec.replicas)
      && s.tokenDuration == spec.tokenDuration && s.enableMcoo == spec.enableMcoo
      && (spec.dex.Some? ==> s.dex == spec.dex) && (spec.mariadb.Some? ==> s.mariadb == spec.mariadb)
      && spec.datasources <= s.datasources
      && (spec.datasources != [] && !spec.enableMcoo ==> s.datasources == spec.datasources)
  {
  }

  /** What it leaves out is filled in, with Dex and MariaDB enabled. */
  lemma MissingFieldsAreFilled(spec: Spec)
    ensures var s := Defaulted(spec);
      && (spec.version == "" ==> s.version == "9.5.17")
      && (spec.replicas.None? ==> s.replicas == Some(2))
      && (spec.dex.None? ==> s.dex == Some(DexSpec(true, "docker.io/dexidp/dex:v2.39.1-distroless")))
      && (spec.mariadb.None? ==>
            s.mariadb == Some(MariaDbSpec(true, "5Gi", "registry.redhat.io/rhel9/mariadb-1011:1-12")))
      && (spec.datasources == [] ==>
            && |s.datasources| >= 6
            && s.datasources[0] == DataSource("Prometheus", "prometheus-incluster", true, None, None,
                 Some("https://thanos-querier.openshift-monitoring.svc.cluster.local:9091"))
            && s.datasources[1] == LokiEntry("Loki (Application)", "application/")
            && s.datasources[2] == LokiEntry("Loki (Infrastructure)", "infrastructure/")
            && s.datasources[3] == LokiEntry("Loki (Audit)", "audit/")
            && s.datasources[4] == TempoEntry("Tempo (Dev)", "dev/tempo")
            && s.datasources[5] == TempoEntry("Tempo (Prod)", "prod/tempo"))
      && (spec.enableMcoo ==>
            s.datasources[|s.datasources| - 1] == DataSource("Prometheus (MCOO)", "prometheus-mcoo", true, None, None,
                Some("http://rbac-query-proxy.open-cluster-management-observability.svc.cluster.local:8080")))
      && |s.datasources| == (if spec.datasources == [] then 6 else |spec.datasources|) +
        (if spec.enableMcoo then 1 else 0)
  {
  }

  function LokiEntry(name: string, path: string): DataSource {
    DataSource(name, "loki-incluster", true,
      Some("https://logging-loki-gateway-http.openshift-logging.svc.cluster.local:8080/api/logs/v1/" + path), None,
      None)
  }

  function TempoEntry(name: string, path: string): DataSource {
    DataSource(name, "tempo-incluster", true, None,
      Some("https://tempo-tempo-gateway.openshift-tempo-operator.svc.cluster.local:8080/api/traces/v1/" + path), None)
  }

  // ----- validation -----------------------------------------------------

  predicate ValidKind(ds: DataSource) { ds.kind in {PROMETHEUS, LOKI, TEMPO} }

  predicate HasUrl(payload: Option<string>) { payload.Some? && payload.value != "" }

  /** Only the payload of the entry's own type is present, with a URL. */
  predicate ValidEntry(ds: DataSource) {
    && ValidKind(ds)
    && (if ds.kind == PROMETHEUS then HasUrl(ds.prometheus) else ds.prometheus.None?)
    && (if ds.kind == LOKI then HasUrl(ds.loki) else ds.loki.None?)
    && (if ds.kind == TEMPO then HasUrl(ds.tempo) else ds.tempo.None?)
  }

  predicate Accepted(entries: seq<DataSource>) {
    forall i :: 0 <= i < |entries| ==> ValidEntry(entries[i])
  }

  /** The shapes of a valid entry: one type, its payload with a URL, nothing else. */
  lemma ValidEntryIff(ds: DataSource)
    ensures ValidEntry(ds) <==> exists url :: url != "" && ds in {
      DataSource(ds.name, "prometheus-incluster", ds.enabled, None, None, Some(url)),
      DataSource(ds.name, "loki-incluster", ds.enabled, Some(url), None, None),
      DataSource(ds.name, "tempo-incluster", ds.enabled, None, Some(url), None)}
  {
    if ValidEntry(ds) {
      var url := if ds.prometheus.Some? then ds.prometheus.value else if ds.loki.Some? then ds.loki.value
        else ds.tempo.value;
      assert url != "";
    }
  }

  datatype Fault = BadType | Missing(payload: string) | MissingUrl(payload: string) | NotAllowed(payload: string)

  datatype Rejection = Rejection(index: nat, fault: Fault)

  /** Does the fault describe the entry? */
  predicate Describes(fault: Fault, ds: DataSource) {
    match fault
    case BadType => !ValidKind(ds)
    case Missing(p) => ds.kind == p && Payload(ds, p).None?
    case MissingUrl(p) => ds.kind == p && Payload(ds, p) == Some("")
    case NotAllowed(p) =>
      // The own payload comes first, the others in the order Prometheus, Loki, Tempo.
      && ValidKind(ds) && ds.kind != p && Payload(ds, p).Some? && HasUrl(Payload(ds, ds.kind))
      && (p in {LOKI, TEMPO} && ds.kind != PROMETHEUS ==> ds.prometheus.None?)
      && (p == TEMPO && ds.kind != LOKI ==> ds.loki.None?)
  }

  function Payload(ds: DataSource, kind: string): Option<string> {
    if kind == PROMETHEUS then ds.prometheus
    else if kind == LOKI then ds.loki
    else if kind == TEMPO then ds.tempo
    else None
  }

  /** The checks on one entry: own payload, own URL, then the two foreign payloads in order. */
  method CheckPayload(ds: DataSource, own: string, other1: string, other2: string) returns (fault: Option<Fault>)
    requires ds.kind == own && {own, other1, other2} == {PROMETHEUS, LOKI, TEMPO}
    requires own != other1 && other1 != other2 && own != other2
    requires other2 != PROMETHEUS && other1 != TEMPO
    ensures fault.None? <==> ValidEntry(ds)
    ensures fault.Some? ==> Describes(fault.value, ds) && !fault.value.BadType?
  {
    assert own in {PROMETHEUS, LOKI, TEMPO} && other1 in {PROMETHEUS, LOKI, TEMPO}
      && other2 in {PROMETHEUS, LOKI, TEMPO};
    if Payload(ds, own).None? {
      return Some(Missing(own));
    }
    if Payload(ds, own).value == "" {
      return Some(MissingUrl(own));
    }
    if Payload(ds, other1).Some? {
      return Some(NotAllowed(other1));
    }
    if Payload(ds, other2).Some? {
      return Some(NotAllowed(other2));
    }
    return None;
  }

  /** Accepts exactly the lists of valid entries.  A list is refused for its first
      entry of a foreign type if it has one, else for its first faulty entry. */
  method ValidateDataSources(entries: seq<DataSource>) returns (r: Option<Rejection>)
    ensures r.None? <==> Accepted(entries)
    ensures r.Some? ==>
      && r.value.index < |entries|
      && Describes(r.value.fault, entries[r.value.index])
      && (r.value.fault.BadType? <==> exists i :: 0 <= i < |entries| && !ValidKind(entries[i]))
      && (forall j :: 0 <= j < r.value.index ==>
            if r.value.fault.BadType? then ValidKind(entries[j]) else ValidEntry(entries[j]))
  {
    for i := 0 to |entries|
      invariant forall j :: 0 <= j < i ==> ValidKind(entries[j])
    {
      if entries[i].kind != PROMETHEUS && entries[i].kind != LOKI && entries[i].kind != TEMPO {
        return Some(Rejection(i, BadType));
      }
    }
    for i := 0 to |entries|
      invariant forall j :: 0 <= j < i ==> ValidEntry(entries[j])
    {
      var ds := entries[i];
      assert ValidKind(ds);
      var fault: Option<Fault> := None;
      if ds.kind == PROMETHEUS {
        fault := CheckPayload(ds, PROMETHEUS, LOKI, TEMPO);
      }
      if ds.kind == LOKI {
        fault := CheckPayload(ds, LOKI, PROMETHEUS, TEMPO);
      }
      if ds.kind == TEMPO {
        fault := CheckPayload(ds, TEMPO, PROMETHEUS, LOKI);
      }
      if fault.Some? {
        return Some(Rejection(i, fault.value));
      }
    }
    return None;
  }

  // ----- the two webhooks together --------------------------------------

  lemma DefaultsAreAccepted()
    ensures Accepted(DEFAULT_DATASOURCES)
  {
    assert |LOKI_GATEWAY + "application/"| > 0;
  }

  /** A defaulted spec is valid exactly when it does not ask for MCOO and listed no
      datasources or only valid ones: the validator rejects what the defaulter adds. */
  lemma ValidAfterDefaultIff(spec: Spec)
    ensures Accepted(Defaulted(spec).datasources) <==>
      !spec.enableMcoo && (spec.datasources == [] || Accepted(spec.datasources))
  {
    DefaultsAreAccepted();
    var ds := Defaulted(spec).datasources;
    if spec.enableMcoo {
      assert ds[|ds| - 1] == MCOO_ENTRY && !ValidKind(MCOO_ENTRY);
    } else {
      assert ds == BaseDataSources(spec);
    }
  }

  /** A resource with nothing set, as it is registered with both webhooks. */
  const NOTHING_SET := Spec("", None, None, None, None, false, [])

  /** What the API server runs on a new object.  The validator that is registered is
      an empty resource, and it looks at itself, so whatever the object holds, it is
      admitted with its defaults. */
  method Admit(obj: Resource) returns (admitted: bool)
    modifies obj
    ensures admitted && obj.spec == Defaulted(old(obj.spec))
  {
    obj.Default();
    var validator := new Resource(NOTHING_SET);
    var rejection := validator.ValidateCreate(obj);
    return rejection.None?;
  }
}
