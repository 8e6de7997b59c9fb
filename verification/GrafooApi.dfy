/** The Grafana custom resource: the parts of its spec that the operator acts on. */
module GrafooApi {
  import opened Wrappers

  /** A datasource entry.  A payload pointer is an option on its URL. */
  datatype DataSource = DataSource(
    name: string,
    kind: string,
    enabled: bool,
    loki: Option<string>,
    tempo: Option<string>,
    prometheus: Option<string>)

  const PROMETHEUS := "prometheus-incluster"
  const LOKI := "loki-incluster"
  const TEMPO := "tempo-incluster"
  const MCOO := "prometheus-mcoo"

  datatype DexSpec = DexSpec(enabled: bool, image: string)

  datatype MariaDbSpec = MariaDbSpec(enabled: bool, storageSize: string, image: string)

  datatype Spec = Spec(
    version: string,
    replicas: Option<int>,
    tokenDuration: Option<int>, // nanoseconds
    dex: Option<DexSpec>,
    mariadb: Option<MariaDbSpec>,
    enableMcoo: bool,
    datasources: seq<DataSource>)

  datatype Instance = Instance(name: string, namespace: string, spec: Spec)

  /** The hex form of a SHA-256 digest. */
  type Hex = s: string | |s| == 64 witness seq(64, _ => '0')

  /** SHA-256, as an unknown function. */
  type Digest = string -> Hex

  const KEY_LENGTH := 6

  /** The short hash that names a stored datasource. */
  function DataSourceKey(digest: Digest, ds: DataSource): (key: string)
    ensures |key| == KEY_LENGTH
  {
    digest(ds.name)[..KEY_LENGTH]
  }
}
