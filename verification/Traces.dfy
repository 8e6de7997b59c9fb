/** Runs of the operator as traces of landed operations.  Each operation comes from
    the plan of some pass; the passes may be cut off, repeated, interleaved and
    planned from stale reads. */
module Traces {
  import opened Wrappers
  import opened GrafooApi
  import opened Cluster
  import opened Naming
  import DataSources
  import Convergence
  import Dex
  import MariaDb
  import GrafanaCr

  /** One part of a pass, with everything it read and was given. */
  datatype Work =
    | DexWork(inst: Instance, routes: Dex.Routes, sha: Dex.ConfigDigest, read: Option<Object>,
              refresh: Option<string>, uuid: string)
    | MariaDbWork(inst: Instance, read: Option<Object>, parses: bool, password: string, rootPassword: string)
    | GrafanaWork(inst: Instance, routes: Dex.Routes, read: Option<Object>, db: Option<Object>,
                  found: seq<GrafanaCr.LoggingRole>)
    | DatasourceWork(inst: Instance, digest: Digest, token: string, view: Store, order: seq<Ref>)
    | DexTeardown(inst: Instance)
    | MariaDbTeardown(inst: Instance)

  predicate WellFormed(w: Work) {
    && (w.MariaDbWork? ==> w.inst.spec.mariadb.Some?)
    && (w.DatasourceWork? ==> DataSources.Enumerates(w.order, DataSources.Listed(w.view, w.inst)))
  }

  predicate Teardown(w: Work) { w.DexTeardown? || w.MariaDbTeardown? }

  /** The operations that the work may issue. */
  function WorkOps(w: Work): seq<Op>
    requires WellFormed(w)
  {
    match w
    case DexWork(inst, routes, sha, read, refresh, uuid) => Dex.DexPlan(inst, routes, sha, read, refresh, uuid).ops
    case MariaDbWork(inst, read, parses, p, rp) => MariaDb.MariaDbPlan(inst, read, parses, p, rp).ops
    case GrafanaWork(inst, routes, secret, db, found) => GrafanaCr.GrafanaPlan(inst, routes, secret, db, found).ops
    case DatasourceWork(inst, d, token, view, order) => DataSources.PassPlan(d, inst, token, view, order).ops
    case DexTeardown(inst) => Deletes(Dex.DexRefs(inst))
    case MariaDbTeardown(inst) => Deletes(MariaDb.MariaDbRefs(inst))
  }

  /** Each landed operation was issued by its work. */
  ghost predicate OperatorTrace(states: seq<Store>, log: seq<Op>, works: seq<Work>) {
    && IsTrace(states, log) && |works| == |log|
    && forall i :: 0 <= i < |works| ==> WellFormed(works[i]) && log[i] in WorkOps(works[i])
  }

  /** What the work read of datasources and of the client secret is from the past. */
  ghost predicate Grounded(w: Work, past: seq<Store>) {
    && (w.DatasourceWork? ==> w.view in past)
    && (w.DexWork? || w.GrafanaWork? ==> GrafanaCr.Seen(past, Dex.ClientSecretRef(w.inst), w.read))
  }

  ghost predicate AllGrounded(states: seq<Store>, works: seq<Work>) {
    forall i :: 0 <= i < |works| && i < |states| ==> Grounded(works[i], states[..i + 1])
  }

  /** The operation writes a datasource for the entry, with its own name and labels. */
  predicate WritesEntry(d: Digest, inst: Instance, op: Op, ds: DataSource) {
    && op.Upsert? && op.ref == DataSources.StoredRef(d, inst, ds)
    && op.patch.labels == Some(LabelsFor(inst, DataSources.GrafanaType(ds)))
    && op.patch.body.Some? && op.patch.body.value.Datasource?
  }

  /** Datasource passes write entries and delete what they listed. */
  lemma DatasourceOpKinds(w: Work, op: Op)
    requires w.DatasourceWork? && WellFormed(w) && op in WorkOps(w)
    ensures op.ref.kind == GrafanaDatasource
    ensures op.Upsert? ==> exists ds :: WritesEntry(w.digest, w.inst, op, ds)
    ensures op.Upsert? || (op.Delete? && DataSources.IsListed(w.view, w.inst, op.ref))
  {
    hide DataSources.UpsertPlan, DataSources.Deletions, DataSources.Written, DataSources.Enumerates,
      DataSources.IsListed, WritesEntry;
    var up := DataSources.UpsertPlan(w.digest, w.inst, w.inst.spec.datasources, w.token, w.view);
    var k :| 0 <= k < |WorkOps(w)| && WorkOps(w)[k] == op;
    if k < |up.ops| {
      UpsertOrigin(w.digest, w.inst, w.inst.spec.datasources, w.token, w.view, k);
    } else {
      DeletionOrigin(w.inst, w.view, w.order, DataSources.Written(up.ops), k - |up.ops|);
    }
  }

  lemma DeletionOrigin(inst: Instance, view: Store, order: seq<Ref>, kept: set<Ref>, k: nat)
    requires DataSources.Enumerates(order, DataSources.Listed(view, inst)) && k < |DataSources.Deletions(order, kept)|
    ensures var op := DataSources.Deletions(order, kept)[k]; op.Delete? && DataSources.IsListed(view, inst, op.ref)
    ensures DataSources.Deletions(order, kept)[k].ref.kind == GrafanaDatasource
  {
    Convergence.DeletionsNameTheRest(order, kept);
    assert DataSources.Deletions(order, kept)[k].ref in DataSources.Listed(view, inst);
  }

  lemma {:induction false} UpsertOrigin(d: Digest, inst: Instance, entries: seq<DataSource>, token: string,
                                        view: Store, k: nat)
    requires k < |DataSources.UpsertPlan(d, inst, entries, token, view).ops|
    ensures var op := DataSources.UpsertPlan(d, inst, entries, token, view).ops[k];
      op.Upsert? && op.ref.kind == GrafanaDatasource && exists ds :: WritesEntry(d, inst, op, ds)
  {
    hide WritesEntry, DataSources.StepFor, DataSources.Recover;
    var step := DataSources.StepFor(d, inst, entries[0], token, view);
    if step.Write? && k == 0 {
      StepWrites(d, inst, entries[0], token, view);
    } else {
      UpsertOrigin(d, inst, entries[1..], step.token, view, if step.Write? then k - 1 else k);
    }
  }

  lemma StepWrites(d: Digest, inst: Instance, ds: DataSource, token: string, view: Store)
    ensures var step := DataSources.StepFor(d, inst, ds, token, view);
      step.Write? ==> step.op.ref.kind == GrafanaDatasource && WritesEntry(d, inst, step.op, ds)
  {
  }
}
