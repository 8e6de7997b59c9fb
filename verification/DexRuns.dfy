/** What passes of the Dex reconciler, cut off anywhere, do to the configuration and
    the deployment that must run on it. */
module DexRuns {
  import opened Wrappers
  import opened GrafooApi
  import opened Cluster
  import opened Naming
  import opened Dex

  datatype Inputs = Inputs(routes: Routes, read: Option<Object>, refresh: Option<string>, uuid: string, landed: nat)

  function PlanOf(inst: Instance, sha: ConfigDigest, p: Inputs): Plan {
    DexPlan(inst, p.routes, sha, p.read, p.refresh, p.uuid)
  }

  /** The store after the first `landed` operations of the pass. */
  function AfterPass(inst: Instance, sha: ConfigDigest, st: Store, p: Inputs): Store {
    var ops := PlanOf(inst, sha, p).ops;
    Exec(st, if p.landed <= |ops| then ops[..p.landed] else ops)
  }

  /** The pass gets as far as asking for a token and building a configuration. */
  predicate Configures(p: Inputs) { p.refresh.Some? && ClientSecretValue(p.read).Ok? }

  function NewConfig(inst: Instance, p: Inputs): DexConfig
    requires Configures(p)
  {
    ConfigFor(inst, p.routes, p.refresh.value, ClientSecretValue(p.read).value)
  }

  predicate RunsOn(o: Object, checksum: string) {
    o.body.DeploymentSpec? && o.body.checksum == Some(checksum)
  }

  /** If both exist, the deployment runs on the stored configuration. */
  predicate Matched(inst: Instance, st: Store) {
    ConfigRef(inst) in st && DeploymentRef(inst) in st ==>
      CHECKSUM in st[ConfigRef(inst)].annotations
        && RunsOn(st[DeploymentRef(inst)], st[ConfigRef(inst)].annotations[CHECKSUM])
  }

  predicate Untouched(inst: Instance, st: Store, st': Store) {
    forall r :: r in {ConfigRef(inst), DeploymentRef(inst)} ==> (r in st' <==> r in st) && (r in st ==> st'[r] == st[r])
  }

  lemma NamesApart(inst: Instance)
    ensures ConfigRef(inst) != ClientSecretRef(inst) && ConfigRef(inst) != OwnRef(inst, Secret, "dex-token")
  {
    assert |"dex-token"| == 9 && |"dex-client-secret"| == 17 && |"dex"| == 3;
    assert |ConfigRef(inst).name| == |inst.name| + 4;
  }

  /** A pass that does not configure, or is cut off before, touches neither object. */
  lemma LeavesConfiguration(inst: Instance, sha: ConfigDigest, st: Store, p: Inputs)
    requires !Configures(p) || p.landed <= 2
    ensures Untouched(inst, st, AfterPass(inst, sha, st, p))
  {
    NamesApart(inst);
    var ops := PlanOf(inst, sha, p).ops;
    var done := if p.landed <= |ops| then ops[..p.landed] else ops;
    assert forall k :: 0 <= k < |done| ==> done[k].ref != ConfigRef(inst) && done[k].ref != DeploymentRef(inst);
    hide DexPlan;
    forall r | r in {ConfigRef(inst), DeploymentRef(inst)}
      ensures (r in AfterPass(inst, sha, st, p) <==> r in st) && (r in st ==> AfterPass(inst, sha, st, p)[r] == st[r])
    {
      ExecFrame(st, done, r);
    }
  }

  /** Of a pass that configures, the third operation writes the configuration and
      the fourth the deployment, and no others touch them. */
  lemma WritesConfiguration(inst: Instance, sha: ConfigDigest, st: Store, p: Inputs)
    requires Configures(p) && p.landed >= 3
    ensures var st' := AfterPass(inst, sha, st, p);
      var sum := sha(NewConfig(inst, p));
      && ConfigRef(inst) in st' && st'[ConfigRef(inst)].annotations == map[CHECKSUM := sum]
      && (p.landed == 3 ==> (DeploymentRef(inst) in st' <==> DeploymentRef(inst) in st) &&
                            (DeploymentRef(inst) in st ==> st'[DeploymentRef(inst)] == st[DeploymentRef(inst)]))
      && (p.landed >= 4 ==> DeploymentRef(inst) in st' && RunsOn(st'[DeploymentRef(inst)], sum))
  {
    hide DexPlan, Exec, ConfigOp, DeploymentOp;
    var done := Landing(inst, sha, p);
    RefreshWrites(inst, sha, st, NewConfig(inst, p));
    SingleWriter(st, done, 2);
    if p.landed == 3 {
      ExecFrame(st, done, DeploymentRef(inst));
    } else {
      SingleWriter(st, done, 3);
    }
  }

  lemma RefreshWrites(inst: Instance, sha: ConfigDigest, st: Store, config: DexConfig)
    ensures var op := ConfigOp(inst, sha, config);
      op.Upsert? && op.ref == ConfigRef(inst) && Apply(st, op)[op.ref].annotations == map[CHECKSUM := sha(config)]
    ensures var op := DeploymentOp(inst, sha(config));
      op.Upsert? && op.ref == DeploymentRef(inst) && RunsOn(Apply(st, op)[op.ref], sha(config))
  {
  }

  /** The operations of a configuring pass that got to the configuration. */
  lemma Landing(inst: Instance, sha: ConfigDigest, p: Inputs) returns (done: seq<Op>)
    requires Configures(p) && p.landed >= 3
    ensures forall st :: AfterPass(inst, sha, st, p) == Exec(st, done)
    ensures |done| > 2 && done[2] == ConfigOp(inst, sha, NewConfig(inst, p))
    ensures if p.landed == 3 then |done| == 3 else |done| > 3 && done[3] == DeploymentOp(inst, sha(NewConfig(inst, p)))
    ensures forall k :: 0 <= k < |done| && k != 2 ==> done[k].ref != ConfigRef(inst)
    ensures forall k :: 0 <= k < |done| && k != 3 ==> done[k].ref != DeploymentRef(inst)
  {
    NamesApart(inst);
    var ops := PlanOf(inst, sha, p).ops;
    done := if p.landed <= |ops| then ops[..p.landed] else ops;
  }

  /** The deployment runs on the stored configuration after a pass exactly when it
      did before and neither was written, or both were, or only the configuration
      was and nothing in it changed for the deployment that there is. */
  lemma MatchedAfterPassIff(inst: Instance, sha: ConfigDigest, st: Store, p: Inputs)
    ensures Matched(inst, AfterPass(inst, sha, st, p)) <==>
      if !Configures(p) || p.landed <= 2 then Matched(inst, st)
      else p.landed == 3 && DeploymentRef(inst) in st ==> RunsOn(st[DeploymentRef(inst)], sha(NewConfig(inst, p)))
  {
    if !Configures(p) || p.landed <= 2 {
      LeavesConfiguration(inst, sha, st, p);
    } else {
      WritesConfiguration(inst, sha, st, p);
    }
  }

  // ----- runs -----------------------------------------------------------

  function AfterRun(inst: Instance, sha: ConfigDigest, st: Store, run: seq<Inputs>): Store
    decreases |run|
  {
    if run == [] then st else AfterRun(inst, sha, AfterPass(inst, sha, st, run[0]), run[1..])
  }

  /** A mismatch left by a pass that was cut off between the two writes outlives
      every run of passes that do not refresh. */
  lemma {:induction false} OnlyRefreshesConfigure(inst: Instance, sha: ConfigDigest, st: Store, run: seq<Inputs>)
    requires forall i :: 0 <= i < |run| ==> !Configures(run[i])
    ensures Untouched(inst, st, AfterRun(inst, sha, st, run))
    decreases |run|
  {
    if run != [] {
      assert !Configures(run[0]);
      LeavesConfiguration(inst, sha, st, run[0]);
      OnlyRefreshesConfigure(inst, sha, AfterPass(inst, sha, st, run[0]), run[1..]);
    }
  }

  /** The pass that creates the client secret ends in an error even though the
      creation succeeds, so it wastes its refresh: from a cluster without the
      client secret, no run writes a configuration or a deployment before a second
      refreshing pass. */
  lemma FirstRefreshIsWasted(inst: Instance, sha: ConfigDigest, st: Store, first: Inputs, later: seq<Inputs>)
    requires first.read.None?
    requires forall i :: 0 <= i < |later| ==> later[i].refresh.None?
    ensures PlanOf(inst, sha, first).end == Failure(NotFound)
    ensures Untouched(inst, st, AfterRun(inst, sha, st, [first] + later))
  {
    var run := [first] + later;
    forall i | 0 <= i < |run| ensures !Configures(run[i]) {
      if i > 0 { assert later[i - 1].refresh.None?; }
    }
    OnlyRefreshesConfigure(inst, sha, st, run);
  }
}
