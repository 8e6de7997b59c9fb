/** The Dex reconciler: service account, token secret, client secret, and, when
    tokens are refreshed, the configuration and the deployment that runs on it. */
module Dex {
  import opened Wrappers
  import opened GrafooApi
  import opened Cluster
  import opened Naming
  import opened Webhook

  const CHECKSUM := "checksum/config.yaml"
  const CLIENT_SECRET := "clientSecret"
  const ACCOUNT_ANNOTATION := "kubernetes.io/service-account.name"
  const REDIRECT_ANNOTATION := "serviceaccounts.openshift.io/oauth-redirecturi.dex"
  const HTTP_PORT := 5555
  const GRPC_PORT := 5556
  const METRICS_PORT := 5557

  /** Route addresses, as computed from the spec or the cluster's ingress domain. */
  datatype Routes = Routes(dexUri: string, dexHost: string, grafanaUri: string, grafanaHost: string)

  /** The checksum of the configuration text, as an unknown function of the values in it. */
  type ConfigDigest = DexConfig -> Hex

  // ----- the writes -----------------------------------------------------

  function AccountOp(inst: Instance, routes: Routes): Op {
    var labels := LabelsFor(inst, "dex");
    Upsert(OwnRef(inst, ServiceAccount, "dex"), BLANK.(labels := labels),
           Patch(Some(labels), Some(map[REDIRECT_ANNOTATION := routes.dexUri + "/callback"]), Some(inst.name), None))
  }

  function TokenSecretOp(inst: Instance): Op {
    var labels := LabelsFor(inst, "dex");
    Upsert(OwnRef(inst, Secret, "dex-token"),
           Object(labels, map[ACCOUNT_ANNOTATION := ComponentName(inst.name, "dex")], None, TokenSecret),
           Patch(Some(labels), None, Some(inst.name), None))
  }

  function ClientSecretRef(inst: Instance): Ref { OwnRef(inst, Secret, "dex-client-secret") }

  function ClientSecretOp(inst: Instance, uuid: string): Op {
    Create(ClientSecretRef(inst),
           Object(LabelsFor(inst, "dex"), map[], Some(inst.name), SecretData(map[CLIENT_SECRET := uuid])))
  }

  function ConfigRef(inst: Instance): Ref { OwnRef(inst, Secret, "dex") }

  function ConfigFor(inst: Instance, routes: Routes, token: string, clientSecret: string): DexConfig {
    DexConfig(inst.namespace, inst.name, token, routes.dexUri, routes.grafanaUri, clientSecret)
  }

  function ConfigOp(inst: Instance, sha: ConfigDigest, config: DexConfig): Op {
    Upsert(ConfigRef(inst), BLANK,
           Patch(Some(LabelsFor(inst, "dex")), Some(map[CHECKSUM := sha(config)]), Some(inst.name),
                 Some(ConfigSecret(config))))
  }

  function DeploymentRef(inst: Instance): Ref { OwnRef(inst, Deployment, "dex") }

  /** The deployment always runs the built-in image, whatever the spec names. */
  function DeploymentOp(inst: Instance, checksum: string): Op {
    Upsert(DeploymentRef(inst), BLANK,
           Patch(Some(LabelsFor(inst, "dex")), None, Some(inst.name),
                 Some(DeploymentSpec(DEX_IMAGE, ComponentName(inst.name, "dex"), ComponentName(inst.name, "dex"),
                                     Some(checksum)))))
  }

  function ServiceOp(inst: Instance): Op {
    Upsert(OwnRef(inst, Service, "dex"), BLANK,
           Patch(Some(LabelsFor(inst, "dex")), None, Some(inst.name),
                 Some(ServiceSpec([HTTP_PORT, GRPC_PORT, METRICS_PORT], LabelsFor(inst, "dex")))))
  }

  function IngressOp(inst: Instance, routes: Routes): Op {
    Upsert(OwnRef(inst, Ingress, "dex"), BLANK,
           Patch(Some(LabelsFor(inst, "dex")), Some(map["route.openshift.io/termination" := "edge"]), Some(inst.name),
                 Some(IngressSpec(routes.dexHost, ComponentName(inst.name, "dex"), HTTP_PORT))))
  }

  // ----- the plan of a pass ---------------------------------------------

  /** The client secret as it was read: missing, unusable, or its value. */
  function ClientSecretValue(read: Option<Object>): Result<string, Reason> {
    match read
    case None => Err(NotFound)
    case Some(o) =>
      if o.body.SecretData? && CLIENT_SECRET in o.body.data then Ok(o.body.data[CLIENT_SECRET]) else Err(BadSecret)
  }

  /** Creating the client secret still ends the pass with the earlier not-found
      error.  The configuration and the deployment are written only on a refresh. */
  function DexPlan(inst: Instance, routes: Routes, sha: ConfigDigest, read: Option<Object>, refresh: Option<string>,
                   uuid: string): Plan {
    var start := [AccountOp(inst, routes), TokenSecretOp(inst)];
    match ClientSecretValue(read)
    case Err(why) =>
      Plan(start + if why == NotFound then [ClientSecretOp(inst, uuid)] else [], Failure(why))
    case Ok(secret) =>
      var config := ConfigFor(inst, routes, if refresh.Some? then refresh.value else "", secret);
      Plan(start
           + (if refresh.Some? then [ConfigOp(inst, sha, config), DeploymentOp(inst, sha(config))] else [])
           + [ServiceOp(inst), IngressOp(inst, routes)],
           Success)
  }

  // ----- the reconciler -------------------------------------------------

  /** The object was stored as such in one of the first n states. */
  ghost predicate SeenBy(history: seq<Store>, n: nat, r: Ref, o: Object) {
    exists i :: 0 <= i < |history| && i < n && r in history[i] && history[i][r] == o
  }

  /** The token in hand for the configuration. */
  function Fresh(needsRefresh: bool, issued: Result<string, Reason>): Option<string> {
    if needsRefresh && issued.Ok? then Some(issued.value) else None
  }

  /** A whole pass lies between the two moments: the client secret was read once, the
      token for a refresh was issued, and the plan was carried out to a successful end. */
  ghost predicate Done(inst: Instance, routes: Routes, sha: ConfigDigest, needsRefresh: bool,
                       issued: Result<string, Reason>, uuid: string, before: Record, after: Record) {
    && (needsRefresh ==> issued.Ok?)
    && exists read ::
         && Answers([Got(ClientSecretRef(inst), Ok(read))], before, after)
         && Completes(DexPlan(inst, routes, sha, read, Fresh(needsRefresh, issued), uuid), before, after)
  }

  /** Why a pass may fail: a write did not land; the client secret could not be read, after
      two writes; it was read and the plan for it, carried out to its end, has this error;
      or it was read and the token for the refresh was refused, after two writes. */
  ghost predicate Excused(inst: Instance, routes: Routes, sha: ConfigDigest, needsRefresh: bool,
                          issued: Result<string, Reason>, uuid: string, before: Record, after: Record, why: Reason) {
    || (WriteFailed(before, after) && why != NilPointer)
    || (ReadFailed(before, after, why) && |after.log| == |before.log| + 2)
    || (exists read ::
          var plan := DexPlan(inst, routes, sha, read, Fresh(needsRefresh, issued), uuid);
          && Answers([Got(ClientSecretRef(inst), Ok(read))], before, after)
          && plan.end == Failure(why) && after.log == before.log + plan.ops)
    || (needsRefresh && issued == Err(why) && |after.log| == |before.log| + 2 && exists read ::
          Answers([Got(ClientSecretRef(inst), Ok(read))], before, after) && ClientSecretValue(read).Ok?)
  }

  /** A whole successful run and a reason to fail exclude each other. */
  lemma DoneIsNotExcused(inst: Instance, routes: Routes, sha: ConfigDigest, needsRefresh: bool,
                         issued: Result<string, Reason>, uuid: string, before: Record, after: Record, why: Reason)
    requires Done(inst, routes, sha, needsRefresh, issued, uuid, before, after)
    ensures !Excused(inst, routes, sha, needsRefresh, issued, uuid, before, after, why)
  {
    hide DexPlan, Completes, Answers;
    var read :| Answers([Got(ClientSecretRef(inst), Ok(read))], before, after)
      && Completes(DexPlan(inst, routes, sha, read, Fresh(needsRefresh, issued), uuid), before, after);
    CompletedIsNotFailed(DexPlan(inst, routes, sha, read, Fresh(needsRefresh, issued), uuid), before, after);
    LastAnswer([Got(ClientSecretRef(inst), Ok(read))], before, after);
    forall other | Answers([Got(ClientSecretRef(inst), Ok(other))], before, after) ensures other == read {
      SameAnswers([Got(ClientSecretRef(inst), Ok(other))], [Got(ClientSecretRef(inst), Ok(read))], before, after);
    }
    Succeeds(DexPlan(inst, routes, sha, read, Fresh(needsRefresh, issued), uuid), before, after);
  }

  lemma Succeeds(plan: Plan, before: Record, after: Record)
    requires Completes(plan, before, after)
    ensures plan.end.Success?
  {
  }

  /** Something that was tried failed, or too little was tried. */
  predicate Unfinished(before: Record, after: Record) {
    |after.attempted| - |before.attempted| != |after.log| - |before.log| || |after.log| < |before.log| + 4
  }

  lemma UnfinishedIsIncomplete(inst: Instance, routes: Routes, sha: ConfigDigest, refresh: Option<string>, uuid: string,
                               before: Record, after: Record)
    requires Unfinished(before, after)
    ensures forall read :: !Completes(DexPlan(inst, routes, sha, read, refresh, uuid), before, after)
  {
    hide AccountOp, TokenSecretOp, ClientSecretOp, ConfigOp, DeploymentOp, ServiceOp, IngressOp;
    forall read ensures !Completes(DexPlan(inst, routes, sha, read, refresh, uuid), before, after) {
      var plan := DexPlan(inst, routes, sha, read, refresh, uuid);
      assert plan.end.Success? ==> |plan.ops| >= 4;
    }
  }

  /** One pass with Dex enabled.  `issued` answers the token request, `uuid` is the
      fresh client secret; `read` is what the client secret read returned. */
  method ReconcileDex(api: ApiServer, inst: Instance, routes: Routes, sha: ConfigDigest, needsRefresh: bool,
                      issued: Result<string, Reason>, uuid: string)
    returns (out: Outcome, ghost read: Option<Object>, ghost landed: nat)
    requires api.Valid()
    requires inst.spec.dex.Some? && inst.spec.dex.value.enabled
    requires needsRefresh ==> inst.spec.tokenDuration.Some?
    requires issued.Err? ==> issued.error != NilPointer
    modifies api
    ensures api.Valid()
    ensures read.Some? ==> SeenBy(api.history, |old(api.log)| + 3, ClientSecretRef(inst), read.value)
    ensures api.Followed(old(api.SoFar()), old(api.objects),
                         DexPlan(inst, routes, sha, read, Fresh(needsRefresh, issued), uuid), landed, out)
    ensures out.Success? <==> Done(inst, routes, sha, needsRefresh, issued, uuid, old(api.SoFar()), api.SoFar())
    ensures out.Failure? ==>
      Excused(inst, routes, sha, needsRefresh, issued, uuid, old(api.SoFar()), api.SoFar(), out.reason)
    ensures api.replies == old(api.replies) || exists found ::
      api.replies == old(api.replies) + [Got(ClientSecretRef(inst), found)]
  {
    hide Exec, Lands, Apply, Accepts, IsTrace, AccountOp, TokenSecretOp, ClientSecretOp, ConfigOp, DeploymentOp,
      ServiceOp, IngressOp, Completes;
    ghost var before, st0 := api.SoFar(), api.objects;
    ghost var refresh := Fresh(needsRefresh, issued);
    ghost var start := [AccountOp(inst, routes), TokenSecretOp(inst)];
    read := None;
    api.NothingLanded(start);
    out, landed := api.AdvanceBoth(AccountOp(inst, routes), TokenSecretOp(inst), before, st0, start, 0);
    ghost var ops := DexPlan(inst, routes, sha, read, refresh, uuid).ops;
    assert start[..landed] == ops[..landed] && (landed < 2 ==> start[..landed + 1] == ops[..landed + 1]);
    if out.Failure? {
      UnfinishedIsIncomplete(inst, routes, sha, refresh, uuid, before, api.SoFar());
      api.StuckMeans(before, st0, start, landed);
      return;
    }
    api.HistoryLength();
    var found := api.Read(ClientSecretRef(inst));
    ghost var past := api.history;
    if found.Err? {
      UnfinishedIsIncomplete(inst, routes, sha, refresh, uuid, before, api.SoFar());
      return Failure(found.error), read, landed;
    }
    read := found.value;
    out, landed := ContinueDex(api, inst, routes, sha, needsRefresh, issued, uuid, found.value, before, st0);
    assert read.Some? ==> SeenBy(past, |before.log| + 3, ClientSecretRef(inst), read.value);
    assert Answers([Got(ClientSecretRef(inst), Ok(read))], before, api.SoFar());
    if out.Failure? {
      UnfinishedIsIncomplete(inst, routes, sha, refresh, uuid, before, api.SoFar());
    }
  }

  /** The rest of the pass, once the client secret has been looked up. */
  method ContinueDex(api: ApiServer, inst: Instance, routes: Routes, sha: ConfigDigest, needsRefresh: bool,
                     issued: Result<string, Reason>, uuid: string, read: Option<Object>, ghost before: Record,
                     ghost start: Store)
    returns (out: Outcome, ghost landed: nat)
    requires api.Valid()
    requires needsRefresh ==> inst.spec.tokenDuration.Some?
    requires issued.Err? ==> issued.error != NilPointer
    requires api.OnTrack(before, start, [AccountOp(inst, routes), TokenSecretOp(inst)])
    modifies api
    ensures api.Valid() && old(api.history) <= api.history && api.replies == old(api.replies)
    ensures var plan := DexPlan(inst, routes, sha, read, Fresh(needsRefresh, issued), uuid);
      api.Followed(before, start, plan, landed, out) && (out.Success? ==> Completes(plan, before, api.SoFar()))
    ensures out.Success? && needsRefresh ==> issued.Ok?
    ensures out.Failure? ==> Unfinished(before, api.SoFar())
    ensures out.Failure? ==>
      var plan := DexPlan(inst, routes, sha, read, Fresh(needsRefresh, issued), uuid);
      || (WriteFailed(before, api.SoFar()) && out != Failure(NilPointer))
      || (plan.end == out && api.log == before.log + plan.ops)
      || (needsRefresh && issued == Err(out.reason) && |api.log| == |before.log| + 2 && ClientSecretValue(read).Ok?)
  {
    hide Exec, Lands, Apply, Accepts, IsTrace, AccountOp, TokenSecretOp, ClientSecretOp, ConfigOp, DeploymentOp,
      ServiceOp, IngressOp;
    var secret := ClientSecretValue(read);
    ghost var refresh := Fresh(needsRefresh, issued);
    ghost var plan := DexPlan(inst, routes, sha, read, refresh, uuid);
    assert plan.ops[..2] == [AccountOp(inst, routes), TokenSecretOp(inst)];
    landed := 2;
    if secret == Err(NotFound) {
      out := api.Advance(ClientSecretOp(inst, uuid), before, start, plan.ops, landed);
      if out.Success? {
        landed := landed + 1;
        out := Failure(NotFound);
      }
      return;
    }
    if secret.Err? {
      return Failure(secret.error), landed;
    }
    if needsRefresh {
      if issued.Err? {
        return Failure(issued.error), landed;
      }
      // The configuration with its checksum, then the deployment that carries the same checksum.
      var config := ConfigFor(inst, routes, issued.value, secret.value);
      out, landed :=
        api.AdvanceBoth(ConfigOp(inst, sha, config), DeploymentOp(inst, sha(config)), before, start, plan.ops, landed);
      if out.Failure? {
        return;
      }
    }
    out, landed := api.AdvanceBoth(ServiceOp(inst), IngressOp(inst, routes), before, start, plan.ops, landed);
    assert plan.ops[..|plan.ops|] == plan.ops;
  }

  function DexRefs(inst: Instance): seq<Ref> {
    [OwnRef(inst, ServiceAccount, "dex"), ConfigRef(inst), ClientSecretRef(inst), OwnRef(inst, Secret, "dex-token"),
     DeploymentRef(inst), OwnRef(inst, Service, "dex"), OwnRef(inst, Ingress, "dex")]
  }

  /** Every planned operation names one of these objects. */
  lemma PlannedRefs(inst: Instance, routes: Routes, sha: ConfigDigest, read: Option<Object>, refresh: Option<string>,
                    uuid: string, op: Op)
    requires op in DexPlan(inst, routes, sha, read, refresh, uuid).ops
    ensures op.ref in DexRefs(inst)
  {
    hide LabelsFor, OwnRef, ConfigFor, ClientSecretValue;
    var refs := DexRefs(inst);
    assert refs[0] == AccountOp(inst, routes).ref && refs[3] == TokenSecretOp(inst).ref;
    assert refs[2] == ClientSecretOp(inst, uuid).ref;
    assert refs[5] == ServiceOp(inst).ref && refs[6] == IngressOp(inst, routes).ref;
    assert forall config :: ConfigOp(inst, sha, config).ref == refs[1];
    assert forall sum :: DeploymentOp(inst, sum).ref == refs[4];
    hide AccountOp, TokenSecretOp, ClientSecretOp, ServiceOp, IngressOp, ConfigOp, DeploymentOp, DexRefs;
  }

  ghost predicate OnlyDeletes(ops: seq<Op>, refs: seq<Ref>) {
    forall k :: 0 <= k < |ops| ==> ops[k].Delete? && ops[k].ref in refs
  }

  /** The first k removals were tried, some of them landed, and nothing else happened. */
  ghost predicate Removing(api: ApiServer, refs: seq<Ref>, k: nat, before: Record, start: Store, gone: seq<Op>)
    reads api
  {
    && k <= |refs| && api.Valid() && api.Landed(before.log, start, gone) && OnlyDeletes(gone, refs)
    && api.attempted == before.attempted + Deletes(refs)[..k] && api.replies == before.replies
  }

  /** A removal whose failure is only logged. */
  method TryDelete(api: ApiServer, r: Ref, ghost refs: seq<Ref>, ghost k: nat, ghost before: Record, ghost start: Store,
                   ghost gone: seq<Op>)
    returns (ghost now: seq<Op>)
    requires k < |refs| && r == refs[k] && Removing(api, refs, k, before, start, gone)
    modifies api
    ensures Removing(api, refs, k + 1, before, start, now)
  {
    hide Exec, Lands, IsTrace;
    assert Deletes(refs)[..k + 1] == Deletes(refs)[..k] + [Delete(r)];
    var deleted := api.Perform(Delete(r));
    now := if deleted.Success? then gone + [Delete(r)] else gone;
    ExecSnoc(start, gone, Delete(r));
  }

  /** Every removal was tried, in order, between the two moments. */
  ghost predicate Removed(inst: Instance, before: Record, after: Record) {
    after.attempted == before.attempted + Deletes(DexRefs(inst))
  }

  /** With Dex disabled: every removal is tried, whatever happened to the others. */
  method RemoveDexResources(api: ApiServer, inst: Instance) returns (out: Outcome, ghost gone: seq<Op>)
    requires api.Valid()
    modifies api
    ensures api.Valid() && out == Success && api.replies == old(api.replies)
    ensures api.Landed(old(api.log), old(api.objects), gone) && OnlyDeletes(gone, DexRefs(inst))
    ensures Removed(inst, old(api.SoFar()), api.SoFar())
  {
    ghost var before, st0, refs := api.SoFar(), api.objects, DexRefs(inst);
    assert before.log == api.log && before.replies == api.replies;
    hide *;
    gone := [];
    NothingRemoved(api, refs);
    DexRefsAre(inst);
    gone := TryDelete(api, OwnRef(inst, ServiceAccount, "dex"), refs, 0, before, st0, gone);
    gone := TryDelete(api, ConfigRef(inst), refs, 1, before, st0, gone);
    gone := TryDelete(api, ClientSecretRef(inst), refs, 2, before, st0, gone);
    gone := TryDelete(api, OwnRef(inst, Secret, "dex-token"), refs, 3, before, st0, gone);
    gone := TryDelete(api, DeploymentRef(inst), refs, 4, before, st0, gone);
    gone := TryDelete(api, OwnRef(inst, Service, "dex"), refs, 5, before, st0, gone);
    gone := TryDelete(api, OwnRef(inst, Ingress, "dex"), refs, 6, before, st0, gone);
    AllRemoved(api, inst, before, st0, gone);
    return Success, gone;
  }

  lemma NothingRemoved(api: ApiServer, refs: seq<Ref>)
    requires api.Valid()
    ensures Removing(api, refs, 0, api.SoFar(), api.objects, [])
  {
    api.NothingLanded([]);
    assert Deletes(refs)[..0] == [];
  }

  lemma DexRefsAre(inst: Instance)
    ensures var refs := DexRefs(inst);
      && |refs| == 7 && refs[0] == OwnRef(inst, ServiceAccount, "dex") && refs[1] == ConfigRef(inst)
      && refs[2] == ClientSecretRef(inst) && refs[3] == OwnRef(inst, Secret, "dex-token")
      && refs[4] == DeploymentRef(inst)
      && refs[5] == OwnRef(inst, Service, "dex") && refs[6] == OwnRef(inst, Ingress, "dex")
  {
  }

  lemma AllRemoved(api: ApiServer, inst: Instance, before: Record, start: Store, gone: seq<Op>)
    requires Removing(api, DexRefs(inst), 7, before, start, gone)
    ensures api.Valid() && api.Landed(before.log, start, gone) && OnlyDeletes(gone, DexRefs(inst))
    ensures Removed(inst, before, api.SoFar()) && api.replies == before.replies
  {
    hide OwnRef, Exec, Lands, IsTrace;
    assert Deletes(DexRefs(inst))[..7] == Deletes(DexRefs(inst));
  }
}
