/** The reconcile loop: one pass over an instance, from the refresh decision to the
    persisted status and the next wake-up. */
module Controller {
  import opened Wrappers
  import opened GrafooApi
  import opened Cluster
  import opened Naming
  import opened Traces
  import opened Conditions
  import TokenClock
  import DataSources
  import Dex
  import MariaDb
  import GrafanaCr
  import opened Convergence
  import Recovery
  import Safety

  /** Everything that a pass is given from outside: clock readings, answers to token
      requests, generated values, routes and digests. */
  datatype Environment = Environment(
    firstNow: int,          // read for the initial status
    clock: TokenClock.Pass,
    routes: Dex.Routes,
    sha: Dex.ConfigDigest,
    digest: Digest,
    dexToken: Result<string, Reason>,
    datasourceToken: Result<string, Reason>,
    uuid: string,
    parses: bool,
    password: string,
    rootPassword: string)
  {
    predicate Valid() {
      (dexToken.Err? ==> dexToken.error != NilPointer) && (datasourceToken.Err? ==> datasourceToken.error != NilPointer)
    }
  }

  datatype PassResult = Requeue(after: int) | Failed | Panicked

  /** The works issued the operations that landed since. */
  ghost predicate Issued(inst: Instance, before: seq<Op>, history: seq<Store>, log: seq<Op>, did: seq<Work>) {
    && |log| == |before| + |did| < |history| && before <= log
    && forall k :: 0 <= k < |did| ==>
         && did[k].inst == inst && WellFormed(did[k]) && log[|before| + k] in WorkOps(did[k])
         && Grounded(did[k], history[..|before| + k + 1])
  }

  lemma IssuedInTurn(inst: Instance, log0: seq<Op>, states1: seq<Store>, log1: seq<Op>, did1: seq<Work>,
                     states2: seq<Store>, log2: seq<Op>, did2: seq<Work>)
    requires Issued(inst, log0, states1, log1, did1) && Issued(inst, log1, states2, log2, did2)
    requires states1 <= states2
    ensures Issued(inst, log0, states2, log2, did1 + did2)
  {
    hide WellFormed, WorkOps, Grounded;
    var did := did1 + did2;
    forall k | 0 <= k < |did|
      ensures did[k].inst == inst && WellFormed(did[k]) && log2[|log0| + k] in WorkOps(did[k])
      ensures Grounded(did[k], states2[..|log0| + k + 1])
    {
      if k < |did1| {
        assert did[k] == did1[k] && log1[|log0| + k] == log2[|log0| + k];
        assert states1[..|log0| + k + 1] == states2[..|log0| + k + 1];
      } else {
        assert did[k] == did2[k - |did1|];
        assert log2[|log1| + (k - |did1|)] == log2[|log0| + k];
      }
    }
  }

  /** A run goes on as a run of the operator. */
  lemma RunGoesOn(inst: Instance, states: seq<Store>, log: seq<Op>, works: seq<Work>, states': seq<Store>,
                  log': seq<Op>, did: seq<Work>)
    requires OperatorTrace(states, log, works) && AllGrounded(states, works)
    requires IsTrace(states', log') && states <= states' && Issued(inst, log, states', log', did)
    ensures OperatorTrace(states', log', works + did) && AllGrounded(states', works + did)
    ensures forall k :: |works| <= k < |works + did| ==> (works + did)[k].inst == inst
  {
    hide WellFormed, WorkOps, Grounded, IsTrace;
    assert |states| == |log| + 1 by { LengthOfTrace(states, log); }
    var all := works + did;
    forall i | 0 <= i < |all|
      ensures WellFormed(all[i]) && log'[i] in WorkOps(all[i])
      ensures i < |states'| ==> Grounded(all[i], states'[..i + 1])
    {
      if i < |works| {
        assert all[i] == works[i] && log'[i] == log[i];
        assert states[..i + 1] == states'[..i + 1];
        assert Grounded(works[i], states[..i + 1]);
      } else {
        assert all[i] == did[i - |works|];
        assert log'[|log| + (i - |works|)] == log'[i];
      }
    }
  }

  lemma LengthOfTrace(states: seq<Store>, log: seq<Op>)
    requires IsTrace(states, log)
    ensures |states| == |log| + 1
  {
  }

  // ----- what it means that a part succeeded ----------------------------

  /** Between the two moments lies a whole successful run of the part: everything it
      reads was answered, everything it planned was tried, and all of it landed. */
  ghost predicate PartDone(part: Component, inst: Instance, env: Environment, needsRefresh: bool, before: Record,
                           after: Record) {
    match part
    case DexReady =>
      inst.spec.dex.Some? &&
      (if inst.spec.dex.value.enabled
       then Dex.Done(inst, env.routes, env.sha, needsRefresh, env.dexToken, env.uuid, before, after)
       else Dex.Removed(inst, before, after))
    case MariaDbReady =>
      inst.spec.mariadb.Some? &&
      (if inst.spec.mariadb.value.enabled
       then MariaDb.Done(inst, env.parses, env.password, env.rootPassword, before, after)
       else MariaDb.Cleaned(inst, before, after))
    case GrafanaReady => GrafanaCr.Done(inst, env.routes, before, after)
    case DataSourcesReady => DataSources.Done(env.digest, inst, needsRefresh, env.datasourceToken, before, after)
    case Available => true
  }

  /** Between the two moments the part ran into this error: a write that did not land, a
      read that failed, a token that was refused, or a plan that cannot succeed. */
  ghost predicate PartExcused(part: Component, inst: Instance, env: Environment, needsRefresh: bool, before: Record,
                              after: Record, why: Reason) {
    match part
    case DexReady =>
      && inst.spec.dex.Some? && inst.spec.dex.value.enabled
      && Dex.Excused(inst, env.routes, env.sha, needsRefresh, env.dexToken, env.uuid, before, after, why)
    case MariaDbReady =>
      inst.spec.mariadb.Some? &&
      (if inst.spec.mariadb.value.enabled
       then MariaDb.Excused(inst, env.parses, env.password, env.rootPassword, before, after, why)
       else MariaDb.CleanupExcused(before, after, why))
    case GrafanaReady => GrafanaCr.Excused(inst, before, after, why)
    case DataSourcesReady =>
      DataSources.Excused(env.digest, inst, needsRefresh, env.datasourceToken, before, after, why)
    case Available => false
  }

  /** A part that did no whole successful run ran into an error. */
  ghost predicate Accounted(part: Component, inst: Instance, env: Environment, needsRefresh: bool, before: Record,
                            after: Record) {
    PartDone(part, inst, env, needsRefresh, before, after)
    || exists why :: why != NilPointer && PartExcused(part, inst, env, needsRefresh, before, after, why)
  }

  /** The objects that a part writes. */
  predicate PartRef(part: Component, inst: Instance, r: Ref) {
    match part
    case DexReady => r in Dex.DexRefs(inst)
    case MariaDbReady => r in MariaDb.MariaDbRefs(inst)
    case GrafanaReady => r == GrafanaCr.GrafanaRef(inst) || r in GrafanaCr.RoleRefs(inst)
    case DataSourcesReady => r.kind == GrafanaDatasource
    case Available => false
  }

  /** What a part may ask, in any number of answers. */
  predicate PartReplies(part: Component, inst: Instance, before: seq<Reply>, after: seq<Reply>) {
    before <= after &&
    match part
    case DexReady => forall k :: |before| <= k < |after| ==> after[k].Got? && after[k].ref == Dex.ClientSecretRef(inst)
    case MariaDbReady => MariaDb.AsksOnly(MariaDb.MariaDbRefs(inst), before, after)
    case GrafanaReady => GrafanaCr.AsksInOrder(inst, before, after)
    case DataSourcesReady => forall k :: |before| <= k < |after| ==> after[k].Listing?
    case Available => before == after
  }

  /** Between the two moments the datasources' store went through one pass of the token
      runs: it carries a token exactly if it refreshes, the one that was issued, or lands
      nothing if none was; it lists some state up to then; and it is cut off anywhere. */
  ghost predicate IsTokenPass(p: Recovery.Pass, inst: Instance, env: Environment, needsRefresh: bool, view: Store,
                              history: seq<Store>, before: Record, after: Record)
  {
    && (p.refresh.Some? <==> needsRefresh)
    && (needsRefresh && env.datasourceToken.Ok? ==> p.refresh.value == env.datasourceToken.value)
    && (needsRefresh && env.datasourceToken.Err? ==> p.landed == 0)
    && |after.log| == |before.log| + p.landed < |history| && view in history[..|before.log| + 1]
    && Recovery.Possible(env.digest, inst, view, p)
    && history[|after.log|] == Recovery.AfterPass(env.digest, inst, view, history[|before.log|], p)
  }

  ghost predicate TokenPass(inst: Instance, env: Environment, needsRefresh: bool, history: seq<Store>,
                            before: Record, after: Record) {
    exists p, view :: IsTokenPass(p, inst, env, needsRefresh, view, history, before, after)
  }

  lemma ThatIsATokenPass(api: ApiServer, inst: Instance, env: Environment, needsRefresh: bool, view: Store,
                         order: seq<Ref>, landed: nat, past: seq<Store>, before: Record)
    requires api.Valid() && IsTrace(past, before.log) && past <= api.history && view in past
    requires DataSources.Enumerates(order, DataSources.Listed(view, inst))
    requires needsRefresh && env.datasourceToken.Err? ==> landed == 0
    requires var ops :=
      DataSources.PassPlan(env.digest, inst, DataSources.Fresh(needsRefresh, env.datasourceToken), view, order).ops;
      landed <= |ops| && api.Landed(before.log, past[|past| - 1], ops[..landed])
    ensures TokenPass(inst, env, needsRefresh, api.history, before, api.SoFar())
  {
    hide IsTrace, Exec, Lands, DataSources.PassPlan, DataSources.Enumerates, DataSources.Listed;
    api.HistoryLength();
    LengthOfTrace(past, before.log);
    var token := DataSources.Fresh(needsRefresh, env.datasourceToken);
    var p := Recovery.Pass(if needsRefresh then Some(token) else None, 0, order, landed);
    assert Recovery.StartToken(p) == token;
    assert IsTokenPass(p, inst, env, needsRefresh, view, api.history, before, api.SoFar());
  }

  /** Only the part was at work between the two moments. */
  ghost predicate Stretch(part: Component, inst: Instance, before: Record, after: Record) {
    && Later(before, after)
    && PartReplies(part, inst, before.replies, after.replies)
    && forall op :: op in NewAttempts(before, after) || op in NewLandings(before, after) ==> PartRef(part, inst, op.ref)
  }

  // ----- the parts of a pass --------------------------------------------

  /** The operations that landed, each with the work that issued it. */
  lemma Took(api: ApiServer, inst: Instance, before: seq<Op>, past: seq<Store>, start: Store, ops: seq<Op>,
             did: seq<Work>)
    requires api.Valid() && IsTrace(past, before) && past[0] == api.initial
    requires api.Landed(before, start, ops) && |did| == |ops|
    requires forall k :: 0 <= k < |did| ==>
      && did[k].inst == inst && WellFormed(did[k]) && ops[k] in WorkOps(did[k])
      && (|before| + k < |api.history| ==> Grounded(did[k], api.history[..|before| + k + 1]))
    ensures Issued(inst, before, api.history, api.log, did) && past <= api.history
  {
    hide WorkOps, WellFormed, Exec, Lands, Grounded, IsTrace;
    TraceExtends(past, api.history, before, ops);
    api.HistoryLength();
    forall k | 0 <= k < |did| ensures did[k].inst == inst && api.log[|before| + k] in WorkOps(did[k]) {
      assert api.log[|before| + k] == ops[k];
    }
  }

  lemma TookOne(api: ApiServer, before: seq<Op>, past: seq<Store>, start: Store, ops: seq<Op>, w: Work)
    returns (did: seq<Work>)
    requires api.Valid() && IsTrace(past, before) && past[0] == api.initial
    requires api.Landed(before, start, ops) && WellFormed(w) && Grounded(w, past)
    requires forall k :: 0 <= k < |ops| ==> ops[k] in WorkOps(w)
    ensures Issued(w.inst, before, api.history, api.log, did) && past <= api.history
  {
    hide WorkOps, WellFormed, Exec, Lands, Grounded, IsTrace;
    TraceExtends(past, api.history, before, ops);
    LengthOfTrace(past, before);
    did := seq(|ops|, k => w);
    forall k | 0 <= k < |did| && |before| + k < |api.history|
      ensures Grounded(did[k], api.history[..|before| + k + 1]) {
      GroundedLater(w, past, api.history[..|before| + k + 1]);
    }
    Took(api, w.inst, before, past, start, ops, did);
  }

  lemma GroundedLater(w: Work, past: seq<Store>, later: seq<Store>)
    requires Grounded(w, past) && past <= later
    ensures Grounded(w, later)
  {
    if (w.DexWork? || w.GrafanaWork?) && w.read.Some? {
      var r := Dex.ClientSecretRef(w.inst);
      var i :| 0 <= i < |past| && r in past[i] && past[i][r] == w.read.value;
      assert later[i] == past[i];
    }
    if w.DatasourceWork? {
      var i :| 0 <= i < |past| && past[i] == w.view;
      assert later[i] == w.view;
    }
  }

  method RunDex(api: ApiServer, inst: Instance, env: Environment, needsRefresh: bool)
    returns (out: Outcome, ghost did: seq<Work>)
    requires api.Valid() && env.Valid()
    requires inst.spec.dex.Some? && inst.spec.tokenDuration.Some?
    modifies api
    ensures api.Valid() && old(api.history) <= api.history
    ensures Issued(inst, old(api.log), api.history, api.log, did)
    ensures out.Success? <==> PartDone(DexReady, inst, env, needsRefresh, old(api.SoFar()), api.SoFar())
    ensures out.Failure? ==> PartExcused(DexReady, inst, env, needsRefresh, old(api.SoFar()), api.SoFar(), out.reason)
    ensures Stretch(DexReady, inst, old(api.SoFar()), api.SoFar())
    ensures out != Failure(NilPointer)
  {
    hide IsTrace, Exec, Lands, WorkOps, WellFormed, Grounded, Issued, Stretch, Dex.Done, Dex.Removed,
      Dex.OnlyDeletes, Dex.DexPlan, Dex.SeenBy, ApiServer.Followed;
    ghost var before, st0, past := api.SoFar(), api.objects, api.history;
    api.HistoryLength();
    if !inst.spec.dex.value.enabled {
      ghost var gone;
      out, gone := Dex.RemoveDexResources(api, inst);
      TornDownDex(api, inst, before, st0, gone);
      did := TookOne(api, before.log, past, st0, gone, DexTeardown(inst));
    } else {
      ghost var read, landed;
      out, read, landed := Dex.ReconcileDex(api, inst, env.routes, env.sha, needsRefresh, env.dexToken, env.uuid);
      DexWorkStarts(inst, env, needsRefresh, read);
      DexStretch(api, DexWorkFor(inst, env, needsRefresh, read), before, st0, landed, out);
      did := TookDex(api, inst, env, needsRefresh, read, landed, before, past, st0);
    }
  }

  lemma TornDownDex(api: ApiServer, inst: Instance, before: Record, start: Store, gone: seq<Op>)
    requires api.Landed(before.log, start, gone) && Dex.OnlyDeletes(gone, Dex.DexRefs(inst))
    requires Dex.Removed(inst, before, api.SoFar()) && api.replies == before.replies
    ensures WellFormed(DexTeardown(inst)) && forall k :: 0 <= k < |gone| ==> gone[k] in WorkOps(DexTeardown(inst))
    ensures forall past :: Grounded(DexTeardown(inst), past)
    ensures Stretch(DexReady, inst, before, api.SoFar())
  {
    hide Exec, Lands, OwnRef;
    var refs, w := Dex.DexRefs(inst), DexTeardown(inst);
    assert NewAttempts(before, api.SoFar()) == Deletes(refs) && NewLandings(before, api.SoFar()) == gone;
    hide Dex.DexRefs;
    forall k | 0 <= k < |gone| ensures gone[k] in WorkOps(w) {
      var i :| 0 <= i < |refs| && refs[i] == gone[k].ref;
      assert Deletes(refs)[i] == gone[k];
    }
  }

  function DexWorkFor(inst: Instance, env: Environment, needsRefresh: bool, read: Option<Object>): Work {
    DexWork(inst, env.routes, env.sha, read, Dex.Fresh(needsRefresh, env.dexToken), env.uuid)
  }

  lemma DexStretch(api: ApiServer, w: Work, before: Record, start: Store, landed: nat, out: Outcome)
    requires w.DexWork?
      && api.Followed(before, start, Dex.DexPlan(w.inst, w.routes, w.sha, w.read, w.refresh, w.uuid), landed, out)
    requires var r := Dex.ClientSecretRef(w.inst);
      api.replies == before.replies || exists found :: api.replies == before.replies + [Got(r, found)]
    ensures var plan := Dex.DexPlan(w.inst, w.routes, w.sha, w.read, w.refresh, w.uuid);
      && landed <= |plan.ops| && api.Landed(before.log, start, plan.ops[..landed])
      && (out == Failure(NilPointer) ==> plan.end == out)
    ensures Stretch(DexReady, w.inst, before, api.SoFar())
  {
    hide Exec, Lands, Dex.DexPlan, Dex.DexRefs, ApiServer.Followed, OwnRef;
    api.OnlyThePlan(before, start, Dex.DexPlan(w.inst, w.routes, w.sha, w.read, w.refresh, w.uuid), landed, out);
    forall op | op in NewAttempts(before, api.SoFar()) || op in NewLandings(before, api.SoFar())
      ensures PartRef(DexReady, w.inst, op.ref) {
      Dex.PlannedRefs(w.inst, w.routes, w.sha, w.read, w.refresh, w.uuid, op);
    }
  }

  /** The first two operations were issued before the client secret was read. */
  lemma TookDex(api: ApiServer, inst: Instance, env: Environment, needsRefresh: bool, read: Option<Object>, landed: nat,
                before: Record, past: seq<Store>, start: Store) returns (did: seq<Work>)
    requires api.Valid() && IsTrace(past, before.log) && past[0] == api.initial
    requires var w := DexWorkFor(inst, env, needsRefresh, read);
      && WellFormed(w) && WellFormed(DexWorkFor(inst, env, needsRefresh, None))
      && landed <= |WorkOps(w)| && api.Landed(before.log, start, WorkOps(w)[..landed])
      && (forall k :: 0 <= k < |WorkOps(w)| && k < 2 ==>
          WorkOps(w)[k] in WorkOps(DexWorkFor(inst, env, needsRefresh, None)))
    requires read.Some? ==> Dex.SeenBy(api.history, |before.log| + 3, Dex.ClientSecretRef(inst), read.value)
    ensures Issued(inst, before.log, api.history, api.log, did) && past <= api.history
  {
    hide IsTrace, Exec, Lands, Issued, WorkOps, WellFormed;
    var w, w0 := DexWorkFor(inst, env, needsRefresh, read), DexWorkFor(inst, env, needsRefresh, None);
    did := seq(landed, k requires 0 <= k < landed => if k < 2 then w0 else w);
    var ops := WorkOps(w)[..landed];
    forall k | 0 <= k < |did|
      ensures did[k].inst == inst && WellFormed(did[k]) && ops[k] in WorkOps(did[k])
      ensures |before.log| + k < |api.history| ==> Grounded(did[k], api.history[..|before.log| + k + 1])
    {
      assert ops[k] == WorkOps(w)[k];
      if 2 <= k && |before.log| + k < |api.history| && read.Some? {
        SeenInTime(api.history, |before.log| + k + 1, |before.log| + 3, Dex.ClientSecretRef(inst), read.value);
      }
    }
    Took(api, inst, before.log, past, start, ops, did);
  }

  lemma SeenInTime(history: seq<Store>, m: nat, n: nat, r: Ref, o: Object)
    requires Dex.SeenBy(history, n, r, o) && n <= m <= |history|
    ensures GrafanaCr.Seen(history[..m], r, Some(o))
  {
    var i :| 0 <= i < |history| && i < n && r in history[i] && history[i][r] == o;
    assert history[..m][i] == history[i];
  }

  lemma DexWorkStarts(inst: Instance, env: Environment, needsRefresh: bool, read: Option<Object>)
    ensures var w, w0 := DexWorkFor(inst, env, needsRefresh, read), DexWorkFor(inst, env, needsRefresh, None);
      && WellFormed(w) && WellFormed(w0)
      && WorkOps(w) == Dex.DexPlan(inst, w.routes, w.sha, read, w.refresh, w.uuid).ops
      && (forall k :: 0 <= k < |WorkOps(w)| && k < 2 ==> WorkOps(w)[k] in WorkOps(w0))
      && Dex.DexPlan(inst, w.routes, w.sha, read, w.refresh, w.uuid).end != Failure(NilPointer)
  {
    hide LabelsFor, OwnRef;
    var w, w0 := DexWorkFor(inst, env, needsRefresh, read), DexWorkFor(inst, env, needsRefresh, None);
    assert WorkOps(w0)[0] == WorkOps(w)[0] && WorkOps(w0)[1] == WorkOps(w)[1];
  }

  method RunMariaDb(api: ApiServer, inst: Instance, env: Environment, ghost needsRefresh: bool)
    returns (out: Outcome, ghost did: seq<Work>)
    requires api.Valid() && inst.spec.mariadb.Some?
    modifies api
    ensures api.Valid() && old(api.history) <= api.history
    ensures Issued(inst, old(api.log), api.history, api.log, did)
    ensures out.Success? <==> PartDone(MariaDbReady, inst, env, needsRefresh, old(api.SoFar()), api.SoFar())
    ensures out.Failure? ==>
      PartExcused(MariaDbReady, inst, env, needsRefresh, old(api.SoFar()), api.SoFar(), out.reason)
    ensures Stretch(MariaDbReady, inst, old(api.SoFar()), api.SoFar()) && |api.replies| > |old(api.replies)|
    ensures out != Failure(NilPointer)
  {
    hide IsTrace, Exec, Lands, WorkOps, WellFormed, Issued, Stretch, MariaDb.MariaDbPlan, MariaDb.MariaDbRefs,
      MariaDb.Done, MariaDb.Cleaned, MariaDb.AsksOnly, ApiServer.Followed;
    ghost var before, st0, past := api.SoFar(), api.objects, api.history;
    api.HistoryLength();
    if !inst.spec.mariadb.value.enabled {
      ghost var gone, landed;
      out, gone, landed := MariaDb.CleanupMariaDb(api, inst);
      TornDownMariaDb(api, inst, before, st0, gone, landed, out);
      did := TookOne(api, before.log, past, st0, gone[..landed], MariaDbTeardown(inst));
    } else {
      ghost var read, landed;
      out, read, landed := MariaDb.ReconcileMariaDb(api, inst, env.parses, env.password, env.rootPassword);
      ghost var w := MariaDbWork(inst, read, env.parses, env.password, env.rootPassword);
      PlanOfWork(w);
      MariaDbStretch(api, inst, env, read, before, st0, landed, out);
      did := TookOne(api, before.log, past, st0, WorkOps(w)[..landed], w);
    }
  }

  lemma TornDownMariaDb(api: ApiServer, inst: Instance, before: Record, start: Store, gone: seq<Op>, landed: nat,
                        out: Outcome)
    requires api.Followed(before, start, Plan(gone, Success), landed, out)
    requires forall op :: op in gone ==> op.Delete? && op.ref in MariaDb.MariaDbRefs(inst)
    requires MariaDb.AsksOnly(MariaDb.MariaDbRefs(inst), before.replies, api.replies)
    ensures landed <= |gone| && api.Landed(before.log, start, gone[..landed])
    ensures WellFormed(MariaDbTeardown(inst)) && forall k :: 0 <= k < landed ==>
      gone[..landed][k] in WorkOps(MariaDbTeardown(inst))
    ensures forall past :: Grounded(MariaDbTeardown(inst), past)
    ensures Stretch(MariaDbReady, inst, before, api.SoFar())
  {
    hide Exec, Lands, MariaDb.MariaDbRefs, ApiServer.Followed;
    var refs, w := MariaDb.MariaDbRefs(inst), MariaDbTeardown(inst);
    api.OnlyThePlan(before, start, Plan(gone, Success), landed, out);
    forall k | 0 <= k < landed ensures gone[..landed][k] in WorkOps(w) {
      assert gone[k] in gone;
      var i :| 0 <= i < |refs| && refs[i] == gone[k].ref;
      assert Deletes(refs)[i] == gone[k];
    }
  }

  lemma MariaDbStretch(api: ApiServer, inst: Instance, env: Environment, read: Option<Object>, before: Record,
                       start: Store, landed: nat, out: Outcome)
    requires inst.spec.mariadb.Some?
    requires var plan := MariaDb.MariaDbPlan(inst, read, env.parses, env.password, env.rootPassword);
      api.Followed(before, start, plan, landed, out)
    requires exists found :: api.replies == before.replies + [Got(MariaDb.SecretRef(inst), found)]
    ensures var ops := MariaDb.MariaDbPlan(inst, read, env.parses, env.password, env.rootPassword).ops;
      landed <= |ops| && api.Landed(before.log, start, ops[..landed])
    ensures out == Failure(NilPointer) ==>
      MariaDb.MariaDbPlan(inst, read, env.parses, env.password, env.rootPassword).end == Failure(NilPointer)
    ensures Stretch(MariaDbReady, inst, before, api.SoFar())
  {
    hide Exec, Lands, MariaDb.MariaDbPlan, ApiServer.Followed, OwnRef;
    var plan := MariaDb.MariaDbPlan(inst, read, env.parses, env.password, env.rootPassword);
    api.OnlyThePlan(before, start, plan, landed, out);
    assert MariaDb.MariaDbRefs(inst)[3] == MariaDb.SecretRef(inst);
    hide MariaDb.MariaDbRefs;
    forall op | op in NewAttempts(before, api.SoFar()) || op in NewLandings(before, api.SoFar())
      ensures PartRef(MariaDbReady, inst, op.ref) {
      MariaDb.PlannedRefs(inst, read, env.parses, env.password, env.rootPassword, op);
    }
  }

  /** The operations of a work are those of its reconciler's plan. */
  lemma PlanOfWork(w: Work)
    ensures w.MariaDbWork? && w.inst.spec.mariadb.Some? ==>
      && WellFormed(w) && WorkOps(w) == MariaDb.MariaDbPlan(w.inst, w.read, w.parses, w.password, w.rootPassword).ops
      && MariaDb.MariaDbPlan(w.inst, w.read, w.parses, w.password, w.rootPassword).end != Failure(NilPointer)
    ensures w.GrafanaWork? ==>
      WellFormed(w) && WorkOps(w) == GrafanaCr.GrafanaPlan(w.inst, w.routes, w.read, w.db, w.found).ops
    ensures w.DatasourceWork? && DataSources.Enumerates(w.order, DataSources.Listed(w.view, w.inst)) ==>
      WellFormed(w) && WorkOps(w) == DataSources.PassPlan(w.digest, w.inst, w.token, w.view, w.order).ops
  {
    hide GrafanaCr.GrafanaPlan, DataSources.PassPlan, DataSources.Enumerates, DataSources.Listed, LabelsFor, OwnRef;
  }

  method RunGrafana(api: ApiServer, inst: Instance, env: Environment, ghost needsRefresh: bool)
    returns (out: Outcome, ghost did: seq<Work>)
    requires api.Valid()
    modifies api
    ensures api.Valid() && old(api.history) <= api.history
    ensures Issued(inst, old(api.log), api.history, api.log, did)
    ensures out.Success? <==> PartDone(GrafanaReady, inst, env, needsRefresh, old(api.SoFar()), api.SoFar())
    ensures out.Failure? ==>
      PartExcused(GrafanaReady, inst, env, needsRefresh, old(api.SoFar()), api.SoFar(), out.reason)
    ensures Stretch(GrafanaReady, inst, old(api.SoFar()), api.SoFar())
    ensures out == Failure(NilPointer) ==> inst.spec.mariadb.None?
  {
    hide IsTrace, Exec, Lands, WorkOps, WellFormed, Issued, Stretch, GrafanaCr.GrafanaPlan, GrafanaCr.Done,
      GrafanaCr.FoundRoles, GrafanaCr.AsksInOrder;
    ghost var before, st0, past := api.SoFar(), api.objects, api.history;
    api.HistoryLength();
    ghost var secret, db, answers, landed;
    out, secret, db, answers, landed := GrafanaCr.ReconcileGrafana(api, inst, env.routes);
    ghost var w := GrafanaWork(inst, env.routes, secret, db, GrafanaCr.FoundRoles(answers));
    PlanOfWork(w);
    GrafanaCr.NilPointerOnlyWithoutMariaDb(inst, env.routes, secret, db, GrafanaCr.FoundRoles(answers));
    GrafanaStretch(api, w, before, st0, landed, out);
    did := TookOne(api, before.log, past, st0, WorkOps(w)[..landed], w);
  }

  lemma GrafanaStretch(api: ApiServer, w: Work, before: Record, start: Store, landed: nat, out: Outcome)
    requires w.GrafanaWork?
    requires api.Followed(before, start, GrafanaCr.GrafanaPlan(w.inst, w.routes, w.read, w.db, w.found), landed, out)
    requires GrafanaCr.AsksInOrder(w.inst, before.replies, api.replies)
    ensures var ops := GrafanaCr.GrafanaPlan(w.inst, w.routes, w.read, w.db, w.found).ops;
      landed <= |ops| && api.Landed(before.log, start, ops[..landed])
    ensures Stretch(GrafanaReady, w.inst, before, api.SoFar())
  {
    hide Exec, Lands, GrafanaCr.GrafanaPlan, GrafanaCr.RoleRefs, ApiServer.Followed;
    var plan := GrafanaCr.GrafanaPlan(w.inst, w.routes, w.read, w.db, w.found);
    api.OnlyThePlan(before, start, plan, landed, out);
    forall op | op in NewAttempts(before, api.SoFar()) || op in NewLandings(before, api.SoFar())
      ensures PartRef(GrafanaReady, w.inst, op.ref) {
      GrafanaCr.PlannedOps(w.inst, w.routes, w.read, w.db, w.found, op);
    }
  }

  method RunDataSources(api: ApiServer, inst: Instance, env: Environment, needsRefresh: bool)
    returns (out: Outcome, ghost did: seq<Work>)
    requires api.Valid() && env.Valid() && inst.spec.tokenDuration.Some?
    modifies api
    ensures api.Valid() && old(api.history) <= api.history
    ensures Issued(inst, old(api.log), api.history, api.log, did)
    ensures out.Success? <==> PartDone(DataSourcesReady, inst, env, needsRefresh, old(api.SoFar()), api.SoFar())
    ensures out.Failure? ==>
      PartExcused(DataSourcesReady, inst, env, needsRefresh, old(api.SoFar()), api.SoFar(), out.reason)
    ensures Stretch(DataSourcesReady, inst, old(api.SoFar()), api.SoFar())
    ensures TokenPass(inst, env, needsRefresh, api.history, old(api.SoFar()), api.SoFar())
    ensures out == Failure(NilPointer) ==>
      !Safety.Complete(inst.spec) || exists i :: 0 <= i < |api.history| && !TypedStore(api.history[i])
  {
    hide IsTrace, Exec, Lands, WorkOps, WellFormed, Issued, Stretch, TokenPass, DataSources.PassPlan,
      DataSources.Listed, DataSources.Enumerates, DataSources.Done;
    ghost var before, st0, past := api.SoFar(), api.objects, api.history;
    api.HistoryLength();
    ghost var view, order, landed;
    out, view, order, landed :=
      DataSources.ReconcileDataSources(api, env.digest, inst, needsRefresh, env.datasourceToken);
    ghost var w := DatasourceWork(inst, env.digest, DataSources.Fresh(needsRefresh, env.datasourceToken), view, order);
    PlanOfWork(w);
    DatasourceStretch(api, w, before, st0, landed, out);
    did := TookOne(api, before.log, past, st0, WorkOps(w)[..landed], w);
    ThatIsATokenPass(api, inst, env, needsRefresh, view, order, landed, past, before);
    if out == Failure(NilPointer) && Safety.Complete(inst.spec) {
      NilPointerNeedsUntyped(w, past);
      ghost var i :| 0 <= i < |past| && !TypedStore(past[i]);
      assert api.history[i] == past[i];
    }
  }

  lemma DatasourceStretch(api: ApiServer, w: Work, before: Record, start: Store, landed: nat, out: Outcome)
    requires w.DatasourceWork? && WellFormed(w)
    requires WorkOps(w) == DataSources.PassPlan(w.digest, w.inst, w.token, w.view, w.order).ops
    requires api.Followed(before, start, DataSources.PassPlan(w.digest, w.inst, w.token, w.view, w.order), landed, out)
    requires api.replies == before.replies || exists listing :: api.replies == before.replies + [Listing(listing)]
    ensures landed <= |WorkOps(w)| && api.Landed(before.log, start, WorkOps(w)[..landed])
    ensures Stretch(DataSourcesReady, w.inst, before, api.SoFar())
  {
    hide Exec, Lands, DataSources.PassPlan, WorkOps, WellFormed, ApiServer.Followed, WritesEntry;
    api.OnlyThePlan(before, start, DataSources.PassPlan(w.digest, w.inst, w.token, w.view, w.order), landed, out);
    forall op | op in NewAttempts(before, api.SoFar()) || op in NewLandings(before, api.SoFar())
      ensures PartRef(DataSourcesReady, w.inst, op.ref) {
      DatasourceOpKinds(w, op);
    }
  }

  lemma NilPointerNeedsUntyped(w: Work, past: seq<Store>)
    requires w.DatasourceWork? && w.view in past && Safety.Complete(w.inst.spec)
    requires DataSources.PassPlan(w.digest, w.inst, w.token, w.view, w.order).end == Failure(NilPointer)
    ensures exists i :: 0 <= i < |past| && !TypedStore(past[i])
  {
    if TypedStore(w.view) {
      NoNilPointer(w.digest, w.inst, w.inst.spec.datasources, w.token, w.view);
    }
  }

  // ----- the pass -------------------------------------------------------

  /** Where each part of a pass ended; the first one starts at `start`. */
  datatype Marks = Marks(start: Record, dex: Record, mariadb: Record, grafana: Record, datasources: Record)

  /** The pass is the parts one after the other; a part that the spec leaves out does nothing. */
  ghost predicate Divides(m: Marks, inst: Instance, before: Record, after: Record) {
    && m.start == before && m.datasources == after
    && Stretch(DexReady, inst, m.start, m.dex) && (inst.spec.dex.None? ==> m.dex == m.start)
    && Stretch(MariaDbReady, inst, m.dex, m.mariadb) && (inst.spec.mariadb.None? ==> m.mariadb == m.dex)
    && (inst.spec.mariadb.Some? ==> |m.mariadb.replies| > |m.dex.replies|)
    && Stretch(GrafanaReady, inst, m.mariadb, m.grafana)
    && Stretch(DataSourcesReady, inst, m.grafana, m.datasources)
  }

  /** Each part that was run did a whole successful run or ran into an error. */
  ghost predicate Explained(inst: Instance, env: Environment, needsRefresh: bool, m: Marks) {
    && (inst.spec.dex.Some? ==> Accounted(DexReady, inst, env, needsRefresh, m.start, m.dex))
    && (inst.spec.mariadb.Some? ==> Accounted(MariaDbReady, inst, env, needsRefresh, m.dex, m.mariadb))
    && Accounted(GrafanaReady, inst, env, needsRefresh, m.mariadb, m.grafana)
    && Accounted(DataSourcesReady, inst, env, needsRefresh, m.grafana, m.datasources)
  }

  /** Grafana or the datasources ran into a nil pointer. */
  ghost predicate HitsNil(inst: Instance, env: Environment, needsRefresh: bool, m: Marks) {
    || PartExcused(GrafanaReady, inst, env, needsRefresh, m.mariadb, m.grafana, NilPointer)
    || PartExcused(DataSourcesReady, inst, env, needsRefresh, m.grafana, m.datasources, NilPointer)
  }

  function Verdict(done: bool): Option<Standing> { Some(if done then True else False) }

  /** Each condition is true exactly if its part did a whole successful run; one whose
      part the spec leaves out stays, and the resource counts as available in any case. */
  ghost predicate Reports(cs: seq<Condition>, was: seq<Condition>, inst: Instance, env: Environment,
                          needsRefresh: bool, m: Marks) {
    && StandingOf(cs, DexReady) ==
         (if inst.spec.dex.Some? then Verdict(PartDone(DexReady, inst, env, needsRefresh, m.start, m.dex))
          else StandingOf(was, DexReady))
    && StandingOf(cs, MariaDbReady) ==
         (if inst.spec.mariadb.Some? then Verdict(PartDone(MariaDbReady, inst, env, needsRefresh, m.dex, m.mariadb))
          else StandingOf(was, MariaDbReady))
    && StandingOf(cs, GrafanaReady) == Verdict(PartDone(GrafanaReady, inst, env, needsRefresh, m.mariadb, m.grafana))
    && StandingOf(cs, DataSourcesReady) ==
      Verdict(PartDone(DataSourcesReady, inst, env, needsRefresh, m.grafana, m.datasources))
    && StandingOf(cs, Available) == Some(True)
  }

  /** The condition of a part that has been run. */
  function Report(component: Component, out: Outcome): Condition {
    Condition(component, if out.Success? then True else False)
  }

  /** Runs the parts that the spec may leave out. */
  method RunBackends(api: ApiServer, inst: Instance, env: Environment, needsRefresh: bool, conditions: seq<Condition>)
    returns (cs: seq<Condition>, ghost m: Marks, ghost did: seq<Work>)
    requires api.Valid() && env.Valid() && inst.spec.tokenDuration.Some?
    modifies api
    ensures api.Valid() && old(api.history) <= api.history
    ensures Issued(inst, old(api.log), api.history, api.log, did)
    ensures m.start == old(api.SoFar()) && m.mariadb == api.SoFar()
    ensures Stretch(DexReady, inst, m.start, m.dex) && (inst.spec.dex.None? ==> m.dex == m.start)
    ensures Stretch(MariaDbReady, inst, m.dex, m.mariadb) && (inst.spec.mariadb.None? ==> m.mariadb == m.dex)
    ensures inst.spec.mariadb.Some? ==> |m.mariadb.replies| > |m.dex.replies|
    ensures StandingOf(cs, DexReady) ==
      if inst.spec.dex.Some? then Verdict(PartDone(DexReady, inst, env, needsRefresh, m.start, m.dex))
        else StandingOf(conditions, DexReady)
    ensures StandingOf(cs, MariaDbReady) ==
      if inst.spec.mariadb.Some? then Verdict(PartDone(MariaDbReady, inst, env, needsRefresh, m.dex, m.mariadb))
      else StandingOf(conditions, MariaDbReady)
    ensures inst.spec.dex.Some? ==> Accounted(DexReady, inst, env, needsRefresh, m.start, m.dex)
    ensures inst.spec.mariadb.Some? ==> Accounted(MariaDbReady, inst, env, needsRefresh, m.dex, m.mariadb)
    ensures Conditions.Components(conditions) == ORDER ==> Conditions.Components(cs) == ORDER
  {
    hide IsTrace, Issued, SetCondition, StandingOf, Conditions.Components, ApiServer.Valid, PartDone, PartExcused,
      Stretch;
    cs := conditions;
    ghost var log0, start := api.log, api.SoFar();
    did := Idle(api, inst, DexReady);
    if inst.spec.dex.Some? {
      var out;
      out, did := RunDex(api, inst, env, needsRefresh);
      SetInPlace(cs, Report(DexReady, out));
      cs := SetCondition(cs, Report(DexReady, out));
    }
    ghost var log1, past1, dex, more := api.log, api.history, api.SoFar(), [];
    more := Idle(api, inst, MariaDbReady);
    if inst.spec.mariadb.Some? {
      var out;
      out, more := RunMariaDb(api, inst, env, needsRefresh);
      SetInPlace(cs, Report(MariaDbReady, out));
      cs := SetCondition(cs, Report(MariaDbReady, out));
    }
    IssuedInTurn(inst, log0, past1, log1, did, api.history, api.log, more);
    did := did + more;
    m := Marks(start, dex, api.SoFar(), api.SoFar(), api.SoFar());
  }

  /** Runs the parts in order, each whatever happened to the others.  A nil pointer
      ends the pass on the spot. */
  method RunParts(api: ApiServer, inst: Instance, env: Environment, needsRefresh: bool, conditions: seq<Condition>)
    returns (panicked: bool, cs: seq<Condition>, ghost m: Marks, ghost did: seq<Work>)
    requires api.Valid() && env.Valid() && inst.spec.tokenDuration.Some?
    modifies api
    ensures api.Valid() && old(api.history) <= api.history
    ensures Issued(inst, old(api.log), api.history, api.log, did)
    ensures !panicked ==>
      Divides(m, inst, old(api.SoFar()), api.SoFar()) && Reports(cs, conditions, inst, env, needsRefresh, m)
    ensures !panicked ==> TokenPass(inst, env, needsRefresh, api.history, m.grafana, m.datasources)
    ensures !panicked && Conditions.Components(conditions) == ORDER ==> Conditions.Components(cs) == ORDER
    ensures !panicked ==> Explained(inst, env, needsRefresh, m)
    ensures panicked ==> HitsNil(inst, env, needsRefresh, m)
    ensures panicked ==>
      !Safety.Complete(inst.spec) || exists i :: 0 <= i < |api.history| && !TypedStore(api.history[i])
  {
    hide IsTrace, Issued, SetCondition, StandingOf, Conditions.Components, ApiServer.Valid, ApiServer.SoFar,
      TypedStore, PartDone, PartExcused, Stretch, TokenPass;
    ghost var log0, more := api.log, [];
    cs, m, did := RunBackends(api, inst, env, needsRefresh, conditions);
    ghost var log1, past1 := api.log, api.history;
    var grafana, datasources;
    grafana, more := RunGrafana(api, inst, env, needsRefresh);
    m := m.(grafana := api.SoFar());
    IssuedInTurn(inst, log0, past1, log1, did, api.history, api.log, more);
    did := did + more;
    if grafana == Failure(NilPointer) {
      return true, cs, m, did;
    }
    SetInPlace(cs, Report(GrafanaReady, grafana));
    cs := SetCondition(cs, Report(GrafanaReady, grafana));
    ghost var log2, past2 := api.log, api.history;
    datasources, more := RunDataSources(api, inst, env, needsRefresh);
    m := m.(datasources := api.SoFar());
    IssuedInTurn(inst, log0, past2, log2, did, api.history, api.log, more);
    did := did + more;
    if datasources == Failure(NilPointer) {
      return true, cs, m, did;
    }
    SetInPlace(cs, Report(DataSourcesReady, datasources));
    cs := SetCondition(cs, Report(DataSourcesReady, datasources));
    SetInPlace(cs, Condition(Available, True));
    cs := SetCondition(cs, Condition(Available, True));
    panicked := false;
  }

  lemma Idle(api: ApiServer, inst: Instance, part: Component) returns (did: seq<Work>)
    requires api.Valid()
    ensures did == [] && Issued(inst, api.log, api.history, api.log, did)
    ensures part in {DexReady, MariaDbReady} ==> Stretch(part, inst, api.SoFar(), api.SoFar())
  {
    did := [];
    api.HistoryLength();
  }

  /** The versions that a pass starts from: a resource without conditions gets the initial status first. */
  function StartingPoint(history: seq<Status>, firstNow: int): (h: seq<Status>)
    requires history != []
    ensures history <= h
  {
    var s := history[|history| - 1];
    if s.conditions == [] then history + [Persisted(InitialStatus(s.times, firstNow))] else history
  }

  /** Reads the status, writing the initial one first if there are no conditions.
      Every read may be stale, and then the version is not the latest. */
  method FetchStatus(res: StatusRecord, firstNow: int) returns (version: Option<nat>)
    requires res.Valid()
    modifies res
    ensures res.Valid()
    ensures res.history in {old(res.history), StartingPoint(old(res.history), firstNow)}
    ensures version.Some? ==> version.value < |res.history|
    ensures if version.Some? then res.faults == old(res.faults) else res.faults > old(res.faults)
    ensures version.Some? && version.value == |res.history| - 1 ==>
      res.history == StartingPoint(old(res.history), firstNow) && res.Stored().conditions != []
  {
    var read := res.Read();
    if read.Err? {
      return None;
    }
    var status := res.history[read.value];
    if status.conditions == [] {
      var ok := res.UpdateStatus(read.value, InitialStatus(status.times, firstNow));
      if !ok {
        return None;
      }
      read := res.Read();
      if read.Err? {
        return None;
      }
    }
    return Some(read.value);
  }

  lemma TimesWritten(d: int, was: Status, clock: TokenClock.Pass, now: Status)
    requires Persisted(was) == was
    requires now.times == if TokenClock.NeedsRefresh(d, was.times, clock.before, clock.left)
      then TokenClock.Times(Some(clock.gen), Some(clock.exp + d)) else was.times
    ensures Persisted(now).times == TokenClock.AfterPass(d, was.times, clock.(persisted := true))
    ensures was.times.exp.Some? ==> now.times.exp.Some?
    ensures Persisted(now).conditions == now.conditions
  {
  }

  /** The operator at work on one API server, for any number of instances. */
  class Operator {
    const api: ApiServer
    ghost var works: seq<Work> // what each landed operation was issued for

    ghost predicate Valid()
      reads this, api
    {
      api.Valid() && OperatorTrace(api.history, api.log, works) && AllGrounded(api.history, works)
    }

    constructor (api: ApiServer)
      requires api.Valid() && api.log == []
      ensures this.api == api && Valid() && works == []
    {
      this.api := api;
      works := [];
      new;
      api.HistoryLength();
    }

    /** One pass.  If its status is persisted, the token times are those of the clock
        model, each condition is true exactly if its part did a whole successful run in
        this pass, and the next pass is due five minutes before the expiry.  Otherwise
        at most the initial status is persisted. */
    method Reconcile(res: StatusRecord, inst: Instance, env: Environment) returns (result: PassResult, ghost m: Marks)
      requires Valid() && res.Valid() && env.Valid()
      modifies this, api, res
      ensures Valid() && res.Valid()
      ensures old(api.history) <= api.history
      ensures old(works) <= works && forall k :: |old(works)| <= k < |works| ==> works[k].inst == inst
      ensures result.Failed? <==> res.faults > old(res.faults)
      ensures result.Panicked? ==>
        inst.spec.tokenDuration.None? || exists needsRefresh :: HitsNil(inst, env, needsRefresh, m)
      ensures !result.Requeue? ==> res.history in {old(res.history), StartingPoint(old(res.history), env.firstNow)}
      ensures result.Requeue? ==>
        var h := StartingPoint(old(res.history), env.firstNow);
        var was := h[|h| - 1];
        && res.history == h + [res.Stored()]
        && inst.spec.tokenDuration.Some?
        && res.Stored().times ==
          TokenClock.AfterPass(inst.spec.tokenDuration.value, was.times, env.clock.(persisted := true))
        && Divides(m, inst, old(api.SoFar()), api.SoFar())
        && Reports(res.Stored().conditions, was.conditions, inst, env, Refreshing(inst, was, env), m)
        && Explained(inst, env, Refreshing(inst, was, env), m)
        && TokenPass(inst, env, Refreshing(inst, was, env), api.history, m.grafana, m.datasources)
        && result.after == TokenClock.RequeueAfter(res.Stored().times, env.clock.done)
      ensures result.Panicked? && Safety.Complete(inst.spec) ==> !TypedStore(api.initial)
    {
      hide OperatorTrace, AllGrounded, IsTrace, Issued, TypedStore, Conditions.Components, Reports, Divides,
        Explained, HitsNil, TokenPass, InitialStatus, TokenClock.AfterPass, TokenClock.NeedsRefresh,
        TokenClock.RequeueAfter, Persisted, ApiServer.SoFar;
      m := Marks(api.SoFar(), api.SoFar(), api.SoFar(), api.SoFar(), api.SoFar());
      var version := FetchStatus(res, env.firstNow);
      if version.None? {
        return Failed, m;
      }
      var status := res.history[version.value];
      if inst.spec.tokenDuration.None? {
        // The refresh needs the duration, and without a refresh the lifetime check does.
        return Panicked, m;
      }
      var duration := inst.spec.tokenDuration.value;
      var needsRefresh := TokenClock.NeedsRefresh(duration, status.times, env.clock.before, env.clock.left);
      var times := if needsRefresh then TokenClock.Times(Some(env.clock.gen), Some(env.clock.exp + duration))
        else status.times;
      ghost var states, log := api.history, api.log;
      var panicked, cs;
      ghost var did;
      panicked, cs, m, did := RunParts(api, inst, env, needsRefresh, status.conditions);
      RunGoesOn(inst, states, log, works, api.history, api.log, did);
      works := works + did;
      if panicked {
        api.HistoryLength();
        Safety.TypedThroughout(api.history, api.log, works);
        return Panicked, m;
      }
      TimesWritten(duration, status, env.clock, Status(cs, times));
      var ok := res.UpdateStatus(version.value, Status(cs, times));
      if !ok {
        return Failed, m;
      }
      result := Requeue(TokenClock.RequeueAfter(res.history[|res.history| - 1].times, env.clock.done));
    }
  }

  /** The refresh decision of a pass that starts from the status. */
  predicate Refreshing(inst: Instance, was: Status, env: Environment)
    requires inst.spec.tokenDuration.Some?
  {
    TokenClock.NeedsRefresh(inst.spec.tokenDuration.value, was.times, env.clock.before, env.clock.left)
  }
}
