/** What the conditions of a persisted pass say about the cluster: a part that is reported
    as ready has left its objects as the spec, the routes and the token0 tokens ask for,
    and they are still so when the pass ends. */
module Readiness {
  import opened Wrappers
  import opened GrafooApi
  import opened Cluster
  import opened Conditions
  import opened Controller
  import opened Manifests
  import DataSources
  import Convergence
  import Recovery
  import Dex
  import MariaDb
  import GrafanaCr
  import PassDivision
  import S = StoredDatasources

  // ----- what the conditions say ----------------------------------------

  /** A part never did a whole successful run and ran into an error. */
  lemma NeverBoth(part: Component, inst: Instance, env: Environment, needsRefresh: bool, before: Record, after: Record)
    ensures PartDone(part, inst, env, needsRefresh, before, after) ==>
      forall why :: !PartExcused(part, inst, env, needsRefresh, before, after, why)
  {
    hide Dex.Done, Dex.Excused, MariaDb.Done, MariaDb.Excused, MariaDb.Cleaned, MariaDb.CleanupExcused, GrafanaCr.Done,
      GrafanaCr.Excused, DataSources.Done, DataSources.Excused;
    if PartDone(part, inst, env, needsRefresh, before, after) {
      forall why ensures !PartExcused(part, inst, env, needsRefresh, before, after, why) {
        match part
        case DexReady =>
          if inst.spec.dex.value.enabled {
            Dex.DoneIsNotExcused(inst, env.routes, env.sha, needsRefresh, env.dexToken, env.uuid, before, after, why);
          }
        case MariaDbReady =>
          if inst.spec.mariadb.value.enabled {
            MariaDb.DoneIsNotExcused(inst, env.parses, env.password, env.rootPassword, before, after, why);
          } else {
            MariaDb.CleanedIsNotExcused(inst, before, after, why);
          }
        case GrafanaReady => GrafanaCr.DoneIsNotExcused(inst, env.routes, before, after, why);
        case DataSourcesReady =>
          DataSources.DoneIsNotExcused(env.digest, inst, needsRefresh, env.datasourceToken, before, after, why);
        case Available =>
      }
    }
  }

  /** The condition is true, or else false because of an error on the part's stretch of the pass. */
  ghost predicate TrueOrExcused(cs: seq<Condition>, part: Component, inst: Instance, env: Environment,
                                needsRefresh: bool, before: Record, after: Record) {
    && StandingOf(cs, part) in {Some(True), Some(False)}
    && (StandingOf(cs, part) == Some(False) <==>
          exists why :: why != NilPointer && PartExcused(part, inst, env, needsRefresh, before, after, why))
  }

  /** After a persisted pass every part that the spec has is reported as ready or not, and
      not ready exactly if it ran into an error; a part that the spec leaves out keeps its
      condition, and the resource is available in any case. */
  lemma ConditionsSay(cs: seq<Condition>, was: seq<Condition>, inst: Instance, env: Environment, needsRefresh: bool,
                      m: Marks)
    requires Reports(cs, was, inst, env, needsRefresh, m) && Explained(inst, env, needsRefresh, m)
    ensures StandingOf(cs, Available) == Some(True)
    ensures if inst.spec.dex.Some? then TrueOrExcused(cs, DexReady, inst, env, needsRefresh, m.start, m.dex)
      else StandingOf(cs, DexReady) == StandingOf(was, DexReady)
    ensures if inst.spec.mariadb.Some? then TrueOrExcused(cs, MariaDbReady, inst, env, needsRefresh, m.dex, m.mariadb)
      else StandingOf(cs, MariaDbReady) == StandingOf(was, MariaDbReady)
    ensures TrueOrExcused(cs, GrafanaReady, inst, env, needsRefresh, m.mariadb, m.grafana)
    ensures TrueOrExcused(cs, DataSourcesReady, inst, env, needsRefresh, m.grafana, m.datasources)
  {
    hide PartDone, PartExcused, StandingOf;
    NeverBoth(DexReady, inst, env, needsRefresh, m.start, m.dex);
    NeverBoth(MariaDbReady, inst, env, needsRefresh, m.dex, m.mariadb);
    NeverBoth(GrafanaReady, inst, env, needsRefresh, m.mariadb, m.grafana);
    NeverBoth(DataSourcesReady, inst, env, needsRefresh, m.grafana, m.datasources);
  }

  /** A pass starts from the stored status, and only if that has no conditions from a first
      one: all conditions unknown, the generation time as it was, the expiry an hour back. */
  lemma FirstStatus(history: seq<Status>, now: int, k: Component)
    requires history != []
    ensures var last, first := history[|history| - 1], StartingPoint(history, now);
      if last.conditions != [] then first == history
      else
        && |first| == |history| + 1 && first[..|history|] == history
        && var s := first[|history|];
           && Conditions.Components(s.conditions) == [Available, DexReady, MariaDbReady, DataSourcesReady, GrafanaReady]
           && StandingOf(s.conditions, k) == Some(Unknown)
           && s.times.gen.Some? == last.times.gen.Some?
           && s.times.exp == Some(now - 3_600_000_000_000 - (now - 3_600_000_000_000) % 1_000_000_000)
  {
    hide StandingOf, InitialConditions;
    var last := history[|history| - 1];
    if last.conditions == [] {
      NothingIsKnownAtFirst(last.times, now, k, 0, now, now);
      InitialInOrder([], ORDER);
      assert [] + ORDER == ORDER;
    }
  }

  // ----- the store along a pass -----------------------------------------

  lemma {:induction false} StoreOver(states: seq<Store>, log: seq<Op>, i: nat, j: nat)
    requires IsTrace(states, log) && i <= j <= |log|
    ensures |states| == |log| + 1 && states[j] == Exec(states[i], log[i..j])
    decreases j
  {
    TraceLength(states, log);
    if i < j {
      StoreOver(states, log, i, j - 1);
      TraceStep(states, log, j - 1);
      assert log[i..j] == log[i..j - 1] + [log[j - 1]];
      ExecSnoc(states[i], log[i..j - 1], log[j - 1]);
    } else {
      assert log[i..j] == [];
    }
  }

  lemma TraceLength(states: seq<Store>, log: seq<Op>)
    requires IsTrace(states, log)
    ensures |states| == |log| + 1
  {
  }

  /** The store when the server had seen this much. */
  ghost function At(api: ApiServer, seen: Record): Store
    reads api
    requires api.Valid() && |seen.log| <= |api.log|
  {
    TraceLength(api.history, api.log);
    api.history[|seen.log|]
  }

  lemma StretchRuns(api: ApiServer, a: Record, b: Record)
    requires api.Valid() && Later(a, b) && Later(b, api.SoFar())
    ensures At(api, b) == Exec(At(api, a), NewLandings(a, b))
  {
    hide IsTrace, Exec;
    StoreOver(api.history, api.log, |a.log|, |b.log|);
    assert api.log[|a.log|..|b.log|] == b.log[|a.log|..];
  }

  lemma AtTheEnd(api: ApiServer)
    requires api.Valid()
    ensures At(api, api.SoFar()) == api.objects
  {
  }

  lemma StretchKeeps(api: ApiServer, q: Component, inst: Instance, a: Record, b: Record, p: Component, r: Ref)
    requires api.Valid() && Stretch(q, inst, a, b) && Later(b, api.SoFar())
    requires PartRef(p, inst, r) && p != q
    ensures Unchanged(At(api, a), At(api, b), r)
  {
    hide IsTrace, Exec, PartRef, PartReplies, Unchanged, At;
    StretchRuns(api, a, b);
    var ops := NewLandings(a, b);
    forall j | 0 <= j < |ops| ensures ops[j].ref != r {
      if ops[j].ref == r {
        assert ops[j] in ops;
        PassDivision.PartsApart(inst, p, q, r);
      }
    }
    Untouched(At(api, a), ops, r);
  }

  lemma MarksLater(m: Marks, inst: Instance, before: Record, after: Record)
    requires Divides(m, inst, before, after)
    ensures m.start == before && m.datasources == after
    ensures Later(m.start, m.dex) && Later(m.dex, m.mariadb) && Later(m.mariadb, m.grafana) && Later(m.grafana, after)
    ensures Later(m.start, after) && Later(m.dex, after) && Later(m.mariadb, after)
    ensures Stretch(MariaDbReady, inst, m.dex, m.mariadb) && Stretch(GrafanaReady, inst, m.mariadb, m.grafana)
    ensures Stretch(DataSourcesReady, inst, m.grafana, after)
  {
    hide PartRef, PartReplies;
  }

  lemma UnchangedTwice(a: Store, b: Store, c: Store, r: Ref)
    requires Unchanged(a, b, r) && Unchanged(b, c, r)
    ensures Unchanged(a, c, r)
  {
  }

  /** What a part wrote is still there when the pass ends. */
  lemma KeptToTheEnd(api: ApiServer, m: Marks, inst: Instance, before: Record, part: Component, r: Ref)
    requires api.Valid() && Divides(m, inst, before, api.SoFar()) && PartRef(part, inst, r)
    requires part in {DexReady, MariaDbReady, GrafanaReady}
    ensures Later(m.start, api.SoFar()) && Later(m.dex, api.SoFar()) && Later(m.mariadb, api.SoFar())
      && Later(m.grafana, api.SoFar())
    ensures part == DexReady ==> Unchanged(At(api, m.dex), api.objects, r)
    ensures part == MariaDbReady ==> Unchanged(At(api, m.mariadb), api.objects, r)
    ensures part == GrafanaReady ==> Unchanged(At(api, m.grafana), api.objects, r)
  {
    hide IsTrace, Stretch, Divides, PartRef, Unchanged, At, Later;
    MarksLater(m, inst, before, api.SoFar());
    AtTheEnd(api);
    LaterIsEnough(api, m);
    StretchKeeps(api, DataSourcesReady, inst, m.grafana, api.SoFar(), part, r);
    if part != GrafanaReady {
      StretchKeeps(api, GrafanaReady, inst, m.mariadb, m.grafana, part, r);
      UnchangedTwice(At(api, m.mariadb), At(api, m.grafana), api.objects, r);
    }
    if part == DexReady {
      StretchKeeps(api, MariaDbReady, inst, m.dex, m.mariadb, part, r);
      UnchangedTwice(At(api, m.dex), At(api, m.mariadb), api.objects, r);
    }
  }

  lemma LaterIsEnough(api: ApiServer, m: Marks)
    requires Later(m.start, api.SoFar()) && Later(m.dex, api.SoFar()) && Later(m.mariadb, api.SoFar())
    requires Later(m.grafana, api.SoFar())
    ensures |m.start.log| <= |api.log| && |m.dex.log| <= |api.log| && |m.mariadb.log| <= |api.log|
      && |m.grafana.log| <= |api.log|
    ensures Later(api.SoFar(), api.SoFar()) && |api.SoFar().log| <= |api.log|
  {
  }

  lemma CompletedRuns(api: ApiServer, plan: Plan, a: Record, b: Record)
    requires api.Valid() && Later(a, b) && Later(b, api.SoFar()) && Completes(plan, a, b)
    ensures At(api, b) == Exec(At(api, a), plan.ops)
  {
    hide IsTrace, Exec;
    StretchRuns(api, a, b);
    assert NewLandings(a, b) == plan.ops;
  }

  // ----- Dex ------------------------------------------------------------

  /** If Dex is enabled and reported as ready, its account, token secret, service and
      ingress are in place, and after a refresh also a configuration with the token that
      was issued in this pass, and the deployment that runs on it. */
  lemma DexIsReady(api: ApiServer, m: Marks, inst: Instance, env: Environment, needsRefresh: bool, before: Record,
                   cs: seq<Condition>, was: seq<Condition>) returns (secret: string)
    requires api.Valid() && Divides(m, inst, before, api.SoFar()) && Reports(cs, was, inst, env, needsRefresh, m)
    requires inst.spec.dex.Some? && inst.spec.dex.value.enabled && StandingOf(cs, DexReady) == Some(True)
    ensures |before.log| <= |api.log|
    ensures DexBase(inst, env.routes, At(api, before), api.objects)
      && DexFront(inst, env.routes, At(api, before), api.objects)
    ensures needsRefresh ==>
      env.dexToken.Ok? && DexCore(inst, env.routes, env.sha, env.dexToken.value, secret, At(api, before), api.objects)
  {
    hide *;
    MarksLater(m, inst, before, api.SoFar());
    var read := DexDone(m, inst, env, needsRefresh, cs, was);
    var refresh := Dex.Fresh(needsRefresh, env.dexToken);
    var plan := Dex.DexPlan(inst, env.routes, env.sha, read, refresh, env.uuid);
    CompletesMeans(plan, before, m.dex);
    secret := SecretOf(inst, env, read, refresh);
    var st := StartOf(api, before);
    DexStores(inst, env.routes, env.sha, read, refresh, env.uuid, secret, st);
    CompletedRuns(api, plan, before, m.dex);
    forall r | r in DexRefs(inst) ensures Unchanged(Exec(st, plan.ops), api.objects, r) {
      DexPartRef(inst, r);
      KeptToTheEnd(api, m, inst, before, DexReady, r);
    }
    DexKept(inst, env, needsRefresh, secret, st, Exec(st, plan.ops), api.objects);
  }

  lemma StartOf(api: ApiServer, before: Record) returns (st: Store)
    requires api.Valid() && Later(before, api.SoFar())
    ensures |before.log| <= |api.log| && st == At(api, before)
  {
    st := At(api, before);
  }

  lemma DexDone(m: Marks, inst: Instance, env: Environment, needsRefresh: bool, cs: seq<Condition>, was: seq<Condition>)
    returns (read: Option<Object>)
    requires Reports(cs, was, inst, env, needsRefresh, m)
    requires inst.spec.dex.Some? && inst.spec.dex.value.enabled && StandingOf(cs, DexReady) == Some(True)
    ensures needsRefresh ==> env.dexToken.Ok? && Dex.Fresh(needsRefresh, env.dexToken) == Some(env.dexToken.value)
    ensures !needsRefresh ==> Dex.Fresh(needsRefresh, env.dexToken) == None
    ensures Completes(Dex.DexPlan(inst, env.routes, env.sha, read, Dex.Fresh(needsRefresh, env.dexToken), env.uuid),
                      m.start, m.dex)
  {
    hide StandingOf, Dex.DexPlan, Completes;
    assert PartDone(DexReady, inst, env, needsRefresh, m.start, m.dex);
    read :| Answers([Got(Dex.ClientSecretRef(inst), Ok(read))], m.start, m.dex)
      && Completes(Dex.DexPlan(inst, env.routes, env.sha, read, Dex.Fresh(needsRefresh, env.dexToken), env.uuid),
                   m.start, m.dex);
  }

  lemma SecretOf(inst: Instance, env: Environment, read: Option<Object>, refresh: Option<string>)
    returns (secret: string)
    ensures Dex.DexPlan(inst, env.routes, env.sha, read, refresh, env.uuid).end.Success? ==> Carries(read, secret)
  {
    hide Dex.DexPlan, Touches;
    DexOrder(inst, env.routes, env.sha, read, refresh, env.uuid);
    secret := if Dex.ClientSecretValue(read).Ok? then Dex.ClientSecretValue(read).value else "";
    SecretIsRead(read, secret);
  }

  lemma DexPartRef(inst: Instance, r: Ref)
    requires r in DexRefs(inst)
    ensures PartRef(DexReady, inst, r)
  {
    DexIsRemoved(inst);
    hide Own, Dex.DexRefs;
    var all := Dex.DexRefs(inst);
    assert all[0] in all && all[1] in all && all[3] in all && all[4] in all && all[5] in all && all[6] in all;
  }

  lemma HasStill(mid: Store, st': Store, r: Ref)
    requires Unchanged(mid, st', r)
    ensures forall o :: Has(mid, r, o) ==> Has(st', r, o)
  {
  }

  lemma DexKept(inst: Instance, env: Environment, needsRefresh: bool, secret: string, st: Store, mid: Store, st': Store)
    requires forall r :: r in DexRefs(inst) ==> Unchanged(mid, st', r)
    requires DexBase(inst, env.routes, st, mid) && DexFront(inst, env.routes, st, mid)
    requires needsRefresh ==>
      env.dexToken.Ok? && DexCore(inst, env.routes, env.sha, env.dexToken.value, secret, st, mid)
    ensures DexBase(inst, env.routes, st, st') && DexFront(inst, env.routes, st, st')
    ensures needsRefresh ==> DexCore(inst, env.routes, env.sha, env.dexToken.value, secret, st, st')
  {
    hide *;
    DexRefsAre(inst);
    BaseKept(inst, env.routes, st, mid, st');
    FrontKept(inst, env.routes, st, mid, st');
    if needsRefresh {
      CoreKept(inst, env.routes, env.sha, env.dexToken.value, secret, st, mid, st');
    }
  }

  lemma DexRefsAre(inst: Instance)
    ensures Own(inst, ServiceAccount, "dex") in DexRefs(inst) && Own(inst, Secret, "dex-token") in DexRefs(inst)
    ensures Own(inst, Secret, "dex") in DexRefs(inst) && Own(inst, Deployment, "dex") in DexRefs(inst)
    ensures Own(inst, Service, "dex") in DexRefs(inst) && Own(inst, Ingress, "dex") in DexRefs(inst)
  {
    hide Own;
  }

  lemma BaseKept(inst: Instance, routes: Dex.Routes, st: Store, mid: Store, st': Store)
    requires Unchanged(mid, st', Own(inst, ServiceAccount, "dex"))
      && Unchanged(mid, st', Own(inst, Secret, "dex-token"))
    requires DexBase(inst, routes, st, mid)
    ensures DexBase(inst, routes, st, st')
  {
    hide Own, Tags, Was;
  }

  lemma FrontKept(inst: Instance, routes: Dex.Routes, st: Store, mid: Store, st': Store)
    requires Unchanged(mid, st', Own(inst, Service, "dex")) && Unchanged(mid, st', Own(inst, Ingress, "dex"))
    requires DexFront(inst, routes, st, mid)
    ensures DexFront(inst, routes, st, st')
  {
    hide Own, Tags, Has, Unchanged, Was;
    HasStill(mid, st', Own(inst, Service, "dex"));
    HasStill(mid, st', Own(inst, Ingress, "dex"));
  }

  lemma CoreKept(inst: Instance, routes: Dex.Routes, sha: Dex.ConfigDigest, token: string, secret: string, st: Store,
                 mid: Store, st': Store)
    requires Unchanged(mid, st', Own(inst, Secret, "dex")) && Unchanged(mid, st', Own(inst, Deployment, "dex"))
    requires DexCore(inst, routes, sha, token, secret, st, mid)
    ensures DexCore(inst, routes, sha, token, secret, st, st')
  {
    hide Own, Tags, Was, DexConfigFor;
  }

  // ----- MariaDB --------------------------------------------------------

  /** If MariaDB is enabled and reported as ready, its storage size is a quantity, and
      all its objects are in place; `read` is what its credentials were read as. */
  lemma MariaDbIsReady(api: ApiServer, m: Marks, inst: Instance, env: Environment, needsRefresh: bool, before: Record,
                       cs: seq<Condition>, was: seq<Condition>) returns (read: Option<Object>)
    requires api.Valid() && Divides(m, inst, before, api.SoFar()) && Reports(cs, was, inst, env, needsRefresh, m)
    requires inst.spec.mariadb.Some? && inst.spec.mariadb.value.enabled && StandingOf(cs, MariaDbReady) == Some(True)
    ensures |m.dex.log| <= |api.log| && env.parses
    ensures Credentials(inst, read, env.password, env.rootPassword, At(api, m.dex), api.objects)
    ensures MariaDbRest(inst, inst.spec.mariadb.value, true, At(api, m.dex), api.objects)
    ensures Answers([Got(Own(inst, Secret, "mariadb"), Ok(read))], m.dex, m.mariadb)
  {
    hide *;
    MarksLater(m, inst, before, api.SoFar());
    read := MariaDbDone(m, inst, env, needsRefresh, cs, was);
    var plan := MariaDb.MariaDbPlan(inst, read, env.parses, env.password, env.rootPassword);
    var st := StartOf(api, m.dex);
    MariaDbStores(inst, read, env.parses, env.password, env.rootPassword, st);
    CompletedRuns(api, plan, m.dex, m.mariadb);
    CompletesMeans(plan, m.dex, m.mariadb);
    forall r | r in MariaDbRefs(inst) ensures Unchanged(Exec(st, plan.ops), api.objects, r) {
      MariaDbPartRef(inst, r);
      KeptToTheEnd(api, m, inst, before, MariaDbReady, r);
    }
    MariaDbKept(inst, env, read, st, Exec(st, plan.ops), api.objects);
  }

  lemma CompletesMeans(plan: Plan, a: Record, b: Record)
    requires Completes(plan, a, b)
    ensures plan.end.Success?
  {
  }

  lemma MariaDbDone(m: Marks, inst: Instance, env: Environment, needsRefresh: bool, cs: seq<Condition>,
                    was: seq<Condition>)
    returns (read: Option<Object>)
    requires Reports(cs, was, inst, env, needsRefresh, m)
    requires inst.spec.mariadb.Some? && inst.spec.mariadb.value.enabled && StandingOf(cs, MariaDbReady) == Some(True)
    ensures Completes(MariaDb.MariaDbPlan(inst, read, env.parses, env.password, env.rootPassword), m.dex, m.mariadb)
    ensures Answers([Got(Own(inst, Secret, "mariadb"), Ok(read))], m.dex, m.mariadb)
  {
    hide StandingOf, MariaDb.MariaDbPlan, Completes, Answers;
    assert PartDone(MariaDbReady, inst, env, needsRefresh, m.dex, m.mariadb);
    read :| Answers([Got(MariaDb.SecretRef(inst), Ok(read))], m.dex, m.mariadb)
      && Completes(MariaDb.MariaDbPlan(inst, read, env.parses, env.password, env.rootPassword), m.dex, m.mariadb);
  }

  lemma MariaDbPartRef(inst: Instance, r: Ref)
    requires r in MariaDbRefs(inst)
    ensures PartRef(MariaDbReady, inst, r)
  {
    MariaDbIsRemoved(inst);
    hide Own, MariaDb.MariaDbRefs;
    var all := MariaDb.MariaDbRefs(inst);
    assert all[0] in all && all[1] in all && all[2] in all && all[3] in all && all[4] in all;
  }

  lemma MariaDbKept(inst: Instance, env: Environment, read: Option<Object>, st: Store, mid: Store, st': Store)
    requires inst.spec.mariadb.Some? && (forall r :: r in MariaDbRefs(inst) ==> Unchanged(mid, st', r))
    requires Credentials(inst, read, env.password, env.rootPassword, st, mid)
    requires MariaDbRest(inst, inst.spec.mariadb.value, true, st, mid)
    ensures Credentials(inst, read, env.password, env.rootPassword, st, st')
    ensures MariaDbRest(inst, inst.spec.mariadb.value, true, st, st')
  {
    hide Own, Tags, Relabelled, Has, Unchanged, Was;
    assert Own(inst, Secret, "mariadb") in MariaDbRefs(inst)
      && Own(inst, ServiceAccount, "mariadb") in MariaDbRefs(inst);
    assert Own(inst, PersistentVolumeClaim, "mariadb") in MariaDbRefs(inst);
    assert Own(inst, Service, "mariadb") in MariaDbRefs(inst) && Own(inst, Deployment, "mariadb") in MariaDbRefs(inst);
    hide MariaDbRefs;
    HasStill(mid, st', Own(inst, Secret, "mariadb"));
    HasStill(mid, st', Own(inst, ServiceAccount, "mariadb"));
    HasStill(mid, st', Own(inst, PersistentVolumeClaim, "mariadb"));
    HasStill(mid, st', Own(inst, Service, "mariadb"));
    HasStill(mid, st', Own(inst, Deployment, "mariadb"));
    if Unchanged(st, mid, Own(inst, Secret, "mariadb")) {
      UnchangedTwice(st, mid, st', Own(inst, Secret, "mariadb"));
    }
  }

  /** If MariaDB is disabled and reported as ready, each of its five objects was looked up in
      this pass, and those that were found are gone when it ends. */
  lemma MariaDbIsGone(api: ApiServer, m: Marks, inst: Instance, env: Environment, needsRefresh: bool, before: Record,
                      cs: seq<Condition>, was: seq<Condition>, k: nat) returns (found: seq<Option<Object>>)
    requires api.Valid() && Divides(m, inst, before, api.SoFar()) && Reports(cs, was, inst, env, needsRefresh, m)
    requires inst.spec.mariadb.Some? && !inst.spec.mariadb.value.enabled && StandingOf(cs, MariaDbReady) == Some(True)
    requires k < 5
    ensures |found| == 5
    ensures var r := [Own(inst, Deployment, "mariadb"), Own(inst, Service, "mariadb"),
                      Own(inst, PersistentVolumeClaim, "mariadb"), Own(inst, Secret, "mariadb"),
                      Own(inst, ServiceAccount, "mariadb")][k];
      && |m.mariadb.replies| == |m.dex.replies| + 5 && m.mariadb.replies[|m.dex.replies| + k] == Got(r, Ok(found[k]))
      && (found[k].Some? ==> r !in api.objects)
  {
    hide *;
    MarksLater(m, inst, before, api.SoFar());
    found := CleanupDone(m, inst, env, needsRefresh, cs, was);
    var refs := MariaDb.MariaDbRefs(inst);
    var plan := Plan(MariaDb.Removals(refs, found), Success);
    MariaDbIsRemoved(inst);
    var st := StartOf(api, m.dex);
    CompletedRuns(api, plan, m.dex, m.mariadb);
    if found[k].Some? {
      RemovedAreGone(refs, found, st, k);
    }
    LookedUp(refs, found, m, k);
    RemovedPartRef(inst, k);
    KeptToTheEnd(api, m, inst, before, MariaDbReady, refs[k]);
    StaysAway(Exec(st, plan.ops), api.objects, refs[k]);
  }

  lemma CleanupDone(m: Marks, inst: Instance, env: Environment, needsRefresh: bool, cs: seq<Condition>,
                    was: seq<Condition>)
    returns (found: seq<Option<Object>>)
    requires Reports(cs, was, inst, env, needsRefresh, m)
    requires inst.spec.mariadb.Some? && !inst.spec.mariadb.value.enabled && StandingOf(cs, MariaDbReady) == Some(True)
    ensures |found| == |MariaDb.MariaDbRefs(inst)|
    ensures Answers(MariaDb.Lookups(MariaDb.MariaDbRefs(inst), found), m.dex, m.mariadb)
    ensures Completes(Plan(MariaDb.Removals(MariaDb.MariaDbRefs(inst), found), Success), m.dex, m.mariadb)
  {
    hide StandingOf, Completes, Answers, MariaDb.Lookups, MariaDb.Removals, MariaDb.MariaDbRefs;
    assert PartDone(MariaDbReady, inst, env, needsRefresh, m.dex, m.mariadb);
    found :| |found| == |MariaDb.MariaDbRefs(inst)|
      && Answers(MariaDb.Lookups(MariaDb.MariaDbRefs(inst), found), m.dex, m.mariadb)
      && Completes(Plan(MariaDb.Removals(MariaDb.MariaDbRefs(inst), found), Success), m.dex, m.mariadb);
  }

  lemma LookedUp(refs: seq<Ref>, found: seq<Option<Object>>, m: Marks, k: nat)
    requires |refs| == |found| && k < |refs| && Answers(MariaDb.Lookups(refs, found), m.dex, m.mariadb)
    ensures |m.mariadb.replies| == |m.dex.replies| + |refs|
    ensures m.mariadb.replies[|m.dex.replies| + k] == Got(refs[k], Ok(found[k]))
  {
  }

  lemma RemovedPartRef(inst: Instance, k: nat)
    requires k < |MariaDb.MariaDbRefs(inst)|
    ensures PartRef(MariaDbReady, inst, MariaDb.MariaDbRefs(inst)[k])
  {
    hide MariaDb.MariaDbRefs;
  }

  lemma StaysAway(mid: Store, st': Store, r: Ref)
    requires Unchanged(mid, st', r)
    ensures r !in mid ==> r !in st'
  {
  }

  lemma {:induction false} RemovedAreGone(refs: seq<Ref>, found: seq<Option<Object>>, st: Store, k: nat)
    requires |refs| == |found| && k < |refs| && found[k].Some?
    ensures refs[k] !in Exec(st, MariaDb.Removals(refs, found))
    decreases |refs|
  {
    var n := |refs| - 1;
    var before := MariaDb.Removals(refs[..n], found[..n]);
    ExecSnoc(st, before, Delete(refs[n]));
    if k < n {
      RemovedAreGone(refs[..n], found[..n], st, k);
    }
  }

  // ----- Grafana --------------------------------------------------------

  /** If Grafana is reported as ready, it is configured with the client secret and the
      database that were read, its roles are in place, and so is a binding for every
      logging role that the lookups found. */
  lemma GrafanaIsReady(api: ApiServer, m: Marks, inst: Instance, env: Environment, needsRefresh: bool, before: Record,
                       cs: seq<Condition>, was: seq<Condition>)
    returns (secret: string, database: map<string, string>, db: Option<Object>, answers: seq<GrafanaCr.Answer>)
    requires api.Valid() && Divides(m, inst, before, api.SoFar()) && Reports(cs, was, inst, env, needsRefresh, m)
    requires StandingOf(cs, GrafanaReady) == Some(True)
    ensures |m.mariadb.log| <= |api.log| && |answers| == 3 && DatabaseIs(inst, db, database)
    ensures var st := At(api, m.mariadb);
      && GrafanaIs(inst, env.routes, secret, database, st, api.objects) && RolesAre(inst, st, api.objects)
      && forall k :: 0 <= k < 3 && answers[k].Ok? && answers[k].value.Some? ==>
           var name := LoggingName([GrafanaCr.Application, GrafanaCr.Infrastructure, GrafanaCr.Audit][k]);
           BindingIs(inst, name, name, st, api.objects)
  {
    hide *;
    MarksLater(m, inst, before, api.SoFar());
    var read;
    read, db, answers := GrafanaDone(m, inst, env, needsRefresh, cs, was);
    var found := GrafanaCr.FoundRoles(answers);
    var plan := GrafanaCr.GrafanaPlan(inst, env.routes, read, db, found);
    secret, database := GrafanaReads(inst, env, read, db, found);
    var st := StartOf(api, m.mariadb);
    FoundDistinct(answers);
    CompletesMeans(plan, m.mariadb, m.grafana);
    GrafanaStores(inst, env.routes, read, db, found, secret, database, st);
    CompletedRuns(api, plan, m.mariadb, m.grafana);
    forall r | r in GrafanaTouched(inst, found) ensures Unchanged(Exec(st, plan.ops), api.objects, r) {
      GrafanaPartRef(inst, found, r);
      KeptToTheEnd(api, m, inst, before, GrafanaReady, r);
    }
    GrafanaKept(inst, env, secret, database, found, st, Exec(st, plan.ops), api.objects);
    AllBound(inst, answers, st, api.objects);
  }

  lemma GrafanaDone(m: Marks, inst: Instance, env: Environment, needsRefresh: bool, cs: seq<Condition>,
                    was: seq<Condition>)
    returns (read: Option<Object>, db: Option<Object>, answers: seq<GrafanaCr.Answer>)
    requires Reports(cs, was, inst, env, needsRefresh, m) && StandingOf(cs, GrafanaReady) == Some(True)
    ensures |answers| == 3 == |GrafanaCr.LOGGING_ROLES|
    ensures Completes(GrafanaCr.GrafanaPlan(inst, env.routes, read, db, GrafanaCr.FoundRoles(answers)), m.mariadb,
                      m.grafana)
  {
    hide StandingOf, GrafanaCr.GrafanaPlan, Completes, GrafanaCr.FoundRoles, Answers, GrafanaCr.SecretLookups,
      GrafanaCr.RoleLookups;
    assert PartDone(GrafanaReady, inst, env, needsRefresh, m.mariadb, m.grafana);
    read, db, answers :| |answers| == |GrafanaCr.LOGGING_ROLES|
      && Answers(GrafanaCr.SecretLookups(inst, read, db) + GrafanaCr.RoleLookups(answers), m.mariadb, m.grafana)
      && Completes(GrafanaCr.GrafanaPlan(inst, env.routes, read, db, GrafanaCr.FoundRoles(answers)), m.mariadb,
                   m.grafana);
  }

  lemma GrafanaReads(inst: Instance, env: Environment, read: Option<Object>, db: Option<Object>,
                     found: seq<GrafanaCr.LoggingRole>) returns (secret: string, database: map<string, string>)
    ensures GrafanaCr.GrafanaPlan(inst, env.routes, read, db, found).end.Success? ==>
      Carries(read, secret) && DatabaseIs(inst, db, database)
  {
    hide GrafanaCr.DatabaseConfig, DatabaseIs;
    var config := GrafanaCr.DatabaseConfig(inst, db);
    secret := if Dex.ClientSecretValue(read).Ok? then Dex.ClientSecretValue(read).value else "";
    database := if config.Ok? then config.value else map[];
    SecretIsRead(read, secret);
    Manifests.DatabaseMatches(inst, db, database);
  }

  lemma FoundDistinct(answers: seq<GrafanaCr.Answer>)
    requires |answers| == 3 == |GrafanaCr.LOGGING_ROLES|
    ensures Distinct(GrafanaCr.FoundRoles(answers))
  {
    GrafanaCr.FoundRolesIff(answers, 0);
  }

  lemma GrafanaPartRef(inst: Instance, found: seq<GrafanaCr.LoggingRole>, r: Ref)
    requires r in GrafanaTouched(inst, found)
    ensures PartRef(GrafanaReady, inst, r)
  {
  }

  lemma GrafanaKept(inst: Instance, env: Environment, secret: string, database: map<string, string>,
                    found: seq<GrafanaCr.LoggingRole>, st: Store, mid: Store, st': Store)
    requires forall r :: r in GrafanaTouched(inst, found) ==> Unchanged(mid, st', r)
    requires GrafanaIs(inst, env.routes, secret, database, st, mid) && RolesAre(inst, st, mid)
    requires forall role :: role in found ==> BindingIs(inst, LoggingName(role), LoggingName(role), st, mid)
    ensures GrafanaIs(inst, env.routes, secret, database, st, st') && RolesAre(inst, st, st')
    ensures forall role :: role in found ==> BindingIs(inst, LoggingName(role), LoggingName(role), st, st')
  {
    hide *;
    TouchedAre(inst, found);
    ResourceKept(inst, env.routes, secret, database, st, mid, st');
    RolesKept(inst, st, mid, st');
    forall role | role in found ensures BindingIs(inst, LoggingName(role), LoggingName(role), st, st') {
      BindingKept(inst, LoggingName(role), LoggingName(role), st, mid, st');
    }
  }

  lemma TouchedAre(inst: Instance, found: seq<GrafanaCr.LoggingRole>)
    ensures var refs := GrafanaTouched(inst, found);
      && GrafanaOf(inst) in refs
      && Wide(inst, ClusterRole, "auth-reviewer") in refs && Wide(inst, ClusterRoleBinding, "auth-reviewer") in refs
      && Wide(inst, ClusterRole, "tempostack-traces-reader") in refs
      && Wide(inst, ClusterRoleBinding, "tempostack-traces-reader") in refs
      && Wide(inst, ClusterRoleBinding, "cluster-monitoring-view") in refs
      && forall role :: role in found ==> Wide(inst, ClusterRoleBinding, LoggingName(role)) in refs
  {
    hide Wide, LoggingName;
    var refs := GrafanaTouched(inst, found);
    assert refs[0] in refs && refs[1] in refs && refs[2] in refs && refs[3] in refs && refs[4] in refs
      && refs[5] in refs;
    forall role | role in found ensures Wide(inst, ClusterRoleBinding, LoggingName(role)) in refs {
      var i :| 0 <= i < |found| && found[i] == role;
      assert refs[6 + i] == Wide(inst, ClusterRoleBinding, LoggingName(role));
    }
  }

  lemma ResourceKept(inst: Instance, routes: Dex.Routes, secret: string, database: map<string, string>, st: Store,
                     mid: Store, st': Store)
    requires Unchanged(mid, st', GrafanaOf(inst)) && GrafanaIs(inst, routes, secret, database, st, mid)
    ensures GrafanaIs(inst, routes, secret, database, st, st')
  {
    hide GrafanaOf, Tags, Has, Unchanged, Was;
    HasStill(mid, st', GrafanaOf(inst));
  }

  lemma BindingKept(inst: Instance, part: string, role: string, st: Store, mid: Store, st': Store)
    requires Unchanged(mid, st', Wide(inst, ClusterRoleBinding, part)) && BindingIs(inst, part, role, st, mid)
    ensures BindingIs(inst, part, role, st, st')
  {
    hide Wide, Tags, Has, Unchanged, Was;
    HasStill(mid, st', Wide(inst, ClusterRoleBinding, part));
  }

  lemma RoleKept(inst: Instance, part: string, resources: seq<string>, verbs: seq<string>, st: Store, mid: Store,
                 st': Store)
    requires Unchanged(mid, st', Wide(inst, ClusterRole, part)) && RoleIs(inst, part, resources, verbs, st, mid)
    ensures RoleIs(inst, part, resources, verbs, st, st')
  {
    hide Wide, Tags, Has, Unchanged, Was;
    HasStill(mid, st', Wide(inst, ClusterRole, part));
  }

  lemma RolesKept(inst: Instance, st: Store, mid: Store, st': Store)
    requires Unchanged(mid, st', Wide(inst, ClusterRole, "auth-reviewer"))
    requires Unchanged(mid, st', Wide(inst, ClusterRoleBinding, "auth-reviewer"))
    requires Unchanged(mid, st', Wide(inst, ClusterRole, "tempostack-traces-reader"))
    requires Unchanged(mid, st', Wide(inst, ClusterRoleBinding, "tempostack-traces-reader"))
    requires Unchanged(mid, st', Wide(inst, ClusterRoleBinding, "cluster-monitoring-view"))
    requires RolesAre(inst, st, mid)
    ensures RolesAre(inst, st, st')
  {
    hide Wide, Unchanged, RoleIs, BindingIs;
    RoleKept(inst, "auth-reviewer", ["subjectaccessreviews", "tokenreviews"], ["create"], st, mid, st');
    BindingKept(inst, "auth-reviewer", inst.name + "-" + "auth-reviewer", st, mid, st');
    RoleKept(inst, "tempostack-traces-reader", ["dev"], ["get"], st, mid, st');
    BindingKept(inst, "tempostack-traces-reader", inst.name + "-" + "tempostack-traces-reader", st, mid, st');
    BindingKept(inst, "cluster-monitoring-view", "cluster-monitoring-view", st, mid, st');
  }

  lemma AllBound(inst: Instance, answers: seq<GrafanaCr.Answer>, st: Store, st': Store)
    requires |answers| == 3 == |GrafanaCr.LOGGING_ROLES|
    requires forall role :: role in GrafanaCr.FoundRoles(answers) ==>
      BindingIs(inst, LoggingName(role), LoggingName(role), st, st')
    ensures forall k :: 0 <= k < 3 && answers[k].Ok? && answers[k].value.Some? ==>
      var name := LoggingName([GrafanaCr.Application, GrafanaCr.Infrastructure, GrafanaCr.Audit][k]);
      BindingIs(inst, name, name, st, st')
  {
    hide BindingIs, LoggingName;
    GrafanaCr.FoundRolesIff(answers, 0);
    GrafanaCr.FoundRolesIff(answers, 1);
    GrafanaCr.FoundRolesIff(answers, 2);
  }

  // ----- datasources ----------------------------------------------------

  /** If the datasources are reported as ready and their keys are apart, every entry whose
      name no later one repeats is stored under its own name, whatever was listed; after a
      refresh, with the token that was issued in this pass. */
  lemma DataSourcesAreReady(api: ApiServer, m: Marks, inst: Instance, env: Environment, needsRefresh: bool,
                            before: Record, cs: seq<Condition>, was: seq<Condition>, i: nat) returns (token: string)
    requires api.Valid() && Divides(m, inst, before, api.SoFar()) && Reports(cs, was, inst, env, needsRefresh, m)
    requires StandingOf(cs, DataSourcesReady) == Some(True)
    requires S.KeysApart(env.digest, inst.spec.datasources)
    requires i < |inst.spec.datasources| && S.LastOfItsName(inst.spec.datasources, i)
    ensures needsRefresh ==>
      env.datasourceToken.Ok? && (env.datasourceToken.value != "" ==> token == env.datasourceToken.value)
    ensures var ds := inst.spec.datasources[i];
      var r := Ref(GrafanaDatasource, inst.namespace, S.ObjectName(env.digest, inst, ds.name));
      r in api.objects && S.StoredAs(api.objects[r], inst, ds, token)
  {
    hide *;
    MarksLater(m, inst, before, api.SoFar());
    var view, order := DataSourcesDone(m, inst, env, needsRefresh, cs, was);
    var token0 := DataSources.Fresh(needsRefresh, env.datasourceToken);
    var st := StartOf(api, m.grafana);
    var plan := DataSources.PassPlan(env.digest, inst, token0, view, order);
    AtTheEnd(api);
    SoFarIsLater(api);
    CompletedRuns(api, plan, m.grafana, api.SoFar());
    CompletesMeans(plan, m.grafana, api.SoFar());
    token := StoredByPass(inst, env, token0, view, order, st, i);
  }

  lemma SoFarIsLater(api: ApiServer)
    requires api.Valid()
    ensures Later(api.SoFar(), api.SoFar()) && |api.SoFar().log| <= |api.log|
  {
  }

  lemma DataSourcesDone(m: Marks, inst: Instance, env: Environment, needsRefresh: bool, cs: seq<Condition>,
                        was: seq<Condition>) returns (view: Store, order: seq<Ref>)
    requires Reports(cs, was, inst, env, needsRefresh, m) && StandingOf(cs, DataSourcesReady) == Some(True)
    ensures needsRefresh ==>
      env.datasourceToken.Ok? && DataSources.Fresh(needsRefresh, env.datasourceToken) == env.datasourceToken.value
    ensures DataSources.Enumerates(order, DataSources.Listed(view, inst))
    ensures var token0 := DataSources.Fresh(needsRefresh, env.datasourceToken);
      Completes(DataSources.PassPlan(env.digest, inst, token0, view, order), m.grafana, m.datasources)
  {
    hide StandingOf, DataSources.PassPlan, Completes, DataSources.Enumerates, DataSources.Listed;
    assert PartDone(DataSourcesReady, inst, env, needsRefresh, m.grafana, m.datasources);
    view, order :| Answers([Listing(Ok(view))], m.grafana, m.datasources)
      && DataSources.Enumerates(order, DataSources.Listed(view, inst))
      && Completes(DataSources.PassPlan(env.digest, inst, DataSources.Fresh(needsRefresh, env.datasourceToken), view,
                                        order),
                   m.grafana, m.datasources);
  }

  /** A completed pass stores the entry, however stale its listing was. */
  lemma StoredByPass(inst: Instance, env: Environment, token0: string, view: Store, order: seq<Ref>, st: Store, i: nat)
    returns (token: string)
    requires DataSources.PassPlan(env.digest, inst, token0, view, order).end.Success?
    requires S.KeysApart(env.digest, inst.spec.datasources)
    requires i < |inst.spec.datasources| && S.LastOfItsName(inst.spec.datasources, i)
    ensures token0 != "" ==> token == token0
    ensures var st', ds := Exec(st, DataSources.PassPlan(env.digest, inst, token0, view, order).ops),
      inst.spec.datasources[i];
      var r := Ref(GrafanaDatasource, inst.namespace, S.ObjectName(env.digest, inst, ds.name));
      r in st' && S.StoredAs(st'[r], inst, ds, token)
  {
    hide *;
    var d, entries := env.digest, inst.spec.datasources;
    var ds := entries[i];
    var up := DataSources.UpsertPlan(d, inst, entries, token0, view);
    var p := Recovery.Pass(Some(token0), 0, order, |DataSources.PassPlan(d, inst, token0, view, order).ops|);
    token := EntryToken(d, inst, i, token0, view);
    S.KeyOrder(d, inst, i);
    S.StoredUnder(d, inst, ds);
    EntryIsKnown(d, inst, i);
    Recovery.PassEnds(d, inst, token0, view, order);
    Convergence.LastEntryWins(d, inst, entries, token0, view, st, i);
    WholePass(d, inst, token0, view, order, st, p);
    Recovery.NamedSurvivesDeletion(d, inst, view, st, p, DataSources.StoredRef(d, inst, ds));
    SameObject(Exec(st, up.ops), Exec(st, DataSources.PassPlan(d, inst, token0, view, order).ops),
               DataSources.StoredRef(d, inst, ds), inst, ds, token);
  }

  lemma EntryToken(d: Digest, inst: Instance, i: nat, token0: string, view: Store) returns (token: string)
    requires i < |inst.spec.datasources|
    ensures token == Convergence.TokenFor(d, inst, inst.spec.datasources, i, token0, view)
    ensures token0 != "" ==> token == token0
  {
    token := Convergence.TokenFor(d, inst, inst.spec.datasources, i, token0, view);
  }

  lemma EntryIsKnown(d: Digest, inst: Instance, i: nat)
    requires i < |inst.spec.datasources| && S.LastOfItsName(inst.spec.datasources, i)
    ensures S.KnownType(inst.spec.datasources[i])
    ensures Convergence.Names(d, inst, inst.spec.datasources, DataSources.StoredRef(d, inst, inst.spec.datasources[i]))
  {
    hide DataSources.StoredRef;
    S.StoredUnder(d, inst, inst.spec.datasources[i]);
  }

  lemma WholePass(d: Digest, inst: Instance, token0: string, view: Store, order: seq<Ref>, st: Store, p: Recovery.Pass)
    requires DataSources.PassPlan(d, inst, token0, view, order).end.Success?
    requires p == Recovery.Pass(Some(token0), 0, order, |DataSources.PassPlan(d, inst, token0, view, order).ops|)
    ensures Recovery.StartToken(p) == token0 && Recovery.Completed(d, inst, view, p)
    ensures Recovery.AfterPass(d, inst, view, st, p) == Exec(st, DataSources.PassPlan(d, inst, token0, view, order).ops)
  {
    hide DataSources.PassPlan, Exec;
    var ops := DataSources.PassPlan(d, inst, token0, view, order).ops;
    assert ops[..|ops|] == ops;
  }

  lemma SameObject(mid: Store, st': Store, r: Ref, inst: Instance, ds: DataSource, token: string)
    requires r in mid && DataSources.Renders(mid[r], inst, ds, token) && (r in st' <==> r in mid) && st'[r] == mid[r]
    requires S.KnownType(ds)
    ensures r in st' && S.StoredAs(st'[r], inst, ds, token)
  {
    hide *;
    S.RendersIff(mid[r], inst, ds, token);
  }
}
