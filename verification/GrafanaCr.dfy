/** The Grafana resource that the grafana operator runs, and the cluster roles of
    its service account. */
module GrafanaCr {
  import opened Wrappers
  import opened GrafooApi
  import opened Cluster
  import opened Naming
  import Dex
  import MariaDb

  const AUTH_REVIEWER := "auth-reviewer"
  const TRACES_READER := "tempostack-traces-reader"
  const MONITORING_VIEW := "cluster-monitoring-view"

  datatype LoggingRole = Application | Infrastructure | Audit

  const LOGGING_ROLES := [Application, Infrastructure, Audit]

  function RoleName(role: LoggingRole): string {
    match role
    case Application => "cluster-logging-application-view"
    case Infrastructure => "cluster-logging-infrastructure-view"
    case Audit => "cluster-logging-audit-view"
  }

  // ----- the writes -----------------------------------------------------

  function GrafanaRef(inst: Instance): Ref { Ref(Grafana, inst.namespace, inst.name) }

  /** The value of a secret's key; a missing one reads as empty. */
  function Field(o: Object, k: string): string {
    if o.body.SecretData? && k in o.body.data then o.body.data[k] else ""
  }

  /** The database section, from the MariaDB credentials as they were read. */
  function DatabaseConfig(inst: Instance, read: Option<Object>): Result<map<string, string>, Reason> {
    match inst.spec.mariadb
    case None => Err(NilPointer)
    case Some(db) =>
      if !db.enabled then Ok(map["type" := "sqlite3"])
      else match read
        case None => Err(NotFound)
        case Some(o) =>
          Ok(map["type" := "mysql",
                 "url" := "mysql://" + Field(o, "database-user") + ":" + Field(o, "database-password") + "@" +
                          ComponentName(inst.name, "mariadb") + ":3306/" + Field(o, "database-name")])
  }

  function GrafanaOp(inst: Instance, routes: Dex.Routes, clientSecret: string, database: map<string, string>): Op {
    Upsert(GrafanaRef(inst), BLANK,
           Patch(Some(LabelsFor(inst, "grafana")), None, Some(inst.name),
                 Some(GrafanaSpec(inst.spec.version, inst.spec.replicas, routes.grafanaHost, routes.grafanaUri,
                                  clientSecret, routes.dexUri, database))))
  }

  /** Cluster-scoped objects have no owner. */
  function RoleOp(inst: Instance, component: string, resources: seq<string>, verbs: seq<string>): Op {
    Upsert(ClusterRef(inst, ClusterRole, component), BLANK,
           Patch(Some(LabelsFor(inst, "grafana")), None, None, Some(RoleRules(resources, verbs))))
  }

  function BindingOp(inst: Instance, component: string, role: string): Op {
    Upsert(ClusterRef(inst, ClusterRoleBinding, component), BLANK,
           Patch(Some(LabelsFor(inst, "grafana")), None, None,
                 Some(RoleBinding(ComponentName(inst.name, "sa"), inst.namespace, role))))
  }

  function RoleOps(inst: Instance): seq<Op> {
    [RoleOp(inst, AUTH_REVIEWER, ["subjectaccessreviews", "tokenreviews"], ["create"]),
     BindingOp(inst, AUTH_REVIEWER, ComponentName(inst.name, AUTH_REVIEWER)),
     RoleOp(inst, TRACES_READER, ["dev"], ["get"]),
     BindingOp(inst, TRACES_READER, ComponentName(inst.name, TRACES_READER)),
     BindingOp(inst, MONITORING_VIEW, MONITORING_VIEW)]
  }

  /** A binding for each logging role that was found. */
  function LoggingOps(inst: Instance, found: seq<LoggingRole>): seq<Op> {
    seq(|found|, i requires 0 <= i < |found| => BindingOp(inst, RoleName(found[i]), RoleName(found[i])))
  }

  // ----- the plan of a pass ---------------------------------------------

  function GrafanaPlan(inst: Instance, routes: Dex.Routes, secret: Option<Object>, db: Option<Object>,
                       found: seq<LoggingRole>): Plan {
    match Dex.ClientSecretValue(secret)
    case Err(why) => Plan([], Failure(why))
    case Ok(clientSecret) =>
      match DatabaseConfig(inst, db)
      case Err(why) => Plan([], Failure(why))
      case Ok(database) =>
        Plan([GrafanaOp(inst, routes, clientSecret, database)] + RoleOps(inst) + LoggingOps(inst, found), Success)
  }

  /** The database section is read from the MariaDB spec, which may be missing. */
  lemma NilPointerOnlyWithoutMariaDb(inst: Instance, routes: Dex.Routes, secret: Option<Object>, db: Option<Object>,
                                     found: seq<LoggingRole>)
    ensures GrafanaPlan(inst, routes, secret, db, found).end == Failure(NilPointer) <==>
      inst.spec.mariadb.None? && Dex.ClientSecretValue(secret).Ok?
  {
  }

  /** The cluster-scoped objects of an instance. */
  function RoleRefs(inst: Instance): set<Ref> {
    {ClusterRef(inst, ClusterRole, AUTH_REVIEWER), ClusterRef(inst, ClusterRole, TRACES_READER),
     ClusterRef(inst, ClusterRoleBinding, AUTH_REVIEWER), ClusterRef(inst, ClusterRoleBinding, TRACES_READER),
     ClusterRef(inst, ClusterRoleBinding, MONITORING_VIEW),
     ClusterRef(inst, ClusterRoleBinding, RoleName(Application)),
     ClusterRef(inst, ClusterRoleBinding, RoleName(Infrastructure)),
     ClusterRef(inst, ClusterRoleBinding, RoleName(Audit))}
  }

  lemma RoleOpRefs(inst: Instance, found: seq<LoggingRole>, op: Op)
    requires op in RoleOps(inst) || op in LoggingOps(inst, found)
    ensures op.Upsert? && op.ref in RoleRefs(inst) && op.ref.kind in {ClusterRole, ClusterRoleBinding}
  {
    hide LabelsFor, RoleName;
    if op in LoggingOps(inst, found) {
      var i :| 0 <= i < |found| && LoggingOps(inst, found)[i] == op;
      match found[i] { case Application => case Infrastructure => case Audit => }
    }
  }

  /** A planned operation writes the Grafana resource with the client secret that
      was read, or one of the cluster-scoped objects. */
  lemma PlannedOps(inst: Instance, routes: Dex.Routes, secret: Option<Object>, db: Option<Object>,
                   found: seq<LoggingRole>, op: Op)
    requires op in GrafanaPlan(inst, routes, secret, db, found).ops
    ensures Dex.ClientSecretValue(secret).Ok?
    ensures (exists database :: op == GrafanaOp(inst, routes, Dex.ClientSecretValue(secret).value, database))
      || (op.Upsert? && op.ref in RoleRefs(inst) && op.ref.kind in {ClusterRole, ClusterRoleBinding})
  {
    hide RoleOps, LoggingOps, GrafanaOp, RoleRefs, DatabaseConfig;
    var plan := GrafanaPlan(inst, routes, secret, db, found);
    if op in RoleOps(inst) || op in LoggingOps(inst, found) {
      RoleOpRefs(inst, found, op);
    } else {
      assert op == plan.ops[0];
    }
  }

  // ----- the reads of a pass --------------------------------------------

  type Answer = Result<Option<Object>, Reason>

  /** The logging roles are looked up in order. */
  function RoleLookups(answers: seq<Answer>): seq<Reply>
    requires |answers| <= |LOGGING_ROLES|
  {
    seq(|answers|, i requires 0 <= i < |answers| => Got(Ref(ClusterRole, "", RoleName(LOGGING_ROLES[i])), answers[i]))
  }

  /** The roles that were found, in order; an unreadable role counts as missing. */
  function FoundRoles(answers: seq<Answer>): seq<LoggingRole>
    requires |answers| <= |LOGGING_ROLES|
  {
    if answers == [] then []
    else
      var n := |answers| - 1;
      if answers[n].Ok? && answers[n].value.Some? then FoundRoles(answers[..n]) + [LOGGING_ROLES[n]]
        else FoundRoles(answers[..n])
  }

  /** A role is found exactly when its lookup succeeded, and once at most. */
  lemma {:induction false} FoundRolesIff(answers: seq<Answer>, k: nat)
    requires |answers| <= |LOGGING_ROLES| && k < |LOGGING_ROLES|
    ensures LOGGING_ROLES[k] in FoundRoles(answers) <==> k < |answers| && answers[k].Ok? && answers[k].value.Some?
    ensures forall i, j :: 0 <= i < j < |FoundRoles(answers)| ==> FoundRoles(answers)[i] != FoundRoles(answers)[j]
  {
    if answers != [] {
      var n := |answers| - 1;
      FoundRolesIff(answers[..n], k);
      FoundRolesIff(answers[..n], n);
    }
  }

  /** The credentials are read only if MariaDB is enabled. */
  predicate ReadsCredentials(inst: Instance) { inst.spec.mariadb.Some? && inst.spec.mariadb.value.enabled }

  function SecretLookups(inst: Instance, secret: Option<Object>, db: Option<Object>): seq<Reply> {
    [Got(Dex.ClientSecretRef(inst), Ok(secret))] +
      if ReadsCredentials(inst) then [Got(MariaDb.SecretRef(inst), Ok(db))] else []
  }

  /** A whole pass lies between the two moments: the secrets and all roles were looked
      up, and the plan for what was found was carried out to a successful end. */
  ghost predicate Done(inst: Instance, routes: Dex.Routes, before: Record, after: Record) {
    exists secret, db, answers: seq<Answer> ::
      && |answers| == |LOGGING_ROLES|
      && Answers(SecretLookups(inst, secret, db) + RoleLookups(answers), before, after)
      && Completes(GrafanaPlan(inst, routes, secret, db, FoundRoles(answers)), before, after)
  }

  /** Why a pass may fail: a write did not land; or, before any write, a secret could not be
      read, the client secret was unusable, or with it the database could not be configured. */
  ghost predicate Excused(inst: Instance, before: Record, after: Record, why: Reason) {
    || (WriteFailed(before, after) && why != NilPointer)
    || (after.log == before.log && SecretsExcuse(inst, before, after, why))
  }

  ghost predicate SecretsExcuse(inst: Instance, before: Record, after: Record, why: Reason) {
    || (ReadFailed(before, after, why) && why != NilPointer)
    || (exists secret ::
          Answers([Got(Dex.ClientSecretRef(inst), Ok(secret))], before, after)
            && Dex.ClientSecretValue(secret) == Err(why))
    || (exists secret, db ::
          && Answers(SecretLookups(inst, secret, db), before, after)
          && Dex.ClientSecretValue(secret).Ok? && DatabaseConfig(inst, db) == Err(why))
  }

  /** A whole successful run and a reason to fail exclude each other. */
  lemma DoneIsNotExcused(inst: Instance, routes: Dex.Routes, before: Record, after: Record, why: Reason)
    requires Done(inst, routes, before, after)
    ensures !Excused(inst, before, after, why)
  {
    hide SecretLookups, RoleLookups, FoundRoles, Answers, GrafanaOp, RoleOps, LoggingOps, Dex.ClientSecretValue,
      DatabaseConfig, SecretsExcuse;
    var secret, db, answers: seq<Answer> :| |answers| == |LOGGING_ROLES|
      && Answers(SecretLookups(inst, secret, db) + RoleLookups(answers), before, after)
      && Completes(GrafanaPlan(inst, routes, secret, db, FoundRoles(answers)), before, after);
    assert |GrafanaPlan(inst, routes, secret, db, FoundRoles(answers)).ops| > 0;
  }

  /** Something that was tried failed, or nothing was tried. */
  predicate Unfinished(before: Record, after: Record) {
    |after.attempted| - |before.attempted| != |after.log| - |before.log| || |after.log| <= |before.log|
  }

  lemma UnfinishedIsNotDone(inst: Instance, routes: Dex.Routes, before: Record, after: Record)
    requires Unfinished(before, after)
    ensures !Done(inst, routes, before, after)
  {
    hide GrafanaOp, RoleOps, LoggingOps, DatabaseConfig, RoleLookups, FoundRoles, SecretLookups;
    forall secret, db, found ensures !Completes(GrafanaPlan(inst, routes, secret, db, found), before, after) {
      var plan := GrafanaPlan(inst, routes, secret, db, found);
      assert plan.end.Success? ==> |plan.ops| >= 1;
    }
  }

  lemma WholePass(inst: Instance, routes: Dex.Routes, secret: Option<Object>, db: Option<Object>, answers: seq<Answer>,
                  before: Record, after: Record)
    requires |answers| == |LOGGING_ROLES|
    requires Answers(SecretLookups(inst, secret, db) + RoleLookups(answers), before, after)
    requires Completes(GrafanaPlan(inst, routes, secret, db, FoundRoles(answers)), before, after)
    ensures Done(inst, routes, before, after)
  {
  }

  // ----- the reconciler -------------------------------------------------

  ghost predicate Seen(history: seq<Store>, r: Ref, read: Option<Object>) {
    read.Some? ==> exists i :: 0 <= i < |history| && r in history[i] && history[i][r] == read.value
  }

  /** The client secret is looked up first and only then. */
  predicate AsksInOrder(inst: Instance, before: seq<Reply>, after: seq<Reply>) {
    && before <= after
    && forall k :: |before| <= k < |after| ==>
      after[k].Got? && (after[k].ref == Dex.ClientSecretRef(inst) <==> k == |before|)
  }

  lemma SecretsDiffer(inst: Instance)
    ensures MariaDb.SecretRef(inst) != Dex.ClientSecretRef(inst)
  {
    assert |MariaDb.SecretRef(inst).name| == |inst.name| + 8 && |Dex.ClientSecretRef(inst).name| == |inst.name| + 18;
  }

  /** Reads the client secret and, if MariaDB is enabled, the credentials; both reads may be stale. */
  method LookUpSecrets(api: ApiServer, inst: Instance)
    returns (out: Outcome, clientSecret: string, database: map<string, string>, ghost secret: Option<Object>,
             ghost db: Option<Object>)
    requires api.Valid()
    modifies api`replies
    ensures api.Valid()
    ensures Seen(api.history, Dex.ClientSecretRef(inst), secret) && Seen(api.history, MariaDb.SecretRef(inst), db)
    ensures out.Success? ==>
      && Dex.ClientSecretValue(secret) == Ok(clientSecret) && DatabaseConfig(inst, db) == Ok(database)
      && api.replies == old(api.replies) + SecretLookups(inst, secret, db)
    ensures out == Failure(NilPointer) ==>
      Dex.ClientSecretValue(secret).Ok? && DatabaseConfig(inst, db) == Err(NilPointer)
    ensures out.Failure? ==> SecretsExcuse(inst, old(api.SoFar()), api.SoFar(), out.reason)
    ensures AsksInOrder(inst, old(api.replies), api.replies)
    ensures out.Success? ==> |api.replies| > |old(api.replies)|
  {
    SecretsDiffer(inst);
    secret, db, clientSecret, database := None, None, "", map[];
    var read := api.Read(Dex.ClientSecretRef(inst));
    if read.Err? {
      return Failure(read.error), clientSecret, database, secret, db;
    }
    secret := read.value;
    var value := Dex.ClientSecretValue(read.value);
    if value.Err? {
      return Failure(value.error), clientSecret, database, secret, db;
    }
    clientSecret := value.value;
    var credentials: Option<Object> := None;
    if inst.spec.mariadb.Some? && inst.spec.mariadb.value.enabled {
      read := api.Read(MariaDb.SecretRef(inst));
      if read.Err? {
        return Failure(read.error), clientSecret, database, secret, db;
      }
      credentials := read.value;
    }
    db := credentials;
    var config := DatabaseConfig(inst, credentials);
    if config.Err? {
      return Failure(config.error), clientSecret, database, secret, db;
    }
    return Success, clientSecret, config.value, secret, db;
  }

  /** One pass. */
  method ReconcileGrafana(api: ApiServer, inst: Instance, routes: Dex.Routes)
    returns (out: Outcome, ghost secret: Option<Object>, ghost db: Option<Object>, ghost answers: seq<Answer>,
             ghost landed: nat)
    requires api.Valid()
    modifies api
    ensures api.Valid() && |answers| <= |LOGGING_ROLES|
    ensures Seen(old(api.history), Dex.ClientSecretRef(inst), secret)
      && Seen(old(api.history), MariaDb.SecretRef(inst), db)
    ensures api.Followed(old(api.SoFar()), old(api.objects),
                         GrafanaPlan(inst, routes, secret, db, FoundRoles(answers)), landed, out)
    ensures out.Success? <==> Done(inst, routes, old(api.SoFar()), api.SoFar())
    ensures out.Failure? ==> Excused(inst, old(api.SoFar()), api.SoFar(), out.reason)
    ensures AsksInOrder(inst, old(api.replies), api.replies)
  {
    hide Exec, Lands, Apply, Accepts, IsTrace, GrafanaOp, RoleOps, LoggingOps, Done, Unfinished, SecretLookups,
      RoleLookups, FoundRoles, DatabaseConfig, Dex.ClientSecretValue, Completes, ApiServer.Stuck, ApiServer.OnTrack,
      ApiServer.Followed, Seen, SecretsExcuse;
    ghost var before, start := api.SoFar(), api.objects;
    landed, answers := 0, [];
    var looked, clientSecret, database;
    looked, clientSecret, database, secret, db := LookUpSecrets(api, inst);
    if looked.Failure? {
      out := looked;
      StopsEarly(api, before, inst, routes, secret, db, FoundRoles(answers), out);
      UnfinishedIsNotDone(inst, routes, before, api.SoFar());
      return;
    }
    ghost var asked := api.SoFar();
    out, answers, landed := WriteGrafana(api, inst, routes, clientSecret, database, before);
    if out.Success? {
      AskedInTurn(SecretLookups(inst, secret, db), RoleLookups(answers), before, asked, api.SoFar());
      WholePass(inst, routes, secret, db, answers, before, api.SoFar());
    } else {
      UnfinishedIsNotDone(inst, routes, before, api.SoFar());
    }
  }

  lemma StopsEarly(api: ApiServer, before: Record, inst: Instance, routes: Dex.Routes, secret: Option<Object>,
                   db: Option<Object>, found: seq<LoggingRole>, out: Outcome)
    requires api.Valid() && before.log == api.log && before.attempted == api.attempted
    requires out.Failure?
    requires out == Failure(NilPointer) ==>
      Dex.ClientSecretValue(secret).Ok? && DatabaseConfig(inst, db) == Err(NilPointer)
    ensures api.Followed(before, api.objects, GrafanaPlan(inst, routes, secret, db, found), 0, out)
    ensures Unfinished(before, api.SoFar())
  {
    hide Exec, Lands, IsTrace, RoleOps, LoggingOps, DatabaseConfig;
    api.NothingSince(before, GrafanaPlan(inst, routes, secret, db, found).ops);
  }

  lemma AskedInTurn(first: seq<Reply>, second: seq<Reply>, before: Record, asked: Record, after: Record)
    requires Answers(first, before, asked) && Answers(second, asked, after)
    ensures Answers(first + second, before, after)
  {
    assert before.replies + first + second == before.replies + (first + second);
  }

  /** The Grafana resource, the roles and bindings, and the logging bindings. */
  method WriteGrafana(api: ApiServer, inst: Instance, routes: Dex.Routes, clientSecret: string,
                      database: map<string, string>, ghost before: Record)
    returns (out: Outcome, ghost answers: seq<Answer>, ghost landed: nat)
    requires api.Valid() && before.log == api.log && before.attempted == api.attempted
    modifies api
    ensures api.Valid() && |answers| <= |LOGGING_ROLES|
    ensures var plan := WritePlan(inst, routes, clientSecret, database, FoundRoles(answers));
      api.Followed(before, old(api.objects), plan, landed, out)
        && (out.Success? ==> Completes(plan, before, api.SoFar()))
    ensures out.Success? ==>
      |answers| == |LOGGING_ROLES| && Answers(RoleLookups(answers), old(api.SoFar()), api.SoFar())
    ensures out.Failure? ==> Unfinished(before, api.SoFar())
    ensures out.Failure? ==> WriteFailed(before, api.SoFar()) && out != Failure(NilPointer)
    ensures AsksForRoles(old(api.replies), api.replies)
  {
    hide Exec, Lands, Apply, Accepts, IsTrace, GrafanaOp, RoleOps, LoggingOps, RoleLookups, FoundRoles, Completes,
      Unfinished, ApiServer.Stuck, ApiServer.OnTrack, ApiServer.Followed;
    ghost var start, asked, ops := api.objects, api.SoFar(), [GrafanaOp(inst, routes, clientSecret, database)] +
      RoleOps(inst);
    answers := [];
    out, landed := WriteResourceAndRoles(api, inst, routes, clientSecret, database, before);
    ghost var plan := WritePlan(inst, routes, clientSecret, database, FoundRoles(answers));
    if out.Failure? {
      api.StuckEarlier(before, start, ops, LoggingOps(inst, FoundRoles(answers)), landed);
      GotStuck(api, before, start, plan.ops, landed);
      api.StuckMeans(before, start, plan.ops, landed);
      api.StopsShort(before, start, plan, landed, out);
      return;
    }
    api.WhereItIs(before, start, ops);
    ghost var between, mid := api.SoFar(), api.objects;
    ghost var bound;
    out, answers, bound := BindLoggingRoles(api, inst);
    plan := WritePlan(inst, routes, clientSecret, database, FoundRoles(answers));
    landed := |ops| + bound;
    assert LoggingOps(inst, FoundRoles(answers))[..bound] == LoggingOps(inst, FoundRoles(answers)) || out.Failure?;
    InStages(api, before, start, ops, between, mid, LoggingOps(inst, FoundRoles(answers)), bound);
    if out.Success? {
      api.Finishes(before, start, plan);
      AskedInTurn([], RoleLookups(answers), asked, between, api.SoFar());
    } else {
      GotStuck(api, before, start, plan.ops, landed);
      api.StuckMeans(before, start, plan.ops, landed);
      api.StopsShort(before, start, plan, landed, out);
    }
  }

  function WritePlan(inst: Instance, routes: Dex.Routes, clientSecret: string, database: map<string, string>,
                     found: seq<LoggingRole>): Plan
  {
    Plan([GrafanaOp(inst, routes, clientSecret, database)] + RoleOps(inst) + LoggingOps(inst, found), Success)
  }

  lemma GotStuck(api: ApiServer, before: Record, start: Store, ops: seq<Op>, landed: nat)
    requires api.Stuck(before, start, ops, landed)
    ensures Unfinished(before, api.SoFar()) && landed <= |ops|
  {
  }

  lemma FiveRoles(inst: Instance, first: Op)
    ensures var roles := RoleOps(inst);
      var ops := [first] + roles;
      && |roles| == 5 && ops[..6] == ops
      && ops[1] == roles[0] && ops[2] == roles[1] && ops[3] == roles[2] && ops[4] == roles[3] && ops[5] == roles[4]
  {
  }

  method WriteResourceAndRoles(api: ApiServer, inst: Instance, routes: Dex.Routes, clientSecret: string,
                               database: map<string, string>, ghost before: Record)
    returns (out: Outcome, ghost landed: nat)
    requires api.Valid() && before.log == api.log && before.attempted == api.attempted
    modifies api
    ensures api.Valid() && api.replies == old(api.replies) && old(api.history) <= api.history
      && out != Failure(NilPointer)
    ensures var ops := [GrafanaOp(inst, routes, clientSecret, database)] + RoleOps(inst);
      if out.Success? then landed == |ops| && api.OnTrack(before, old(api.objects), ops)
      else api.Stuck(before, old(api.objects), ops, landed)
  {
    hide *;
    ghost var start := api.objects;
    var roles := RoleOps(inst);
    ghost var ops := [GrafanaOp(inst, routes, clientSecret, database)] + roles;
    FiveRoles(inst, GrafanaOp(inst, routes, clientSecret, database));
    api.NothingSince(before, ops);
    landed := 0;
    out := api.Advance(GrafanaOp(inst, routes, clientSecret, database), before, start, ops, 0);
    if out.Failure? {
      return;
    }
    out, landed := api.AdvanceBoth(roles[0], roles[1], before, start, ops, 1);
    if out.Failure? {
      return;
    }
    out, landed := api.AdvanceBoth(roles[2], roles[3], before, start, ops, 3);
    if out.Failure? {
      return;
    }
    out := api.Advance(roles[4], before, start, ops, 5);
    landed := if out.Success? then 6 else 5;
  }

  predicate AsksForRoles(before: seq<Reply>, after: seq<Reply>) {
    before <= after && forall k :: |before| <= k < |after| ==> after[k].Got? && after[k].ref.kind == ClusterRole
  }

  /** The roles existed in past states. */
  ghost predicate Existed(history: seq<Store>, roles: seq<LoggingRole>) {
    forall role :: role in roles ==> RoleExisted(history, role)
  }

  ghost predicate RoleExisted(history: seq<Store>, role: LoggingRole) {
    exists i :: 0 <= i < |history| && Ref(ClusterRole, "", RoleName(role)) in history[i]
  }

  lemma ExistedLater(history: seq<Store>, later: seq<Store>, roles: seq<LoggingRole>)
    requires Existed(history, roles) && history <= later
    ensures Existed(later, roles)
  {
    forall role | role in roles ensures RoleExisted(later, role) {
      var i :| 0 <= i < |history| && Ref(ClusterRole, "", RoleName(role)) in history[i];
      assert later[i] == history[i];
    }
  }

  /** Binds the role if looking it up finds it. */
  method BindIfRoleExists(api: ApiServer, inst: Instance, role: LoggingRole, ghost before: Record,
                          ghost start: Store, ghost ops: seq<Op>)
    returns (out: Outcome, ghost read: Answer)
    requires api.Valid() && api.OnTrack(before, start, ops)
    modifies api
    ensures api.Valid() && old(api.history) <= api.history && out != Failure(NilPointer)
    ensures api.replies == old(api.replies) + [Got(Ref(ClusterRole, "", RoleName(role)), read)]
    ensures if read.Ok? && read.value.Some? then
        var next := ops + [BindingOp(inst, RoleName(role), RoleName(role))];
        && RoleExisted(api.history, role)
        && (if out.Success? then api.OnTrack(before, start, next) else api.Stuck(before, start, next, |ops|))
      else out.Success? && api.OnTrack(before, start, ops)
  {
    hide Exec, Lands, Apply, Accepts, IsTrace, BindingOp, RoleName;
    var found := api.Read(Ref(ClusterRole, "", RoleName(role)));
    read, out := found, Success;
    if found.Ok? && found.value.Some? {
      ghost var past, next := api.history, ops + [BindingOp(inst, RoleName(role), RoleName(role))];
      assert next[..|ops|] == ops && next[..|next|] == next;
      assert Existed(past, [role]) by { assert RoleExisted(past, role); }
      out := api.Advance(BindingOp(inst, RoleName(role), RoleName(role)), before, start, next, |ops|);
      ExistedLater(past, api.history, [role]);
    }
  }

  /** The roles asked for so far were looked up in order, and the found ones were bound. */
  ghost predicate BoundSoFar(api: ApiServer, inst: Instance, answers: seq<Answer>, before: Record, start: Store)
    reads api
  {
    && api.Valid() && |answers| <= |LOGGING_ROLES|
    && Answers(RoleLookups(answers), before, api.SoFar()) && AsksForRoles(before.replies, api.replies)
    && api.OnTrack(before, start, LoggingOps(inst, FoundRoles(answers)))
    && Existed(api.history, FoundRoles(answers))
  }

  /** And the last one could not be bound. */
  ghost predicate NotBound(api: ApiServer, inst: Instance, answers: seq<Answer>, before: Record, start: Store)
    reads api
  {
    && api.Valid() && |answers| <= |LOGGING_ROLES|
    && Answers(RoleLookups(answers), before, api.SoFar()) && AsksForRoles(before.replies, api.replies)
    && var ops := LoggingOps(inst, FoundRoles(answers));
    && ops != [] && api.Stuck(before, start, ops, |ops| - 1)
    && Existed(api.history, FoundRoles(answers))
  }

  /** Looks up the next logging role and binds it if it is found. */
  method BindNext(api: ApiServer, inst: Instance, ghost answers: seq<Answer>, i: nat, ghost before: Record,
                  ghost start: Store)
    returns (out: Outcome, ghost read: Answer)
    requires i == |answers| < |LOGGING_ROLES| && BoundSoFar(api, inst, answers, before, start)
    modifies api
    ensures out != Failure(NilPointer)
    ensures if out.Success? then BoundSoFar(api, inst, answers + [read], before, start)
      else NotBound(api, inst, answers + [read], before, start)
  {
    hide *;
    var role := LOGGING_ROLES[i];
    ghost var asked, past, found := api.SoFar(), api.history, FoundRoles(answers);
    SoFarMeans(api, inst, answers, before, start);
    out, read := BindIfRoleExists(api, inst, role, before, start, LoggingOps(inst, found));
    NowBound(api, inst, answers, read, before, start, asked, past, out);
  }

  lemma SoFarMeans(api: ApiServer, inst: Instance, answers: seq<Answer>, before: Record, start: Store)
    requires BoundSoFar(api, inst, answers, before, start)
    ensures api.Valid() && api.OnTrack(before, start, LoggingOps(inst, FoundRoles(answers)))
    ensures Existed(api.history, FoundRoles(answers)) && api.SoFar().replies == api.replies
    ensures Answers(RoleLookups(answers), before, api.SoFar()) && AsksForRoles(before.replies, api.replies)
  {
  }

  lemma NowBound(api: ApiServer, inst: Instance, answers: seq<Answer>, read: Answer, before: Record, start: Store,
                 asked: Record, past: seq<Store>, out: Outcome)
    requires api.Valid() && |answers| < |LOGGING_ROLES| && Answers(RoleLookups(answers), before, asked)
    requires AsksForRoles(before.replies, asked.replies)
    requires past <= api.history && Existed(past, FoundRoles(answers))
    requires api.replies == asked.replies + [Got(Ref(ClusterRole, "", RoleName(LOGGING_ROLES[|answers|])), read)]
    requires var role, ops := LOGGING_ROLES[|answers|], LoggingOps(inst, FoundRoles(answers));
      if read.Ok? && read.value.Some? then
        var next := ops + [BindingOp(inst, RoleName(role), RoleName(role))];
        && RoleExisted(api.history, role)
        && (if out.Success? then api.OnTrack(before, start, next) else api.Stuck(before, start, next, |ops|))
      else out.Success? && api.OnTrack(before, start, ops)
    ensures if out.Success? then BoundSoFar(api, inst, answers + [read], before, start)
      else NotBound(api, inst, answers + [read], before, start)
  {
    hide Exec, Lands, IsTrace, BindingOp, RoleName, RoleLookups, FoundRoles, Answers, LoggingOps, LOGGING_ROLES,
      RoleExisted, ApiServer.Valid, ApiServer.OnTrack, ApiServer.Stuck;
    OneRoleMore(inst, answers, read, before, asked, api.SoFar());
    OneBindingMore(inst, FoundRoles(answers), LOGGING_ROLES[|answers|]);
    ExistedLater(past, api.history, FoundRoles(answers));
  }

  /** Looks up the logging roles in order and binds each that is found, up to the first failure. */
  method BindLoggingRoles(api: ApiServer, inst: Instance)
    returns (out: Outcome, ghost answers: seq<Answer>, ghost landed: nat)
    requires api.Valid()
    modifies api
    ensures api.Valid() && |answers| <= |LOGGING_ROLES| && out != Failure(NilPointer)
    ensures Answers(RoleLookups(answers), old(api.SoFar()), api.SoFar())
    ensures AsksForRoles(old(api.replies), api.replies)
    ensures var ops := LoggingOps(inst, FoundRoles(answers));
      if out.Success? then |answers| == |LOGGING_ROLES| && landed == |ops|
        && api.OnTrack(old(api.SoFar()), old(api.objects), ops)
      else landed == |ops| - 1 && api.Stuck(old(api.SoFar()), old(api.objects), ops, landed)
    ensures Existed(api.history, FoundRoles(answers))
  {
    hide *;
    ghost var before, start := api.SoFar(), api.objects;
    answers, landed := [], 0;
    NothingBound(api, inst);
    for i := 0 to |LOGGING_ROLES|
      invariant |answers| == i && BoundSoFar(api, inst, answers, before, start)
    {
      ghost var read;
      out, read := BindNext(api, inst, answers, i, before, start);
      answers := answers + [read];
      if out.Failure? {
        NotBoundMeans(api, inst, answers, before, start);
        landed := |LoggingOps(inst, FoundRoles(answers))| - 1;
        return;
      }
    }
    SoFarMeans(api, inst, answers, before, start);
    return Success, answers, |LoggingOps(inst, FoundRoles(answers))|;
  }

  lemma NotBoundMeans(api: ApiServer, inst: Instance, answers: seq<Answer>, before: Record, start: Store)
    requires NotBound(api, inst, answers, before, start)
    ensures api.Valid() && Answers(RoleLookups(answers), before, api.SoFar())
    ensures AsksForRoles(before.replies, api.replies) && Existed(api.history, FoundRoles(answers))
    ensures var ops := LoggingOps(inst, FoundRoles(answers)); ops != [] && api.Stuck(before, start, ops, |ops| - 1)
  {
  }

  lemma NothingBound(api: ApiServer, inst: Instance)
    requires api.Valid()
    ensures BoundSoFar(api, inst, [], api.SoFar(), api.objects) && api.SoFar().replies == api.replies
  {
    var none: seq<Op> := [];
    NothingAsked(inst, api.SoFar());
    api.NothingLanded(none);
    assert none[..0] == none;
  }

  lemma NothingAsked(inst: Instance, before: Record)
    ensures FoundRoles([]) == [] && LoggingOps(inst, []) == [] && Answers(RoleLookups([]), before, before)
  {
    assert before.replies + [] == before.replies;
  }

  /** One more role was looked up. */
  lemma OneRoleMore(inst: Instance, answers: seq<Answer>, read: Answer, before: Record, asked: Record, after: Record)
    requires |answers| < |LOGGING_ROLES| && Answers(RoleLookups(answers), before, asked)
    requires after.replies == asked.replies + [Got(Ref(ClusterRole, "", RoleName(LOGGING_ROLES[|answers|])), read)]
    ensures Answers(RoleLookups(answers + [read]), before, after)
    ensures FoundRoles(answers + [read]) ==
      if read.Ok? && read.value.Some? then FoundRoles(answers) + [LOGGING_ROLES[|answers|]] else FoundRoles(answers)
  {
    hide *;
    LookupsMore(answers, read);
    FoundMore(answers, read);
    AnswersMore(RoleLookups(answers), Got(Ref(ClusterRole, "", RoleName(LOGGING_ROLES[|answers|])), read), before,
                asked, after);
  }

  lemma LookupsMore(answers: seq<Answer>, read: Answer)
    requires |answers| < |LOGGING_ROLES|
    ensures RoleLookups(answers + [read]) ==
      RoleLookups(answers) + [Got(Ref(ClusterRole, "", RoleName(LOGGING_ROLES[|answers|])), read)]
  {
    hide RoleName, LOGGING_ROLES;
  }

  lemma FoundMore(answers: seq<Answer>, read: Answer)
    requires |answers| < |LOGGING_ROLES|
    ensures FoundRoles(answers + [read]) ==
      if read.Ok? && read.value.Some? then FoundRoles(answers) + [LOGGING_ROLES[|answers|]] else FoundRoles(answers)
  {
    hide LOGGING_ROLES;
    assert (answers + [read])[..|answers|] == answers;
  }

  lemma AnswersMore(replies: seq<Reply>, next: Reply, before: Record, asked: Record, after: Record)
    requires Answers(replies, before, asked) && after.replies == asked.replies + [next]
    ensures Answers(replies + [next], before, after)
  {
    assert before.replies + (replies + [next]) == (before.replies + replies) + [next];
  }

  lemma OneBindingMore(inst: Instance, found: seq<LoggingRole>, role: LoggingRole)
    ensures var was, now := LoggingOps(inst, found), LoggingOps(inst, found + [role]);
      now == was + [BindingOp(inst, RoleName(role), RoleName(role))]
  {
    hide BindingOp, RoleName;
  }

  /** The logging bindings come after the resource and the roles. */
  lemma InStages(api: ApiServer, before: Record, start: Store, ops: seq<Op>, between: Record, mid: Store,
                 tail: seq<Op>, bound: nat)
    requires between.log == before.log + ops && between.attempted == before.attempted + ops
    requires mid == Exec(start, ops) && Lands(start, ops)
    requires bound <= |tail|
    requires api.OnTrack(between, mid, tail[..bound]) || api.Stuck(between, mid, tail, bound)
    ensures api.OnTrack(between, mid, tail[..bound]) ==> api.OnTrack(before, start, (ops + tail)[..|ops| + bound])
    ensures api.Stuck(between, mid, tail, bound) ==> api.Stuck(before, start, ops + tail, |ops| + bound)
  {
    api.InTurn(before, start, ops, between, mid, tail, bound);
  }
}
