/** The MariaDB reconciler: credentials written once, a claim whose spec is set only
    on creation, and the workload on top of them. */
module MariaDb {
  import opened Wrappers
  import opened GrafooApi
  import opened Cluster
  import opened Naming

  const PORT := 3306

  // ----- the credentials ------------------------------------------------

  function SecretRef(inst: Instance): Ref { OwnRef(inst, Secret, "mariadb") }

  function Credentials(password: string, rootPassword: string): map<string, string> {
    map["database-name" := "grafana", "database-password" := password,
        "database-root-password" := rootPassword, "database-user" := "grafana"]
  }

  function SecretOp(inst: Instance, password: string, rootPassword: string): Op {
    Create(SecretRef(inst),
           Object(LabelsFor(inst, "mariadb"), map[], Some(inst.name), SecretData(Credentials(password, rootPassword))))
  }

  /** Reading a missing key gives the empty string. */
  function Lookup(labels: Labels, k: string): string {
    if k in labels then labels[k] else ""
  }

  /** The labels with every wanted value that they did not show. */
  function Merged(labels: Labels, wanted: Labels): Labels {
    labels + map k | k in wanted && Lookup(labels, k) != wanted[k] :: wanted[k]
  }

  /** Goes through the wanted labels in any order.  The outcome does not depend on
      it: afterwards every wanted label reads as wanted, every other one is as it
      was, and a change is reported exactly when there was one. */
  method MergeLabels(labels: Labels, wanted: Labels) returns (merged: Labels, changed: bool)
    ensures merged == Merged(labels, wanted)
    ensures forall k :: k in wanted ==> Lookup(merged, k) == wanted[k]
    ensures forall k :: k !in wanted ==> (k in merged <==> k in labels) && Lookup(merged, k) == Lookup(labels, k)
    ensures changed <==> merged != labels
  {
    merged, changed := labels, false;
    var rest := wanted.Keys;
    while rest != {}
      invariant rest <= wanted.Keys
      invariant forall k :: k !in rest && k in wanted && Lookup(labels, k) != wanted[k] ==>
        k in merged && merged[k] == wanted[k]
      invariant forall k :: k in rest || k !in wanted || Lookup(labels, k) == wanted[k] ==>
        (k in merged <==> k in labels) && (k in labels ==> merged[k] == labels[k])
      invariant changed <==> exists k :: k in wanted && k !in rest && Lookup(labels, k) != wanted[k]
      decreases rest
    {
      var k :| k in rest;
      if Lookup(merged, k) != wanted[k] {
        merged := merged[k := wanted[k]];
        changed := true;
        assert k in wanted && k !in rest - {k} && Lookup(labels, k) != wanted[k];
      }
      rest := rest - {k};
    }
    MergedPointwise(labels, wanted, merged);
  }

  lemma MergedPointwise(labels: Labels, wanted: Labels, merged: Labels)
    requires forall k :: k in wanted && Lookup(labels, k) != wanted[k] ==> k in merged && merged[k] == wanted[k]
    requires forall k :: k !in wanted || Lookup(labels, k) == wanted[k] ==>
      (k in merged <==> k in labels) && (k in labels ==> merged[k] == labels[k])
    ensures merged == Merged(labels, wanted)
    ensures merged != labels <==> exists k :: k in wanted && Lookup(labels, k) != wanted[k]
  {
    var m := Merged(labels, wanted);
    assert m.Keys == merged.Keys;
    assert forall k :: k in m ==> m[k] == merged[k];
    forall k | k in wanted && Lookup(labels, k) != wanted[k] ensures merged != labels {
      assert Lookup(merged, k) != Lookup(labels, k);
    }
  }

  // ----- the other writes -----------------------------------------------

  function AccountOp(inst: Instance): Op {
    Upsert(OwnRef(inst, ServiceAccount, "mariadb"), BLANK.(labels := LabelsFor(inst, "mariadb")),
           Patch(None, None, Some(inst.name), None))
  }

  function ClaimRef(inst: Instance): Ref { OwnRef(inst, PersistentVolumeClaim, "mariadb") }

  /** The claim's spec is set only while it has no creation time. */
  function ClaimOp(inst: Instance, storage: string): Op {
    Upsert(ClaimRef(inst), BLANK.(body := ClaimSpec(storage)),
           Patch(Some(LabelsFor(inst, "mariadb")), None, Some(inst.name), None))
  }

  function ServiceOp(inst: Instance): Op {
    Upsert(OwnRef(inst, Service, "mariadb"), BLANK,
           Patch(Some(LabelsFor(inst, "mariadb")), None, Some(inst.name),
                 Some(ServiceSpec([PORT], LabelsFor(inst, "mariadb")))))
  }

  function DeploymentOp(inst: Instance, image: string): Op {
    var name := ComponentName(inst.name, "mariadb");
    Upsert(OwnRef(inst, Deployment, "mariadb"), BLANK,
           Patch(Some(LabelsFor(inst, "mariadb")), None, Some(inst.name),
                 Some(DeploymentSpec(image, name, name, None))))
  }

  // ----- the plan of a pass ---------------------------------------------

  function SecretPlan(inst: Instance, read: Option<Object>, password: string, rootPassword: string): seq<Op> {
    match read
    case None => [SecretOp(inst, password, rootPassword)]
    case Some(o) =>
      var merged := Merged(o.labels, LabelsFor(inst, "mariadb"));
      if merged != o.labels then [Update(SecretRef(inst), o, o.(labels := merged))] else []
  }

  /** `parses` says whether the storage size is a quantity. */
  function MariaDbPlan(inst: Instance, read: Option<Object>, parses: bool, password: string, rootPassword: string): Plan
    requires inst.spec.mariadb.Some?
  {
    var db := inst.spec.mariadb.value;
    var start := SecretPlan(inst, read, password, rootPassword) + [AccountOp(inst)];
    if !parses then Plan(start, Failure(BadStorageSize))
    else Plan(start + [ClaimOp(inst, db.storageSize), ServiceOp(inst), DeploymentOp(inst, db.image)], Success)
  }

  // ----- the reconciler -------------------------------------------------

  /** Creates the credentials if the read found none, else brings the labels up to date. */
  method ReconcileSecret(api: ApiServer, inst: Instance, found: Option<Object>, password: string, rootPassword: string,
                         ghost before: Record, ghost start: Store, ghost ops: seq<Op>)
    returns (out: Outcome)
    requires api.Valid() && api.OnTrack(before, start, ops[..0])
    requires SecretPlan(inst, found, password, rootPassword) <= ops
    modifies api
    ensures api.Valid() && old(api.history) <= api.history && api.replies == old(api.replies)
      && out != Failure(NilPointer)
    ensures out.Success? ==> api.OnTrack(before, start, ops[..|SecretPlan(inst, found, password, rootPassword)|])
    ensures out.Failure? ==> api.Stuck(before, start, ops, 0)
  {
    hide Exec, Lands, Apply, Accepts, IsTrace, Merged, SecretOp, ApiServer.OnTrack, ApiServer.Stuck;
    if found.None? {
      out := api.Advance(SecretOp(inst, password, rootPassword), before, start, ops, 0);
      return;
    }
    var merged, changed := MergeLabels(found.value.labels, LabelsFor(inst, "mariadb"));
    if changed {
      out := api.Advance(Update(SecretRef(inst), found.value, found.value.(labels := merged)), before, start, ops, 0);
      return;
    }
    return Success;
  }

  /** A whole pass lies between the two moments: the credentials were read once, and
      the plan was carried out to a successful end. */
  ghost predicate Done(inst: Instance, parses: bool, password: string, rootPassword: string, before: Record,
                       after: Record)
    requires inst.spec.mariadb.Some?
  {
    exists read ::
      && Answers([Got(SecretRef(inst), Ok(read))], before, after)
      && Completes(MariaDbPlan(inst, read, parses, password, rootPassword), before, after)
  }

  /** Why a pass may fail: a write did not land; the credentials could not be read, before
      any write; or they were read and the plan for them, carried out to its end, has this error. */
  ghost predicate Excused(inst: Instance, parses: bool, password: string, rootPassword: string, before: Record,
                          after: Record, why: Reason)
    requires inst.spec.mariadb.Some?
  {
    || (WriteFailed(before, after) && why != NilPointer)
    || (ReadFailed(before, after, why) && after.log == before.log)
    || (exists read ::
          var plan := MariaDbPlan(inst, read, parses, password, rootPassword);
          && Answers([Got(SecretRef(inst), Ok(read))], before, after)
          && plan.end == Failure(why) && after.log == before.log + plan.ops)
  }

  /** A whole successful run and a reason to fail exclude each other. */
  lemma DoneIsNotExcused(inst: Instance, parses: bool, password: string, rootPassword: string, before: Record,
                         after: Record, why: Reason)
    requires inst.spec.mariadb.Some? && Done(inst, parses, password, rootPassword, before, after)
    ensures !Excused(inst, parses, password, rootPassword, before, after, why)
  {
    hide MariaDbPlan, Answers;
    var read :| Answers([Got(SecretRef(inst), Ok(read))], before, after)
      && Completes(MariaDbPlan(inst, read, parses, password, rootPassword), before, after);
    LastAnswer([Got(SecretRef(inst), Ok(read))], before, after);
    forall other | Answers([Got(SecretRef(inst), Ok(other))], before, after) ensures other == read {
      SameAnswers([Got(SecretRef(inst), Ok(other))], [Got(SecretRef(inst), Ok(read))], before, after);
    }
  }

  /** Something that was tried failed, or too little was tried. */
  predicate Unfinished(before: Record, after: Record) {
    |after.attempted| - |before.attempted| != |after.log| - |before.log| || |after.log| < |before.log| + 4
  }

  lemma UnfinishedIsNotDone(inst: Instance, parses: bool, password: string, rootPassword: string, before: Record,
                            after: Record)
    requires inst.spec.mariadb.Some? && Unfinished(before, after)
    ensures !Done(inst, parses, password, rootPassword, before, after)
  {
    hide AccountOp, ClaimOp, ServiceOp, DeploymentOp, SecretPlan, SecretRef;
    forall read ensures !Completes(MariaDbPlan(inst, read, parses, password, rootPassword), before, after) {
      var plan := MariaDbPlan(inst, read, parses, password, rootPassword);
      assert plan.end.Success? ==> |plan.ops| >= 4;
    }
  }

  /** One pass with MariaDB enabled; `read` is what reading the credentials returned. */
  method ReconcileMariaDb(api: ApiServer, inst: Instance, parses: bool, password: string, rootPassword: string)
    returns (out: Outcome, ghost read: Option<Object>, ghost landed: nat)
    requires api.Valid()
    requires inst.spec.mariadb.Some? && inst.spec.mariadb.value.enabled
    modifies api
    ensures api.Valid()
    ensures read.Some? ==>
      exists i :: 0 <= i < |api.history| && SecretRef(inst) in api.history[i]
        && api.history[i][SecretRef(inst)] == read.value
    ensures api.Followed(old(api.SoFar()), old(api.objects), MariaDbPlan(inst, read, parses, password, rootPassword),
                         landed, out)
    ensures out.Success? <==> Done(inst, parses, password, rootPassword, old(api.SoFar()), api.SoFar())
    ensures out.Failure? ==>
      Excused(inst, parses, password, rootPassword, old(api.SoFar()), api.SoFar(), out.reason)
    ensures exists found :: api.replies == old(api.replies) + [Got(SecretRef(inst), found)]
  {
    hide Exec, Lands, Apply, Accepts, IsTrace, SecretPlan, AccountOp, ClaimOp, ServiceOp, DeploymentOp, SecretRef, Done;
    ghost var before, st0 := api.SoFar(), api.objects;
    read, landed := None, 0;
    api.NothingLanded(MariaDbPlan(inst, read, parses, password, rootPassword).ops);
    var found := api.Read(SecretRef(inst));
    if found.Err? {
      UnfinishedIsNotDone(inst, parses, password, rootPassword, before, api.SoFar());
      return Failure(found.error), read, landed;
    }
    read := found.value;
    out, landed := ContinueMariaDb(api, inst, found.value, parses, password, rootPassword, before, st0);
    if out.Success? {
      Finished(inst, read, parses, password, rootPassword, before, api.SoFar());
    } else {
      UnfinishedIsNotDone(inst, parses, password, rootPassword, before, api.SoFar());
      FailedForAReason(inst, read, parses, password, rootPassword, before, api.SoFar(), out.reason);
    }
  }

  lemma FailedForAReason(inst: Instance, read: Option<Object>, parses: bool, password: string, rootPassword: string,
                         before: Record, after: Record, why: Reason)
    requires inst.spec.mariadb.Some? && Answers([Got(SecretRef(inst), Ok(read))], before, after)
    requires var plan := MariaDbPlan(inst, read, parses, password, rootPassword);
      (WriteFailed(before, after) && why != NilPointer)
        || (plan.end == Failure(why) && after.log == before.log + plan.ops)
    ensures Excused(inst, parses, password, rootPassword, before, after, why)
  {
  }

  lemma Finished(inst: Instance, read: Option<Object>, parses: bool, password: string, rootPassword: string,
                 before: Record, after: Record)
    requires inst.spec.mariadb.Some? && Answers([Got(SecretRef(inst), Ok(read))], before, after)
    requires Completes(MariaDbPlan(inst, read, parses, password, rootPassword), before, after)
    ensures Done(inst, parses, password, rootPassword, before, after)
  {
  }

  /** The rest of the pass, once the credentials have been looked up. */
  method ContinueMariaDb(api: ApiServer, inst: Instance, read: Option<Object>, parses: bool, password: string,
                         rootPassword: string, ghost before: Record, ghost start: Store)
    returns (out: Outcome, ghost landed: nat)
    requires api.Valid() && inst.spec.mariadb.Some?
    requires before.log == api.log && before.attempted == api.attempted && start == api.objects
    modifies api
    ensures api.Valid() && old(api.history) <= api.history && api.replies == old(api.replies)
    ensures var plan := MariaDbPlan(inst, read, parses, password, rootPassword);
      api.Followed(before, start, plan, landed, out) && (out.Success? ==> Completes(plan, before, api.SoFar()))
    ensures out.Failure? ==> Unfinished(before, api.SoFar())
    ensures out.Failure? ==>
      var plan := MariaDbPlan(inst, read, parses, password, rootPassword);
      || (WriteFailed(before, api.SoFar()) && out != Failure(NilPointer))
      || (plan.end == out && api.log == before.log + plan.ops)
  {
    var db := inst.spec.mariadb.value;
    ghost var plan := MariaDbPlan(inst, read, parses, password, rootPassword);
    ghost var first := SecretPlan(inst, read, password, rootPassword);
    PlanInOrder(inst, read, parses, password, rootPassword);
    hide *;
    out := WriteAccounts(api, inst, read, password, rootPassword, before, plan.ops);
    landed := if out.Success? then |first| + 1 else if api.Stuck(before, start, plan.ops, 0) then 0 else |first|;
    if out.Success? && !parses {
      out := Failure(BadStorageSize);
      TooLittle(api, before, start, plan.ops, landed);
      NothingMore(api, before, start, plan.ops, landed);
      api.StopsShort(before, start, plan, landed, out);
      return;
    }
    if out.Success? {
      out, landed := WriteWorkload(api, inst, before, start, plan.ops, landed);
    }
    if out.Success? {
      api.Finishes(before, start, plan);
    } else {
      GotStuck(api, before, start, plan.ops, landed);
      api.StuckMeans(before, start, plan.ops, landed);
      api.StopsShort(before, start, plan, landed, out);
    }
  }

  lemma NothingMore(api: ApiServer, before: Record, start: Store, ops: seq<Op>, landed: nat)
    requires landed == |ops| && api.OnTrack(before, start, ops[..landed])
    ensures api.log == before.log + ops
  {
    assert ops[..landed] == ops;
  }

  /** The credentials and the service account. */
  method WriteAccounts(api: ApiServer, inst: Instance, read: Option<Object>, password: string, rootPassword: string,
                       ghost before: Record, ghost ops: seq<Op>)
    returns (out: Outcome)
    requires api.Valid() && before.log == api.log && before.attempted == api.attempted
    requires SecretPlan(inst, read, password, rootPassword) + [AccountOp(inst)] <= ops
    modifies api
    ensures api.Valid() && old(api.history) <= api.history && api.replies == old(api.replies)
      && out != Failure(NilPointer)
    ensures var n, start := |SecretPlan(inst, read, password, rootPassword)|, old(api.objects);
      if out.Success? then api.OnTrack(before, start, ops[..n + 1])
      else api.Stuck(before, start, ops, 0) || api.Stuck(before, start, ops, n)
  {
    ghost var start, n := api.objects, |SecretPlan(inst, read, password, rootPassword)|;
    assert ops[n] == (SecretPlan(inst, read, password, rootPassword) + [AccountOp(inst)])[n];
    hide *;
    api.NothingSince(before, ops);
    out := ReconcileSecret(api, inst, read, password, rootPassword, before, start, ops);
    if out.Success? {
      out := api.Advance(AccountOp(inst), before, start, ops, n);
    }
  }

  /** The claim, the service and the deployment. */
  method WriteWorkload(api: ApiServer, inst: Instance, ghost before: Record, ghost start: Store, ghost ops: seq<Op>,
                       ghost from: nat)
    returns (out: Outcome, ghost landed: nat)
    requires api.Valid() && inst.spec.mariadb.Some? && from <= |ops|
    requires var db := inst.spec.mariadb.value;
      ops[from..] == [ClaimOp(inst, db.storageSize), ServiceOp(inst), DeploymentOp(inst, db.image)]
    requires api.OnTrack(before, start, ops[..from])
    modifies api
    ensures api.Valid() && old(api.history) <= api.history && api.replies == old(api.replies)
      && out != Failure(NilPointer)
    ensures if out.Success? then landed == |ops| && api.OnTrack(before, start, ops[..landed])
      else api.Stuck(before, start, ops, landed)
  {
    var db := inst.spec.mariadb.value;
    assert ops[from] == ops[from..][0] && ops[from + 1] == ops[from..][1] && ops[from + 2] == ops[from..][2];
    hide *;
    landed := from;
    out := api.Advance(ClaimOp(inst, db.storageSize), before, start, ops, landed);
    if out.Success? {
      out, landed := api.AdvanceBoth(ServiceOp(inst), DeploymentOp(inst, db.image), before, start, ops, landed + 1);
    }
  }

  lemma PlanInOrder(inst: Instance, read: Option<Object>, parses: bool, password: string, rootPassword: string)
    requires inst.spec.mariadb.Some?
    ensures var plan, n := MariaDbPlan(inst, read, parses, password, rootPassword),
      |SecretPlan(inst, read, password, rootPassword)|;
      && n <= 1 && SecretPlan(inst, read, password, rootPassword) + [AccountOp(inst)] <= plan.ops
      && (if parses then plan.end == Success && plan.ops[n + 1..] ==
            [ClaimOp(inst, inst.spec.mariadb.value.storageSize), ServiceOp(inst),
             DeploymentOp(inst, inst.spec.mariadb.value.image)]
          else plan.end == Failure(BadStorageSize) && |plan.ops| == n + 1)
  {
    hide AccountOp, ClaimOp, ServiceOp, DeploymentOp, SecretOp, Merged;
  }

  lemma TooLittle(api: ApiServer, before: Record, start: Store, ops: seq<Op>, landed: nat)
    requires landed <= |ops| && landed < 4 && api.OnTrack(before, start, ops[..landed])
    ensures Unfinished(before, api.SoFar())
  {
  }

  lemma GotStuck(api: ApiServer, before: Record, start: Store, ops: seq<Op>, landed: nat)
    requires api.Stuck(before, start, ops, landed)
    ensures Unfinished(before, api.SoFar()) && landed <= |ops|
  {
  }

  function MariaDbRefs(inst: Instance): seq<Ref> {
    [OwnRef(inst, Deployment, "mariadb"), OwnRef(inst, Service, "mariadb"), ClaimRef(inst), SecretRef(inst),
     OwnRef(inst, ServiceAccount, "mariadb")]
  }

  /** Every planned operation names one of these objects. */
  lemma PlannedRefs(inst: Instance, read: Option<Object>, parses: bool, password: string, rootPassword: string, op: Op)
    requires inst.spec.mariadb.Some?
    requires op in MariaDbPlan(inst, read, parses, password, rootPassword).ops
    ensures op.ref in MariaDbRefs(inst)
  {
    hide LabelsFor, OwnRef, Merged;
    var refs := MariaDbRefs(inst);
    var db := inst.spec.mariadb.value;
    assert refs[0] == DeploymentOp(inst, db.image).ref && refs[1] == ServiceOp(inst).ref;
    assert refs[2] == ClaimOp(inst, db.storageSize).ref && refs[4] == AccountOp(inst).ref;
    assert forall o :: o in SecretPlan(inst, read, password, rootPassword) ==> o.ref == refs[3];
    hide SecretPlan, AccountOp, ClaimOp, ServiceOp, DeploymentOp, MariaDbRefs;
  }

  // ----- cleanup --------------------------------------------------------

  /** Each object was looked up once, in order, with these answers. */
  function Lookups(refs: seq<Ref>, found: seq<Option<Object>>): seq<Reply>
    requires |refs| == |found|
  {
    seq(|refs|, i requires 0 <= i < |refs| => Got(refs[i], Ok(found[i])))
  }

  /** A deletion for each object that was found, in order. */
  function Removals(refs: seq<Ref>, found: seq<Option<Object>>): seq<Op>
    requires |refs| == |found|
  {
    if refs == [] then []
    else
      var n := |refs| - 1;
      var before := Removals(refs[..n], found[..n]);
      if found[n].Some? then before + [Delete(refs[n])] else before
  }

  lemma {:induction false} RemovalsAreDeletes(refs: seq<Ref>, found: seq<Option<Object>>)
    requires |refs| == |found|
    ensures forall op :: op in Removals(refs, found) ==> op.Delete? && op.ref in refs
  {
    if refs != [] {
      var n := |refs| - 1;
      RemovalsAreDeletes(refs[..n], found[..n]);
      assert refs[n] in refs && forall r :: r in refs[..n] ==> r in refs;
    }
  }

  /** A whole cleanup lies between the two moments: each object was looked up, and
      exactly those that were found were deleted. */
  ghost predicate Cleaned(inst: Instance, before: Record, after: Record) {
    exists found ::
      && |found| == |MariaDbRefs(inst)|
      && Answers(Lookups(MariaDbRefs(inst), found), before, after)
      && Completes(Plan(Removals(MariaDbRefs(inst), found), Success), before, after)
  }

  /** Why a cleanup may fail: a deletion did not land, or a lookup failed. */
  predicate CleanupExcused(before: Record, after: Record, why: Reason) {
    why != NilPointer && (WriteFailed(before, after) || ReadFailed(before, after, why))
  }

  lemma CleanedIsNotExcused(inst: Instance, before: Record, after: Record, why: Reason)
    requires Cleaned(inst, before, after)
    ensures !CleanupExcused(before, after, why)
  {
    hide Removals, Answers;
    var refs := MariaDbRefs(inst);
    var found :| |found| == |refs| && Answers(Lookups(refs, found), before, after)
      && Completes(Plan(Removals(refs, found), Success), before, after);
    assert Lookups(refs, found)[4] == Got(refs[4], Ok(found[4]));
    LastAnswer(Lookups(refs, found), before, after);
  }

  predicate AsksOnly(refs: seq<Ref>, before: seq<Reply>, after: seq<Reply>) {
    before <= after && forall k :: |before| <= k < |after| ==> after[k].Got? && after[k].ref in refs
  }

  method DeleteResourceIfExists(api: ApiServer, r: Ref, ghost before: Record, ghost start: Store, ghost gone: seq<Op>)
    returns (out: Outcome, ghost found: Result<Option<Object>, Reason>)
    requires api.Valid() && api.OnTrack(before, start, gone)
    modifies api
    ensures api.Valid() && old(api.history) <= api.history
    ensures api.replies == old(api.replies) + [Got(r, found)]
    ensures out.Success? ==>
      found.Ok? && api.OnTrack(before, start, if found.value.Some? then gone + [Delete(r)] else gone)
    ensures out.Failure? ==> if found.Err? then out.reason == found.error && api.OnTrack(before, start, gone)
      else found.value.Some? && api.Stuck(before, start, gone + [Delete(r)], |gone|)
    ensures out != Failure(NilPointer)
  {
    hide Exec, Lands, Apply, Accepts, IsTrace;
    var answer := api.Read(r);
    found := answer;
    if answer.Err? {
      return Failure(answer.error), found;
    }
    if answer.value.None? {
      return Success, found;
    }
    ghost var next := gone + [Delete(r)];
    assert next[..|gone|] == gone && next[..|next|] == next;
    out := api.Advance(Delete(r), before, start, next, |gone|);
  }

  /** With MariaDB disabled: deletes each object that a read finds, stopping at the first error. */
  method CleanupMariaDb(api: ApiServer, inst: Instance) returns (out: Outcome, ghost gone: seq<Op>, ghost landed: nat)
    requires api.Valid()
    modifies api
    ensures api.Valid()
    ensures api.Followed(old(api.SoFar()), old(api.objects), Plan(gone, Success), landed, out)
    ensures forall op :: op in gone ==> op.Delete? && op.ref in MariaDbRefs(inst)
    ensures out.Success? <==> Cleaned(inst, old(api.SoFar()), api.SoFar())
    ensures out.Failure? ==> CleanupExcused(old(api.SoFar()), api.SoFar(), out.reason)
    ensures out != Failure(NilPointer)
    ensures AsksOnly(MariaDbRefs(inst), old(api.replies), api.replies) && |api.replies| > |old(api.replies)|
  {
    hide Exec, Lands, Apply, Accepts, IsTrace, MariaDbRefs, Completes, Cleaned, Lookups, Removals, Answers, AsksOnly,
      ApiServer.Valid, ApiServer.OnTrack, ApiServer.Stuck;
    ghost var before, st0 := api.SoFar(), api.objects;
    gone, landed := [], 0;
    api.NothingLanded(gone);
    assert gone[..0] == gone;
    var refs := MariaDbRefs(inst);
    ghost var found := [];
    FiveRefs(inst, before.replies);
    NothingCleaned(refs, before);
    for i := 0 to |refs|
      invariant api.Valid() && |found| == i && api.OnTrack(before, st0, gone)
      invariant gone == Removals(refs[..i], found) && landed == |gone|
      invariant Answers(Lookups(refs[..i], found), before, api.SoFar())
      invariant AsksOnly(refs, before.replies, api.replies) && |api.replies| == |before.replies| + i
    {
      ghost var answer, asked;
      asked := api.SoFar();
      out, answer := DeleteResourceIfExists(api, refs[i], before, st0, gone);
      AsksOneMore(refs, i, answer, before.replies, asked.replies, api.replies);
      if out.Failure? {
        RemovalsAreDeletes(refs[..i], found);
        if answer.Err? {
          FailedLookupIsNotCleaned(inst, found, answer, before, asked, api.SoFar());
          assert ReadFailed(before, api.SoFar(), out.reason);
          assert gone[..|gone|] == gone;
        } else {
          api.StuckMeans(before, st0, gone + [Delete(refs[i])], |gone|);
          api.StuckIsIncomplete(before, st0, gone + [Delete(refs[i])], |gone|);
          IncompleteIsNotCleaned(inst, before, api.SoFar());
          gone := gone + [Delete(refs[i])];
        }
        return;
      }
      OneMore(refs, i, found, answer.value, before, asked, api.SoFar());
      found := found + [answer.value];
      gone := if answer.value.Some? then gone + [Delete(refs[i])] else gone;
      landed := |gone|;
    }
    assert refs[..|refs|] == refs && gone[..|gone|] == gone;
    RemovalsAreDeletes(refs, found);
    api.AllDone(before, st0, Plan(gone, Success));
    WholeCleanup(inst, found, before, api.SoFar());
    return Success, gone, landed;
  }

  lemma AsksOneMore(refs: seq<Ref>, i: nat, answer: Result<Option<Object>, Reason>, before: seq<Reply>,
                    asked: seq<Reply>, after: seq<Reply>)
    requires i < |refs| && AsksOnly(refs, before, asked) && after == asked + [Got(refs[i], answer)]
    ensures AsksOnly(refs, before, after)
  {
  }

  lemma FiveRefs(inst: Instance, replies: seq<Reply>)
    ensures |MariaDbRefs(inst)| == 5 && AsksOnly(MariaDbRefs(inst), replies, replies)
  {
  }

  lemma NothingCleaned(refs: seq<Ref>, before: Record)
    ensures Removals(refs[..0], []) == [] && Answers(Lookups(refs[..0], []), before, before)
  {
    assert before.replies + [] == before.replies;
  }

  /** One more object was looked up, and nothing else was asked. */
  lemma OneMore(refs: seq<Ref>, i: nat, found: seq<Option<Object>>, answer: Option<Object>, before: Record,
                asked: Record, after: Record)
    requires i < |refs| && |found| == i && Answers(Lookups(refs[..i], found), before, asked)
    requires after.replies == asked.replies + [Got(refs[i], Ok(answer))]
    ensures Answers(Lookups(refs[..i + 1], found + [answer]), before, after)
    ensures var gone := Removals(refs[..i], found);
      Removals(refs[..i + 1], found + [answer]) == if answer.Some? then gone + [Delete(refs[i])] else gone
  {
    assert refs[..i + 1][..i] == refs[..i] && (found + [answer])[..i] == found;
    assert Lookups(refs[..i + 1], found + [answer]) == Lookups(refs[..i], found) + [Got(refs[i], Ok(answer))];
  }

  lemma WholeCleanup(inst: Instance, found: seq<Option<Object>>, before: Record, after: Record)
    requires |found| == |MariaDbRefs(inst)| && Answers(Lookups(MariaDbRefs(inst), found), before, after)
    requires Completes(Plan(Removals(MariaDbRefs(inst), found), Success), before, after)
    ensures Cleaned(inst, before, after)
  {
  }

  lemma IncompleteIsNotCleaned(inst: Instance, before: Record, after: Record)
    requires forall plan :: !Completes(plan, before, after)
    ensures !Cleaned(inst, before, after)
  {
  }

  /** A cleanup in which a lookup failed, or that was cut short, is not a whole one. */
  lemma FailedLookupIsNotCleaned(inst: Instance, found: seq<Option<Object>>, answer: Result<Option<Object>, Reason>,
                                 before: Record, asked: Record, after: Record)
    requires |found| < |MariaDbRefs(inst)| && answer.Err?
    requires Answers(Lookups(MariaDbRefs(inst)[..|found|], found), before, asked)
    requires after.replies == asked.replies + [Got(MariaDbRefs(inst)[|found|], answer)]
    ensures !Cleaned(inst, before, after)
  {
    hide MariaDbRefs;
    var refs, n := MariaDbRefs(inst), |found|;
    var given := Lookups(refs[..n], found) + [Got(refs[n], answer)];
    assert Answers(given, before, after);
    forall all: seq<Option<Object>> | |all| == |refs| ensures !Answers(Lookups(refs, all), before, after) {
      assert given[n] == Got(refs[n], answer) && Lookups(refs, all)[n] == Got(refs[n], Ok(all[n]));
      if Answers(Lookups(refs, all), before, after) {
        SameAnswers(Lookups(refs, all), given, before, after);
        assert false;
      }
    }
  }
}
