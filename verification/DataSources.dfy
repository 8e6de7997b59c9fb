/** The datasource reconciler: recover the token, write every entry of the spec,
    then delete what the spec no longer names. */
module DataSources {
  import opened Wrappers
  import opened GrafooApi
  import opened Cluster
  import opened Naming
  import opened SecureJson

  const JSON_DATA := "{\"httpHeaderName1\": \"Authorization\", \"tlsSkipVerify\": true}"

  function StoredRef(d: Digest, inst: Instance, ds: DataSource): Ref {
    OwnRef(inst, GrafanaDatasource, DataSourceKey(d, ds))
  }

  // ----- rendering one entry --------------------------------------------

  predicate InCluster(kind: string) { kind in {PROMETHEUS, LOKI, TEMPO} }

  predicate Known(ds: DataSource) { InCluster(ds.kind) || ds.kind == MCOO }

  /** The payload that the writer for the entry's type dereferences. */
  function OwnPayload(ds: DataSource): Option<string> {
    if ds.kind == LOKI then ds.loki else if ds.kind == TEMPO then ds.tempo else ds.prometheus
  }

  /** The type that Grafana sees, which is also the component label. */
  function GrafanaType(ds: DataSource): string {
    if ds.kind == LOKI then "loki" else if ds.kind == TEMPO then "tempo" else "prometheus"
  }

  function SecureData(ds: DataSource, token: string): string {
    if ds.kind == MCOO then RenderHeader(token) else RenderBearer(token)
  }

  function RenderedSpec(inst: Instance, ds: DataSource, url: string, token: string): DatasourceSpec {
    DatasourceSpec(ds.name, GrafanaType(ds), "proxy", ds.kind == PROMETHEUS, url, JSON_DATA, SecureData(ds, token),
                   LabelsFor(inst, "grafana"))
  }

  function WriteOp(d: Digest, inst: Instance, ds: DataSource, url: string, token: string): Op {
    Upsert(StoredRef(d, inst, ds), BLANK.(labels := LabelsFor(inst, "grafana")),
           Patch(Some(LabelsFor(inst, GrafanaType(ds))), None, Some(inst.name),
                 Some(Datasource(RenderedSpec(inst, ds, url, token)))))
  }

  /** The object holds the rendering of the entry with the token. */
  predicate Renders(o: Object, inst: Instance, ds: DataSource, token: string) {
    && OwnPayload(ds).Some?
    && o.labels == LabelsFor(inst, GrafanaType(ds))
    && o.owner == Some(inst.name)
    && o.body == Datasource(RenderedSpec(inst, ds, OwnPayload(ds).value, token))
  }

  // ----- the plan of a pass ---------------------------------------------

  /** What listing by the instance label returns. */
  predicate IsListed(view: Store, inst: Instance, r: Ref) {
    && r in view && r.kind == GrafanaDatasource && r.namespace == inst.namespace
    && INSTANCE_LABEL in view[r].labels && view[r].labels[INSTANCE_LABEL] == inst.name
  }

  function Listed(view: Store, inst: Instance): set<Ref> {
    set r | r in view && IsListed(view, inst, r)
  }

  function StoredToken(o: Object): Result<string, Reason> {
    if !o.body.Datasource? then Err(NilPointer)
    else match ExtractToken(o.body.spec.secureJsonData)
      case Ok(t) => Ok(t)
      case Err(_) => Err(BadToken)
  }

  /** The token in hand, else the one stored for this entry, else still none. */
  function Recover(d: Digest, inst: Instance, ds: DataSource, token: string, view: Store): Result<string, Reason> {
    if token == "" && IsListed(view, inst, StoredRef(d, inst, ds)) then StoredToken(view[StoredRef(d, inst, ds)])
    else Ok(token)
  }

  /** What the loop does with one entry: stop, go on, or write and go on. */
  datatype Step = Stop(why: Reason) | Skip(token: string) | Write(op: Op, token: string)

  function StepFor(d: Digest, inst: Instance, ds: DataSource, token: string, view: Store): (step: Step)
    ensures step.Write? ==>
      Known(ds) && step.op.Upsert? && step.op.ref == StoredRef(d, inst, ds) && step.op.patch.owner == Some(inst.name)
    ensures step.Skip? ==> !Known(ds)
    ensures !step.Stop? ==> Recover(d, inst, ds, token, view) == Ok(step.token)
  {
    match Recover(d, inst, ds, token, view)
    case Err(why) => Stop(why)
    case Ok(t) =>
      if !Known(ds) then Skip(t)
      else if OwnPayload(ds).None? then Stop(NilPointer)
      else Write(WriteOp(d, inst, ds, OwnPayload(ds).value, t), t)
  }

  function UpsertPlan(d: Digest, inst: Instance, entries: seq<DataSource>, token: string, view: Store): Plan {
    if entries == [] then Plan([], Success) else
    match StepFor(d, inst, entries[0], token, view)
    case Stop(why) => Plan([], Failure(why))
    case Skip(t) => UpsertPlan(d, inst, entries[1..], t, view)
    case Write(op, t) =>
      var rest := UpsertPlan(d, inst, entries[1..], t, view);
      Plan([op] + rest.ops, rest.end)
  }

  function Written(ops: seq<Op>): set<Ref> { set i | 0 <= i < |ops| :: ops[i].ref }

  function Deletions(order: seq<Ref>, kept: set<Ref>): seq<Op> {
    if order == [] then []
    else (if order[0] in kept then [] else [Delete(order[0])]) + Deletions(order[1..], kept)
  }

  /** The pass with the token it starts from, the listing it took and the order of the listed items. */
  function PassPlan(d: Digest, inst: Instance, token: string, view: Store, order: seq<Ref>): Plan {
    var up := UpsertPlan(d, inst, inst.spec.datasources, token, view);
    if up.end.Failure? then up else Plan(up.ops + Deletions(order, Written(up.ops)), Success)
  }

  predicate Enumerates(order: seq<Ref>, s: set<Ref>) {
    && (forall i, j :: 0 <= i < j < |order| ==> order[i] != order[j])
    && (forall i :: 0 <= i < |order| ==> order[i] in s)
    && (forall r :: r in s ==> r in order)
  }

  // ----- the reconciler -------------------------------------------------

  method ListDatasources(api: ApiServer, inst: Instance) returns (listing: Result<(Store, seq<Ref>), Reason>)
    requires api.Valid()
    modifies api`replies
    ensures api.Valid()
    ensures listing.Ok? ==> listing.value.0 in api.history && Enumerates(listing.value.1, Listed(listing.value.0, inst))
    ensures listing.Err? ==> listing.error == ApiError
    ensures api.replies == old(api.replies) + [Listing(if listing.Ok? then Ok(listing.value.0) else Err(listing.error))]
  {
    var view := api.Snapshot();
    if view.Err? {
      return Err(view.error);
    }
    var all := Listed(view.value, inst);
    var rest, order := all, [];
    while rest != {}
      invariant rest <= all
      invariant Enumerates(order, all - rest)
      decreases rest
    {
      var r :| r in rest;
      order := order + [r];
      rest := rest - {r};
    }
    return Ok((view.value, order));
  }

  /** The search of the listing for the entry's own object. */
  method RecoverToken(d: Digest, inst: Instance, ds: DataSource, token: string, view: Store, items: seq<Ref>)
    returns (r: Result<string, Reason>)
    requires Enumerates(items, Listed(view, inst))
    ensures r == Recover(d, inst, ds, token, view)
  {
    if token != "" {
      return Ok(token);
    }
    var found := token;
    var wanted := StoredRef(d, inst, ds);
    for i := 0 to |items|
      invariant wanted in items[..i] ==> StoredToken(view[wanted]) == Ok(found)
      invariant wanted !in items[..i] ==> found == token
    {
      if items[i].name == wanted.name {
        assert items[i] in Listed(view, inst);
        assert items[i] == wanted;
        var extracted := StoredToken(view[items[i]]);
        if extracted.Err? {
          return extracted;
        }
        found := extracted.value;
      }
    }
    assert items[..|items|] == items;
    assert wanted in items <==> wanted in Listed(view, inst);
    return Ok(found);
  }

  /** Recovers the token for one entry and runs the writer for its type. */
  method ReconcileEntry(api: ApiServer, d: Digest, inst: Instance, ds: DataSource, token: string, view: Store,
                        items: seq<Ref>, ghost before: Record, ghost start: Store, ghost ops: seq<Op>,
                        ghost landed: nat)
    returns (r: Result<Step, Reason>)
    requires api.Valid() && Enumerates(items, Listed(view, inst))
    requires landed <= |ops| && api.OnTrack(before, start, ops[..landed])
    requires var step := StepFor(d, inst, ds, token, view); step.Write? ==> landed < |ops| && ops[landed] == step.op
    modifies api
    ensures api.Valid() && api.replies == old(api.replies)
    ensures r.Ok? ==> r.value == StepFor(d, inst, ds, token, view) && !r.value.Stop?
    ensures r.Ok? ==> api.OnTrack(before, start, ops[..if r.value.Write? then landed + 1 else landed])
    ensures r.Err? ==> (if StepFor(d, inst, ds, token, view).Stop?
                        then r.error == StepFor(d, inst, ds, token, view).why
                          && api.OnTrack(before, start, ops[..landed])
                        else r.error != NilPointer && api.Stuck(before, start, ops, landed))
  {
    var recovered := RecoverToken(d, inst, ds, token, view, items);
    if recovered.Err? {
      return Err(recovered.error);
    }
    if !Known(ds) {
      return Ok(Skip(recovered.value));
    }
    if OwnPayload(ds).None? {
      return Err(NilPointer);
    }
    var op := WriteOp(d, inst, ds, OwnPayload(ds).value, recovered.value);
    var wrote := api.Advance(op, before, start, ops, landed);
    if wrote.Failure? {
      return Err(wrote.reason);
    }
    return Ok(Write(op, recovered.value));
  }

  /** The loop over the entries of the spec; returns what it wrote. */
  method UpsertEntries(api: ApiServer, d: Digest, inst: Instance, token0: string, view: Store, items: seq<Ref>)
    returns (out: Outcome, reconciled: set<Ref>, ghost landed: nat)
    requires api.Valid()
    requires Enumerates(items, Listed(view, inst))
    modifies api
    ensures api.Valid() && api.replies == old(api.replies)
    ensures var plan := UpsertPlan(d, inst, inst.spec.datasources, token0, view);
      && api.Followed(old(api.SoFar()), old(api.objects), plan, landed, out)
      && (out.Success? <==> plan.end.Success? && api.OnTrack(old(api.SoFar()), old(api.objects), plan.ops[..landed]))
      && (out.Failure? ==>
            || (WriteFailed(old(api.SoFar()), api.SoFar()) && out != Failure(NilPointer))
            || EndsSo(plan, old(api.SoFar()), api.SoFar(), out.reason))
      && reconciled == Written(plan.ops[..landed])
  {
    hide Exec, Lands, IsTrace, Enumerates, Listed, StepFor, Recover, Known, StoredRef, UpsertPlan, Written;
    var entries := inst.spec.datasources;
    var token := token0;
    ghost var up := UpsertPlan(d, inst, entries, token, view);
    api.NothingLanded(up.ops);
    assert entries[0..] == entries && up.ops[0..] == up.ops && up.ops[..0] == [];
    NothingPlanned(d, inst, token, view);
    reconciled, landed := {}, 0;
    for i := 0 to |entries|
      invariant api.Valid()
      invariant api.replies == old(api.replies)
      invariant landed <= |up.ops| && api.OnTrack(old(api.SoFar()), old(api.objects), up.ops[..landed])
      invariant UpsertPlan(d, inst, entries[i..], token, view) == Plan(up.ops[landed..], up.end)
      invariant reconciled == Written(up.ops[..landed])
    {
      PlanFrom(d, inst, entries, i, token, view, up, landed);
      var step := ReconcileEntry(api, d, inst, entries[i], token, view, items, old(api.SoFar()), old(api.objects),
                                 up.ops, landed);
      if step.Err? {
        if StepFor(d, inst, entries[i], token, view).Stop? {
          assert up.ops[..landed] == up.ops;
        } else {
          api.StuckMeans(old(api.SoFar()), old(api.objects), up.ops, landed);
        }
        return Failure(step.error), reconciled, landed;
      }
      token := step.value.token;
      if step.value.Write? {
        reconciled := reconciled + {step.value.op.ref};
        WrittenSnoc(up.ops[..landed], step.value.op);
        assert up.ops[..landed + 1] == up.ops[..landed] + [step.value.op];
        landed := landed + 1;
      }
    }
    assert entries[|entries|..] == [];
    NothingPlanned(d, inst, token, view);
    return Success, reconciled, landed;
  }

  lemma NothingPlanned(d: Digest, inst: Instance, token: string, view: Store)
    ensures UpsertPlan(d, inst, [], token, view) == Plan([], Success) && Written([]) == {}
  {
  }

  /** What is left of the plan when the loop gets to an entry. */
  lemma PlanFrom(d: Digest, inst: Instance, entries: seq<DataSource>, i: nat, token: string, view: Store, plan: Plan,
                 done: nat)
    requires i < |entries| && done <= |plan.ops|
    requires UpsertPlan(d, inst, entries[i..], token, view) == Plan(plan.ops[done..], plan.end)
    ensures var step := StepFor(d, inst, entries[i], token, view);
      match step
      case Stop(why) => done == |plan.ops| && plan.end == Failure(why)
      case Skip(t) => UpsertPlan(d, inst, entries[i + 1..], t, view) == Plan(plan.ops[done..], plan.end)
      case Write(op, t) => done < |plan.ops| && plan.ops[done] == op
                           && UpsertPlan(d, inst, entries[i + 1..], t, view) == Plan(plan.ops[done + 1..], plan.end)
  {
    hide StepFor;
    assert entries[i..][0] == entries[i] && entries[i..][1..] == entries[i + 1..];
    var step := StepFor(d, inst, entries[i], token, view);
    if step.Write? {
      assert plan.ops[done..][0] == plan.ops[done] && plan.ops[done..][1..] == plan.ops[done + 1..];
    }
  }

  /** The loop that deletes listed items that were not written. */
  method DeleteStale(api: ApiServer, items: seq<Ref>, reconciled: set<Ref>) returns (out: Outcome, ghost landed: nat)
    requires api.Valid()
    modifies api
    ensures api.Valid() && api.replies == old(api.replies)
    ensures api.Followed(old(api.SoFar()), old(api.objects), Plan(Deletions(items, reconciled), Success), landed, out)
    ensures out.Failure? ==> api.Stuck(old(api.SoFar()), old(api.objects), Deletions(items, reconciled), landed)
  {
    hide Exec, Lands, IsTrace;
    ghost var ops := Deletions(items, reconciled);
    api.NothingLanded(ops);
    landed := 0;
    for i := 0 to |items|
      invariant api.Valid()
      invariant api.replies == old(api.replies)
      invariant landed <= |ops| && api.OnTrack(old(api.SoFar()), old(api.objects), ops[..landed])
      invariant Deletions(items[i..], reconciled) == ops[landed..]
    {
      assert items[i..][0] == items[i] && items[i..][1..] == items[i + 1..];
      if items[i] !in reconciled {
        assert ops[landed..][0] == Delete(items[i]);
        var gone := api.Advance(Delete(items[i]), old(api.SoFar()), old(api.objects), ops, landed);
        if gone.Failure? {
          return gone, landed;
        }
        landed := landed + 1;
      }
    }
    return Success, landed;
  }

  /** The token that a pass starts from. */
  function Fresh(needsRefresh: bool, issued: Result<string, Reason>): string {
    if needsRefresh && issued.Ok? then issued.value else ""
  }

  /** A whole pass lies between the two moments: the token it needs was issued, one
      listing was taken, and the plan for it was carried out to a successful end. */
  ghost predicate Done(d: Digest, inst: Instance, needsRefresh: bool, issued: Result<string, Reason>, before: Record,
                       after: Record) {
    && (needsRefresh ==> issued.Ok?)
    && exists view, order ::
         && Answers([Listing(Ok(view))], before, after)
         && Enumerates(order, Listed(view, inst))
         && Completes(PassPlan(d, inst, Fresh(needsRefresh, issued), view, order), before, after)
  }

  /** Why a pass may fail: a write did not land; the token was refused, before anything else;
      the listing failed, before any write; or it was taken and the plan for it, carried out
      to its end, has this error. */
  ghost predicate Excused(d: Digest, inst: Instance, needsRefresh: bool, issued: Result<string, Reason>, before: Record,
                          after: Record, why: Reason) {
    || (WriteFailed(before, after) && why != NilPointer)
    || (needsRefresh && issued == Err(why) && after == before)
    || (Answers([Listing(Err(why))], before, after) && after.log == before.log && why != NilPointer)
    || (!(needsRefresh && issued.Err?) && exists view, order ::
          && Answers([Listing(Ok(view))], before, after) && Enumerates(order, Listed(view, inst))
          && EndsSo(PassPlan(d, inst, Fresh(needsRefresh, issued), view, order), before, after, why))
  }

  /** A whole successful run and a reason to fail exclude each other. */
  lemma DoneIsNotExcused(d: Digest, inst: Instance, needsRefresh: bool, issued: Result<string, Reason>, before: Record,
                         after: Record, why: Reason)
    requires Done(d, inst, needsRefresh, issued, before, after)
    ensures !Excused(d, inst, needsRefresh, issued, before, after, why)
  {
    hide UpsertPlan, Deletions, Answers, Enumerates, Listed, Written;
    var view, order :| Answers([Listing(Ok(view))], before, after) && Enumerates(order, Listed(view, inst))
      && Completes(PassPlan(d, inst, Fresh(needsRefresh, issued), view, order), before, after);
    LastAnswer([Listing(Ok(view))], before, after);
    forall reply | Answers([Listing(reply)], before, after) ensures reply == Ok(view) {
      SameAnswers([Listing(reply)], [Listing(Ok(view))], before, after);
    }
  }

  /** All of the plan landed, and it ends in the error. */
  ghost predicate EndsSo(plan: Plan, before: Record, after: Record, why: Reason) {
    plan.end == Failure(why) && after.log == before.log + plan.ops
  }

  /** One pass.  `issued` is the API server's answer to the token request, which
      a refreshing pass makes first. */
  method ReconcileDataSources(api: ApiServer, d: Digest, inst: Instance, needsRefresh: bool,
                              issued: Result<string, Reason>)
    returns (out: Outcome, ghost view: Store, ghost order: seq<Ref>, ghost landed: nat)
    requires api.Valid()
    requires needsRefresh ==> inst.spec.tokenDuration.Some? // Reconcile has already read it
    requires issued.Err? ==> issued.error != NilPointer
    modifies api
    ensures api.Valid()
    ensures view in old(api.history) && Enumerates(order, Listed(view, inst))
    ensures api.Followed(old(api.SoFar()), old(api.objects),
                         PassPlan(d, inst, Fresh(needsRefresh, issued), view, order), landed, out)
    ensures needsRefresh && issued.Err? ==> landed == 0
    ensures out.Success? <==> Done(d, inst, needsRefresh, issued, old(api.SoFar()), api.SoFar())
    ensures out.Failure? ==> Excused(d, inst, needsRefresh, issued, old(api.SoFar()), api.SoFar(), out.reason)
    ensures api.replies == old(api.replies) || exists listing :: api.replies == old(api.replies) + [Listing(listing)]
  {
    hide Exec, Lands, Apply, UpsertPlan, Deletions, Enumerates, Listed, PassPlan, Completes;
    ghost var before := api.SoFar();
    view := api.history[|api.log|];
    order, landed := AnyOrder(Listed(view, inst)), 0;
    api.NothingLanded(PassPlan(d, inst, Fresh(needsRefresh, issued), view, order).ops);
    if needsRefresh && issued.Err? {
      return Failure(issued.error), view, order, landed;
    }
    var token := if needsRefresh then issued.value else "";
    var listing := ListDatasources(api, inst);
    if listing.Err? {
      assert Answers([Listing(Err(listing.error))], before, api.SoFar());
      forall v | Answers([Listing(Ok(v))], before, api.SoFar()) ensures false {
        SameAnswers([Listing(Ok(v))], [Listing(Err(listing.error))], before, api.SoFar());
      }
      return Failure(listing.error), view, order, landed;
    }
    view, order := listing.value.0, listing.value.1;
    out, landed := WriteAndPrune(api, d, inst, token, listing.value.0, listing.value.1, before);
    assert Answers([Listing(Ok(view))], before, api.SoFar());
    if out.Failure? {
      forall v, o | Answers([Listing(Ok(v))], before, api.SoFar())
        ensures !Completes(PassPlan(d, inst, token, v, o), before, api.SoFar())
      {
        SameAnswers([Listing(Ok(v))], [Listing(Ok(view))], before, api.SoFar());
      }
    }
  }

  method WriteAndPrune(api: ApiServer, d: Digest, inst: Instance, token: string, view: Store, items: seq<Ref>,
                       ghost before: Record)
    returns (out: Outcome, ghost landed: nat)
    requires api.Valid() && Enumerates(items, Listed(view, inst))
    requires before.log == api.log && before.attempted == api.attempted
    modifies api
    ensures api.Valid() && api.replies == old(api.replies)
    ensures api.Followed(before, old(api.objects), PassPlan(d, inst, token, view, items), landed, out)
    ensures out.Success? ==> Completes(PassPlan(d, inst, token, view, items), before, api.SoFar())
    ensures out.Failure? ==> forall order :: !Completes(PassPlan(d, inst, token, view, order), before, api.SoFar())
    ensures out.Failure? ==>
      || (WriteFailed(before, api.SoFar()) && out != Failure(NilPointer))
      || EndsSo(PassPlan(d, inst, token, view, items), before, api.SoFar(), out.reason)
  {
    hide Exec, Lands, Apply, UpsertPlan, Deletions, Enumerates, Listed;
    ghost var up := UpsertPlan(d, inst, inst.spec.datasources, token, view);
    ghost var plan := PassPlan(d, inst, token, view, items);
    var reconciled;
    out, reconciled, landed := UpsertEntries(api, d, inst, token, view, items);
    assert up.ops[..landed] == plan.ops[..landed];
    if out.Success? {
      assert up.ops[..landed] == up.ops;
      ghost var between, mid := api.SoFar(), api.objects;
      ghost var doomed, deleted := Deletions(items, reconciled), 0;
      out, deleted := DeleteStale(api, items, reconciled);
      api.InTurn(before, old(api.objects), up.ops, between, mid, doomed, deleted);
      landed := landed + deleted;
      assert plan.ops == up.ops + doomed;
    }
  }

  ghost function AnyOrder(s: set<Ref>): (order: seq<Ref>)
    ensures Enumerates(order, s)
  {
    if s == {} then [] else
    var r :| r in s;
    var rest := AnyOrder(s - {r});
    rest + [r]
  }

  lemma WrittenSnoc(ops: seq<Op>, op: Op)
    ensures Written(ops + [op]) == Written(ops) + {op.ref}
  {
    var all := ops + [op];
    assert forall i :: 0 <= i < |ops| ==> all[i] == ops[i];
    forall r | r in Written(ops) + {op.ref} ensures r in Written(all) {
      if r == op.ref { assert all[|ops|] == op; }
      else { var i :| 0 <= i < |ops| && ops[i].ref == r; assert all[i].ref == r; }
    }
  }
}
