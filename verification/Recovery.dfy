/** One token in every datasource: what runs of passes, each cut off anywhere, do
    to the token, and when it is lost. */
module Recovery {
  import opened Wrappers
  import opened GrafooApi
  import opened Cluster
  import opened Naming
  import opened SecureJson
  import opened DataSources
  import opened Convergence
  import opened Webhook

  // ----- runs of passes -------------------------------------------------

  /** A pass: the token it was issued if it refreshes, which past state it listed, the
      order of the listing, and how many of its operations landed before it was cut off. */
  datatype Pass = Pass(refresh: Option<string>, listed: nat, order: seq<Ref>, landed: nat)

  function StartToken(p: Pass): string {
    if p.refresh.Some? then p.refresh.value else ""
  }

  function PlanOf(d: Digest, inst: Instance, view: Store, p: Pass): Plan {
    PassPlan(d, inst, StartToken(p), view, p.order)
  }

  predicate Possible(d: Digest, inst: Instance, view: Store, p: Pass) {
    Enumerates(p.order, Listed(view, inst)) && p.landed <= |PlanOf(d, inst, view, p).ops|
  }

  predicate Completed(d: Digest, inst: Instance, view: Store, p: Pass) {
    PlanOf(d, inst, view, p).end.Success? && p.landed == |PlanOf(d, inst, view, p).ops|
  }

  /** The store after a pass that listed the view. */
  function AfterPass(d: Digest, inst: Instance, view: Store, st: Store, p: Pass): Store {
    var ops := PlanOf(d, inst, view, p).ops;
    Exec(st, if p.landed <= |ops| then ops[..p.landed] else ops)
  }

  /** The store after the first i passes. */
  function StoreAt(d: Digest, inst: Instance, st: Store, run: seq<Pass>, i: nat): Store
    requires i <= |run|
    decreases i, 0
  {
    if i == 0 then st
    else AfterPass(d, inst, ViewOf(d, inst, st, run, i - 1), StoreAt(d, inst, st, run, i - 1), run[i - 1])
  }

  /** What the i-th pass lists: the store as it was some passes ago, or as it is. */
  function ViewOf(d: Digest, inst: Instance, st: Store, run: seq<Pass>, i: nat): Store
    requires i < |run|
    decreases i, 1
  {
    StoreAt(d, inst, st, run, if run[i].listed < i then run[i].listed else i)
  }

  predicate IsRun(d: Digest, inst: Instance, st: Store, run: seq<Pass>) {
    forall i :: 0 <= i < |run| ==> Possible(d, inst, ViewOf(d, inst, st, run, i), run[i])
  }

  // ----- the first entry's token ----------------------------------------

  /** Entries of known types with payloads and distinct keys, an in-cluster one first. */
  predicate LinedUp(d: Digest, inst: Instance) {
    var entries := inst.spec.datasources;
    && entries != [] && InCluster(entries[0].kind)
    && (forall i :: 0 <= i < |entries| ==> Known(entries[i]) && OwnPayload(entries[i]).Some?)
    && (forall i, j :: 0 <= i < j < |entries| ==> StoredRef(d, inst, entries[i]) != StoredRef(d, inst, entries[j]))
  }

  function LeadRef(d: Digest, inst: Instance): Ref
    requires inst.spec.datasources != []
  {
    StoredRef(d, inst, inst.spec.datasources[0])
  }

  /** The first entry is stored with the token. */
  predicate LeadHolds(d: Digest, inst: Instance, st: Store, token: string)
    requires inst.spec.datasources != []
  {
    LeadRef(d, inst) in st && Renders(st[LeadRef(d, inst)], inst, inst.spec.datasources[0], token)
  }

  predicate Usable(token: string) { token != "" && AllPlain(token) }

  lemma LeadIsReadBack(d: Digest, inst: Instance, st: Store, token: string)
    requires LinedUp(d, inst) && AllPlain(token) && LeadHolds(d, inst, st, token)
    ensures IsListed(st, inst, LeadRef(d, inst))
    ensures StoredToken(st[LeadRef(d, inst)]) == if token == "" then Err(BadToken) else Ok(token)
  {
    BearerExtraction(token);
  }

  /** No other entry, and no deletion, names the first entry's object. */
  lemma LaterWritesAvoidLead(d: Digest, inst: Instance, token: string, view: Store, k: nat)
    requires LinedUp(d, inst)
    requires k < |UpsertPlan(d, inst, inst.spec.datasources[1..], token, view).ops|
    ensures UpsertPlan(d, inst, inst.spec.datasources[1..], token, view).ops[k].ref != LeadRef(d, inst)
  {
    hide UpsertPlan;
    var rest := inst.spec.datasources[1..];
    WritesNameTheSpec(d, inst, rest, token, view);
    var r := UpsertPlan(d, inst, rest, token, view).ops[k].ref;
    assert Names(d, inst, rest, r);
    var i :| 0 <= i < |rest| && Known(rest[i]) && StoredRef(d, inst, rest[i]) == r;
    assert rest[i] == inst.spec.datasources[i + 1];
  }

  lemma OnlyFirstWriteTouchesLead(d: Digest, inst: Instance, view: Store, p: Pass, token: string, k: nat)
    requires LinedUp(d, inst)
    requires Recover(d, inst, inst.spec.datasources[0], StartToken(p), view) == Ok(token)
    requires 1 <= k < |PlanOf(d, inst, view, p).ops|
    ensures PlanOf(d, inst, view, p).ops[k].ref != LeadRef(d, inst)
  {
    hide *;
    PlanSplits(d, inst, view, p, token);
    var up := UpsertPlan(d, inst, inst.spec.datasources, StartToken(p), view);
    var rest := UpsertPlan(d, inst, inst.spec.datasources[1..], token, view);
    if k < |up.ops| {
      LaterWritesAvoidLead(d, inst, token, view, k - 1);
      assert PlanOf(d, inst, view, p).ops[k] == rest.ops[k - 1];
    } else {
      DeletionsNameTheRest(p.order, Written(up.ops));
    }
  }

  /** The first entry's write, those of the other entries, and the deletions. */
  lemma PlanSplits(d: Digest, inst: Instance, view: Store, p: Pass, token: string)
    requires LinedUp(d, inst) && Recover(d, inst, inst.spec.datasources[0], StartToken(p), view) == Ok(token)
    ensures inst.spec.datasources != []
    ensures var up := UpsertPlan(d, inst, inst.spec.datasources, StartToken(p), view);
      && up.ops != [] && up.ops[0].ref == LeadRef(d, inst) && LeadRef(d, inst) in Written(up.ops)
      && up.ops[1..] == UpsertPlan(d, inst, inst.spec.datasources[1..], token, view).ops
      && up.ops <= PlanOf(d, inst, view, p).ops
      && (PlanOf(d, inst, view, p).ops == up.ops
          || PlanOf(d, inst, view, p).ops == up.ops + Deletions(p.order, Written(up.ops)))
  {
    hide Recover, SecureData, Deletions;
  }

  /** The first write of a pass is the first entry's, and nothing after it touches that object. */
  lemma FirstWriteLeads(d: Digest, inst: Instance, view: Store, st: Store, p: Pass, token: string)
    requires LinedUp(d, inst) && Possible(d, inst, view, p) && p.landed >= 1
    requires Recover(d, inst, inst.spec.datasources[0], StartToken(p), view) == Ok(token)
    ensures LeadHolds(d, inst, AfterPass(d, inst, view, st, p), token)
  {
    var entries := inst.spec.datasources;
    var op := WriteOp(d, inst, entries[0], OwnPayload(entries[0]).value, token);
    var ops := PlanOf(d, inst, view, p).ops;
    assert ops[0] == op;
    forall k | 1 <= k < |ops| ensures ops[k].ref != op.ref {
      OnlyFirstWriteTouchesLead(d, inst, view, p, token, k);
    }
    hide PlanOf, Recover, Enumerates;
    var done := ops[..p.landed];
    assert forall k :: 0 <= k < |done[1..]| ==> done[1..][k] == ops[k + 1];
    ExecFrame(Apply(st, op), done[1..], op.ref);
  }

  /** Whatever a pass listed: if nothing landed, nothing changed, and otherwise the
      first entry holds the token in hand, or else the one that the listing showed. */
  lemma LeadAfterPass(d: Digest, inst: Instance, view: Store, st: Store, p: Pass)
    requires LinedUp(d, inst) && Possible(d, inst, view, p)
    ensures p.landed == 0 ==> AfterPass(d, inst, view, st, p) == st
    ensures p.landed >= 1 ==>
      var token := Recover(d, inst, inst.spec.datasources[0], StartToken(p), view);
      token.Ok? && LeadHolds(d, inst, AfterPass(d, inst, view, st, p), token.value)
  {
    if p.landed == 0 {
      assert PlanOf(d, inst, view, p).ops[..0] == [];
    } else {
      var step := StepFor(d, inst, inst.spec.datasources[0], StartToken(p), view);
      assert !step.Stop?;
      FirstWriteLeads(d, inst, view, st, p, step.token);
    }
  }

  lemma RecoversLead(d: Digest, inst: Instance, view: Store, token: string)
    requires LinedUp(d, inst) && Usable(token) && LeadHolds(d, inst, view, token)
    ensures Recover(d, inst, inst.spec.datasources[0], "", view) == Ok(token)
  {
    LeadIsReadBack(d, inst, view, token);
  }

  lemma InHand(d: Digest, inst: Instance, view: Store, p: Pass)
    requires inst.spec.datasources != [] && p.refresh.Some? && Usable(p.refresh.value)
    ensures Recover(d, inst, inst.spec.datasources[0], StartToken(p), view) == Ok(p.refresh.value)
  {
  }

  /** A pass without a refresh whose listing shows an older token writes that one back. */
  lemma StaleListingBringsBack(d: Digest, inst: Instance, view: Store, st: Store, p: Pass, older: string)
    requires LinedUp(d, inst) && Possible(d, inst, view, p) && p.refresh.None? && p.landed >= 1
    requires Usable(older) && LeadHolds(d, inst, view, older)
    ensures LeadHolds(d, inst, AfterPass(d, inst, view, st, p), older)
  {
    RecoversLead(d, inst, view, older);
    LeadAfterPass(d, inst, view, st, p);
  }

  /** A refresh whose token request failed counts as one that lands nothing. */
  predicate Granted(p: Pass) {
    p.refresh.Some? && p.landed >= 1 ==> Usable(p.refresh.value)
  }

  predicate UsableTokens(run: seq<Pass>) {
    forall i :: 0 <= i < |run| ==> Granted(run[i])
  }

  /** One step of a run. */
  lemma Step(d: Digest, inst: Instance, st: Store, run: seq<Pass>, i: nat)
    requires IsRun(d, inst, st, run) && UsableTokens(run) && i < |run|
    ensures StoreAt(d, inst, st, run, i + 1) ==
      AfterPass(d, inst, ViewOf(d, inst, st, run, i), StoreAt(d, inst, st, run, i), run[i])
    ensures Possible(d, inst, ViewOf(d, inst, st, run, i), run[i])
    ensures Granted(run[i])
  {
    hide AfterPass, Possible, Usable, ViewOf;
  }

  /** The token is the first one or was issued to one of the first i passes. */
  predicate Issued(token: string, run: seq<Pass>, i: nat, t: string)
    requires i <= |run|
  {
    t == token || exists j :: 0 <= j < i && run[j].refresh == Some(t)
  }

  lemma StillIssued(token: string, run: seq<Pass>, h: nat, i: nat, t: string)
    requires h <= i < |run| && Issued(token, run, h, t)
    ensures Issued(token, run, i + 1, t)
    ensures run[i].refresh.Some? ==> Issued(token, run, i + 1, run[i].refresh.value)
  {
  }

  /** A pass leaves the token that was there, or writes the one in hand or the one it listed. */
  lemma StaleStep(d: Digest, inst: Instance, view: Store, st: Store, p: Pass, was: string, seen: string)
    returns (t: string)
    requires LinedUp(d, inst) && Possible(d, inst, view, p) && Granted(p)
    requires Usable(was) && LeadHolds(d, inst, st, was) && Usable(seen) && LeadHolds(d, inst, view, seen)
    ensures t in {was, seen} || p.refresh == Some(t)
    ensures Usable(t) && LeadHolds(d, inst, AfterPass(d, inst, view, st, p), t)
  {
    hide Renders, Recover, AfterPass, Possible, Usable;
    LeadAfterPass(d, inst, view, st, p);
    if p.landed == 0 {
      t := was;
    } else if p.refresh.Some? {
      InHand(d, inst, view, p);
      t := p.refresh.value;
    } else {
      RecoversLead(d, inst, view, seen);
      t := seen;
    }
  }

  /** However stale the listings are, the first entry never holds anything but a token
      that was issued. */
  lemma {:induction false} LeadIsSomeIssued(d: Digest, inst: Instance, st: Store, run: seq<Pass>, token: string,
                                            i: nat) returns (t: string)
    requires LinedUp(d, inst) && IsRun(d, inst, st, run) && UsableTokens(run)
    requires Usable(token) && LeadHolds(d, inst, st, token) && i <= |run|
    ensures Issued(token, run, i, t) && Usable(t) && LeadHolds(d, inst, StoreAt(d, inst, st, run, i), t)
    decreases i
  {
    hide *;
    var h := FirstOrListed(d, inst, st, run, token, i);
    if i == 0 {
      t := token;
    } else {
      var was := LeadIsSomeIssued(d, inst, st, run, token, i - 1);
      var seen := LeadIsSomeIssued(d, inst, st, run, token, h);
      Step(d, inst, st, run, i - 1);
      t := StaleStep(d, inst, ViewOf(d, inst, st, run, i - 1), StoreAt(d, inst, st, run, i - 1), run[i - 1], was, seen);
      StillIssued(token, run, h, i - 1, seen);
      StillIssued(token, run, i - 1, i - 1, was);
    }
  }

  /** The run is at its start, or the last pass listed some state before. */
  lemma FirstOrListed(d: Digest, inst: Instance, st: Store, run: seq<Pass>, token: string, i: nat) returns (h: nat)
    requires LinedUp(d, inst) && i <= |run|
    ensures inst.spec.datasources != []
    ensures i == 0 ==>
      StoreAt(d, inst, st, run, i) == st && Issued(token, run, i, token) && LastToken(token, run, i) == token
    ensures i > 0 ==> h < i && ViewOf(d, inst, st, run, i - 1) == StoreAt(d, inst, st, run, h)
    ensures i > 0 ==> LastToken(token, run, i) == NextLead(LastToken(token, run, i - 1), run[i - 1])
  {
    hide AfterPass;
    h := if i == 0 then 0 else if run[i - 1].listed < i - 1 then run[i - 1].listed else i - 1;
  }

  /** A pass without a refresh lists the first entry as it is stored. */
  predicate SeesLead(d: Digest, inst: Instance, view: Store, st: Store, p: Pass)
    requires inst.spec.datasources != []
  {
    var r := LeadRef(d, inst);
    p.refresh.None? ==> (r in view <==> r in st) && (r in st ==> view[r] == st[r])
  }

  predicate Attentive(d: Digest, inst: Instance, st: Store, run: seq<Pass>)
    requires inst.spec.datasources != []
  {
    forall i :: 0 <= i < |run| ==> SeesLead(d, inst, ViewOf(d, inst, st, run, i), StoreAt(d, inst, st, run, i), run[i])
  }

  /** The token that the first entry holds after a pass that sees it. */
  function NextLead(token: string, p: Pass): string {
    if p.refresh.Some? && p.landed >= 1 then p.refresh.value else token
  }

  /** The token of the last of the first i passes that refreshed and landed its first write. */
  function LastToken(token: string, run: seq<Pass>, i: nat): string
    requires i <= |run|
  {
    if i == 0 then token else NextLead(LastToken(token, run, i - 1), run[i - 1])
  }

  lemma LeadStep(d: Digest, inst: Instance, view: Store, st: Store, p: Pass, token: string)
    requires LinedUp(d, inst) && Possible(d, inst, view, p) && SeesLead(d, inst, view, st, p)
    requires Usable(token) && LeadHolds(d, inst, st, token) && Granted(p)
    ensures LeadHolds(d, inst, AfterPass(d, inst, view, st, p), NextLead(token, p)) && Usable(NextLead(token, p))
  {
    hide Renders, Recover, AfterPass, Possible, Usable;
    LeadAfterPass(d, inst, view, st, p);
    if p.landed >= 1 {
      if p.refresh.Some? {
        InHand(d, inst, view, p);
      } else {
        RecoversLead(d, inst, view, token);
      }
    }
  }

  lemma Sees(d: Digest, inst: Instance, st: Store, run: seq<Pass>, i: nat)
    requires inst.spec.datasources != [] && Attentive(d, inst, st, run) && i < |run|
    ensures SeesLead(d, inst, ViewOf(d, inst, st, run, i), StoreAt(d, inst, st, run, i), run[i])
  {
    hide StoreAt, SeesLead;
  }

  /** Over every run of passes, refreshing or not, each cut off anywhere, the first entry
      holds the token of the last refresh whose first write landed. */
  lemma {:induction false} LeadAfterRun(d: Digest, inst: Instance, st: Store, run: seq<Pass>, token: string, i: nat)
    requires LinedUp(d, inst) && IsRun(d, inst, st, run) && UsableTokens(run) && Attentive(d, inst, st, run)
    requires Usable(token) && LeadHolds(d, inst, st, token) && i <= |run|
    ensures Usable(LastToken(token, run, i))
    ensures LeadHolds(d, inst, StoreAt(d, inst, st, run, i), LastToken(token, run, i))
    decreases i
  {
    hide *;
    var _ := FirstOrListed(d, inst, st, run, token, i);
    if i > 0 {
      LeadAfterRun(d, inst, st, run, token, i - 1);
      Step(d, inst, st, run, i - 1);
      Sees(d, inst, st, run, i - 1);
      LeadStep(d, inst, ViewOf(d, inst, st, run, i - 1), StoreAt(d, inst, st, run, i - 1), run[i - 1],
               LastToken(token, run, i - 1));
    }
  }

  /** A pass that has a token, or lists the first entry with one, cannot fail for want
      of a token; if it completes, whatever else it listed, every entry holds that token. */
  lemma CompletedPassSpreads(d: Digest, inst: Instance, view: Store, st: Store, p: Pass, token: string, k: nat)
    requires LinedUp(d, inst) && Possible(d, inst, view, p) && Usable(token) && k < |inst.spec.datasources|
    requires if p.refresh.Some? then p.refresh.value == token else LeadHolds(d, inst, view, token)
    ensures PlanOf(d, inst, view, p).end.Success?
    ensures Completed(d, inst, view, p) ==>
      var st', r := AfterPass(d, inst, view, st, p), StoredRef(d, inst, inst.spec.datasources[k]);
      r in st' && Renders(st'[r], inst, inst.spec.datasources[k], token)
  {
    var entries := inst.spec.datasources;
    if p.refresh.None? {
      LeadIsReadBack(d, inst, view, token);
      assert FirstStored(d, inst, entries, view) == 0;
    }
    PlanCompletesIff(d, inst, entries, StartToken(p), view);
    PassEnds(d, inst, StartToken(p), view, p.order);
    hide Renders, StoredToken, Enumerates, Listed;
    if Completed(d, inst, view, p) {
      assert IsLast(d, inst, entries, k);
      assert TokenFor(d, inst, entries, k, StartToken(p), view) == token by { TokenOfAll(d, inst, view, p, token, k); }
      hide UpsertPlan, TokenFor;
      LastEntryWins(d, inst, entries, StartToken(p), view, st, k);
      NamedSurvivesDeletion(d, inst, view, st, p, StoredRef(d, inst, entries[k]));
    }
  }

  lemma TokenOfAll(d: Digest, inst: Instance, view: Store, p: Pass, token: string, k: nat)
    requires LinedUp(d, inst) && Usable(token) && k < |inst.spec.datasources|
    requires if p.refresh.Some? then p.refresh.value == token else LeadHolds(d, inst, view, token)
    ensures TokenFor(d, inst, inst.spec.datasources, k, StartToken(p), view) == token
  {
    if p.refresh.None? {
      LeadIsReadBack(d, inst, view, token);
    }
  }

  /** The deletions of a completed pass leave what its writes stored. */
  lemma NamedSurvivesDeletion(d: Digest, inst: Instance, view: Store, st: Store, p: Pass, r: Ref)
    requires Completed(d, inst, view, p) && Names(d, inst, inst.spec.datasources, r)
    ensures var mid := Exec(st, UpsertPlan(d, inst, inst.spec.datasources, StartToken(p), view).ops);
      var st' := AfterPass(d, inst, view, st, p);
      (r in st' <==> r in mid) && (r in mid ==> st'[r] == mid[r])
  {
    var up := UpsertPlan(d, inst, inst.spec.datasources, StartToken(p), view);
    var doomed := Deletions(p.order, Written(up.ops));
    var ops := PlanOf(d, inst, view, p).ops;
    assert up.end.Success? && ops == up.ops + doomed && ops[..p.landed] == ops;
    hide UpsertPlan, Deletions, PlanOf;
    WritesNameTheSpec(d, inst, inst.spec.datasources, StartToken(p), view);
    DeletionsNameTheRest(p.order, Written(up.ops));
    ExecAppend(st, up.ops, doomed);
    forall k | 0 <= k < |doomed| ensures doomed[k].ref != r {
    }
    ExecFrame(Exec(st, up.ops), doomed, r);
  }

  /** After any run of passes, each cut off anywhere, the next one does not fail for want
      of a token; if it completes, every entry holds one and the same token: the one of
      the last refresh whose first write landed. */
  lemma CrashResume(d: Digest, inst: Instance, st: Store, token: string, run: seq<Pass>, i: nat, k: nat)
    requires LinedUp(d, inst) && IsRun(d, inst, st, run) && UsableTokens(run) && Attentive(d, inst, st, run)
    requires Usable(token) && LeadHolds(d, inst, st, token)
    requires i < |run| && k < |inst.spec.datasources| && (run[i].refresh.Some? ==> Usable(run[i].refresh.value))
    ensures PlanOf(d, inst, ViewOf(d, inst, st, run, i), run[i]).end.Success?
    ensures Completed(d, inst, ViewOf(d, inst, st, run, i), run[i]) ==>
      var st', r := StoreAt(d, inst, st, run, i + 1), StoredRef(d, inst, inst.spec.datasources[k]);
      r in st' && Renders(st'[r], inst, inst.spec.datasources[k], LastToken(token, run, i + 1))
  {
    hide *;
    var p, view, now := run[i], ViewOf(d, inst, st, run, i), StoreAt(d, inst, st, run, i);
    var held := if p.refresh.Some? then p.refresh.value else LastToken(token, run, i);
    var _ := FirstOrListed(d, inst, st, run, token, i + 1);
    LeadAfterRun(d, inst, st, run, token, i);
    Step(d, inst, st, run, i);
    Sees(d, inst, st, run, i);
    ShowsLead(d, inst, view, now, p, held);
    CompletedPassSpreads(d, inst, view, now, p, held, k);
    CompletedHolds(d, inst, view, p, LastToken(token, run, i));
  }

  lemma ShowsLead(d: Digest, inst: Instance, view: Store, st: Store, p: Pass, token: string)
    requires inst.spec.datasources != [] && SeesLead(d, inst, view, st, p)
    requires p.refresh.None? ==> LeadHolds(d, inst, st, token)
    ensures p.refresh.None? ==> LeadHolds(d, inst, view, token)
  {
  }

  lemma CompletedHolds(d: Digest, inst: Instance, view: Store, p: Pass, token: string)
    requires LinedUp(d, inst)
    ensures Completed(d, inst, view, p) ==> NextLead(token, p) == if p.refresh.Some? then p.refresh.value else token
  {
  }

  // ----- the steady state -----------------------------------------------

  /** Every entry is stored with the token, and nothing else is listed. */
  ghost predicate Settled(d: Digest, inst: Instance, st: Store, token: string) {
    && (forall i :: 0 <= i < |inst.spec.datasources| ==>
          var r := StoredRef(d, inst, inst.spec.datasources[i]);
          r in st && Renders(st[r], inst, inst.spec.datasources[i], token))
    && (forall r :: IsListed(st, inst, r) ==> Names(d, inst, inst.spec.datasources, r))
  }

  lemma {:induction false} NothingToDo(st: Store, ops: seq<Op>)
    requires forall k :: 0 <= k < |ops| ==> Apply(st, ops[k]) == st
    ensures Exec(st, ops) == st
    decreases |ops|
  {
    if ops != [] {
      assert Apply(st, ops[0]) == st;
      NothingToDo(st, ops[1..]);
    }
  }

  lemma WriteIsSettled(d: Digest, inst: Instance, ds: DataSource, token: string, st: Store)
    requires Known(ds) && StoredRef(d, inst, ds) in st && Renders(st[StoredRef(d, inst, ds)], inst, ds, token)
    ensures Apply(st, WriteOp(d, inst, ds, OwnPayload(ds).value, token)) == st
  {
    var op := WriteOp(d, inst, ds, OwnPayload(ds).value, token);
    assert Patched(st[op.ref], op.patch) == st[op.ref];
  }

  lemma {:induction false} WritesAreSettled(d: Digest, inst: Instance, entries: seq<DataSource>, token: string,
                                            st: Store)
    requires token != ""
    requires forall i :: 0 <= i < |entries| ==> Known(entries[i])
    requires forall i :: 0 <= i < |entries| ==>
      var r := StoredRef(d, inst, entries[i]); r in st && Renders(st[r], inst, entries[i], token)
    ensures forall op :: op in UpsertPlan(d, inst, entries, token, st).ops ==> Apply(st, op) == st
    ensures UpsertPlan(d, inst, entries, token, st).end.Success?
  {
    if entries != [] {
      WriteIsSettled(d, inst, entries[0], token, st);
      WritesAreSettled(d, inst, entries[1..], token, st);
    }
  }

  lemma TokenIsFound(d: Digest, inst: Instance, st: Store, token: string)
    requires LinedUp(d, inst) && Usable(token) && LeadHolds(d, inst, st, token)
    ensures UpsertPlan(d, inst, inst.spec.datasources, "", st) == UpsertPlan(d, inst, inst.spec.datasources, token, st)
  {
    hide Renders, StoredToken, Known, OwnPayload;
    LeadIsReadBack(d, inst, st, token);
  }

  lemma NothingIsStale(d: Digest, inst: Instance, st: Store, token: string, order: seq<Ref>)
    requires UpsertPlan(d, inst, inst.spec.datasources, token, st).end.Success?
    requires forall r :: IsListed(st, inst, r) ==> Names(d, inst, inst.spec.datasources, r)
    requires Enumerates(order, Listed(st, inst))
    ensures Deletions(order, Written(UpsertPlan(d, inst, inst.spec.datasources, token, st).ops)) == []
  {
    var kept := Written(UpsertPlan(d, inst, inst.spec.datasources, token, st).ops);
    WritesNameTheSpec(d, inst, inst.spec.datasources, token, st);
    hide UpsertPlan;
    forall r | r in order ensures r in kept {
      assert r in Listed(st, inst);
    }
    NoDeletions(order, kept);
  }

  lemma {:induction false} NoDeletions(order: seq<Ref>, kept: set<Ref>)
    requires forall r :: r in order ==> r in kept
    ensures Deletions(order, kept) == []
  {
    if order != [] {
      NoDeletions(order[1..], kept);
    }
  }

  /** Once settled, a pass without a fresh token finds the token again, completes,
      and changes nothing. */
  lemma SteadyState(d: Digest, inst: Instance, st: Store, token: string, order: seq<Ref>)
    requires LinedUp(d, inst) && Usable(token) && Settled(d, inst, st, token)
    requires Enumerates(order, Listed(st, inst))
    ensures PassPlan(d, inst, "", st, order).end.Success?
    ensures Exec(st, PassPlan(d, inst, "", st, order).ops) == st
  {
    hide UpsertPlan, Renders, Listed, Enumerates, Names, IsListed, StoredRef, Exec, Deletions;
    var entries := inst.spec.datasources;
    TokenIsFound(d, inst, st, token);
    WritesAreSettled(d, inst, entries, token, st);
    NothingIsStale(d, inst, st, token, order);
    var ops := UpsertPlan(d, inst, entries, token, st).ops;
    assert ops + [] == ops;
    NothingToDo(st, ops);
  }

  /** A pass that completes undisturbed with a fresh token settles the store. */
  lemma RefreshSettles(d: Digest, inst: Instance, st: Store, token: string, order: seq<Ref>)
    requires LinedUp(d, inst) && Usable(token) && Enumerates(order, Listed(st, inst))
    ensures PassPlan(d, inst, token, st, order).end.Success?
    ensures Settled(d, inst, Exec(st, PassPlan(d, inst, token, st, order).ops), token)
  {
    hide Exec, UpsertPlan, PassPlan, Renders, Listed, Enumerates, StoredRef, IsListed, Names, StoredToken;
    var entries := inst.spec.datasources;
    PlanCompletesIff(d, inst, entries, token, st);
    PassEnds(d, inst, token, st, order);
    ExactConvergence(d, inst, token, st, order);
    assert forall i :: 0 <= i < |entries| ==>
      IsLast(d, inst, entries, i) && TokenFor(d, inst, entries, i, token, st) == token;
  }

  lemma PassEnds(d: Digest, inst: Instance, token: string, st: Store, order: seq<Ref>)
    ensures PassPlan(d, inst, token, st, order).end.Success? <==>
      UpsertPlan(d, inst, inst.spec.datasources, token, st).end.Success?
  {
  }

  // ----- how the token is lost ------------------------------------------

  /** A pass without a fresh token that completes gives every entry a token exactly
      when the first entry was already stored. */
  lemma EveryEntryHasTokenIff(d: Digest, inst: Instance, st: Store)
    requires inst.spec.datasources != []
    requires UpsertPlan(d, inst, inst.spec.datasources, "", st).end.Success?
    ensures (forall i :: 0 <= i < |inst.spec.datasources| ==> TokenFor(d, inst, inst.spec.datasources, i, "", st) != "")
      <==> IsListed(st, inst, LeadRef(d, inst))
  {
    var entries := inst.spec.datasources;
    var n := FirstStored(d, inst, entries, st);
    PlanCompletesIff(d, inst, entries, "", st);
    if n < |entries| {
      StoredTokenNonEmpty(st[StoredRef(d, inst, entries[n])]);
    }
    if n > 0 {
      assert TokenFor(d, inst, entries, 0, "", st) == "";
    }
  }

  /** A non-refreshing pass that lists no object for the first entry writes it with
      the empty token ... */
  lemma FirstEntryGetsNoToken(d: Digest, inst: Instance, view: Store, st: Store, p: Pass)
    requires LinedUp(d, inst) && Possible(d, inst, view, p)
    requires p.refresh.None? && p.landed >= 1 && !IsListed(view, inst, LeadRef(d, inst))
    ensures LeadHolds(d, inst, AfterPass(d, inst, view, st, p), "")
  {
    FirstWriteLeads(d, inst, view, st, p, "");
  }

  /** ... and every non-refreshing pass that lists it so fails without writing, ... */
  lemma NoTokenNoPlan(d: Digest, inst: Instance, view: Store, st: Store, p: Pass)
    requires LinedUp(d, inst) && p.refresh.None? && LeadHolds(d, inst, view, "")
    ensures PlanOf(d, inst, view, p) == Plan([], Failure(BadToken))
    ensures AfterPass(d, inst, view, st, p) == st
  {
    LeadIsReadBack(d, inst, view, "");
    assert StepFor(d, inst, inst.spec.datasources[0], "", view) == Stop(BadToken);
  }

  /** ... so no run of non-refreshing passes that see it changes anything. */
  lemma {:induction false} LostTokenStaysLost(d: Digest, inst: Instance, st: Store, run: seq<Pass>, i: nat)
    requires LinedUp(d, inst) && Attentive(d, inst, st, run)
    requires LeadHolds(d, inst, st, "") && i < |run|
    requires forall j :: 0 <= j < |run| ==> run[j].refresh.None?
    ensures PlanOf(d, inst, ViewOf(d, inst, st, run, i), run[i]) == Plan([], Failure(BadToken))
    ensures StoreAt(d, inst, st, run, i) == StoreAt(d, inst, st, run, i + 1) == st
    decreases i
  {
    hide *;
    var _ := FirstOrListed(d, inst, st, run, "", i);
    if i > 0 {
      LostTokenStaysLost(d, inst, st, run, i - 1);
    }
    Moves(d, inst, st, run, i);
    Sees(d, inst, st, run, i);
    ShowsLead(d, inst, ViewOf(d, inst, st, run, i), StoreAt(d, inst, st, run, i), run[i], "");
    NoTokenNoPlan(d, inst, ViewOf(d, inst, st, run, i), StoreAt(d, inst, st, run, i), run[i]);
  }

  lemma Moves(d: Digest, inst: Instance, st: Store, run: seq<Pass>, i: nat)
    requires i < |run|
    ensures StoreAt(d, inst, st, run, i + 1) ==
      AfterPass(d, inst, ViewOf(d, inst, st, run, i), StoreAt(d, inst, st, run, i), run[i])
  {
    hide AfterPass, ViewOf;
  }

  // ----- repeated defaulting is harmless --------------------------------

  /** Plans depend on an instance only through its name and namespace. */
  lemma {:induction false} PlanUsesNamesOnly(d: Digest, a: Instance, b: Instance, entries: seq<DataSource>,
                                             token: string, view: Store)
    requires SameInstance(a, b)
    ensures UpsertPlan(d, a, entries, token, view) == UpsertPlan(d, b, entries, token, view)
    ensures Listed(view, a) == Listed(view, b)
  {
    if entries != [] {
      var step := StepFor(d, a, entries[0], token, view);
      assert step == StepFor(d, b, entries[0], token, view);
      if !step.Stop? {
        PlanUsesNamesOnly(d, a, b, entries[1..], step.token, view);
      }
    }
  }

  /** Plans with the same end, the same keys and the same effect on every store. */
  ghost predicate SameEffect(p: Plan, q: Plan) {
    && p.end == q.end && Written(p.ops) == Written(q.ops)
    && forall st :: Exec(st, p.ops) == Exec(st, q.ops)
  }

  lemma SameEffectCons(op: Op, p: Plan, q: Plan)
    requires SameEffect(p, q)
    ensures SameEffect(Plan([op] + p.ops, p.end), Plan([op] + q.ops, q.end))
  {
    forall st ensures Exec(st, [op] + p.ops) == Exec(st, [op] + q.ops) {
      assert ([op] + p.ops)[1..] == p.ops && ([op] + q.ops)[1..] == q.ops;
      assert Exec(Apply(st, op), p.ops) == Exec(Apply(st, op), q.ops);
    }
    WrittenCons(op, p.ops);
    WrittenCons(op, q.ops);
  }

  /** Handling an entry again, with the token it left, repeats its write. */
  lemma WriteRepeats(d: Digest, inst: Instance, ds: DataSource, token: string, view: Store)
    requires StepFor(d, inst, ds, token, view).Write?
    ensures StepFor(d, inst, ds, StepFor(d, inst, ds, token, view).token, view) == StepFor(d, inst, ds, token, view)
  {
    if token == "" && IsListed(view, inst, StoredRef(d, inst, ds)) {
      StoredTokenNonEmpty(view[StoredRef(d, inst, ds)]);
    }
  }

  /** A run of copies of one entry does what a single copy does. */
  lemma {:induction false} CopiesCollapse(d: Digest, inst: Instance, n: nat, token: string, view: Store)
    requires n >= 1
    ensures SameEffect(UpsertPlan(d, inst, Copies(n), token, view), UpsertPlan(d, inst, Copies(1), token, view))
  {
    hide StepFor, SameEffect, Exec;
    var step := StepFor(d, inst, MCOO_ENTRY, token, view);
    assert Copies(n)[1..] == Copies(n - 1);
    OneCopy(d, inst, token, view);
    if n > 1 && step.Write? {
      WriteRepeats(d, inst, MCOO_ENTRY, token, view);
      OneCopy(d, inst, step.token, view);
      CopiesCollapse(d, inst, n - 1, step.token, view);
      WriteTwice(step.op, UpsertPlan(d, inst, Copies(n - 1), step.token, view));
    } else {
      Reflexive(UpsertPlan(d, inst, Copies(n), token, view));
    }
  }

  lemma OneCopy(d: Digest, inst: Instance, token: string, view: Store)
    ensures var step := StepFor(d, inst, MCOO_ENTRY, token, view);
      UpsertPlan(d, inst, Copies(1), token, view) == if step.Write? then Plan([step.op], Success)
        else Plan([], Failure(step.why))
  {
    hide StepFor;
    assert Copies(1)[0] == MCOO_ENTRY && Copies(1)[1..] == [];
  }

  lemma Reflexive(p: Plan)
    ensures SameEffect(p, p)
  {
  }

  lemma WriteTwice(op: Op, p: Plan)
    requires op.Upsert? && SameEffect(p, Plan([op], Success))
    ensures SameEffect(Plan([op] + p.ops, p.end), Plan([op], Success))
  {
    var one := Plan([op], Success);
    SameEffectCons(op, p, one);
    forall st ensures Exec(st, [op] + one.ops) == Exec(st, one.ops) {
      assert ([op] + one.ops)[1..] == one.ops && one.ops[1..] == [];
      assert Apply(Apply(st, op), op) == Apply(st, op);
    }
    WrittenCons(op, one.ops);
  }

  lemma {:induction false} TrailingCopiesCollapse(d: Digest, inst: Instance, base: seq<DataSource>, n: nat,
                                                  token: string, view: Store)
    requires n >= 1
    ensures SameEffect(UpsertPlan(d, inst, base + Copies(n), token, view),
                       UpsertPlan(d, inst, base + Copies(1), token, view))
  {
    if base == [] {
      assert base + Copies(n) == Copies(n) && base + Copies(1) == Copies(1);
      CopiesCollapse(d, inst, n, token, view);
    } else {
      assert (base + Copies(n))[1..] == base[1..] + Copies(n);
      assert (base + Copies(1))[1..] == base[1..] + Copies(1);
      var step := StepFor(d, inst, base[0], token, view);
      if !step.Stop? {
        TrailingCopiesCollapse(d, inst, base[1..], n, step.token, view);
        if step.Write? {
          SameEffectCons(step.op, UpsertPlan(d, inst, base[1..] + Copies(n), step.token, view),
                         UpsertPlan(d, inst, base[1..] + Copies(1), step.token, view));
        }
      }
    }
  }

  /** However often the defaulter ran, an undisturbed pass ends the same way and
      leaves the same store as after a single run. */
  lemma RepeatedDefaultingIsHarmless(d: Digest, inst: Instance, n: nat, token: string, st: Store, order: seq<Ref>)
    requires n >= 1
    ensures var once := inst.(spec := Defaulted(inst.spec));
      var often := inst.(spec := DefaultedTimes(n, inst.spec));
      var p, q := PassPlan(d, often, token, st, order), PassPlan(d, once, token, st, order);
      p.end == q.end && Exec(st, p.ops) == Exec(st, q.ops)
  {
    var once, often := inst.(spec := Defaulted(inst.spec)), inst.(spec := DefaultedTimes(n, inst.spec));
    RepeatedDefaulting(n, inst.spec);
    RepeatedDefaulting(1, inst.spec);
    var base := BaseDataSources(inst.spec);
    if inst.spec.enableMcoo {
      assert Copies(1) == [MCOO_ENTRY];
      TrailingCopiesCollapse(d, inst, base, n, token, st);
    }
    PlanUsesNamesOnly(d, once, inst, once.spec.datasources, token, st);
    PlanUsesNamesOnly(d, often, inst, often.spec.datasources, token, st);
    var p, q := UpsertPlan(d, inst, often.spec.datasources, token, st),
      UpsertPlan(d, inst, once.spec.datasources, token, st);
    var doomed := Deletions(order, Written(q.ops));
    ExecAppend(st, p.ops, doomed);
    ExecAppend(st, q.ops, doomed);
  }
}
