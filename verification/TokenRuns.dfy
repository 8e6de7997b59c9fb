/** Tokens in the datasources against the clock: runs in which each pass has clock
    readings and does what the datasource reconciler does to the store. */
module TokenRuns {
  import opened Wrappers
  import opened GrafooApi
  import opened Cluster
  import opened DataSources
  import opened Convergence
  import opened Recovery
  import C = TokenClock

  // ----- how far a pass got ---------------------------------------------

  /** The k-th entry is stored with the token. */
  predicate EntryHolds(d: Digest, inst: Instance, st: Store, k: nat, token: string)
    requires k < |inst.spec.datasources|
  {
    var r := StoredRef(d, inst, inst.spec.datasources[k]);
    r in st && Renders(st[r], inst, inst.spec.datasources[k], token)
  }

  predicate AllPresent(entries: seq<DataSource>) {
    forall i :: 0 <= i < |entries| ==> Known(entries[i]) && OwnPayload(entries[i]).Some?
  }

  /** With a token in hand, the k-th write is the k-th entry's, with that token. */
  lemma {:induction false} WritesInOrder(d: Digest, inst: Instance, entries: seq<DataSource>, token: string,
                                         view: Store)
    requires AllPresent(entries) && token != ""
    ensures var plan := UpsertPlan(d, inst, entries, token, view);
      && plan.end.Success? && |plan.ops| == |entries|
      && forall k :: 0 <= k < |entries| ==>
        plan.ops[k] == WriteOp(d, inst, entries[k], OwnPayload(entries[k]).value, token)
  {
    hide WriteOp;
    if entries != [] {
      assert StepFor(d, inst, entries[0], token, view) ==
        Write(WriteOp(d, inst, entries[0], OwnPayload(entries[0]).value, token), token);
      WritesInOrder(d, inst, entries[1..], token, view);
    }
  }

  /** The token that a pass writes: the one in hand, or the first entry's as it listed it. */
  predicate Carries(d: Digest, inst: Instance, view: Store, p: Pass, token: string)
    requires inst.spec.datasources != []
  {
    if p.refresh.Some? then p.refresh.value == token else LeadHolds(d, inst, view, token)
  }

  /** The operations of a pass that has a token: a write for each entry in order, and
      then deletions of objects that no entry names. */
  lemma PassOperations(d: Digest, inst: Instance, view: Store, p: Pass, token: string, k: nat)
    requires LinedUp(d, inst) && Possible(d, inst, view, p) && Usable(token) && Carries(d, inst, view, p, token)
    requires k < |PlanOf(d, inst, view, p).ops|
    ensures |inst.spec.datasources| <= |PlanOf(d, inst, view, p).ops|
    ensures var op, entries := PlanOf(d, inst, view, p).ops[k], inst.spec.datasources;
      if k < |entries| then op == WriteOp(d, inst, entries[k], OwnPayload(entries[k]).value, token)
      else op.Delete? && !Names(d, inst, entries, op.ref)
  {
    hide *;
    var entries := inst.spec.datasources;
    var up := UpsertPlan(d, inst, entries, token, view);
    WritesOfPass(d, inst, view, p, token);
    WritesNameTheSpec(d, inst, entries, token, view);
    DeletionsNameTheRest(p.order, Written(up.ops));
    assert PlanOf(d, inst, view, p).ops == up.ops + Deletions(p.order, Written(up.ops));
  }

  lemma WritesOfPass(d: Digest, inst: Instance, view: Store, p: Pass, token: string)
    requires LinedUp(d, inst) && Usable(token) && Carries(d, inst, view, p, token)
    ensures var entries, up := inst.spec.datasources, UpsertPlan(d, inst, inst.spec.datasources, token, view);
      && up.end.Success? && |up.ops| == |entries|
      && PlanOf(d, inst, view, p).ops == up.ops + Deletions(p.order, Written(up.ops))
      && (forall k :: 0 <= k < |entries| ==>
            OwnPayload(entries[k]).Some?
              && up.ops[k] == WriteOp(d, inst, entries[k], OwnPayload(entries[k]).value, token))
  {
    hide UpsertPlan, WriteOp, Renders, Deletions;
    if p.refresh.None? {
      TokenIsFound(d, inst, view, token);
    }
    WritesInOrder(d, inst, inst.spec.datasources, token, view);
  }

  /** A pass that has a token and lands n operations leaves the first n entries with the
      token and every other entry as it was. */
  lemma EntryAfterPrefix(d: Digest, inst: Instance, view: Store, st: Store, p: Pass, token: string, k: nat)
    requires LinedUp(d, inst) && Possible(d, inst, view, p) && Usable(token) && Carries(d, inst, view, p, token)
    requires k < |inst.spec.datasources|
    ensures var r, st' := StoredRef(d, inst, inst.spec.datasources[k]), AfterPass(d, inst, view, st, p);
      if k < p.landed then EntryHolds(d, inst, st', k, token)
      else (r in st' <==> r in st) && (r in st ==> st'[r] == st[r])
  {
    var entries, ops := inst.spec.datasources, PlanOf(d, inst, view, p).ops;
    var done, r := ops[..p.landed], StoredRef(d, inst, entries[k]);
    hide LeadHolds, Enumerates, Listed, PlanOf, Renders, Usable, Exec, Lands;
    assert Names(d, inst, entries, r);
    forall j | 0 <= j < |done| && j != k ensures done[j].ref != r {
      PassOperations(d, inst, view, p, token, j);
      assert done[j] == ops[j];
    }
    if k < p.landed {
      PassOperations(d, inst, view, p, token, k);
      assert done[k] == ops[k];
      SingleWriter(st, done, k);
      WriteRenders(d, inst, st, entries[k], token);
    } else {
      ExecFrame(st, done, r);
    }
  }

  lemma WriteRenders(d: Digest, inst: Instance, st: Store, ds: DataSource, token: string)
    requires OwnPayload(ds).Some?
    ensures var op := WriteOp(d, inst, ds, OwnPayload(ds).value, token);
      op.Upsert? && op.ref == StoredRef(d, inst, ds) && Renders(Apply(st, op)[op.ref], inst, ds, token)
  {
  }

  // ----- runs with a clock ----------------------------------------------

  /** One and the same run seen by the clock and by the store: a pass carries a token
      exactly if it refreshes, and each token that was written lasts as long as was asked
      for when it was granted. */
  ghost predicate Coherent(d: Digest, inst: Instance, st: Store, dur: int, t0: C.Times, expiry: string -> int,
                           clocks: seq<C.Pass>, passes: seq<Pass>)
  {
    && LinedUp(d, inst) && IsRun(d, inst, st, passes) && UsableTokens(passes) && Attentive(d, inst, st, passes)
    && |clocks| == |passes|
    && (forall i :: 0 <= i < |passes| ==> (passes[i].refresh.Some? <==> C.Refreshes(dur, t0, clocks, i)))
    && (forall i :: 0 <= i < |passes| && passes[i].refresh.Some? && passes[i].landed > 0 ==>
          expiry(passes[i].refresh.value) == C.RealExpiry(dur, clocks[i].issued))
  }

  /** The refresh got past the entry, or landed nothing at all. */
  predicate PastOrNothing(p: Pass, k: nat) { p.refresh.Some? ==> p.landed == 0 || k < p.landed }

  /** The entry and the first entry hold the token. */
  predicate BothHold(d: Digest, inst: Instance, st: Store, k: nat, token: string)
    requires k < |inst.spec.datasources|
  {
    Usable(token) && EntryHolds(d, inst, st, k, token) && LeadHolds(d, inst, st, token)
  }

  lemma BothAfterRefresh(d: Digest, inst: Instance, view: Store, st: Store, p: Pass, k: nat)
    requires LinedUp(d, inst) && Possible(d, inst, view, p) && k < |inst.spec.datasources|
    requires p.refresh.Some? && Usable(p.refresh.value) && k < p.landed
    ensures BothHold(d, inst, AfterPass(d, inst, view, st, p), k, p.refresh.value)
  {
    hide Possible, AfterPass, Renders, Usable;
    EntryAfterPrefix(d, inst, view, st, p, p.refresh.value, k);
    EntryAfterPrefix(d, inst, view, st, p, p.refresh.value, 0);
  }

  lemma BothAfterPass(d: Digest, inst: Instance, view: Store, st: Store, p: Pass, k: nat, token: string)
    requires LinedUp(d, inst) && Possible(d, inst, view, p) && k < |inst.spec.datasources|
    requires SeesLead(d, inst, view, st, p) && BothHold(d, inst, st, k, token) && PastOrNothing(p, k)
    requires Granted(p)
    ensures BothHold(d, inst, AfterPass(d, inst, view, st, p), k, NextLead(token, p))
  {
    hide Possible, AfterPass, Renders, Usable;
    if p.refresh.Some? && p.landed > 0 {
      BothAfterRefresh(d, inst, view, st, p, k);
    } else if p.refresh.Some? {
      LeadAfterPass(d, inst, view, st, p);
    } else {
      EntryAfterPrefix(d, inst, view, st, p, token, k);
      EntryAfterPrefix(d, inst, view, st, p, token, 0);
    }
  }

  lemma CoherentAt(d: Digest, inst: Instance, st: Store, dur: int, t0: C.Times, expiry: string -> int,
                   clocks: seq<C.Pass>, passes: seq<Pass>, token: string, i: nat)
    requires Coherent(d, inst, st, dur, t0, expiry, clocks, passes) && i < |passes|
    ensures |clocks| == |passes| && LinedUp(d, inst) && inst.spec.datasources != []
    ensures passes[i].refresh.Some? <==> C.Refreshes(dur, t0, clocks, i)
    ensures Granted(passes[i]) && (passes[i].refresh.Some? && passes[i].landed > 0 ==> Usable(passes[i].refresh.value))
    ensures passes[i].refresh.Some? && passes[i].landed > 0 ==>
      expiry(passes[i].refresh.value) == C.RealExpiry(dur, clocks[i].issued)
    ensures var view, now := ViewOf(d, inst, st, passes, i), StoreAt(d, inst, st, passes, i);
      && Possible(d, inst, view, passes[i]) && SeesLead(d, inst, view, now, passes[i])
      && StoreAt(d, inst, st, passes, i + 1) == AfterPass(d, inst, view, now, passes[i])
    ensures LastToken(token, passes, i + 1) == NextLead(LastToken(token, passes, i), passes[i])
  {
    hide ViewOf, StoreAt, AfterPass, Possible, C.Refreshes, C.RealExpiry, Usable, SeesLead;
    Recovery.Step(d, inst, st, passes, i);
    Sees(d, inst, st, passes, i);
  }

  /** From a refresh that got past the entry on, as long as every further refresh does or
      lands nothing, the entry holds the token of the last refresh that landed. */
  lemma {:induction false} EntrySince(d: Digest, inst: Instance, st: Store, dur: int, t0: C.Times,
                                      expiry: string -> int, clocks: seq<C.Pass>, passes: seq<Pass>, from: nat,
                                      i: nat, k: nat)
    requires Coherent(d, inst, st, dur, t0, expiry, clocks, passes)
    requires from < i <= |passes| && k < |inst.spec.datasources|
    requires passes[from].refresh.Some? && k < passes[from].landed
    requires forall j :: from <= j < i ==> PastOrNothing(passes[j], k)
    ensures BothHold(d, inst, StoreAt(d, inst, st, passes, i), k, LastToken("", passes, i))
    decreases i
  {
    hide *;
    var view, now, p := ViewOf(d, inst, st, passes, i - 1), StoreAt(d, inst, st, passes, i - 1), passes[i - 1];
    CoherentAt(d, inst, st, dur, t0, expiry, clocks, passes, "", i - 1);
    if i == from + 1 {
      BothAfterRefresh(d, inst, view, now, p, k);
      LandedLeads(LastToken("", passes, i - 1), p, k);
    } else {
      EntrySince(d, inst, st, dur, t0, expiry, clocks, passes, from, i - 1, k);
      BothAfterPass(d, inst, view, now, p, k, LastToken("", passes, i - 1));
    }
  }

  lemma LandedLeads(token: string, p: Pass, k: nat)
    requires p.refresh.Some? && k < p.landed
    ensures NextLead(token, p) == p.refresh.value
  {
  }

  /** The last refresh that landed, among those from a refresh on. */
  lemma {:induction false} LastLanded(passes: seq<Pass>, from: nat, i: nat) returns (j: nat)
    requires from < i <= |passes| && passes[from].refresh.Some? && passes[from].landed > 0
    ensures from <= j < i && passes[j].refresh.Some? && passes[j].landed > 0
    ensures LastToken("", passes, i) == passes[j].refresh.value
    ensures forall m :: j < m < i ==> passes[m].refresh.None? || passes[m].landed == 0
    decreases i
  {
    if i == from + 1 || (passes[i - 1].refresh.Some? && passes[i - 1].landed > 0) {
      j := i - 1;
    } else {
      j := LastLanded(passes, from, i - 1);
    }
  }

  // ----- tokens do not expire -------------------------------------------

  /** If every refresh gets past an entry and passes are on time, the entry holds an
      unexpired token at every status update after the first refresh, hence until the
      next one. */
  lemma TokensNeverExpire(d: Digest, inst: Instance, st: Store, dur: int, t0: C.Times, expiry: string -> int,
                          clocks: seq<C.Pass>, passes: seq<Pass>, from: nat, i: nat, k: nat)
    requires Coherent(d, inst, st, dur, t0, expiry, clocks, passes)
    requires C.Whole(dur) && dur >= C.SHORTEST && C.InOrder(clocks) && C.OnTime(dur, t0, clocks)
    requires from < i < |passes| && k < |inst.spec.datasources| && passes[from].refresh.Some?
    requires forall j :: from <= j < i && passes[j].refresh.Some? ==> k < passes[j].landed
    ensures var token := LastToken("", passes, i);
      EntryHolds(d, inst, StoreAt(d, inst, st, passes, i), k, token) && expiry(token) > clocks[i].write
  {
    hide *;
    EntrySince(d, inst, st, dur, t0, expiry, clocks, passes, from, i, k) by { AllPast(passes, from, i, k); }
    BothMeans(d, inst, StoreAt(d, inst, st, passes, i), k, LastToken("", passes, i));
    var j := LastLanded(passes, from, i);
    CoherentAt(d, inst, st, dur, t0, expiry, clocks, passes, "", j);
    NoRefreshBetween(d, inst, st, dur, t0, expiry, clocks, passes, from, j, i, k);
    C.OutlastsStatus(dur, t0, clocks, j, i);
  }

  /** If every refresh lands its first write and passes are on time, then after a pass
      that completes, refreshing or not, every entry holds one token, and that token is
      unexpired at the next status update. */
  lemma CompletedPassIsCurrent(d: Digest, inst: Instance, st: Store, dur: int, t0: C.Times, expiry: string -> int,
                               clocks: seq<C.Pass>, passes: seq<Pass>, from: nat, i: nat, k: nat)
    requires Coherent(d, inst, st, dur, t0, expiry, clocks, passes)
    requires C.Whole(dur) && dur >= C.SHORTEST && C.InOrder(clocks) && C.OnTime(dur, t0, clocks)
    requires from < i < |passes| && k < |inst.spec.datasources| && passes[from].refresh.Some?
    requires forall j :: from <= j < i && passes[j].refresh.Some? ==> passes[j].landed > 0
    requires Completed(d, inst, ViewOf(d, inst, st, passes, i - 1), passes[i - 1])
    ensures var token := LastToken("", passes, i);
      EntryHolds(d, inst, StoreAt(d, inst, st, passes, i), k, token) && expiry(token) > clocks[i].write
  {
    hide *;
    TokensNeverExpire(d, inst, st, dur, t0, expiry, clocks, passes, from, i, 0);
    var view, now, p := ViewOf(d, inst, st, passes, i - 1), StoreAt(d, inst, st, passes, i - 1), passes[i - 1];
    CoherentAt(d, inst, st, dur, t0, expiry, clocks, passes, "", i - 1);
    var token := if p.refresh.Some? then p.refresh.value else LastToken("", passes, i - 1);
    if p.refresh.None? {
      EntrySince(d, inst, st, dur, t0, expiry, clocks, passes, from, i - 1, 0) by { AllPast(passes, from, i - 1, 0); }
      BothMeans(d, inst, now, 0, token);
    }
    ShowsLead(d, inst, view, now, p, token);
    CompletedHolds(d, inst, view, p, LastToken("", passes, i - 1));
    CompletedPassSpreads(d, inst, view, now, p, token, k);
    Spread(d, inst, StoreAt(d, inst, st, passes, i), k, token);
  }

  lemma Spread(d: Digest, inst: Instance, st: Store, k: nat, token: string)
    requires k < |inst.spec.datasources|
    ensures var r := StoredRef(d, inst, inst.spec.datasources[k]);
      r in st && Renders(st[r], inst, inst.spec.datasources[k], token) ==> EntryHolds(d, inst, st, k, token)
  {
  }

  lemma AllPast(passes: seq<Pass>, from: nat, i: nat, k: nat)
    requires from < i <= |passes|
    requires forall j :: from <= j < i && passes[j].refresh.Some? ==> k < passes[j].landed
    ensures forall j :: from <= j < i ==> PastOrNothing(passes[j], k)
  {
  }

  lemma BothMeans(d: Digest, inst: Instance, st: Store, k: nat, token: string)
    requires k < |inst.spec.datasources| && BothHold(d, inst, st, k, token)
    ensures EntryHolds(d, inst, st, k, token) && LeadHolds(d, inst, st, token) && Usable(token)
  {
  }

  lemma NoRefreshBetween(d: Digest, inst: Instance, st: Store, dur: int, t0: C.Times, expiry: string -> int,
                         clocks: seq<C.Pass>, passes: seq<Pass>, from: nat, j: nat, i: nat, k: nat)
    requires Coherent(d, inst, st, dur, t0, expiry, clocks, passes) && from <= j < i <= |passes|
    requires forall m :: from <= m < i && passes[m].refresh.Some? ==> k < passes[m].landed
    requires forall m :: j < m < i ==> passes[m].refresh.None? || passes[m].landed == 0
    ensures |clocks| == |passes| && forall m :: j < m < i ==> !C.Refreshes(dur, t0, clocks, m)
  {
    hide LinedUp, IsRun, UsableTokens, Attentive, C.Refreshes, C.RealExpiry;
  }

  // ----- a missed refresh -----------------------------------------------

  /** A refresh that lands nothing is not made up for in time.  The new expiry is
      persisted all the same, so by the next refresh the token that the entry still holds
      has been expired for all of the duration but 36 minutes, while the status claimed a
      valid one throughout. */
  lemma MissedRefreshOutlivesToken(d: Digest, inst: Instance, st: Store, dur: int, t0: C.Times, expiry: string -> int,
                                   clocks: seq<C.Pass>, passes: seq<Pass>, h: nat, i: nat, j: nat, k: nat)
    requires Coherent(d, inst, st, dur, t0, expiry, clocks, passes)
    requires C.Whole(dur) && dur >= C.SHORTEST && C.InOrder(clocks) && C.OnTime(dur, t0, clocks)
    requires h < i < j < |passes| && k < |inst.spec.datasources|
    requires passes[h].refresh.Some? && passes[i].refresh.Some? && passes[j].refresh.Some?
    requires forall m :: h < m < j && m != i ==> passes[m].refresh.None?
    requires k < passes[h].landed && passes[i].landed == 0
    ensures var token := passes[h].refresh.value;
      && EntryHolds(d, inst, StoreAt(d, inst, st, passes, j), k, token)
      && clocks[j].left - expiry(token) > dur - 36 * C.MINUTE
    ensures var t := C.StatusAfter(dur, t0, clocks, j); t.exp.Some? && t.exp.value > clocks[j].write
  {
    hide *;
    PastBut(passes, h, i, j, k);
    EntrySince(d, inst, st, dur, t0, expiry, clocks, passes, h, j, k);
    BothMeans(d, inst, StoreAt(d, inst, st, passes, j), k, LastToken("", passes, j));
    var last := LastLanded(passes, h, j);
    CoherentAt(d, inst, st, dur, t0, expiry, clocks, passes, "", h);
    CoherentAt(d, inst, st, dur, t0, expiry, clocks, passes, "", i);
    CoherentAt(d, inst, st, dur, t0, expiry, clocks, passes, "", j);
    OnlyThose(d, inst, st, dur, t0, expiry, clocks, passes, h, i, j);
    C.LateRefresh(dur, t0, clocks, h, i, j);
  }

  lemma PastBut(passes: seq<Pass>, h: nat, i: nat, j: nat, k: nat)
    requires h < i < j <= |passes| && passes[i].landed == 0 && k < passes[h].landed
    requires forall m :: h < m < j && m != i ==> passes[m].refresh.None?
    ensures forall m :: h <= m < j ==> PastOrNothing(passes[m], k)
    ensures forall m :: h < m < j ==> !(passes[m].refresh.Some? && passes[m].landed > 0)
  {
  }

  lemma OnlyThose(d: Digest, inst: Instance, st: Store, dur: int, t0: C.Times, expiry: string -> int,
                  clocks: seq<C.Pass>, passes: seq<Pass>, h: nat, i: nat, j: nat)
    requires Coherent(d, inst, st, dur, t0, expiry, clocks, passes) && h < i < j < |passes|
    requires forall m :: h < m < j && m != i ==> passes[m].refresh.None?
    ensures |clocks| == |passes| && forall m :: h < m < j && m != i ==> !C.Refreshes(dur, t0, clocks, m)
  {
    hide LinedUp, IsRun, UsableTokens, Attentive, C.Refreshes, C.RealExpiry;
  }

  /** Such runs exist for every store, every lined up instance and every three tokens:
      three passes exactly on time, of which the second is cut off before it writes. */
  lemma MissedRefreshHappens(d: Digest, inst: Instance, st: Store, dur: int, a: string, b: string, c: string)
    returns (expiry: string -> int, clocks: seq<C.Pass>, passes: seq<Pass>)
    requires LinedUp(d, inst) && C.Whole(dur) && dur >= C.SHORTEST
    requires Usable(a) && Usable(b) && Usable(c) && a != b && b != c && c != a
    ensures Coherent(d, inst, st, dur, C.Times(None, None), expiry, clocks, passes)
    ensures C.InOrder(clocks) && C.OnTime(dur, C.Times(None, None), clocks)
    ensures |passes| == 3 && forall i :: 0 <= i < 3 ==> passes[i].refresh.Some?
    ensures passes[0].landed > 0 && passes[1].landed == 0
  {
    hide IsRun, Attentive, C.StatusAfter, C.InOrder, C.OnTime, C.Refreshes, C.RealExpiry, Usable, LinedUp;
    clocks := C.ThreeTurns(dur);
    C.ThreeRefreshes(dur);
    expiry := s => C.RealExpiry(dur, clocks[if s == a then 0 else if s == b then 1 else 2].issued);
    passes := CutOffRun(d, inst, st, a, b, c);
  }

  /** Three refreshes, of which only the first lands anything. */
  lemma CutOffRun(d: Digest, inst: Instance, st: Store, a: string, b: string, c: string) returns (run: seq<Pass>)
    requires LinedUp(d, inst) && Usable(a) && Usable(b) && Usable(c)
    ensures IsRun(d, inst, st, run) && UsableTokens(run) && Attentive(d, inst, st, run)
    ensures |run| == 3 && run[0].landed == 1 && run[1].landed == 0 && run[2].landed == 0
    ensures run[0].refresh == Some(a) && run[1].refresh == Some(b) && run[2].refresh == Some(c)
  {
    hide PlanOf, Usable, Enumerates, Listed, LinedUp, UpsertPlan, AfterPass;
    var here := AnyOrder(Listed(st, inst));
    var p := Pass(Some(a), 0, here, 1);
    FirstWriteIsPlanned(d, inst, st, p);
    var next := AfterPass(d, inst, st, st, p);
    var there := AnyOrder(Listed(next, inst));
    run := [p, Pass(Some(b), 1, there, 0), Pass(Some(c), 2, there, 0)];
    NothingLands(d, inst, next, next, run[1]);
    ThreeStates(d, inst, st, run);
  }

  lemma ThreeStates(d: Digest, inst: Instance, st: Store, run: seq<Pass>)
    requires |run| == 3 && run[0].listed == 0 && run[1].listed == 1 && run[2].listed == 2
    ensures ViewOf(d, inst, st, run, 0) == st
    ensures ViewOf(d, inst, st, run, 1) == AfterPass(d, inst, st, st, run[0])
    ensures var next := AfterPass(d, inst, st, st, run[0]);
      ViewOf(d, inst, st, run, 2) == AfterPass(d, inst, next, next, run[1])
  {
    hide AfterPass;
    var next := AfterPass(d, inst, st, st, run[0]);
    assert StoreAt(d, inst, st, run, 0) == st;
    assert StoreAt(d, inst, st, run, 1) == next;
    assert StoreAt(d, inst, st, run, 2) == AfterPass(d, inst, next, next, run[1]);
  }

  lemma NothingLands(d: Digest, inst: Instance, view: Store, st: Store, p: Pass)
    requires p.landed == 0
    ensures AfterPass(d, inst, view, st, p) == st
  {
    assert PlanOf(d, inst, view, p).ops[..0] == [];
  }

  lemma FirstWriteIsPlanned(d: Digest, inst: Instance, view: Store, p: Pass)
    requires LinedUp(d, inst) && p.refresh.Some? && Usable(p.refresh.value)
    ensures |PlanOf(d, inst, view, p).ops| >= 1
  {
    WritesInOrder(d, inst, inst.spec.datasources, p.refresh.value, view);
  }
}
