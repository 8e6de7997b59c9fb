/** What a pass of the datasource reconciler achieves: exact convergence, safety of every
    cut-off pass, and exactly when it can complete. */
module Convergence {
  import opened Wrappers
  import opened GrafooApi
  import opened Cluster
  import opened Naming
  import opened SecureJson
  import opened DataSources
  import opened Webhook

  // ----- what the spec asks for -----------------------------------------

  predicate Names(d: Digest, inst: Instance, entries: seq<DataSource>, r: Ref) {
    exists i :: 0 <= i < |entries| && Known(entries[i]) && StoredRef(d, inst, entries[i]) == r
  }

  /** Entry i is the last one of a known type with its key. */
  predicate IsLast(d: Digest, inst: Instance, entries: seq<DataSource>, i: nat)
    requires i < |entries|
  {
    && Known(entries[i])
    && forall j :: i < j < |entries| && Known(entries[j]) ==>
      StoredRef(d, inst, entries[j]) != StoredRef(d, inst, entries[i])
  }

  /** The first entry whose object is listed, or the number of entries. */
  function FirstStored(d: Digest, inst: Instance, entries: seq<DataSource>, view: Store): (n: nat)
    ensures n <= |entries|
    ensures n < |entries| ==> IsListed(view, inst, StoredRef(d, inst, entries[n]))
    ensures forall j :: 0 <= j < n ==> !IsListed(view, inst, StoredRef(d, inst, entries[j]))
  {
    if entries == [] || IsListed(view, inst, StoredRef(d, inst, entries[0])) then 0
    else 1 + FirstStored(d, inst, entries[1..], view)
  }

  /** The token that entry i is written with: the one in hand; without one, the
      token of the first entry that is stored, but only from that entry on. */
  function TokenFor(d: Digest, inst: Instance, entries: seq<DataSource>, i: nat, token: string, view: Store): string
    requires i < |entries|
  {
    var n := FirstStored(d, inst, entries, view);
    if token != "" then token
    else if n <= i then
      match StoredToken(view[StoredRef(d, inst, entries[n])])
      case Ok(t) => t
      case Err(_) => ""
    else ""
  }

  lemma TokenForShift(d: Digest, inst: Instance, entries: seq<DataSource>, i: nat, token: string, view: Store)
    requires entries != [] && Recover(d, inst, entries[0], token, view).Ok?
    ensures i == 0 ==> TokenFor(d, inst, entries, i, token, view) == Recover(d, inst, entries[0], token, view).value
    ensures 0 < i < |entries| ==> (TokenFor(d, inst, entries, i, token, view) ==
                    TokenFor(d, inst, entries[1..], i - 1, Recover(d, inst, entries[0], token, view).value, view))
  {
    hide StoredToken, StoredRef;
    var n := FirstStored(d, inst, entries[1..], view);
    assert n < |entries[1..]| ==> entries[1..][n] == entries[n + 1];
    if token == "" && IsListed(view, inst, StoredRef(d, inst, entries[0])) {
      StoredTokenNonEmpty(view[StoredRef(d, inst, entries[0])]);
    }
  }

  lemma StoredTokenNonEmpty(o: Object)
    ensures StoredToken(o).Ok? ==> StoredToken(o).value != ""
  {
  }

  // ----- the writes of a pass -------------------------------------------

  lemma NamesUnfolds(d: Digest, inst: Instance, entries: seq<DataSource>, r: Ref)
    requires entries != []
    ensures Names(d, inst, entries, r) <==>
      (Known(entries[0]) && StoredRef(d, inst, entries[0]) == r) || Names(d, inst, entries[1..], r)
  {
    hide Known, StoredRef;
    if Names(d, inst, entries, r) {
      var i :| 0 <= i < |entries| && Known(entries[i]) && StoredRef(d, inst, entries[i]) == r;
      assert i > 0 ==> entries[1..][i - 1] == entries[i];
    }
    if Names(d, inst, entries[1..], r) {
      var i :| 0 <= i < |entries[1..]| && Known(entries[1..][i]) && StoredRef(d, inst, entries[1..][i]) == r;
      assert entries[i + 1] == entries[1..][i];
    }
  }

  lemma WrittenCons(op: Op, ops: seq<Op>)
    ensures Written([op] + ops) == {op.ref} + Written(ops)
  {
    var all := [op] + ops;
    forall r | r in {op.ref} + Written(ops) ensures r in Written(all) {
      if r == op.ref { assert all[0].ref == r; }
      else { var i :| 0 <= i < |ops| && ops[i].ref == r; assert all[i + 1].ref == r; }
    }
    forall r | r in Written(all) ensures r in {op.ref} + Written(ops) {
      var i :| 0 <= i < |all| && all[i].ref == r;
      if i > 0 { assert ops[i - 1].ref == r; }
    }
  }

  predicate OwnWrite(d: Digest, inst: Instance, entries: seq<DataSource>, op: Op) {
    op.Upsert? && op.patch.owner == Some(inst.name) && Names(d, inst, entries, op.ref)
  }

  /** The planned writes name exactly the entries of known types, and are upserts
      that this instance may own. */
  lemma WritesNameTheSpec(d: Digest, inst: Instance, entries: seq<DataSource>, token: string, view: Store)
    ensures var p := UpsertPlan(d, inst, entries, token, view);
      && (forall k :: 0 <= k < |p.ops| ==>
            p.ops[k].Upsert? && p.ops[k].patch.owner == Some(inst.name) && Names(d, inst, entries, p.ops[k].ref))
      && (p.end.Success? ==> forall r :: Names(d, inst, entries, r) ==> r in Written(p.ops))
  {
    hide UpsertPlan, Names, Written;
    var p := UpsertPlan(d, inst, entries, token, view);
    WritesAreOwn(d, inst, entries, token, view);
    assert forall k :: 0 <= k < |p.ops| ==> OwnWrite(d, inst, entries, p.ops[k]);
  }

  lemma {:induction false} WritesAreOwn(d: Digest, inst: Instance, entries: seq<DataSource>, token: string, view: Store)
    ensures var p := UpsertPlan(d, inst, entries, token, view);
      && (forall op :: op in p.ops ==> OwnWrite(d, inst, entries, op))
      && (p.end.Success? ==> forall r :: Names(d, inst, entries, r) ==> r in Written(p.ops))
  {
    hide StepFor, Names, Written, StoredRef, Known;
    if entries == [] {
      NoNames(d, inst);
      return;
    }
    var step := StepFor(d, inst, entries[0], token, view);
    if !step.Stop? {
      var rest := UpsertPlan(d, inst, entries[1..], step.token, view);
      WritesAreOwn(d, inst, entries[1..], step.token, view);
      forall r ensures Names(d, inst, entries, r) <==>
        (Known(entries[0]) && StoredRef(d, inst, entries[0]) == r) || Names(d, inst, entries[1..], r)
      {
        NamesUnfolds(d, inst, entries, r);
      }
      if step.Write? {
        WrittenCons(step.op, rest.ops);
      }
    }
  }

  lemma NoNames(d: Digest, inst: Instance)
    ensures forall r :: !Names(d, inst, [], r)
  {
  }

  /** A write survives the later writes if no later entry has its key. */
  lemma FirstWriteSurvives(d: Digest, inst: Instance, entries: seq<DataSource>, token: string, view: Store,
                           st: Store, r: Ref)
    requires !Names(d, inst, entries, r)
    ensures var st' := Exec(st, UpsertPlan(d, inst, entries, token, view).ops);
      (r in st' <==> r in st) && (r in st ==> st'[r] == st[r])
  {
    var ops := UpsertPlan(d, inst, entries, token, view).ops;
    WritesNameTheSpec(d, inst, entries, token, view);
    forall k | 0 <= k < |ops| ensures ops[k].ref != r {
      assert Names(d, inst, entries, ops[k].ref);
    }
    ExecFrame(st, ops, r);
  }

  /** Executing a plan is executing its first step, then the plan of the rest. */
  lemma PlanUnfolds(d: Digest, inst: Instance, entries: seq<DataSource>, token: string, view: Store, st: Store)
    requires entries != [] && !StepFor(d, inst, entries[0], token, view).Stop?
    ensures var step := StepFor(d, inst, entries[0], token, view);
      Exec(st, UpsertPlan(d, inst, entries, token, view).ops) ==
      Exec(if step.Write? then Apply(st, step.op) else st, UpsertPlan(d, inst, entries[1..], step.token, view).ops)
  {
    var step := StepFor(d, inst, entries[0], token, view);
    if step.Write? {
      assert UpsertPlan(d, inst, entries, token, view).ops[1..] ==
        UpsertPlan(d, inst, entries[1..], step.token, view).ops;
    }
  }

  /** Once all writes have landed, the last entry with each key is what is stored. */
  lemma {:induction false} LastEntryWins(d: Digest, inst: Instance, entries: seq<DataSource>, token: string,
                                         view: Store, st: Store, i: nat)
    requires UpsertPlan(d, inst, entries, token, view).end.Success?
    requires i < |entries| && IsLast(d, inst, entries, i)
    ensures var st' := Exec(st, UpsertPlan(d, inst, entries, token, view).ops);
      var r := StoredRef(d, inst, entries[i]);
      r in st' && Renders(st'[r], inst, entries[i], TokenFor(d, inst, entries, i, token, view))
    decreases |entries|
  {
    var step := StepFor(d, inst, entries[0], token, view);
    assert !step.Stop? && UpsertPlan(d, inst, entries[1..], step.token, view).end.Success?;
    TokenForShift(d, inst, entries, i, token, view);
    PlanUnfolds(d, inst, entries, token, view, st);
    hide Exec, UpsertPlan, TokenFor;
    var next := if step.Write? then Apply(st, step.op) else st;
    assert forall j :: 0 <= j < |entries[1..]| ==> entries[1..][j] == entries[j + 1];
    if i > 0 {
      LastEntryWins(d, inst, entries[1..], step.token, view, next, i - 1);
    } else {
      FirstWriteSurvives(d, inst, entries[1..], step.token, view, next, StoredRef(d, inst, entries[0]));
    }
  }

  // ----- deletion -------------------------------------------------------

  lemma {:induction false} DeletionsNameTheRest(order: seq<Ref>, kept: set<Ref>)
    ensures forall k :: 0 <= k < |Deletions(order, kept)| ==>
      Deletions(order, kept)[k].Delete? && Deletions(order, kept)[k].ref in order
        && Deletions(order, kept)[k].ref !in kept
    ensures forall r :: r in order && r !in kept ==> r in Written(Deletions(order, kept))
  {
    if order != [] {
      DeletionsNameTheRest(order[1..], kept);
      var ops, rest := Deletions(order, kept), Deletions(order[1..], kept);
      var shift := if order[0] in kept then 0 else 1;
      assert forall k :: shift <= k < |ops| ==> ops[k] == rest[k - shift];
      forall r | r in order && r !in kept ensures r in Written(ops) {
        if r == order[0] {
          assert ops[0].ref == r;
        } else {
          assert r in order[1..];
          var k :| 0 <= k < |rest| && rest[k].ref == r;
          assert ops[k + shift].ref == r;
        }
      }
    }
  }

  lemma {:induction false} DeletedIsGone(st: Store, ops: seq<Op>, r: Ref)
    requires forall k :: 0 <= k < |ops| ==> ops[k].Delete?
    ensures r in Exec(st, ops) <==> r in st && r !in Written(ops)
    ensures r in Exec(st, ops) ==> Exec(st, ops)[r] == st[r]
    decreases |ops|
  {
    if ops != [] {
      DeletedIsGone(Apply(st, ops[0]), ops[1..], r);
      assert forall k :: 0 <= k < |ops| ==> ops[k].ref in Written(ops);
      assert Written(ops) == {ops[0].ref} + Written(ops[1..]) by {
        forall x | x in Written(ops) ensures x in {ops[0].ref} + Written(ops[1..]) {
          var k :| 0 <= k < |ops| && ops[k].ref == x;
          if k > 0 { assert ops[1..][k - 1].ref == x; }
        }
        forall x | x in Written(ops[1..]) ensures x in Written(ops) {
          var k :| 0 <= k < |ops[1..]| && ops[1..][k].ref == x;
          assert ops[k + 1].ref == x;
        }
      }
    } else {
      assert Written(ops) == {};
    }
  }

  // ----- exact convergence ----------------------------------------------

  /** The fate of one object in a pass that completes undisturbed. */
  lemma ObjectAfterPass(d: Digest, inst: Instance, token: string, st: Store, order: seq<Ref>, r: Ref)
    requires Enumerates(order, Listed(st, inst))
    requires PassPlan(d, inst, token, st, order).end.Success?
    ensures var entries := inst.spec.datasources;
      var st' := Exec(st, PassPlan(d, inst, token, st, order).ops);
      var mid := Exec(st, UpsertPlan(d, inst, entries, token, st).ops);
      if Names(d, inst, entries, r) then r in mid && r in st' && st'[r] == mid[r]
      else (r in st' <==> r in st && !IsListed(st, inst, r)) && (r in st' ==> st'[r] == st[r])
  {
    var entries := inst.spec.datasources;
    var up := UpsertPlan(d, inst, entries, token, st);
    var doomed := Deletions(order, Written(up.ops));
    var mid := Exec(st, up.ops);
    ExecAppend(st, up.ops, doomed);
    WritesNameTheSpec(d, inst, entries, token, st);
    DeletionsNameTheRest(order, Written(up.ops));
    DeletedIsGone(mid, doomed, r);
    hide Exec, UpsertPlan, Deletions;
    if Names(d, inst, entries, r) {
      var i := LastNamed(d, inst, entries, r);
      LastEntryWins(d, inst, entries, token, st, st, i);
    } else {
      FirstWriteSurvives(d, inst, entries, token, st, st, r);
      assert r !in Written(up.ops);
      assert IsListed(st, inst, r) <==> r in Listed(st, inst);
      assert r in Listed(st, inst) <==> r in order;
    }
  }

  /** From any store, a pass that completes undisturbed leaves the instance's
      listed datasources exactly those that the spec names, the last entry of each
      key stored, and every other object as it was. */
  lemma ExactConvergence(d: Digest, inst: Instance, token: string, st: Store, order: seq<Ref>)
    requires Enumerates(order, Listed(st, inst))
    requires PassPlan(d, inst, token, st, order).end.Success?
    ensures var st' := Exec(st, PassPlan(d, inst, token, st, order).ops);
      var entries := inst.spec.datasources;
      && (forall r :: IsListed(st', inst, r) <==> Names(d, inst, entries, r))
      && (forall i :: 0 <= i < |entries| && IsLast(d, inst, entries, i) ==>
            && StoredRef(d, inst, entries[i]) in st'
            && Renders(st'[StoredRef(d, inst, entries[i])], inst, entries[i], TokenFor(d, inst, entries, i, token, st)))
      && (forall r :: !Names(d, inst, entries, r) && !IsListed(st, inst, r) ==>
            (r in st' <==> r in st) && (r in st ==> st'[r] == st[r]))
  {
    hide Exec, UpsertPlan, PassPlan, TokenFor, Enumerates;
    var entries := inst.spec.datasources;
    var st' := Exec(st, PassPlan(d, inst, token, st, order).ops);
    forall i | 0 <= i < |entries| && IsLast(d, inst, entries, i)
      ensures StoredRef(d, inst, entries[i]) in st'
      ensures Renders(st'[StoredRef(d, inst, entries[i])], inst, entries[i], TokenFor(d, inst, entries, i, token, st))
    {
      EntryAfterPass(d, inst, token, st, order, i);
    }
    forall r
      ensures IsListed(st', inst, r) <==> Names(d, inst, entries, r)
      ensures !Names(d, inst, entries, r) && !IsListed(st, inst, r) ==>
        (r in st' <==> r in st) && (r in st ==> st'[r] == st[r])
    {
      ObjectAfterPass(d, inst, token, st, order, r);
      if Names(d, inst, entries, r) {
        var i := LastNamed(d, inst, entries, r);
        EntryAfterPass(d, inst, token, st, order, i);
      }
    }
  }

  lemma EntryAfterPass(d: Digest, inst: Instance, token: string, st: Store, order: seq<Ref>, i: nat)
    requires Enumerates(order, Listed(st, inst))
    requires PassPlan(d, inst, token, st, order).end.Success?
    requires i < |inst.spec.datasources| && IsLast(d, inst, inst.spec.datasources, i)
    ensures var st' := Exec(st, PassPlan(d, inst, token, st, order).ops);
      var entries := inst.spec.datasources;
      var r := StoredRef(d, inst, entries[i]);
      && r in st' && IsListed(st', inst, r)
      && Renders(st'[r], inst, entries[i], TokenFor(d, inst, entries, i, token, st))
  {
    hide Exec, UpsertPlan, TokenFor, Enumerates, Deletions;
    var entries := inst.spec.datasources;
    ObjectAfterPass(d, inst, token, st, order, StoredRef(d, inst, entries[i]));
    assert Names(d, inst, entries, StoredRef(d, inst, entries[i]));
    LastEntryWins(d, inst, entries, token, st, st, i);
  }

  lemma {:induction false} LastNamed(d: Digest, inst: Instance, entries: seq<DataSource>, r: Ref) returns (i: nat)
    requires Names(d, inst, entries, r)
    ensures i < |entries| && IsLast(d, inst, entries, i) && StoredRef(d, inst, entries[i]) == r
  {
    var n := |entries| - 1;
    if Known(entries[n]) && StoredRef(d, inst, entries[n]) == r {
      i := n;
    } else {
      var j :| 0 <= j < |entries| && Known(entries[j]) && StoredRef(d, inst, entries[j]) == r;
      assert entries[..n][j] == entries[j];
      i := LastNamed(d, inst, entries[..n], r);
      assert forall k :: 0 <= k < n ==> entries[..n][k] == entries[k];
    }
  }

  /** A pass cut off anywhere, even one working from a stale listing, never deletes
      what the spec names, deletes nothing before every write has landed, and
      touches nothing that is neither named nor listed. */
  lemma CutOffPassIsSafe(d: Digest, inst: Instance, token: string, view: Store, order: seq<Ref>, k: nat, st: Store,
                         r: Ref)
    requires Enumerates(order, Listed(view, inst))
    requires k <= |PassPlan(d, inst, token, view, order).ops|
    ensures var st' := Exec(st, PassPlan(d, inst, token, view, order).ops[..k]);
      && (r in st && Names(d, inst, inst.spec.datasources, r) ==> r in st')
      && (r in st && k <= |UpsertPlan(d, inst, inst.spec.datasources, token, view).ops| ==> r in st')
      && (!Names(d, inst, inst.spec.datasources, r) && !IsListed(view, inst, r) ==>
            (r in st' <==> r in st) && (r in st ==> st'[r] == st[r]))
  {
    var entries := inst.spec.datasources;
    var ops := PassPlan(d, inst, token, view, order).ops;
    var up := UpsertPlan(d, inst, entries, token, view);
    var doomed := Deletions(order, Written(up.ops));
    WritesNameTheSpec(d, inst, entries, token, view);
    DeletionsNameTheRest(order, Written(up.ops));
    forall j | 0 <= j < k
      ensures ops[j].Delete? ==> ops[j].ref != r || !Names(d, inst, entries, r)
      ensures ops[j].Delete? ==> j >= |up.ops|
      ensures ops[j].Upsert? || ops[j].Delete?
      ensures ops[j].ref == r ==> Names(d, inst, entries, r) || IsListed(view, inst, r)
    {
      if j >= |up.ops| {
        assert up.end.Success? && ops[j] == doomed[j - |up.ops|];
        assert ops[j].ref in order;
        assert ops[j].ref in Listed(view, inst);
      }
    }
    var done := ops[..k];
    if (Names(d, inst, entries, r) || k <= |up.ops|) && r in st {
      NothingRemoved(st, done, r);
    }
    if !Names(d, inst, entries, r) && !IsListed(view, inst, r) {
      ExecFrame(st, done, r);
    }
  }

  lemma {:induction false} NothingRemoved(st: Store, ops: seq<Op>, r: Ref)
    requires forall j :: 0 <= j < |ops| ==> ops[j].Delete? ==> ops[j].ref != r
    requires r in st
    ensures r in Exec(st, ops)
    decreases |ops|
  {
    if ops != [] {
      assert ops[0].Delete? ==> ops[0].ref != r;
      NothingRemoved(Apply(st, ops[0]), ops[1..], r);
    }
  }

  // ----- when a pass completes ------------------------------------------

  predicate PayloadsPresent(entries: seq<DataSource>) {
    forall i :: 0 <= i < |entries| && Known(entries[i]) ==> OwnPayload(entries[i]).Some?
  }

  /** The plan reaches its end exactly when every payload it dereferences is there
      and the token, if it has to be recovered, can be read. */
  lemma {:induction false} PlanCompletesIff(d: Digest, inst: Instance, entries: seq<DataSource>, token: string,
                                            view: Store)
    ensures var n := FirstStored(d, inst, entries, view);
      UpsertPlan(d, inst, entries, token, view).end.Success? <==>
        PayloadsPresent(entries) &&
        (token == "" && n < |entries| ==> StoredToken(view[StoredRef(d, inst, entries[n])]).Ok?)
  {
    if entries != [] {
      var step := StepFor(d, inst, entries[0], token, view);
      var rest := entries[1..];
      assert forall j :: 0 <= j < |rest| ==> rest[j] == entries[j + 1];
      assert forall j :: 0 < j < |entries| ==> entries[j] == rest[j - 1];
      assert PayloadsPresent(entries) <==>
        (Known(entries[0]) ==> OwnPayload(entries[0]).Some?) && PayloadsPresent(rest);
      if !step.Stop? {
        if token == "" && IsListed(view, inst, StoredRef(d, inst, entries[0])) {
          StoredTokenNonEmpty(view[StoredRef(d, inst, entries[0])]);
        }
        PlanCompletesIff(d, inst, rest, step.token, view);
      }
    }
  }

  /** An object that this instance may take or already has. */
  predicate Ownable(st: Store, inst: Instance, r: Ref) {
    r in st ==> st[r].owner in {None, Some(inst.name)}
  }

  lemma {:induction false} UpsertsLandIff(st: Store, inst: Instance, ops: seq<Op>)
    requires forall k :: 0 <= k < |ops| ==> ops[k].Upsert? && ops[k].patch.owner == Some(inst.name)
    ensures Lands(st, ops) <==> forall k :: 0 <= k < |ops| ==> Ownable(st, inst, ops[k].ref)
    decreases |ops|
  {
    if ops != [] {
      var st1 := Apply(st, ops[0]);
      assert ops[0].Upsert? && ops[0].patch.owner == Some(inst.name);
      UpsertsLandIff(st1, inst, ops[1..]);
      assert Accepts(st, ops[0]) <==> Ownable(st, inst, ops[0].ref);
      if Accepts(st, ops[0]) {
        forall k | 1 <= k < |ops| ensures Ownable(st1, inst, ops[1..][k - 1].ref) <==> Ownable(st, inst, ops[k].ref) {
          assert ops[1..][k - 1] == ops[k];
        }
      }
    }
  }

  lemma {:induction false} DeletionsLand(st: Store, order: seq<Ref>, kept: set<Ref>)
    requires forall i, j :: 0 <= i < j < |order| ==> order[i] != order[j]
    requires forall i :: 0 <= i < |order| ==> order[i] in st
    ensures Lands(st, Deletions(order, kept))
    decreases |order|
  {
    if order != [] {
      assert forall i :: 0 <= i < |order[1..]| ==> order[1..][i] == order[i + 1];
      var ops := Deletions(order, kept);
      if order[0] in kept {
        assert ops == Deletions(order[1..], kept);
        DeletionsLand(st, order[1..], kept);
      } else {
        assert ops[1..] == Deletions(order[1..], kept);
        DeletionsLand(st - {order[0]}, order[1..], kept);
      }
    }
  }

  /** The API server takes the whole plan exactly when no object that the spec
      names belongs to another owner. */
  lemma PassLandsIff(d: Digest, inst: Instance, token: string, st: Store, order: seq<Ref>)
    requires Enumerates(order, Listed(st, inst))
    requires PassPlan(d, inst, token, st, order).end.Success?
    ensures Lands(st, PassPlan(d, inst, token, st, order).ops) <==>
      forall r :: Names(d, inst, inst.spec.datasources, r) ==> Ownable(st, inst, r)
  {
    var entries := inst.spec.datasources;
    var up := UpsertPlan(d, inst, entries, token, st);
    hide UpsertPlan;
    WritesNameTheSpec(d, inst, entries, token, st);
    UpsertsLandIff(st, inst, up.ops);
    ExecAppend(st, up.ops, Deletions(order, Written(up.ops)));
    forall i | 0 <= i < |order| ensures order[i] in Exec(st, up.ops) {
      assert order[i] in Listed(st, inst);
      NothingRemoved(st, up.ops, order[i]);
    }
    DeletionsLand(Exec(st, up.ops), order, Written(up.ops));
    forall r | Names(d, inst, entries, r) ensures exists k :: 0 <= k < |up.ops| && up.ops[k].ref == r {
      assert r in Written(up.ops);
    }
  }

  predicate TypedStore(st: Store) {
    forall r :: r in st && r.kind == GrafanaDatasource ==> st[r].body.Datasource?
  }

  /** The first entry whose payload is dereferenced and missing, or the number of entries. */
  function FirstMissing(entries: seq<DataSource>): (m: nat)
    ensures m <= |entries|
    ensures m == |entries| <==> PayloadsPresent(entries)
  {
    if entries == [] then 0
    else if Known(entries[0]) && OwnPayload(entries[0]).None? then 0
    else
      assert forall i :: 0 < i < |entries| ==> entries[i] == entries[1..][i - 1];
      1 + FirstMissing(entries[1..])
  }

  /** A pass dereferences a nil pointer exactly when a payload is missing and it is
      not stopped before by a token that cannot be read back. */
  lemma {:induction false} NilPointerIff(d: Digest, inst: Instance, entries: seq<DataSource>, token: string,
                                         view: Store)
    requires TypedStore(view)
    ensures var n, m := FirstStored(d, inst, entries, view), FirstMissing(entries);
      UpsertPlan(d, inst, entries, token, view).end == Failure(NilPointer) <==>
        m < |entries| && !(token == "" && n <= m && StoredToken(view[StoredRef(d, inst, entries[n])]).Err?)
  {
    if entries != [] {
      hide OwnPayload, StoredRef, SecureData, ExtractToken, LabelsFor;
      var step := StepFor(d, inst, entries[0], token, view);
      if !step.Stop? {
        if token == "" && IsListed(view, inst, StoredRef(d, inst, entries[0])) {
          StoredTokenNonEmpty(view[StoredRef(d, inst, entries[0])]);
        }
        NilPointerIff(d, inst, entries[1..], step.token, view);
      }
    }
  }

  /** In particular never on valid entries, even extended with MCOO entries. */
  lemma NoNilPointer(d: Digest, inst: Instance, entries: seq<DataSource>, token: string, view: Store)
    requires forall i :: 0 <= i < |entries| ==> ValidEntry(entries[i]) || entries[i] == MCOO_ENTRY
    requires TypedStore(view)
    ensures UpsertPlan(d, inst, entries, token, view).end != Failure(NilPointer)
  {
    assert PayloadsPresent(entries);
    NilPointerIff(d, inst, entries, token, view);
  }

  /** Switching entries on or off makes no difference to any pass. */
  lemma {:induction false} EnabledIsIgnored(d: Digest, inst: Instance, a: seq<DataSource>, b: seq<DataSource>,
                                            token: string, view: Store)
    requires |a| == |b| && forall i :: 0 <= i < |a| ==> a[i].(enabled := b[i].enabled) == b[i]
    ensures UpsertPlan(d, inst, a, token, view) == UpsertPlan(d, inst, b, token, view)
    decreases |a|
  {
    if a != [] {
      assert a[0].(enabled := b[0].enabled) == b[0];
      var step := StepFor(d, inst, a[0], token, view);
      assert step == StepFor(d, inst, b[0], token, view);
      if !step.Stop? {
        EnabledIsIgnored(d, inst, a[1..], b[1..], step.token, view);
      }
    }
  }
}
