/** The parts of a pass can be told apart in the server's record of it, so what the
    conditions report is a matter of that record alone. */
module PassDivision {
  import opened GrafooApi
  import opened Cluster
  import opened Naming
  import opened Conditions
  import opened Controller
  import Dex
  import MariaDb
  import GrafanaCr

  const PARTS := [DexReady, MariaDbReady, GrafanaReady, DataSourcesReady]

  predicate OwnKind(kind: Kind) {
    !kind.Grafana? && !kind.GrafanaDatasource? && !kind.ClusterRole? && !kind.ClusterRoleBinding?
  }

  lemma DexNames(inst: Instance, r: Ref)
    requires r in Dex.DexRefs(inst)
    ensures OwnKind(r.kind) && |r.name| - |inst.name| != 8
  {
    assert |"dex"| == 3 && |"dex-token"| == 9 && |"dex-client-secret"| == 17;
    var i :| 0 <= i < 7 && Dex.DexRefs(inst)[i] == r;
  }

  lemma MariaDbNames(inst: Instance, r: Ref)
    requires r in MariaDb.MariaDbRefs(inst)
    ensures OwnKind(r.kind) && |r.name| - |inst.name| == 8
  {
    assert |"mariadb"| == 7;
    var i :| 0 <= i < 5 && MariaDb.MariaDbRefs(inst)[i] == r;
  }

  lemma RoleKinds(inst: Instance, r: Ref)
    requires r in GrafanaCr.RoleRefs(inst)
    ensures r.kind in {ClusterRole, ClusterRoleBinding}
  {
    hide GrafanaCr.RoleName, ComponentName;
  }

  /** Different parts write different objects. */
  lemma PartsApart(inst: Instance, p: Component, q: Component, r: Ref)
    requires PartRef(p, inst, r) && PartRef(q, inst, r)
    ensures p == q
  {
    hide Dex.DexRefs, MariaDb.MariaDbRefs, GrafanaCr.RoleRefs;
    if r in Dex.DexRefs(inst) { DexNames(inst, r); }
    if r in MariaDb.MariaDbRefs(inst) { MariaDbNames(inst, r); }
    if r in GrafanaCr.RoleRefs(inst) { RoleKinds(inst, r); }
  }

  /** Where the i-th part ended. */
  function Mark(m: Marks, i: nat): Record
    requires i < 4
  {
    if i == 0 then m.dex else if i == 1 then m.mariadb else if i == 2 then m.grafana else m.datasources
  }

  /** What was tried, or what landed. */
  function Ops(r: Record, landed: bool): seq<Op> { if landed then r.log else r.attempted }

  lemma MarksInOrder(m: Marks, inst: Instance, before: Record, after: Record)
    requires Divides(m, inst, before, after)
    ensures Later(before, m.dex) && Later(m.dex, m.mariadb) && Later(m.mariadb, m.grafana) && Later(m.grafana, after)
    ensures forall i :: 0 <= i < 4 ==> Later(before, Mark(m, i)) && Later(Mark(m, i), after)
  {
    hide PartReplies, PartRef;
  }

  /** The part that an operation of the pass was tried, or landed, in. */
  function PartAt(m: Marks, landed: bool, k: nat): (p: nat)
    ensures p < 4
  {
    if k < |Ops(m.dex, landed)| then 0 else if k < |Ops(m.mariadb, landed)| then 1
    else if k < |Ops(m.grafana, landed)| then 2 else 3
  }

  lemma InStretch(part: Component, inst: Instance, before: Record, after: Record, landed: bool, k: nat)
    requires Stretch(part, inst, before, after) && |Ops(before, landed)| <= k < |Ops(after, landed)|
    ensures PartRef(part, inst, Ops(after, landed)[k].ref)
  {
    hide PartRef, PartReplies;
    if landed {
      assert NewLandings(before, after)[k - |before.log|] == after.log[k];
    } else {
      assert NewAttempts(before, after)[k - |before.attempted|] == after.attempted[k];
    }
  }

  lemma BelongsTo(m: Marks, inst: Instance, before: Record, after: Record, landed: bool, k: nat)
    requires Divides(m, inst, before, after) && |Ops(before, landed)| <= k < |Ops(after, landed)|
    ensures PartRef(PARTS[PartAt(m, landed, k)], inst, Ops(after, landed)[k].ref)
  {
    MarksInOrder(m, inst, before, after);
    hide PartRef, Stretch;
    if k < |Ops(m.dex, landed)| {
      InStretch(DexReady, inst, before, m.dex, landed, k);
    } else if k < |Ops(m.mariadb, landed)| {
      InStretch(MariaDbReady, inst, m.dex, m.mariadb, landed, k);
    } else if k < |Ops(m.grafana, landed)| {
      InStretch(GrafanaReady, inst, m.mariadb, m.grafana, landed, k);
    } else {
      InStretch(DataSourcesReady, inst, m.grafana, after, landed, k);
    }
  }

  lemma PartAtIff(m: Marks, inst: Instance, before: Record, after: Record, landed: bool, k: nat, i: nat)
    requires Divides(m, inst, before, after) && i < 4 && k < |Ops(after, landed)|
    ensures PartAt(m, landed, k) <= i <==> k < |Ops(Mark(m, i), landed)|
  {
    MarksInOrder(m, inst, before, after);
  }

  /** Both divisions put an operation into the same part. */
  lemma SamePart(m1: Marks, m2: Marks, inst: Instance, before: Record, after: Record, landed: bool, k: nat)
    requires Divides(m1, inst, before, after) && Divides(m2, inst, before, after)
    requires |Ops(before, landed)| <= k < |Ops(after, landed)|
    ensures PartAt(m1, landed, k) == PartAt(m2, landed, k)
  {
    hide PartRef, Divides, PartAt, Ops;
    BelongsTo(m1, inst, before, after, landed, k);
    BelongsTo(m2, inst, before, after, landed, k);
    PartsApart(inst, PARTS[PartAt(m1, landed, k)], PARTS[PartAt(m2, landed, k)], Ops(after, landed)[k].ref);
  }

  lemma SameOps(m1: Marks, m2: Marks, inst: Instance, before: Record, after: Record, i: nat, landed: bool)
    requires Divides(m1, inst, before, after) && Divides(m2, inst, before, after) && i < 4
    ensures |Ops(Mark(m1, i), landed)| <= |Ops(Mark(m2, i), landed)|
  {
    MarksInOrder(m1, inst, before, after);
    MarksInOrder(m2, inst, before, after);
    hide PartRef, Divides, PartAt;
    var k := |Ops(Mark(m2, i), landed)|;
    if k < |Ops(Mark(m1, i), landed)| {
      SamePart(m1, m2, inst, before, after, landed, k);
      PartAtIff(m1, inst, before, after, landed, k, i);
      PartAtIff(m2, inst, before, after, landed, k, i);
    }
  }

  // ----- the answers ----------------------------------------------------

  predicate AsksForSecret(inst: Instance, r: Reply) { r.Got? && r.ref == Dex.ClientSecretRef(inst) }

  /** How the answers of a pass fall into parts. */
  lemma RepliesByPart(m: Marks, inst: Instance, before: Record, after: Record, k: nat)
    requires Divides(m, inst, before, after) && inst.spec.mariadb.Some? && |before.replies| <= k < |after.replies|
    ensures k < |m.dex.replies| ==> AsksForSecret(inst, after.replies[k])
    ensures |m.dex.replies| <= k < |m.mariadb.replies| ==>
      after.replies[k].Got? && !AsksForSecret(inst, after.replies[k])
    ensures |m.mariadb.replies| <= k < |m.grafana.replies| ==>
      after.replies[k].Got? && (AsksForSecret(inst, after.replies[k]) <==> k == |m.mariadb.replies|)
    ensures |m.grafana.replies| <= k ==> after.replies[k].Listing?
    ensures |m.dex.replies| < |m.mariadb.replies|
  {
    MarksInOrder(m, inst, before, after);
    hide PartRef, Dex.DexRefs, MariaDb.MariaDbRefs, Dex.ClientSecretRef;
    var r := after.replies[k];
    if |m.dex.replies| <= k < |m.mariadb.replies| {
      assert m.mariadb.replies[k] == r;
      MariaDbNames(inst, r.ref);
      SecretName(inst);
    } else if k < |m.dex.replies| {
      assert m.dex.replies[k] == r;
    } else if k < |m.grafana.replies| {
      assert m.grafana.replies[k] == r;
    }
  }

  lemma SecretName(inst: Instance)
    ensures |Dex.ClientSecretRef(inst).name| - |inst.name| == 18
  {
    assert |"dex-client-secret"| == 17;
  }

  lemma SameReplies(m1: Marks, m2: Marks, inst: Instance, before: Record, after: Record, i: nat)
    requires Divides(m1, inst, before, after) && Divides(m2, inst, before, after) && i < 3 && inst.spec.mariadb.Some?
    requires forall j :: 0 <= j < i ==> |Mark(m1, j).replies| == |Mark(m2, j).replies|
    ensures |Mark(m1, i).replies| <= |Mark(m2, i).replies|
  {
    MarksInOrder(m1, inst, before, after);
    MarksInOrder(m2, inst, before, after);
    hide PartRef, Divides;
    assert i > 0 ==> |Mark(m1, 0).replies| == |Mark(m2, 0).replies|;
    assert i > 1 ==> |Mark(m1, 1).replies| == |Mark(m2, 1).replies|;
    var k := |Mark(m2, i).replies|;
    if k < |Mark(m1, i).replies| {
      RepliesByPart(m1, inst, before, after, k);
      RepliesByPart(m2, inst, before, after, k);
    }
  }

  // ----- the division is forced -----------------------------------------

  lemma RecordsEqual(a: Record, b: Record, after: Record)
    requires Later(a, after) && Later(b, after)
    requires |a.log| == |b.log| && |a.attempted| == |b.attempted| && |a.replies| == |b.replies|
    ensures a == b
  {
    assert a.log == after.log[..|a.log|] && b.log == after.log[..|b.log|];
    assert a.attempted == after.attempted[..|a.attempted|] && b.attempted == after.attempted[..|b.attempted|];
    assert a.replies == after.replies[..|a.replies|] && b.replies == after.replies[..|b.replies|];
  }

  /** The record of a pass can be divided into its parts in one way only. */
  lemma DivisionIsForced(m1: Marks, m2: Marks, inst: Instance, before: Record, after: Record)
    requires Divides(m1, inst, before, after) && Divides(m2, inst, before, after) && inst.spec.mariadb.Some?
    ensures m1 == m2
  {
    MarksInOrder(m1, inst, before, after);
    MarksInOrder(m2, inst, before, after);
    for i := 0 to 3
      invariant forall j :: 0 <= j < i ==> |Mark(m1, j).replies| == |Mark(m2, j).replies|
      invariant forall j :: 0 <= j < i ==> Mark(m1, j) == Mark(m2, j)
    {
      SameReplies(m1, m2, inst, before, after, i);
      SameReplies(m2, m1, inst, before, after, i);
      SameOps(m1, m2, inst, before, after, i, true);
      SameOps(m2, m1, inst, before, after, i, true);
      SameOps(m1, m2, inst, before, after, i, false);
      SameOps(m2, m1, inst, before, after, i, false);
      RecordsEqual(Mark(m1, i), Mark(m2, i), after);
    }
    assert Mark(m1, 0) == Mark(m2, 0) && Mark(m1, 1) == Mark(m2, 1) && Mark(m1, 2) == Mark(m2, 2);
  }

  /** So whatever division is taken, the reports are the same: which conditions may be
      true after a pass depends on what the server saw and on nothing else. */
  lemma ReportsAreForced(m1: Marks, m2: Marks, inst: Instance, env: Environment, before: Record, after: Record,
                         needsRefresh: bool, cs1: seq<Condition>, cs2: seq<Condition>, was: seq<Condition>,
                         part: Component)
    requires Divides(m1, inst, before, after) && Divides(m2, inst, before, after) && inst.spec.mariadb.Some?
    requires Reports(cs1, was, inst, env, needsRefresh, m1) && Reports(cs2, was, inst, env, needsRefresh, m2)
    ensures StandingOf(cs1, part) == StandingOf(cs2, part)
  {
    DivisionIsForced(m1, m2, inst, before, after);
    hide Divides, PartDone, StandingOf;
  }
}
