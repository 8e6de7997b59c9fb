/** The API server: an abstract store of objects, the operations that reconcilers
    perform on it, and the order in which they land. */
module Cluster {
  import opened Wrappers

  type Labels = map<string, string>

  datatype Kind =
    | ServiceAccount | Secret | Deployment | Service | Ingress | PersistentVolumeClaim
    | ClusterRole | ClusterRoleBinding | Grafana | GrafanaDatasource

  /** Cluster-scoped objects have the empty namespace. */
  datatype Ref = Ref(kind: Kind, namespace: string, name: string)

  datatype DatasourceSpec = DatasourceSpec(
    name: string,
    kind: string,
    access: string,
    isDefault: bool,
    url: string,
    jsonData: string,
    secureJsonData: string,
    instanceSelector: Labels)

  /** The values that the Dex configuration file is filled with. */
  datatype DexConfig = DexConfig(
    namespace: string,
    instance: string,
    serviceAccountToken: string,
    dexUri: string,
    grafanaUri: string,
    clientSecret: string)

  /** What of each kind of object the operator determines.  Fixed pod and rule
      literals are not spelled out. */
  datatype Body =
    | Empty
    | TokenSecret
    | SecretData(data: map<string, string>)
    | ConfigSecret(config: DexConfig)
    | DeploymentSpec(image: string, serviceAccount: string, mounts: string, checksum: Option<string>)
    | ServiceSpec(ports: seq<int>, selector: Labels)
    | IngressSpec(host: string, backend: string, port: int)
    | ClaimSpec(storage: string)
    | RoleRules(resources: seq<string>, verbs: seq<string>)
    | RoleBinding(subject: string, subjectNamespace: string, role: string)
    | GrafanaSpec(version: string, replicas: Option<int>, host: string, rootUrl: string, clientSecret: string,
                  dexUri: string, database: map<string, string>)
    | Datasource(spec: DatasourceSpec)

  /** Owners are compared by kind and name, and every owner here is a Grafana
      resource of the object's namespace. */
  datatype Object = Object(labels: Labels, annotations: Labels, owner: Option<string>, body: Body)

  type Store = map<Ref, Object>

  /** A mutate function: the parts of an object that it overwrites. */
  datatype Patch = Patch(labels: Option<Labels>, annotations: Option<Labels>, owner: Option<string>, body: Option<Body>)

  function Patched(o: Object, p: Patch): Object {
    Object(if p.labels.Some? then p.labels.value else o.labels,
           if p.annotations.Some? then p.annotations.value else o.annotations,
           if p.owner.Some? then p.owner else o.owner,
           if p.body.Some? then p.body.value else o.body)
  }

  const BLANK := Object(map[], map[], None, Empty)

  datatype Op =
    | Upsert(ref: Ref, initial: Object, patch: Patch) // create-or-update with retries
    | Create(ref: Ref, want: Object)
    | Update(ref: Ref, read: Object, want: Object)    // carries the version of what was read
    | Delete(ref: Ref)

  /** Whether the operation can succeed.  A controller reference cannot be taken
      from another owner; a version matches only the object it was read from. */
  predicate Accepts(st: Store, op: Op) {
    match op
    case Upsert(r, _, p) => r in st && p.owner.Some? ==> st[r].owner in {None, p.owner}
    case Create(r, _) => r !in st
    case Update(r, read, _) => r in st && st[r] == read
    case Delete(r) => r in st
  }

  function Apply(st: Store, op: Op): Store {
    match op
    case Upsert(r, initial, p) => st[r := Patched(if r in st then st[r] else initial, p)]
    case Create(r, want) => st[r := want]
    case Update(r, _, want) => st[r := want]
    case Delete(r) => st - {r}
  }

  function Exec(st: Store, ops: seq<Op>): Store
    decreases |ops|
  {
    if ops == [] then st else Exec(Apply(st, ops[0]), ops[1..])
  }

  /** Every operation is accepted in turn. */
  predicate Lands(st: Store, ops: seq<Op>)
    decreases |ops|
  {
    ops == [] || (Accepts(st, ops[0]) && Lands(Apply(st, ops[0]), ops[1..]))
  }

  lemma {:induction false} ExecAppend(st: Store, a: seq<Op>, b: seq<Op>)
    ensures Exec(st, a + b) == Exec(Exec(st, a), b)
    ensures Lands(st, a + b) <==> Lands(st, a) && Lands(Exec(st, a), b)
    decreases |a|
  {
    if a == [] {
      assert a + b == b;
    } else {
      assert (a + b)[1..] == a[1..] + b;
      ExecAppend(Apply(st, a[0]), a[1..], b);
    }
  }

  lemma ExecSnoc(st: Store, ops: seq<Op>, op: Op)
    ensures Exec(st, ops + [op]) == Apply(Exec(st, ops), op)
    ensures Lands(st, ops + [op]) <==> Lands(st, ops) && Accepts(Exec(st, ops), op)
  {
    ExecAppend(st, ops, [op]);
    assert [op][1..] == [];
  }

  /** Operations leave every object alone that none of them names. */
  lemma {:induction false} ExecFrame(st: Store, ops: seq<Op>, r: Ref)
    requires forall i :: 0 <= i < |ops| ==> ops[i].ref != r
    ensures r in Exec(st, ops) <==> r in st
    ensures r in st ==> Exec(st, ops)[r] == st[r]
    decreases |ops|
  {
    if ops != [] {
      assert ops[0].ref != r;
      ExecFrame(Apply(st, ops[0]), ops[1..], r);
    }
  }

  /** The states of a store as the logged operations land on it one by one. */
  ghost predicate IsTrace(states: seq<Store>, log: seq<Op>)
    decreases |log|
  {
    && |states| == |log| + 1
    && (log != [] ==>
          var n := |log| - 1;
          && IsTrace(states[..n + 1], log[..n])
          && Accepts(states[n], log[n])
          && states[n + 1] == Apply(states[n], log[n]))
  }

  lemma TraceSnoc(states: seq<Store>, log: seq<Op>, op: Op)
    requires IsTrace(states, log) && Accepts(states[|log|], op)
    ensures IsTrace(states + [Apply(states[|log|], op)], log + [op])
  {
    assert (states + [Apply(states[|log|], op)])[..|log| + 1] == states;
    assert (log + [op])[..|log|] == log;
  }

  lemma {:induction false} TraceStep(states: seq<Store>, log: seq<Op>, i: nat)
    requires IsTrace(states, log) && i < |log|
    ensures |states| == |log| + 1
    ensures Accepts(states[i], log[i]) && states[i + 1] == Apply(states[i], log[i])
    decreases |log|
  {
    var n := |log| - 1;
    if i < n {
      TraceStep(states[..n + 1], log[..n], i);
    }
  }

  /** A trace is determined by where it starts and what lands. */
  lemma {:induction false} TraceExtends(a: seq<Store>, b: seq<Store>, log: seq<Op>, more: seq<Op>)
    requires IsTrace(a, log) && IsTrace(b, log + more)
    requires a[0] == b[0]
    ensures a <= b
    decreases |log| + |more|
  {
    if more != [] {
      var n := |log| + |more| - 1;
      assert (log + more)[..n] == log + more[..|more| - 1];
      TraceExtends(a, b[..n + 1], log, more[..|more| - 1]);
    } else if log != [] {
      var n := |log| - 1;
      assert log + more == log && log[..n] + [] == log[..n];
      TraceExtends(a[..n + 1], b[..n + 1], log[..n], []);
      assert a == a[..n + 1] + [a[n + 1]] && b == b[..n + 1] + [b[n + 1]];
    }
  }

  function Deletes(refs: seq<Ref>): seq<Op> {
    seq(|refs|, i requires 0 <= i < |refs| => Delete(refs[i]))
  }

  /** An object that only one of the operations names is left as that one makes it. */
  lemma SingleWriter(st: Store, ops: seq<Op>, i: nat)
    requires i < |ops| && forall j :: 0 <= j < |ops| && j != i ==> ops[j].ref != ops[i].ref
    requires ops[i].Upsert?
    ensures ops[i].ref in Exec(st, ops)
    ensures Exec(st, ops)[ops[i].ref] == Apply(st, ops[i])[ops[i].ref]
  {
    var r := ops[i].ref;
    var before, after := ops[..i], ops[i..][1..];
    assert ops == before + ([ops[i]] + after);
    assert ([ops[i]] + after)[1..] == after;
    ExecAppend(st, before, [ops[i]] + after);
    forall j | 0 <= j < |after| ensures after[j].ref != r {
      assert after[j] == ops[i + 1 + j];
    }
    ExecFrame(st, before, r);
    ExecFrame(Apply(Exec(st, before), ops[i]), after, r);
  }

  // ----- what a reconciler sets out to do -------------------------------

  datatype Reason = ApiError | NotFound | AlreadyOwned | BadToken | BadSecret | BadStorageSize | NilPointer

  datatype Outcome = Success | Failure(reason: Reason)

  /** The operations of a pass in order, and how it ends once all have landed. */
  datatype Plan = Plan(ops: seq<Op>, end: Outcome)

  // ----- the server -----------------------------------------------------

  /** An answer to a read. */
  datatype Reply = Got(ref: Ref, found: Result<Option<Object>, Reason>) | Listing(view: Result<Store, Reason>)

  /** What the server has seen so far: the writes that landed, all writes that were
      tried, and the answers it gave to reads. */
  datatype Record = Record(log: seq<Op>, attempted: seq<Op>, replies: seq<Reply>)

  /** The second moment is not before the first. */
  predicate Later(before: Record, after: Record) {
    before.log <= after.log && before.attempted <= after.attempted && before.replies <= after.replies
  }

  function NewAttempts(before: Record, after: Record): seq<Op>
    requires Later(before, after)
  {
    after.attempted[|before.attempted|..]
  }

  function NewLandings(before: Record, after: Record): seq<Op>
    requires Later(before, after)
  {
    after.log[|before.log|..]
  }

  /** Between the two moments exactly the plan's operations were tried, all of them
      landed, and the plan ends in success. */
  ghost predicate Completes(plan: Plan, before: Record, after: Record) {
    plan.end.Success? && after.log == before.log + plan.ops && after.attempted == before.attempted + plan.ops
  }

  /** Between the two moments the answers to reads were these. */
  predicate Answers(replies: seq<Reply>, before: Record, after: Record) {
    after.replies == before.replies + replies
  }

  /** Something that was tried between the two moments did not land. */
  predicate WriteFailed(before: Record, after: Record) {
    |after.attempted| - |before.attempted| > |after.log| - |before.log|
  }

  /** The last read between the two moments was answered with the error, and nothing was written after it. */
  predicate ReadFailed(before: Record, after: Record, why: Reason) {
    |after.replies| > |before.replies| &&
    match after.replies[|after.replies| - 1]
    case Got(_, found) => found == Err(why)
    case Listing(view) => view == Err(why)
  }

  lemma CompletedIsNotFailed(plan: Plan, before: Record, after: Record)
    requires Completes(plan, before, after)
    ensures !WriteFailed(before, after) && after.log == before.log + plan.ops
  {
  }

  lemma LastAnswer(replies: seq<Reply>, before: Record, after: Record)
    requires Answers(replies, before, after) && replies != []
    ensures |after.replies| > |before.replies| && after.replies[|after.replies| - 1] == replies[|replies| - 1]
  {
  }

  lemma SameAnswers(a: seq<Reply>, b: seq<Reply>, before: Record, after: Record)
    requires Answers(a, before, after) && Answers(b, before, after)
    ensures a == b
  {
    assert after.replies[|before.replies|..] == a;
    assert after.replies[|before.replies|..] == b;
  }

  class ApiServer {
    var objects: Store
    var history: seq<Store> // every state so far; a cached read may come from any of them
    ghost var log: seq<Op>       // every operation that has landed
    ghost var attempted: seq<Op> // every operation that was tried, whether it landed or not
    ghost var replies: seq<Reply>
    ghost const initial: Store

    ghost predicate Valid()
      reads this
    {
      IsTrace(history, log) && history[|log|] == objects && history[0] == initial
    }

    ghost function SoFar(): Record
      reads this
    {
      Record(log, attempted, replies)
    }

    /** The operations, and nothing else, have landed since the given log. */
    ghost predicate Landed(before: seq<Op>, start: Store, ops: seq<Op>)
      reads this
    {
      log == before + ops && objects == Exec(start, ops) && Lands(start, ops)
    }

    /** The operations, and nothing else, were tried since then, and all have landed. */
    ghost predicate OnTrack(before: Record, start: Store, ops: seq<Op>)
      reads this
    {
      Landed(before.log, start, ops) && attempted == before.attempted + ops
    }

    /** The first operations have landed, and the next one was tried and failed. */
    ghost predicate Stuck(before: Record, start: Store, ops: seq<Op>, landed: nat)
      reads this
    {
      && landed < |ops| && Landed(before.log, start, ops[..landed])
      && attempted == before.attempted + ops[..landed + 1]
    }

    /** The first operations of the plan have landed, all of them if it succeeded, and
        nothing else was tried but possibly the next one. */
    ghost predicate Followed(before: Record, start: Store, plan: Plan, landed: nat, out: Outcome)
      reads this
    {
      && landed <= |plan.ops|
      && (OnTrack(before, start, plan.ops[..landed]) || (out.Failure? && Stuck(before, start, plan.ops, landed)))
      && (out.Success? ==> landed == |plan.ops| && plan.end.Success?)
      && (out == Failure(NilPointer) ==> landed == |plan.ops| && out == plan.end)
    }

    /** Whoever got stuck has completed no plan. */
    lemma StuckIsIncomplete(before: Record, start: Store, ops: seq<Op>, landed: nat)
      requires Stuck(before, start, ops, landed)
      ensures forall plan :: !Completes(plan, before, SoFar())
    {
      assert |log| - |before.log| < |attempted| - |before.attempted|;
    }

    lemma StuckMeans(before: Record, start: Store, ops: seq<Op>, landed: nat)
      requires Stuck(before, start, ops, landed)
      ensures WriteFailed(before, SoFar())
    {
    }

    /** A failure that is not a nil pointer may come anywhere, once everything tried is accounted for. */
    lemma StopsShort(before: Record, start: Store, plan: Plan, landed: nat, out: Outcome)
      requires out.Failure? && out != Failure(NilPointer) && landed <= |plan.ops|
      requires OnTrack(before, start, plan.ops[..landed]) || Stuck(before, start, plan.ops, landed)
      ensures Followed(before, start, plan, landed, out)
    {
    }

    /** All that a follower of a plan tried is from the plan, and so is all that landed. */
    lemma OnlyThePlan(before: Record, start: Store, plan: Plan, landed: nat, out: Outcome)
      requires Followed(before, start, plan, landed, out) && before.replies <= replies
      ensures landed <= |plan.ops| && Landed(before.log, start, plan.ops[..landed])
      ensures out == Failure(NilPointer) ==> plan.end == out
      ensures Later(before, SoFar())
      ensures forall op :: op in NewAttempts(before, SoFar()) || op in NewLandings(before, SoFar()) ==> op in plan.ops
    {
      hide Exec, Lands;
      var n := if OnTrack(before, start, plan.ops[..landed]) then landed else landed + 1;
      assert attempted[|before.attempted|..] == plan.ops[..n] && log[|before.log|..] == plan.ops[..landed];
    }

    lemma WhereItIs(before: Record, start: Store, ops: seq<Op>)
      requires OnTrack(before, start, ops)
      ensures log == before.log + ops && attempted == before.attempted + ops
      ensures objects == Exec(start, ops) && Lands(start, ops)
    {
    }

    lemma StuckEarlier(before: Record, start: Store, ops: seq<Op>, more: seq<Op>, landed: nat)
      requires Stuck(before, start, ops, landed)
      ensures Stuck(before, start, ops + more, landed)
    {
      assert (ops + more)[..landed] == ops[..landed] && (ops + more)[..landed + 1] == ops[..landed + 1];
    }

    lemma Finishes(before: Record, start: Store, plan: Plan)
      requires OnTrack(before, start, plan.ops[..|plan.ops|]) && plan.end.Success?
      ensures Followed(before, start, plan, |plan.ops|, Success) && Completes(plan, before, SoFar())
    {
      AllDone(before, start, plan);
    }

    lemma AllDone(before: Record, start: Store, plan: Plan)
      requires OnTrack(before, start, plan.ops[..|plan.ops|]) && plan.end.Success?
      ensures Completes(plan, before, SoFar())
    {
      assert plan.ops[..|plan.ops|] == plan.ops;
    }

    lemma HistoryLength()
      requires Valid()
      ensures |history| == |log| + 1 && history[0] == initial
    {
    }

    lemma NothingLanded(ops: seq<Op>)
      requires Valid()
      ensures Landed(log, objects, ops[..0]) && OnTrack(SoFar(), objects, ops[..0])
    {
      NothingSince(SoFar(), ops);
    }

    lemma NothingSince(before: Record, ops: seq<Op>)
      requires Valid() && before.log == log && before.attempted == attempted
      ensures Landed(before.log, objects, ops[..0]) && OnTrack(before, objects, ops[..0])
    {
      assert log + [] == log && attempted + [] == attempted;
    }

    /** Operations that were tried after others that landed were tried in turn. */
    lemma InTurn(before: Record, start: Store, first: seq<Op>, between: Record, mid: Store, second: seq<Op>,
                 landed: nat)
      requires between.log == before.log + first && between.attempted == before.attempted + first
      requires mid == Exec(start, first) && Lands(start, first)
      requires landed <= |second|
      requires OnTrack(between, mid, second[..landed]) || Stuck(between, mid, second, landed)
      ensures (first + second)[..|first| + landed] == first + second[..landed]
      ensures OnTrack(between, mid, second[..landed]) ==> OnTrack(before, start, first + second[..landed])
      ensures Stuck(between, mid, second, landed) ==> Stuck(before, start, first + second, |first| + landed)
    {
      ExecAppend(start, first, second[..landed]);
      assert before.log + first + second[..landed] == before.log + (first + second[..landed]);
      assert before.attempted + first + second[..landed] == before.attempted + (first + second[..landed]);
      if landed < |second| {
        assert (first + second)[..|first| + landed + 1] == first + second[..landed + 1];
        assert before.attempted + first + second[..landed + 1] == before.attempted + (first + second[..landed + 1]);
      }
    }

    constructor (objects: Store)
      ensures Valid() && this.objects == objects && log == [] && attempted == [] && replies == []
    {
      initial := objects;
      this.objects := objects;
      history := [objects];
      log, attempted, replies := [], [], [];
    }

    /** Performs one write.  Any write may fail; a failed write commits nothing. */
    method Perform(op: Op) returns (out: Outcome)
      requires Valid()
      modifies this
      ensures Valid()
      ensures out.Success? ==>
        && Accepts(old(objects), op)
        && log == old(log) + [op] && objects == Apply(old(objects), op) && history == old(history) + [objects]
      ensures out.Failure? ==> log == old(log) && objects == old(objects) && history == old(history)
      ensures out.Failure? ==> out.reason != NilPointer
      ensures attempted == old(attempted) + [op] && replies == old(replies)
    {
      attempted := attempted + [op];
      var broken: bool := *;
      if broken {
        return Failure(ApiError);
      }
      if !Accepts(objects, op) {
        return Failure(if op.Upsert? then AlreadyOwned else if op.Delete? then NotFound else ApiError);
      }
      TraceSnoc(history, log, op);
      objects := Apply(objects, op);
      history := history + [objects];
      log := log + [op];
      return Success;
    }

    /** Performs the next operation of a plan. */
    method Advance(op: Op, ghost before: Record, ghost start: Store, ghost ops: seq<Op>, ghost landed: nat)
      returns (out: Outcome)
      requires Valid()
      requires landed < |ops| && ops[landed] == op && OnTrack(before, start, ops[..landed])
      modifies this
      ensures Valid() && old(history) <= history && replies == old(replies)
      ensures out.Success? ==> OnTrack(before, start, ops[..landed + 1])
      ensures out.Failure? ==> Stuck(before, start, ops, landed)
      ensures out != Failure(NilPointer)
    {
      out := Perform(op);
      assert ops[..landed + 1] == ops[..landed] + [op];
      if out.Success? {
        ExecSnoc(start, ops[..landed], op);
      }
    }

    /** Performs the next two operations of a plan, the second only after the first. */
    method AdvanceBoth(op1: Op, op2: Op, ghost before: Record, ghost start: Store, ghost ops: seq<Op>, ghost from: nat)
      returns (out: Outcome, ghost landed: nat)
      requires Valid()
      requires from + 2 <= |ops| && ops[from] == op1 && ops[from + 1] == op2 && OnTrack(before, start, ops[..from])
      modifies this
      ensures Valid() && old(history) <= history && replies == old(replies)
      ensures from <= landed <= from + 2 && out != Failure(NilPointer)
      ensures out.Success? ==> landed == from + 2 && OnTrack(before, start, ops[..landed])
      ensures out.Failure? ==> Stuck(before, start, ops, landed)
    {
      hide Exec, Lands, Apply, Accepts, IsTrace;
      landed := from;
      out := Advance(op1, before, start, ops, landed);
      if out.Success? {
        landed := landed + 1;
        out := Advance(op2, before, start, ops, landed);
        landed := if out.Success? then landed + 1 else landed;
      }
    }

    /** A possibly stale read. */
    method Read(ref: Ref) returns (found: Result<Option<Object>, Reason>)
      requires Valid()
      modifies this`replies
      ensures Valid() && replies == old(replies) + [Got(ref, found)]
      ensures found.Ok? && found.value.Some? ==>
        exists i :: 0 <= i < |history| && ref in history[i] && history[i][ref] == found.value.value
      ensures found.Ok? && found.value.None? ==> exists i :: 0 <= i < |history| && ref !in history[i]
      ensures found.Err? ==> found.error == ApiError
    {
      var broken: bool := *;
      if broken {
        found := Err(ApiError);
      } else {
        var i: nat :| i < |history|;
        found := Ok(if ref in history[i] then Some(history[i][ref]) else None);
      }
      replies := replies + [Got(ref, found)];
    }

    /** A possibly stale view of the store, for listing. */
    method Snapshot() returns (view: Result<Store, Reason>)
      requires Valid()
      modifies this`replies
      ensures Valid() && replies == old(replies) + [Listing(view)]
      ensures view.Ok? ==> view.value in history
      ensures view.Err? ==> view.error == ApiError
    {
      var broken: bool := *;
      if broken {
        view := Err(ApiError);
      } else {
        var i: nat :| i < |history|;
        view := Ok(history[i]);
      }
      replies := replies + [Listing(view)];
    }
  }
}
