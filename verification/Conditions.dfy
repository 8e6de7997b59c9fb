/** The status of a Grafoo resource: its conditions, its token times, and the server's
    versions of it. */
module Conditions {
  import opened Wrappers
  import opened Cluster
  import opened TokenClock

  datatype Component = Available | DexReady | MariaDbReady | DataSourcesReady | GrafanaReady

  datatype Standing = Unknown | True | False

  datatype Condition = Condition(component: Component, standing: Standing)

  datatype Status = Status(conditions: seq<Condition>, times: Times)

  const ORDER := [Available, DexReady, MariaDbReady, DataSourcesReady, GrafanaReady]

  function Components(cs: seq<Condition>): seq<Component> {
    seq(|cs|, i requires 0 <= i < |cs| => cs[i].component)
  }

  /** Replaces the first condition for the component, else appends. */
  function SetCondition(cs: seq<Condition>, c: Condition): seq<Condition> {
    if cs == [] then [c]
    else if cs[0].component == c.component then [c] + cs[1..]
    else [cs[0]] + SetCondition(cs[1..], c)
  }

  function StandingOf(cs: seq<Condition>, component: Component): Option<Standing> {
    if cs == [] then None
    else if cs[0].component == component then Some(cs[0].standing)
    else StandingOf(cs[1..], component)
  }

  /** Never reconciled, or with each condition exactly once and in the fixed order. */
  predicate Proper(s: Status) {
    s.conditions == [] || (Components(s.conditions) == ORDER && s.times.exp.Some?)
  }

  lemma {:induction false} ComponentsAfterSet(cs: seq<Condition>, c: Condition)
    ensures Components(SetCondition(cs, c)) == if c.component in Components(cs) then Components(cs)
      else Components(cs) + [c.component]
  {
    if cs != [] {
      assert Components(cs) == [cs[0].component] + Components(cs[1..]);
      if cs[0].component == c.component {
        assert Components([c] + cs[1..]) == [c.component] + Components(cs[1..]);
      } else {
        ComponentsAfterSet(cs[1..], c);
        var rest := SetCondition(cs[1..], c);
        assert Components([cs[0]] + rest) == [cs[0].component] + Components(rest);
      }
    }
  }

  lemma {:induction false} StandingAfterSet(cs: seq<Condition>, c: Condition, k: Component)
    ensures StandingOf(SetCondition(cs, c), k) == if k == c.component then Some(c.standing) else StandingOf(cs, k)
  {
    if cs == [] {
      assert StandingOf([c][1..], k) == None;
    } else if cs[0].component != c.component {
      StandingAfterSet(cs[1..], c, k);
    }
  }

  /** Setting a condition changes that one only, and keeps all in order once all are there. */
  lemma SetInPlace(cs: seq<Condition>, c: Condition)
    ensures Components(cs) == ORDER ==> Components(SetCondition(cs, c)) == ORDER
    ensures forall k :: StandingOf(SetCondition(cs, c), k) == if k == c.component then Some(c.standing)
      else StandingOf(cs, k)
  {
    ComponentsAfterSet(cs, c);
    assert c.component in ORDER by {
      match c.component {
        case Available => assert ORDER[0] == c.component;
        case DexReady => assert ORDER[1] == c.component;
        case MariaDbReady => assert ORDER[2] == c.component;
        case DataSourcesReady => assert ORDER[3] == c.component;
        case GrafanaReady => assert ORDER[4] == c.component;
      }
    }
    forall k ensures StandingOf(SetCondition(cs, c), k) == if k == c.component then Some(c.standing)
      else StandingOf(cs, k) {
      StandingAfterSet(cs, c, k);
    }
  }

  const HOUR := 60 * MINUTE

  function InitialConditions(cs: seq<Condition>, wanted: seq<Component>): seq<Condition>
    decreases |wanted|
  {
    if wanted == [] then cs else InitialConditions(SetCondition(cs, Condition(wanted[0], Unknown)), wanted[1..])
  }

  lemma {:induction false} InitialInOrder(cs: seq<Condition>, wanted: seq<Component>)
    requires forall i, j :: 0 <= i < j < |wanted| ==> wanted[i] != wanted[j]
    requires forall k :: k in wanted ==> k !in Components(cs)
    ensures Components(InitialConditions(cs, wanted)) == Components(cs) + wanted
    decreases |wanted|
  {
    if wanted == [] {
      assert Components(cs) + wanted == Components(cs);
    } else {
      var c := Condition(wanted[0], Unknown);
      ComponentsAfterSet(cs, c);
      assert wanted[0] in wanted;
      InitialInOrder(SetCondition(cs, c), wanted[1..]);
      assert Components(cs) + [wanted[0]] + wanted[1..] == Components(cs) + wanted;
    }
  }

  /** The first status: every condition unknown, and an expiry an hour ago. */
  function InitialStatus(times: Times, now: int): (s: Status)
    ensures Proper(s) && s.conditions != []
  {
    InitialInOrder([], ORDER);
    assert [] + ORDER == ORDER;
    Status(InitialConditions([], ORDER), times.(exp := Some(now - HOUR)))
  }

  lemma {:induction false} InitialStanding(cs: seq<Condition>, wanted: seq<Component>, k: Component)
    ensures StandingOf(InitialConditions(cs, wanted), k) == if k in wanted then Some(Unknown) else StandingOf(cs, k)
    decreases |wanted|
  {
    if wanted != [] {
      var c := Condition(wanted[0], Unknown);
      InitialStanding(SetCondition(cs, c), wanted[1..], k);
      StandingAfterSet(cs, c, k);
    }
  }

  /** At first nothing is reported as ready or not, the generation time stays, and the
      expiry lies an hour back, so that the pass that wrote this refreshes whatever
      the duration. */
  lemma NothingIsKnownAtFirst(times: Times, now: int, k: Component, d: int, before: int, left: int)
    requires now <= before
    ensures StandingOf(InitialStatus(times, now).conditions, k) == Some(Unknown)
    ensures InitialStatus(times, now).times == Times(times.gen, Some(now - 3_600_000_000_000))
    ensures NeedsRefresh(d, Persisted(InitialStatus(times, now)).times, before, left)
  {
    InitialStanding([], ORDER, k);
    assert k in ORDER by {
      match k {
        case Available => assert ORDER[0] == k;
        case DexReady => assert ORDER[1] == k;
        case MariaDbReady => assert ORDER[2] == k;
        case DataSourcesReady => assert ORDER[3] == k;
        case GrafanaReady => assert ORDER[4] == k;
      }
    }
  }

  /** What is read back after a status was written. */
  function Persisted(s: Status): Status {
    s.(times := Times(if s.times.gen.Some? then Some(Trunc(s.times.gen.value)) else None,
                      if s.times.exp.Some? then Some(Trunc(s.times.exp.value)) else None))
  }

  lemma PersistedOnce(s: Status)
    ensures Persisted(Persisted(s)) == Persisted(s)
  {
    if s.times.gen.Some? { TruncOnce(s.times.gen.value); }
    if s.times.exp.Some? { TruncOnce(s.times.exp.value); }
  }

  lemma TruncOnce(t: int)
    ensures Trunc(Trunc(t)) == Trunc(t)
  {
    var q := t / SECOND;
    assert Trunc(t) == q * SECOND;
  }

  /** The resource's status on the server, with all its versions so far. */
  class StatusRecord {
    var history: seq<Status>
    ghost var faults: nat // how many reads and updates have failed

    ghost predicate Valid()
      reads this
    {
      history != [] && forall i :: 0 <= i < |history| ==> Proper(history[i]) && Persisted(history[i]) == history[i]
    }

    constructor (times: Times)
      requires Persisted(Status([], times)).times == times
      ensures Valid() && history == [Status([], times)] && faults == 0
    {
      history, faults := [Status([], times)], 0;
    }

    function Stored(): Status
      requires Valid()
      reads this
    {
      history[|history| - 1]
    }

    /** A possibly stale read; gives a version. */
    method Read() returns (version: Result<nat, Reason>)
      requires Valid()
      modifies this`faults
      ensures Valid()
      ensures version.Ok? ==> version.value < |history| && faults == old(faults)
      ensures version.Err? ==> version.error == ApiError && faults == old(faults) + 1
    {
      var broken: bool := *;
      if broken {
        faults := faults + 1;
        return Err(ApiError);
      }
      var i: nat :| i < |history|;
      return Ok(i);
    }

    /** Succeeds at most if what was read is still current. */
    method UpdateStatus(version: nat, status: Status) returns (ok: bool)
      requires Valid() && version < |history|
      requires version == |history| - 1 ==> Proper(status)
      modifies this
      ensures Valid()
      ensures ok ==> version == |old(history)| - 1 && history == old(history) + [Persisted(status)]
      ensures !ok ==> history == old(history)
      ensures faults == old(faults) + if ok then 0 else 1
    {
      var broken: bool := *;
      if broken || version != |history| - 1 {
        faults := faults + 1;
        return false;
      }
      PersistedOnce(status);
      history := history + [Persisted(status)];
      return true;
    }
  }
}
