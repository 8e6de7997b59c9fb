/** When no pass dereferences a nil pointer: on defaulted specs whose entries are valid,
    which admission, as it is wired, does not see to. */
module Safety {
  import opened Wrappers
  import opened GrafooApi
  import opened Cluster
  import opened Traces
  import opened Webhook
  import opened Convergence
  import opened DataSources
  import Isolation

  /** Nothing that a pass dereferences is missing. */
  predicate Complete(spec: Spec) {
    && spec.tokenDuration.Some? && spec.mariadb.Some?
    && forall i :: 0 <= i < |spec.datasources| ==> ValidEntry(spec.datasources[i]) || spec.datasources[i] == MCOO_ENTRY
  }

  /** Defaulting, once or more often, completes every spec with valid entries or
      none whose token duration the API server has filled in. */
  lemma DefaultedIsComplete(n: nat, spec: Spec)
    requires n >= 1 && spec.tokenDuration.Some? && Accepted(spec.datasources)
    ensures Complete(DefaultedTimes(n, spec))
  {
    DefaultsAreAccepted();
    RepeatedDefaulting(n, spec);
    var ds := DefaultedTimes(n, spec).datasources;
    forall i | 0 <= i < |ds| ensures ValidEntry(ds[i]) || ds[i] == MCOO_ENTRY {
      if i >= |BaseDataSources(spec)| {
        assert ds[i] == Copies(n)[i - |BaseDataSources(spec)|];
      }
    }
  }

  lemma TypedStep(w: Work, op: Op, st: Store)
    requires WellFormed(w) && op in WorkOps(w) && TypedStore(st) && Accepts(st, op)
    ensures TypedStore(Apply(st, op))
  {
    if op.ref.kind == GrafanaDatasource {
      Isolation.OnlyDatasourceWork(w, op);
      DatasourceOpKinds(w, op);
    }
    hide WorkOps, WellFormed, IsListed;
  }

  /** Datasources stay datasources over every run of the operator. */
  lemma {:induction false} TypedThroughout(states: seq<Store>, log: seq<Op>, works: seq<Work>)
    requires OperatorTrace(states, log, works)
    ensures |states| == |log| + 1
    ensures TypedStore(states[0]) ==> forall i :: 0 <= i < |states| ==> TypedStore(states[i])
    decreases |log|
  {
    hide WorkOps, WellFormed, TypedStore, Accepts, Apply;
    if log != [] {
      var n := |log| - 1;
      TypedThroughout(states[..n + 1], log[..n], works[..n]);
      if TypedStore(states[0]) {
        assert TypedStore(states[..n + 1][n]);
        assert WellFormed(works[n]) && log[n] in WorkOps(works[n]);
        TypedStep(works[n], log[n], states[n]);
        forall i | 0 <= i < |states| ensures TypedStore(states[i]) {
          if i <= n { assert states[i] == states[..n + 1][i]; }
        }
      }
    }
  }

  /** What the API server fills in: 1440 minutes, in nanoseconds. */
  const DEFAULT_DURATION := 1440 * 60 * 1_000_000_000

  /** An admitted spec on which every pass with a fresh token ends in a nil pointer
      before it writes a datasource. */
  lemma AdmittedSpecCanPanic(d: Digest, inst: Instance, token: string, view: Store, order: seq<Ref>)
    returns (spec: Spec)
    requires TypedStore(view) && token != ""
    ensures !Accepted(spec.datasources) && spec.tokenDuration == Some(DEFAULT_DURATION)
    ensures PassPlan(d, inst.(spec := Defaulted(spec)), token, view, order) == Plan([], Failure(NilPointer))
  {
    var bare := DataSource("Loki", LOKI, true, None, None, None);
    spec := NOTHING_SET.(datasources := [bare], tokenDuration := Some(DEFAULT_DURATION));
    assert !ValidEntry(spec.datasources[0]);
    assert Defaulted(spec).datasources == [bare];
    assert Known(bare) && OwnPayload(bare).None?;
    NilPointerIff(d, inst.(spec := Defaulted(spec)), [bare], token, view);
  }
}
