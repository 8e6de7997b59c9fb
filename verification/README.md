# Verification of Grafoo

Grafoo is a Kubernetes operator that runs Grafana with Dex and MariaDB on OpenShift, and
an authorising proxy (dsproxy) in front of Prometheus. This project models both and
proves what they keep over all inputs and all runs. `dafny verify dfyconfig.toml` checks
everything.

## What is modelled

**One API server.** `Cluster` is an abstract store of objects with create, update, delete
and create-or-update, where any write may fail and reads may be stale. Each reconciler is
a method of imperative steps on this server, proved to land a prefix of a *plan*: the
operations that a pass sets out to do, as a function of what it read. The server keeps
ghost records of what was tried, what landed and what every read answered, and a
reconciler reports success if and only if these records hold a whole successful run of
it, and failure only with a reason that they hold: a write that did not land, a read that
failed, a token that was refused, or a plan that cannot succeed. The theorems are about plans and about traces of landed operations, so they cover
passes that are cut off anywhere, repeated, and interleaved.

- `SecureJson`: how the token is written into a datasource's secure JSON and read back,
  and every way in which JSON spells a character.
- `Webhook`: the defaulter and the validator, and how they are wired.
- `DataSources`, `Convergence`, `Recovery`: the datasource reconciler, what a pass
  achieves, and what failures do to the token. `StoredDatasources`: the stored objects,
  name by name and field by field.
- `Dex`, `MariaDb`, `GrafanaCr`: the other reconcilers. `DexRuns`: the Dex configuration
  against the deployment that runs on it. `Wiring`: the references between the objects.
  `Manifests`: all objects that these three leave behind, spelled out, from any state.
- `Traces`, `WriteOnce`, `Isolation`, `Safety`: runs of the operator over any number of
  instances, and what holds in every state of every run.
- `TokenClock`: the refresh decision, the requeue delay and the persisted times, with
  times in nanoseconds and a status that keeps whole seconds. `TokenRuns`: the same passes
  seen by the clock and by the store, and how old the stored tokens get.
- `Conditions`, `Controller`: the status, and `Reconcile` itself. Each call extends a run
  in the sense of `Traces`; if it persists its status, it is one pass of `TokenClock` and
  its last part is one pass of `Recovery` and `TokenRuns`, refreshing in both or in neither.
  `PassDivision`: the records of a pass alone determine what its conditions must say.
  `Readiness`: what a condition that is true says about the cluster when the pass ends.
- `Retries`: create-or-update with retries, interleaved with other writers at every step.

**The proxy.** `Authz` holds the policy model's matcher and the proxy's own policy scan,
`Handlers` the request pipeline, `Redirect` the iptables rules over configuration loads.

## Where the code differs from what it promises

The model follows the code. These are results, each with a lemma:

- The validator that is registered is an empty resource and validates itself
  (api/v1alpha1/grafana_webhook.go:35-41, 92-95), so every object is admitted
  (`Webhook.Admit`), and an admitted spec can make a pass dereference a nil pointer
  (`Safety.AdmittedSpecCanPanic`). On the objects themselves the validator would reject
  what the defaulter adds for `enableMCOO` (`Webhook.ValidAfterDefaultIff`).
- The pass that creates Dex's client secret ends in the earlier not-found error, so its
  refresh is wasted (`DexRuns.FirstRefreshIsWasted`); a pass cut off between the two
  writes leaves Dex on an old configuration until the next refresh
  (`DexRuns.MatchedAfterPassIff`, `DexRuns.OnlyRefreshesConfigure`).
- New token times are persisted even if no token was written. The next refresh then comes
  when the old token has long expired (`TokenRuns.MissedRefreshOutlivesToken`,
  `TokenRuns.MissedRefreshHappens`).
- A pass without a fresh token that finds the first entry missing writes an empty token,
  and no later pass without a refresh recovers (`Recovery.FirstEntryGetsNoToken`,
  `Recovery.LostTokenStaysLost`). One that works from a stale listing writes an old token
  back over a newer one (`Recovery.StaleListingBringsBack`).
- A token duration with a fraction of a second makes the lifetime check fire again
  (`TokenClock.LifetimeCheckQuietIff`, `TokenClock.FractionRefreshesAgain`).
- `enabled` on a datasource has no effect (`Convergence.EnabledIsIgnored`).
- The scan of the policies takes patterns literally and follows roles for one step, where
  the policy model follows chains (`Authz.ScanIsLiteralMatcher`, `Authz.AgreementIff`). A
  granted `*/*` is passed upstream as the label `*` (`Handlers.StarIsInjected`), although
  cmd/dsproxy/README.md:425 speaks of a regular expression; the label is sure to be a
  namespace exactly under the condition in `Handlers.LabelIsNameIff`.
- Two instances of one name in two namespaces share their cluster roles and bindings
  (`Isolation.FootprintsDisjointIff`).
- HTTPS ports are redirected to the HTTP port (cmd/dsproxy/main.go:133-134,
  `Redirect.HttpsPortsGoToHttp`), where cmd/dsproxy/README.md:603 names the HTTPS port.

## Model

| member | source | states |
|---|---|---|
| Cluster.ApiServer.Perform | internal/controller/utils.go:21-39 | a write either lands on the current object, if the server accepts it, or changes nothing; it is logged exactly when it lands |
| SecureJson.TokenRoundTrip | internal/controller/datasource.go:248-273 | reading back what an in-cluster writer stored gives the token if and only if the token is non-empty and needs no JSON escaping |
| SecureJson.CompactTokenRoundTrip | internal/controller/datasource.go:131-137 | every non-empty token in the alphabet of compact JWS (section 7.1 of RFC 7515) is read back as it was stored |
| SecureJson.BearerExtraction | internal/controller/datasource.go:185-185 | of the tokens that need no escaping exactly the empty one is refused |
| SecureJson.BareTokenExtraction | internal/controller/datasource.go:131-134 | the MCOO rendering is refused unless the token itself starts with the prefix and more, and then loses it |
| SecureJson.EscapedTextReads | internal/controller/datasource.go:249-253 | text of any characters, each written as one or two hexadecimal escapes in small or capital digits, is read back as it was (section 7 of RFC 8259) |
| SecureJson.OtherEscapes | internal/controller/datasource.go:249-253 | the short escapes; an unknown escape and a raw line end are refused |
| SecureJson.HalfPairs | internal/controller/datasource.go:249-253 | half a surrogate pair reads as the replacement character, whatever follows |
| SecureJson.LaterMembersCount | internal/controller/datasource.go:249-257 | of members with one key the last counts, and null reads as empty |
| SecureJson.NothingInIt | internal/controller/datasource.go:249-257 | null and an object without members hold no token; other text is refused |
| Webhook.Resource.Default | api/v1alpha1/grafana_webhook.go:51-84 | the defaulter fills in exactly what is missing and appends the MCOO entry when enabled |
| Webhook.SetFieldsStay | api/v1alpha1/grafana_webhook.go:51-84 | everything that a spec sets stays as it is, and listed datasources stay in front |
| Webhook.MissingFieldsAreFilled | api/v1alpha1/defaults.go:19-88 | what is missing gets the default versions, images, sizes, replicas and the six datasources, with Dex and MariaDB enabled |
| Webhook.RepeatedDefaulting | api/v1alpha1/grafana_webhook.go:76-81 | n applications give the base list followed by n MCOO copies when enabled, and the result of one application otherwise |
| Webhook.DefaultIdempotentIff | api/v1alpha1/grafana_webhook.go:79-81 | defaulting is idempotent if and only if MCOO is not enabled |
| Webhook.ValidateDataSources | api/v1alpha1/grafana_webhook.go:112-163 | accepts exactly the lists in which every entry has one of three types and only its own payload with a URL; otherwise reports the first entry of a foreign type, else the first faulty entry with its first fault |
| Webhook.ValidEntryIff | api/v1alpha1/grafana_webhook.go:112-163 | the three shapes of a valid entry: one type, the payload of that type with a URL, nothing else |
| Webhook.CheckPayload | api/v1alpha1/grafana_webhook.go:119-132 | the four checks on one entry find a fault exactly when the entry is invalid, and the first that it has in the order of the source |
| Webhook.ValidAfterDefaultIff | api/v1alpha1/grafana_webhook.go:112-117 | a defaulted spec passes validation if and only if MCOO is off and it listed no datasources or valid ones |
| Webhook.Resource.ValidateCreate | api/v1alpha1/grafana_webhook.go:92-110 | the verdict is about the receiver's entries, whatever object is handed in |
| Webhook.Admit | api/v1alpha1/grafana_webhook.go:35-41 | as the webhooks are registered, every object is admitted with its defaults |
| DataSources.ListDatasources | internal/controller/datasource.go:49-56 | the listing enumerates, without repetition and in any order, the labelled datasources of some past state |
| DataSources.RecoverToken | internal/controller/datasource.go:60-72 | the search gives the token in hand, else the one stored for this entry, else none, and fails exactly if that one cannot be read |
| DataSources.ReconcileEntry | internal/controller/datasource.go:73-104 | one entry is written with the recovered token by the writer of its type, skipped if its type is unknown, or stops the pass; a nil pointer only where the payload is missing |
| DataSources.UpsertEntries | internal/controller/datasource.go:58-105 | the loop lands a prefix of the planned writes, all if it succeeds, and remembers exactly the names it wrote, with the token that evolves along it |
| DataSources.DeleteStale | internal/controller/datasource.go:106-114 | deletes the listed items that were not written, in order, up to the first failure |
| DataSources.ReconcileDataSources | internal/controller/datasource.go:20-116 | a pass lands a prefix of its plan over the one listing it took; it succeeds if and only if the token it needs was issued, the listing was read, and the whole plan was tried and landed; it fails only for a refused token before anything else, a failed listing before any write, a write that did not land, or the error that the plan ends in |
| Convergence.LastEntryWins | internal/controller/datasource.go:58-105 | after all writes each key holds the rendering of the last entry with it, with the token that entry gets |
| Convergence.ObjectAfterPass | internal/controller/datasource.go:106-116 | what becomes of any single object in a pass that completes undisturbed |
| Convergence.ExactConvergence | internal/controller/datasource.go:49-116 | from any store, a pass that completes undisturbed leaves the listed datasources exactly those the spec names, each rendered from its last entry, and every other object untouched |
| StoredDatasources.NamesIff | internal/controller/datasource.go:73-114 | after a pass that completes undisturbed the instance's datasources are named exactly the instance, a dash and six digits of the digest of the name of an entry of a known type |
| StoredDatasources.EveryNameIsStored | internal/controller/datasource.go:118-246 | if different names have different keys, every entry whose name no later one repeats is then stored under its own name, with its type, URL, default flag, labels, owner and header with the token |
| StoredDatasources.SixDefaults | api/v1alpha1/grafana_types.go:169-171 | a spec without datasources ends up with its six defaults in six different objects, each with the fresh token |
| Convergence.CutOffPassIsSafe | internal/controller/datasource.go:106-114 | a pass cut off anywhere, even on a stale listing, deletes nothing the spec names, nothing before all writes landed, and touches nothing else |
| Convergence.PlanCompletesIff | internal/controller/datasource.go:59-105 | all writes are planned if and only if every dereferenced payload is there and the token, if it has to be recovered, can be read |
| Convergence.PassLandsIff | internal/controller/datasource.go:152-156 | the server takes the whole plan if and only if no object that the spec names has another owner |
| Convergence.NilPointerIff | internal/controller/datasource.go:144-144 | a pass dereferences a nil pointer if and only if a payload is missing and no unreadable token stops the pass before |
| Convergence.NoNilPointer | internal/controller/datasource.go:73-101 | no pass over valid entries, even extended with MCOO entries, dereferences a nil pointer |
| Convergence.EnabledIsIgnored | internal/controller/datasource.go:59-105 | specs that differ only in which entries are enabled have the same plan |
| Recovery.LeadAfterRun | internal/controller/datasource.go:58-115 | over every run of passes cut off anywhere, in which passes without a refresh list the first entry as it is stored, that entry holds the token of the last refresh whose first write landed |
| Recovery.CrashResume | internal/controller/datasource.go:58-115 | after any such run the next pass does not fail for want of a token, and if it completes, every entry holds that one token |
| Recovery.LeadIsSomeIssued | internal/controller/datasource.go:49-72 | over every run of passes cut off anywhere, with listings as stale as they come, the first entry holds the token from the start or one that was issued in the run |
| Recovery.StaleListingBringsBack | internal/controller/datasource.go:49-72 | a pass without a refresh whose listing shows an older token writes that one back |
| Recovery.CompletedPassSpreads | internal/controller/datasource.go:58-115 | whatever else a completed pass listed, every entry then holds the one token that it was issued or that its listing showed for the first entry |
| Recovery.RefreshSettles | internal/controller/datasource.go:58-115 | a completed pass with a fresh token stores every entry with it and leaves nothing else listed |
| Recovery.SteadyState | internal/controller/datasource.go:58-115 | on a settled store a pass without a fresh token finds the token, completes and changes nothing |
| Recovery.EveryEntryHasTokenIff | internal/controller/datasource.go:60-72 | a completed pass without a fresh token gives every entry a token if and only if the first entry was stored |
| Recovery.FirstEntryGetsNoToken | internal/controller/datasource.go:60-72 | without it the first entry is written with the empty token |
| Recovery.LostTokenStaysLost | internal/controller/datasource.go:64-70 | from then on every run of passes without a refresh that see the first entry fails and changes nothing |
| Recovery.RepeatedDefaultingIsHarmless | internal/controller/datasource.go:58-105 | for all n at least 1, a pass over a spec defaulted n times ends the same way and leaves the same store as after one defaulting |
| Dex.ReconcileDex | internal/controller/dex.go:73-158 | a pass lands a prefix of its plan and used a client secret stored before its third write; it succeeds if and only if a token was issued for a refresh, the secret was read, and the whole plan was tried and landed; it fails only for a write that did not land, an unreadable secret or a refused token after two writes, or the error that the plan ends in |
| Dex.ContinueDex | internal/controller/dex.go:107-158 | the part after the client secret was looked up, including the error that follows its creation |
| Dex.PlannedRefs | internal/controller/dex.go:160-239 | every object that a pass writes is one that removal tries to delete |
| Dex.RemoveDexResources | internal/controller/dex.go:160-239 | every removal is tried, once, in order and whatever happened to the others, nothing else is tried, and success is reported in any case |
| Manifests.DexStores | internal/controller/dex.go:261-556 | from any state, a pass that read the client secret completes with service account, token secret, service and ingress field by field; if it refreshes, also with a configuration of the fresh token, the routes and the secret, and the deployment with its checksum; nothing else changes |
| Manifests.DexOrder | internal/controller/dex.go:92-158 | which objects a pass writes, in which order, and how it ends, for each outcome of reading the client secret |
| Manifests.FirstDexPass | internal/controller/dex.go:290-313 | a pass that finds no client secret creates one with the generated value, writes neither configuration nor deployment and reports the not-found error |
| Manifests.DexIsRemoved | internal/controller/dex.go:160-239 | the seven objects whose removal is tried, in order |
| DexRuns.MatchedAfterPassIff | internal/controller/dex.go:114-140 | exactly when "the deployment runs on the stored configuration" holds after a pass, for every pass and every point at which it is cut off |
| DexRuns.WritesConfiguration | internal/controller/dex.go:341-398 | a refreshing pass stores the configuration's checksum first and the deployment with the same checksum next, and no other operation touches either |
| DexRuns.OnlyRefreshesConfigure | internal/controller/dex.go:114-140 | no run of passes without a refresh changes configuration or deployment, so a mismatch stays |
| DexRuns.FirstRefreshIsWasted | internal/controller/dex.go:290-313 | from a cluster without the client secret no configuration is written before a second refreshing pass |
| MariaDb.MergeLabels | internal/controller/mariadb.go:252-263 | in any iteration order: every wanted label reads as wanted, every other one is kept, and a change is reported exactly if there was one |
| MariaDb.ReconcileSecret | internal/controller/mariadb.go:194-278 | creates the credentials if none were found, else at most updates the labels of what was read |
| MariaDb.ReconcileMariaDb | internal/controller/mariadb.go:52-100 | a pass lands a prefix of its plan and works on credentials that were stored; it succeeds if and only if they were read and the whole plan was tried and landed; it fails only for an unreadable secret before any write, a write that did not land, or a storage size that is no quantity |
| MariaDb.ContinueMariaDb | internal/controller/mariadb.go:52-100 | the part after the credentials were looked up: success if and only if the plan has no error and all of it was tried and landed |
| MariaDb.DeleteResourceIfExists | internal/controller/mariadb.go:155-191 | looks the object up once; success if and only if this lookup found nothing or its deletion landed, and a deletion is tried only if it found something |
| MariaDb.CleanupMariaDb | internal/controller/mariadb.go:103-152 | succeeds if and only if each of MariaDB's objects was looked up in this call, in order, and exactly those that were found were deleted; fails only for a lookup that failed or a deletion that did not land |
| MariaDb.PlannedRefs | internal/controller/mariadb.go:103-152 | every object that a pass writes is one that cleanup deletes |
| Manifests.MariaDbStores | internal/controller/mariadb.go:194-497 | from any state, what a pass leaves in credentials, service account, claim, service and deployment, field by field: the body of credentials and of a claim that are there already stays, and without a valid size the last three are not written |
| Manifests.MariaDbOrder | internal/controller/mariadb.go:69-96 | which objects a pass writes, in which order, and how it ends |
| Manifests.MariaDbIsRemoved | internal/controller/mariadb.go:107-143 | the five objects that are cleaned up, in order |
| GrafanaCr.ReconcileGrafana | internal/controller/grafana.go:18-69 | a pass lands a prefix of its plan, with a client secret and credentials that were stored; it succeeds if and only if everything it needs was read and the whole plan for it was tried and landed; it fails only for a write that did not land or, before any write, a secret that is unreadable or unusable or a database that cannot be configured |
| GrafanaCr.BindLoggingRoles | internal/controller/grafana.go:219-233 | looks each logging role up in order and binds exactly those that were found, in the same order, up to the first failing write; on success all were looked up |
| GrafanaCr.FoundRolesIff | internal/controller/grafana.go:219-233 | a role counts as found if and only if its lookup in this call succeeded, and at most once |
| Manifests.LookupOrder | internal/controller/grafana.go:219-225 | the three logging roles and the order of their lookups |
| GrafanaCr.PlannedOps | internal/controller/grafana.go:18-40 | nothing is written unless the client secret was read, and Grafana is written with it; all else is cluster-scoped |
| Manifests.GrafanaStores | internal/controller/grafana.go:77-274 | from any state, a pass that has client secret and database completes with Grafana, two roles and three bindings field by field, and a binding of the service account for each logging role that was found; in the order of the source, and nothing else changes |
| GrafanaCr.NilPointerOnlyWithoutMariaDb | internal/controller/grafana.go:82-83 | a pass dereferences a nil pointer if and only if the MariaDB spec is missing and the client secret was read |
| Wiring.LoginMatches | internal/controller/grafana.go:139-164 | Dex's configuration and Grafana, written from the same routes and secret, agree on issuer, root URL and client secret |
| Wiring.DatabaseMatches | internal/controller/grafana.go:82-102 | Grafana's database URL carries the generated credentials and the name and port of MariaDB's service |
| Wiring.DexReferences | internal/controller/dex.go:489-556 | ingress, service, deployment, token secret and service account of Dex name each other |
| Traces.DatasourceOpKinds | internal/controller/datasource.go:59-114 | a datasource pass writes only datasources under the keys and labels of its entries, and deletes only what it listed |
| WriteOnce.WriteOnce | internal/controller/mariadb.go:347-354 | over every run, serving any number of instances, in which this instance's Dex and MariaDB are never disabled: its client secret, its credentials and its claim's spec never change once created, whatever reads are stale and writes fail |
| WriteOnce.SecretsAgree | internal/controller/dex.go:290-313 | in every state of every such run Dex's configuration and Grafana hold the stored client secret, hence the same one |
| Isolation.CollidingNames | internal/controller/utils.go:59-61 | two component names of differently named instances collide only if one component is the other's suffix after a dash |
| Isolation.FootprintsApart | internal/controller/utils.go:59-70 | an object belongs to one instance name at most |
| Isolation.FootprintsDisjointIff | internal/controller/grafana.go:183-232 | two instances share no object if and only if their names differ |
| Isolation.WorkStaysHome | internal/controller/datasource.go:50-53 | every operation of a pass names an object of its own instance or deletes a datasource listed with its label |
| Isolation.AlwaysHonest | internal/controller/utils.go:64-70 | in every state of every run a stored datasource's label names the instance that its name points to |
| Isolation.NamedOnlyByOwner | internal/controller/datasource.go:106-114 | in every run only work for an instance names its objects, deletions of listed items included |
| Isolation.IsolatedStretch | internal/controller/datasource.go:20-116 | over any stretch of a run with no work for an instance, its objects stay as they are |
| Safety.DefaultedIsComplete | api/v1alpha1/grafana_webhook.go:51-84 | defaulting, once or more, of a spec with valid entries and a token duration leaves nothing missing that a pass dereferences |
| Safety.TypedThroughout | internal/controller/datasource.go:138-156 | stored datasources have a datasource spec in every state of every run that starts so |
| Safety.AdmittedSpecCanPanic | api/v1alpha1/grafana_webhook.go:92-95 | there is an admitted spec, with the default token duration, on which every datasource pass with a fresh token ends in a nil pointer before it writes anything, whatever is stored |
| TokenClock.GapFreeIff | internal/controller/controller.go:320-336 | with on-time passes, extra ones included, the persisted expiry is always in the future if and only if the token duration is at least ten minutes and a second, less two nanoseconds |
| TokenClock.HeadRoom | internal/controller/token_refresh.go:25-28 | after any short pass the persisted expiry is at least five minutes off |
| TokenClock.QuarterHourIff | internal/controller/token_refresh.go:25-28 | every persisted pass leaves fifteen minutes or more, whatever was persisted before and whatever the clock reads, if and only if the duration is at least fifteen minutes and a second, less a nanosecond |
| TokenClock.RefreshesIff | internal/controller/token_refresh.go:11-40 | with whole seconds, once a refresh is persisted, a later pass refreshes if and only if less than fifteen minutes are left of the expiry that it wrote |
| TokenClock.WakesFiveMinutesBefore | internal/controller/controller.go:320-336 | the wake-up is five minutes before the persisted expiry, or at once if that has passed |
| TokenClock.GapWhenTooShort | internal/controller/controller.go:320-336 | below that duration two punctual passes leave a gap |
| TokenClock.LifetimeCheckQuietIff | internal/controller/token_refresh.go:30-35 | the lifetime check never fires on times that a refresh wrote if and only if the duration is in whole seconds |
| TokenClock.FractionRefreshesAgain | internal/controller/token_refresh.go:30-35 | for every duration with a fraction, a refresh on a whole second makes the very next pass refresh again |
| TokenClock.RefreshStands | internal/controller/controller.go:206-216 | the times of a persisted refresh stand until the next persisted refresh, whatever status updates fail |
| TokenClock.RefreshSpacing | internal/controller/token_refresh.go:11-40 | with whole seconds the next refresh after a persisted one comes later than the duration less 15 minutes and a second |
| TokenClock.StatusNeverOverstatesIff | internal/controller/controller.go:206-216 | the persisted expiry is never later than the real one if and only if the duration is in whole seconds or negative, and otherwise exceeds it by less than a second |
| TokenClock.OutlastsStatus | internal/controller/token_refresh.go:11-40 | with whole seconds and on-time passes, a token granted at a refresh is valid at every status update until the next refresh |
| TokenRuns.EntryAfterPrefix | internal/controller/datasource.go:58-115 | a pass that has a token and is cut off after n operations leaves the first n entries with that token and every other entry as it was |
| TokenRuns.EntrySince | internal/controller/datasource.go:58-115 | from a refresh that got past an entry on, as long as every further refresh does or lands nothing, that entry holds the token of the last refresh that landed |
| TokenRuns.TokensNeverExpire | internal/controller/controller.go:206-336 | over every run of passes on time, each cut off anywhere, in which every refresh gets past an entry: at every status update after the first refresh the store holds that entry with a token that is not expired; for the first entry it is enough that each refresh lands its first write |
| TokenRuns.CompletedPassIsCurrent | internal/controller/datasource.go:58-115 | if every refresh lands its first write, then after every pass that completes all entries hold one token, unexpired at the next status update, though refreshes before were cut off |
| TokenRuns.MissedRefreshOutlivesToken | internal/controller/controller.go:286-318 | if one refresh lands nothing, the next one comes when the token that is still stored has been expired for more than the duration less 36 minutes, while the status claims a valid one |
| TokenRuns.MissedRefreshHappens | internal/controller/controller.go:286-318 | such runs exist for every store, every such spec, every three tokens and every whole duration above the minimum, with passes exactly on time |
| Conditions.SetInPlace | internal/controller/controller.go:218-316 | setting a condition changes that one only and keeps the order of all five |
| Conditions.InitialInOrder | internal/controller/controller.go:143-179 | the initial status holds each condition exactly once and in the fixed order |
| Conditions.NothingIsKnownAtFirst | internal/controller/controller.go:143-186 | in the initial status every condition is unknown and the expiry lies an hour back, so the pass that wrote it refreshes |
| Conditions.StatusRecord.UpdateStatus | internal/controller/controller.go:313-318 | succeeds only on the version that was read last, and then what is stored has whole seconds |
| Controller.RunDex | internal/controller/controller.go:218-240 | success if and only if the records of this stretch hold a whole successful run of Dex's reconciler or, if disabled, of its removal; only Dex's objects were touched and every landed operation belongs to work for this instance |
| Controller.RunParts | internal/controller/controller.go:218-312 | the parts run in order, each whatever happened to the others and on its own stretch of the pass; each condition is true if and only if its stretch holds a whole successful run of its part, and otherwise the stretch holds the reason; only an incomplete spec or a foreign datasource makes it panic |
| Controller.FetchStatus | internal/controller/controller.go:128-196 | the pass starts from the status as stored, or from the initial one if there was none, unless what was read is stale |
| Controller.RunGoesOn | internal/controller/controller.go:115-336 | a run of the operator extended by a pass is a run of the operator |
| Controller.Operator.Reconcile | internal/controller/controller.go:115-336 | every pass keeps the run a run of the operator; it fails if and only if a read or update of the status did, and panics only on a missing duration or a nil pointer that a part ran into; otherwise it persists its status: the times follow the clock model, each condition is true if and only if its part did a whole successful run in this pass, its datasource stretch is one pass of the token runs that carries a token if and only if the clock refreshes, and the wake-up is five minutes before the expiry; a complete spec never panics |
| PassDivision.DivisionIsForced | internal/controller/controller.go:218-312 | with MariaDB specified, the records of a pass can be divided into the stretches of its parts in one way only |
| PassDivision.ReportsAreForced | internal/controller/controller.go:218-312 | so what is recorded of a pass determines what each of its conditions says |
| Readiness.ConditionsSay | internal/controller/controller.go:218-312 | after a persisted pass every part that the spec has is ready or not, and not ready if and only if it ran into an error on its stretch; a part that is left out keeps its condition; the resource is available |
| Readiness.NeverBoth | internal/controller/controller.go:218-306 | no part does a whole successful run and runs into an error |
| Readiness.FirstStatus | internal/controller/controller.go:143-196 | only a status without conditions is replaced at the start: by five unknown conditions in order, the generation time as it was, and an expiry an hour back |
| Readiness.DexIsReady | internal/controller/controller.go:218-240 | if a persisted pass reports an enabled Dex as ready, its objects are in place when the pass ends, after a refresh with the token issued in this pass |
| Readiness.MariaDbIsReady | internal/controller/controller.go:242-266 | if it reports an enabled MariaDB as ready, all five objects are in place and the storage size is a quantity |
| Readiness.MariaDbIsGone | internal/controller/mariadb.go:103-152 | if it reports a disabled MariaDB as ready, each of the five objects was looked up in this pass, and those found are gone |
| Readiness.GrafanaIsReady | internal/controller/controller.go:267-286 | if it reports Grafana as ready, Grafana, its roles and bindings are in place, and a binding for each logging role that was found |
| Readiness.DataSourcesAreReady | internal/controller/controller.go:288-306 | if it reports the datasources as ready and keys are apart, every entry whose name no later one repeats is stored under its own name, however stale the listing was, after a refresh with the token issued in this pass |
| Retries.CreateOrUpdate | internal/controller/utils.go:29-29 | one attempt writes exactly if the read succeeded, the mutation did, and what was found is not already as wanted; it commits at most one version: the mutation of exactly the version it replaces |
| Retries.CreateOrUpdateWithRetries | internal/controller/utils.go:21-39 | with others writing before every step: the calls made are at most four attempts, a read after the first follows a conflict, nothing follows any other failure, and the answer is the one that the last call leads to; only the first attempt can create; at most one version is committed and none on an error |
| Retries.InARow | internal/controller/utils.go:21-39 | two calls in a row are a conflict and the next read, or a successful read and its write, and then what was found differs from what the mutation makes of it |
| Retries.NothingToChangeIff | internal/controller/utils.go:21-39 | a call ends with a read of an object that is already as wanted if and only if it answers that nothing changed; it writes nothing after such a read; it gives up if and only if its last write met a conflict, and then after exactly four reads |
| Retries.CommitIsUpsert | internal/controller/utils.go:21-39 | a committed version is what the store's upsert makes of the version before |
| Retries.NoLostUpdate | internal/controller/utils.go:21-39 | between two versions written by calls only, the later is the earlier with every committed mutation applied in order |
| Authz.Authorize | cmd/dsproxy/authz.go:39-51 | true exactly if the policy model allows the subject or one of its groups |
| Authz.OnePolicyIff | cmd/dsproxy/authz/model.conf:37-40 | one policy allows a request if and only if the subject or a group reaches its role in at most ten links, the actions are equal, and domain and resource each match the policy's by keyMatch2 or meet a lone star |
| Authz.PoliciesAddUp | cmd/dsproxy/authz/model.conf:26-28 | a request is allowed if and only if one of the policies alone allows it; shorter rows and an empty policy allow nothing |
| Authz.HasLinkIff | cmd/dsproxy/authz/model.conf:21-24 | a role is reached exactly through a chain of links within the depth |
| Authz.ScanPolicies | cmd/dsproxy/authz.go:108-155 | the nested loops find exactly the objects of the rows that apply |
| Authz.ListPairs | cmd/dsproxy/authz.go:163-170 | in any iteration order, each pair of an allowed object with a slash exactly once |
| Authz.SplitIff | cmd/dsproxy/authz.go:165-170 | splitting at the first slash and joining are inverse, in both directions |
| Authz.ScanIsLiteralMatcher | cmd/dsproxy/authz.go:111-170 | for all policies the scan is the matcher with roles followed for one step and resources spelled out |
| Authz.ScanIsSound | cmd/dsproxy/authz/model.conf:37-40 | what the scan allows the policy model allows, if keyMatch2 accepts literals |
| Authz.ChainOfTwoIsRefused | cmd/dsproxy/authz.go:143-147 | a chain of two roles without a shortcut: the model allows what the scan refuses |
| Authz.AgreementIff | cmd/dsproxy/authz/model.conf:37-40 | scan and model agree on all requests and all pattern-free policies if and only if the role links are transitive |
| Handlers.ExtractStringSlice | cmd/dsproxy/handlers.go:81-94 | the texts of a claim, in order, and nothing else |
| Handlers.TextsOfIff | cmd/dsproxy/handlers.go:83-88 | a group counts if and only if the list holds it as a text |
| Handlers.GroupIff | cmd/dsproxy/handlers.go:81-94 | a claim names a group if and only if it is a list that holds it as a text, in either decoded form |
| Handlers.AuthMiddleware | cmd/dsproxy/handlers.go:26-79 | lets a request through exactly if its token is verified, is for this audience and has a subject; then the token is removed and nothing else |
| Handlers.AuthzMiddleware | cmd/dsproxy/authz.go:94-177 | hands on exactly the pairs that are granted, or refuses with the right code |
| Handlers.ExtractLabel | cmd/dsproxy/handlers.go:104-141 | the label is the namespace of the first pair, and a request without pairs is refused |
| Handlers.Serve | cmd/dsproxy/main.go:239-252 | for all requests, policies and orders: upstream if and only if the token is verified, for this audience and with a subject, the policies can be read, and some row of action read, for the subject or a listed group or a direct role of one, on the request's datasource or a star, has a resource with a slash; the label is the text after the first slash of such a resource; else 401, 500 or 403 |
| Handlers.GroupIsEnough | cmd/dsproxy/authz.go:106-155 | one row for a group that the claims list, on the request's datasource or a star, lets the request through, whatever else the policies say |
| Handlers.LabelIsAuthorized | cmd/dsproxy/authz/model.conf:37-40 | the policy model allows the subject or a group to read the namespace that a request is confined to |
| Handlers.LabelIsNameIff | cmd/dsproxy/handlers.go:104-141 | for all tokens, roles and policies: every label that the request may get is a namespace's name if and only if every row with a slash that applies to it carries a name after the first slash |
| Handlers.StarIsInjected | cmd/dsproxy/authz.go:163-170 | if only `*/*` is granted, the request goes upstream and its label is `*` |
| Redirect.WantedIff | cmd/dsproxy/main.go:120-140 | the wanted rules are exactly the listed ports at resolved addresses |
| Redirect.WantedInOrder | cmd/dsproxy/main.go:120-140 | the wanted rules come domain by domain and block by block, HTTP ports first; a domain that does not resolve adds none |
| Redirect.AddRule | cmd/dsproxy/main.go:91-107 | a rule is installed once, or the chain is unchanged and the failure reported |
| Redirect.ApplyRules | cmd/dsproxy/main.go:120-140 | a load appends the wanted rules in order, leaving out exactly as many as appends failed, hence all of them if none failed |
| Redirect.AfterReloads | cmd/dsproxy/main.go:75-140 | after any loads with any lookup answers and failures: the old chain is a prefix, every appended rule is new and wanted by some load, and what a load wanted in which no append failed is there |
| Redirect.ChainIff | cmd/dsproxy/main.go:75-140 | after loads in which no append failed a rule is in the chain if and only if it was there or sends a port, listed as HTTP or HTTPS under a domain that resolved in some load, from that address to 5533 |
| Redirect.RepeatedCall | cmd/dsproxy/main.go:120-140 | repeating a load in which no append failed, with the same answers, changes nothing, whatever came between and even if appends fail now |
| Redirect.HttpsPortsGoToHttp | cmd/dsproxy/main.go:91-140 | a load in which no append failed redirects every HTTPS port of a resolved domain to the HTTP port, and no load adds a rule to any other port |

## Left out

- Cluster.ApiServer.Perform: an upsert always acts on the current object. That create-or-update may report success without writing, on a stale read that already matches, is proved in `Retries` and not carried into the reconcilers; the theorems over traces do not depend on it, because they allow any operation not to land.
- Cluster.ApiServer.Perform: that a failed write commits nothing is an assumption about the server; a response that is lost after the commit is not modelled.
- TokenClock.GapFreeIff: assumes that status updates succeed, as the five-minute bound does; how long the queue waits after an error is the library's rate limiter.
- PassDivision.DivisionIsForced: without a MariaDB spec a pass that persists its status stops Grafana's part at the client secret; the division is then not shown to be unique.
- TokenRuns.TokensNeverExpire: passes without a refresh are taken to list the first entry as it is stored; with stale listings `Recovery.LeadIsSomeIssued` is what remains. The runs follow one instance's datasources; the other parts write other kinds of objects.
- Handlers.LabelIsNameIff: the labels that a request may get are those of all granted resources; which of them comes first in Go's map order is not modelled.
- Authz.Authorize: policy rows with fewer than four fields match nothing here; Casbin reports an error for them.
- Authz.ScanIsSound: the enforcer is the matcher of the policy model with role chains of up to ten links; keyMatch2 is an unknown relation with the stated assumptions.
- Wiring.LoginMatches: the two reconcilers compute the routes separately; if the cluster's ingress domain is readable for one only, the routes differ.
- Retries.CreateOrUpdateWithRetries: the number of attempts is that of the default backoff; waiting between attempts is not modelled.
- SecureJson.TokenRoundTrip: strings are sequences of characters; invalid UTF-8, which Go's decoder replaces, is not modelled.
- Controller.Operator.Reconcile: that calls of one resource come one after the other and on time is the queue's part and enters the clock's theorems as an assumption. The resource is taken to exist; a pass over a deleted resource does nothing. Transition times, reasons and messages of conditions are not modelled.
- GrafanaCr.BindLoggingRoles: role rules, pod templates, probes and volumes are literals of which only the parts that vary are modelled.
- Manifests.DexStores: the text of the Dex configuration file stands for the six values that are filled into it; its digest is an unknown function of them.
- Readiness.DexIsReady: a disabled Dex is reported as ready whether or not its objects could be removed, since removal errors are only logged.
- Dex.ReconcileDex: route addresses, the digest of the configuration text, generated secrets and issued tokens are parameters; a route that cannot be parsed is not modelled.
- Deletion of objects by the garbage collector through owner references is not modelled.
- Whether updates of deployments and services become no-ops depends on server-side defaulting and is not claimed.
- Token verification (JWKS, signatures) is a parameter: verified claims or none. Request forwarding and query rewriting by prom-label-proxy are not part of this model.
- DNS lookups are given answers, and `Redirect` starts from decoded port lists; that the decoder cannot fill the unexported port fields (cmd/dsproxy/main.go:46-49) is outside it. File watching, servers, metrics, logging and flags are left out.
