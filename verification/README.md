# Verification of the policy-system protocols

This project models the parts of the repository that keep state across steps, and proves what they promise
over whole runs. `dafny verify dfyconfig.toml` checks it.

- **Readiness re-probe** (`Reprobe`, `ReprobeSafety`, `ReprobeTheorems`, `ProbeReports`, `Readiness`,
  `GatingReprobe`). The
  sections of `GatingReprobe` that run under its lock are functions on a table; polls, probe threads, event
  loops and the clock are a machine whose steps interleave in any order. The invariants hold in every
  reachable state. The class in `GatingReprobe.dfy` changes its fields and is proved to do to the table what
  the machine's steps do.
- **Shutdown** (`Shutdown`). The three stops on one deadline, with the two worker threads that hand their
  result to a loop that may have stopped waiting or closed.
- **Graph merge** (`GraphModel`, `Reload`, `Records`, `MergeCapabilities`). A merge is compared with the quotient
  of the graph, first on node and edge sets and on what each node records in `merged_from`, then for the class
  whose methods issue one query at a time against a connection that may fail after any of them.
- **Targets file** (`Scan`, `Toml`, `Targets`, `TargetsRoundTrip`, `PrintedNames`, `QuotedNames`, `ConfigDir`).
  A reader for files written by hand or by `write_targets` (TOML v1.0.0, sections "Comment", "Keys", "String",
  "Array" and "Table"; bare, quoted and literal keys), the round trip, and what becomes of names that only a
  quoted key can spell.
- **Login and refresh** (`Credentials`, `CredentialStore`, `OidcProvider`, `DeviceFlow`, `ConfigHandlers`,
  `DeepMerge`, `AuthHandlers`, `Session`, `SessionTheorems`). Runs of commands that do not overlap, against
  providers with rotating refresh tokens (RFC 8628, RFC 6749 section 6). The handlers, on objects, are
  proved to take the machine's steps.
- **Selection, scoring, seeding** (`Coverage`, `SimilaritySweep`, `LockoutSeed`).

Places where the code does not do what its documentation says, each with its exact condition or a witness:

- `rewire_and_delete` with `keep` and `drop` the same node deletes it
  (`MergeCapabilities.Store.RewireAndDelete`, `GraphModel.DecisionMergesIffKeepNotDropped`).
- Reloading the data file and merging again need not give the same graph. It does for every decision file
  exactly when no capability of the graph is missing from a data file that has one, with a third beside them
  (`Reload.ReloadIsStableExactly`; `Reload.UnsettledIsUnstable` gives the decisions that break it).
- Shutdown orders the signals, not the calls: whatever the budget, some run calls `stop_replay` before the drift
  check's own stop, exactly when there are both (`Shutdown.CallsMayOvertake`). In a run it happens exactly when
  the drift check's wait was given up before its thread got to the call
  (`Shutdown.OvertakenExactlyWhenAbandoned`). A wait that starts later than it was granted overruns the deadline
  (`Shutdown.GrantedWaitsEndByTheDeadline`, reached in `Shutdown.WaitMayOverrun`). A loop that closes on an
  accepted callback never logs its failure (`Shutdown.ClosedLoopForgetsCallback`, reached in
  `Shutdown.LoopMayCloseOnCallback`).
- `ensure_valid_access_token` promises a token "valid for at least the expiry leeway"; a freshly refreshed
  one is returned whatever its lifetime: it has the leeway exactly when it was issued for more
  (`DeviceFlow.EnsureValidAccessToken`, with `DeviceFlow.HandOutShortToken`).
- `FloorResult` documents missed matches as surfaced plus hidden ones "whatever the floor"; that fails exactly
  when a match scores from the merge threshold up to a floor above it
  (`SimilaritySweep.MissedIsSurfacedPlusHidden`, with `SimilaritySweep.HiddenButNotMissed`).
- `targets.toml` may be edited by hand, and `load_targets` reads any name that TOML can spell, but
  `write_targets` prints every name unquoted. `config set-context` and `config use-context` therefore leave what
  they mean to write exactly when every name in the file was a bare key (`ConfigHandlers.HandleConfigSetContext`,
  `ConfigHandlers.HandleConfigUseContext`). A name with a space makes the file unreadable
  (`QuotedNames.RewritingLosesSpacedName`); a context called `dev.auth` turns into overrides of `dev`
  (`QuotedNames.DottedNameBecomesOverrides`), whose bundle then no longer fits its entry
  (`SessionTheorems.RewritingOtherNamesBreaksTheMatch`).
- `config set-context` writes the file first and then deletes the bundle: when the deletion fails, the bundle
  of the old URL stays under the name (`SessionTheorems.FailedDeletionLeavesForeignBundle`). The exact
  condition is in `SessionTheorems.SetContextKeepsMatchExactly`.

## Model

| member | source | states |
|---|---|---|
| `ReprobeTheorems.NoWakeUpIsLost` | ps-service/src/ps_service/gating_reprobe.py:101-189 | in every reachable state a waiter that is pending, has not left and whose loop is open is held by its running flight, by the batch its finishing thread took, or by an accepted callback; once its thread is done and no callback is left it has its result |
| `ReprobeTheorems.EveryWaiterSettles` | ps-service/src/ps_service/gating_reprobe.py:60-63 | a poll that is out has every waiter settled; a waiter is cancelled only by its own poll on the way out; a result means the probe had returned and its slot was released |
| `ReprobeTheorems.SettlesOnce` | ps-service/src/ps_service/gating_reprobe.py:60-63 | no continuation of a run changes how a waiter settled |
| `ReprobeTheorems.WakeUpsNeverStick` | ps-service/src/ps_service/gating_reprobe.py:172-189 | past its probe a thread can always take its next step until its whole batch is woken, and an accepted callback of an open loop can always run |
| `ReprobeTheorems.SingleFlight` | ps-service/src/ps_service/gating_reprobe.py:139-189 | the flight map holds, each under its own name, exactly the flights that have not released, at most one per dependency, so the identity test of a releasing thread always succeeds |
| `ReprobeTheorems.StartsKeepTheirDistance` | ps-service/src/ps_service/gating_reprobe.py:139-162 | two starts of one dependency are at least the minimum interval apart, and the earlier one had released its slot |
| `ReprobeTheorems.TransitionsAlternate` | ps-service/src/ps_service/gating_reprobe.py:191-207 | per dependency the transitions committed under the lock go failed, succeeded, failed, ..., starting with failed |
| `ReprobeTheorems.WrittenLogMatchesOutages` | ps-service/src/ps_service/gating_reprobe.py:191-207 | with no entry still to be written, the log holds what was committed, and failed minus succeeded entries is 1 exactly when the name is in the outage set, else 0 |
| `ProbeReports.RaisedProbeIsLogged` | ps-service/src/ps_service/gating_reprobe.py:172-197 | in every run, a thread whose probe raised is past that point only after one of its steps reported the error's class: an entry exactly if the name was not in an outage, which it then is |
| `ProbeReports.SucceededProbeIsLogged` | ps-service/src/ps_service/gating_reprobe.py:172-207 | a thread whose probe succeeded is past that point only after it found the dependency unhealthy again or reported it back: an entry exactly if it was in an outage |
| `ProbeReports.HealthyIsReportedBack` | ps-service/src/ps_service/gating_reprobe.py:118-123 | a poll that comes to a healthy dependency goes on with the next only after the same |
| `ProbeReports.LateProbeIsLogged` | ps-service/src/ps_service/gating_reprobe.py:129-137 | a poll whose wait ends with a probe still out is done only after it reported that dependency as timed out |
| `ProbeReports.EachStepReports` | ps-service/src/ps_service/gating_reprobe.py:191-207 | a step commits what its place has to report and nothing else is ever committed |
| `ProbeReports.OutageIsLastEntry` | ps-service/src/ps_service/gating_reprobe.py:191-207 | a name is in an outage exactly when the last entry committed for it is a failure |
| `ProbeReports.JoinSeatsExactly` | ps-service/src/ps_service/gating_reprobe.py:139-162 | a poll that asks for a probe is seated, at a running flight of that name, exactly when one was running or the interval since every earlier start has passed; it starts one exactly when none was running; only names with a probe are asked for |
| `ProbeReports.PollsGoOn` | ps-service/src/ps_service/gating_reprobe.py:118-137 | a poll of an open loop can always go on by itself unless it waits, before its deadline, for a probe that is still out |
| `ReprobeTheorems.PollFindsAllHealthy` | ps-service/src/ps_service/gating_reprobe.py:101-137 | a poll that may start or join a probe of every unhealthy dependency finds all of them healthy once its probes have returned and while nothing failed, whether its waits ended, were cut at the deadline or were not woken yet, under every interleaving |
| `ReprobeSafety.StepKeepsInvariant` | ps-service/src/ps_service/gating_reprobe.py:66-207 | every step of every poll, thread and of the world keeps all invariants |
| `GatingReprobe.Harness.JoinLocked` | ps-service/src/ps_service/gating_reprobe.py:139-162 | the fields after the locked section of `_join` are what the table's join gives: seated on the running flight, on a new one, or refused within the interval |
| `GatingReprobe.Harness.LeaveLocked` | ps-service/src/ps_service/gating_reprobe.py:164-170 | every seat's waiter is taken out of its own flight, nothing else changes |
| `GatingReprobe.Harness.ReleaseLocked` | ps-service/src/ps_service/gating_reprobe.py:182-189 | hands over the flight's waiters, empties its list and frees the slot if it is still this flight's |
| `GatingReprobe.Harness.NoteFailedLocked` | ps-service/src/ps_service/gating_reprobe.py:191-197 | adds the name to the outage set and asks for an entry only if it was not there |
| `GatingReprobe.Harness.NoteRecoveredLocked` | ps-service/src/ps_service/gating_reprobe.py:199-207 | removes the name and asks for an entry only if it was there |
| `Readiness.ReadyMeansCompleteAndHealthy` | ps-service/src/ps_service/main.py:703-711 | in every reachable state the latch implies a complete configuration, so ready means complete and every gating dependency healthy |
| `Readiness.IncompleteNeverReady` | ps-service/src/ps_service/main.py:1297-1316 | from any state past the configuration that is incomplete, no later step makes the app ready |
| `Readiness.MissingFieldsDecide` | ps-service/src/ps_service/main.py:1297-1302 | over every run of an app: complete exactly when its configuration was resolved with no field missing, and then ready exactly while every gating dependency is healthy; with some missing never complete, latched or ready |
| `Readiness.LatchedExactly` | ps-service/src/ps_service/main.py:1302-1310 | the startup check and a poll's end set the latch exactly on a complete configuration with every gating dependency healthy, no poll clears it, shutdown does |
| `Readiness.PollAnswersReady` | ps-service/src/ps_service/main.py:980-1009 | a poll whose probes have all returned with success when it latches, at its end or cut at the deadline, is answered ready, whatever the startup check found |
| `Shutdown.EachStopSignalledOnceInOrder` | ps-service/src/ps_service/main.py:868-885 | drift check, replay, reconciler are signalled in this order, exactly those that the gateway and the startup replay call for, whatever failed before and even with the budget spent |
| `Shutdown.GrantedWaitsEndByTheDeadline` | ps-service/src/ps_service/main.py:837-839 | a wait granted by the deadline ends at it when it begins at once, and exactly then; one granted later is 0 |
| `Shutdown.DeadlineIsTheBudget` | ps-service/src/ps_service/main.py:881-885 | the deadline is the budget from the start, for all three stops, in every run |
| `Shutdown.WaitMayOverrun` | ps-service/src/ps_service/main.py:849-865 | for every time and every budget that is not negative, a reachable wait for the replay that ends after the deadline, because it began later than it was granted |
| `Shutdown.EachFailureLoggedOnce` | ps-service/src/ps_service/main.py:759-834 | a worker's failure is logged at most once, with what its stop raised, and after the end exactly once unless the loop still owes an accepted callback |
| `Shutdown.NotStoppedIsReported` | ps-service/src/ps_service/main.py:888-913 | after the end, a stop on its own thread was reported as not stopped exactly once, unless it had returned true or raised while it was waited for, and then never |
| `Shutdown.ReplayNotStoppedIsReported` | ps-service/src/ps_service/main.py:849-865 | the replay is reported as not stopped exactly when its wait ends with it still running |
| `Shutdown.FailedRequestsAreLogged` | ps-service/src/ps_service/main.py:849-865 | over every run, each request to stop the replay that raised is logged |
| `Shutdown.ClosedLoopForgetsCallback` | ps-service/src/ps_service/main.py:793-814 | a loop that closed on an accepted callback never logs its failure |
| `Shutdown.LoopMayCloseOnCallback` | ps-service/src/ps_service/main.py:793-814 | for every time, budget and error, a reachable state whose loop closed on the callback of a failed reconciler stop, with nothing logged |
| `Shutdown.CallsMayOvertake` | ps-service/src/ps_service/main.py:759-790 | for every time and budget: some run calls the replay's stop before the drift check's exactly when the gateway has a drift check and a replay was started |
| `Shutdown.OvertakenExactlyWhenAbandoned` | ps-service/src/ps_service/main.py:759-790 | when the replay is about to be stopped, the drift check's stop has not been called exactly when its future was abandoned while its thread had not got that far |
| `GraphModel.DropsAreQuotient` | tools/graph-ingestion/merge_capabilities.py:216-225 | one decision gives the quotient under its composed substitution, loses only drops, and reports one merge per lost node |
| `GraphModel.FileIsQuotient` | tools/graph-ingestion/merge_capabilities.py:205-227 | a decision file with no keep in its own drop list gives the quotient under the composed substitution, and `applied` counts the nodes that are gone |
| `GraphModel.DecisionMergesIffKeepNotDropped` | tools/graph-ingestion/merge_capabilities.py:206-225 | a decision merges exactly when it does not list its own keep |
| `GraphModel.SecondRunAppliesNothing` | tools/graph-ingestion/merge_capabilities.py:205-227 | a second run of any file applies nothing and changes nothing |
| `GraphModel.OneMoreDecision` | tools/graph-ingestion/merge_capabilities.py:205-227 | one decision more is skipped whole, its drops counted, exactly when its keep is not in the graph that the others left |
| `Reload.ReloadIsStableExactly` | tools/graph-ingestion/load_graph.py:91-169 | load, merge, load, merge gives the nodes and edges of load, merge for every decision file with no keep in its own drop list, exactly when there are no three capabilities of which one is in the graph and not in the data file and another is in the data file |
| `Reload.UnsettledIsUnstable` | tools/graph-ingestion/load_graph.py:91-169 | wherever there are such three, the two decisions for which it is not stable |
| `Reload.LoadsOnceAndForAll` | tools/graph-ingestion/load_graph.py:150-169 | a data file whose edges have their nodes is there after one load, and a second one adds nothing |
| `MergeCapabilities.EdgeMoved` | tools/graph-ingestion/merge_capabilities.py:124-150 | after both passes the image of every edge is there, free of drop and with every property key the edge had, self-loops and edges between the two included, because the incoming query runs after the outgoing writes |
| `MergeCapabilities.WriteKeepsPartial` | tools/graph-ingestion/merge_capabilities.py:128-150 | one rewiring write in either direction keeps the quotient image of the edge set, loses no property, and every property comes from an edge that falls onto the same one |
| `MergeCapabilities.PassKeepsPartial` | tools/graph-ingestion/merge_capabilities.py:124-150 | so does any prefix of the writes of a pass over rows in any order, and a whole pass writes every rewired edge |
| `MergeCapabilities.AloneIsUnchanged` | tools/graph-ingestion/merge_capabilities.py:124-163 | an edge onto which no other falls has its properties unchanged, in the middle of a merge and after it |
| `MergeCapabilities.Store.NodeExists` | tools/graph-ingestion/merge_capabilities.py:84-101 | an answered query finds exactly the nodes that are there |
| `MergeCapabilities.Store.RewireAndDelete` | tools/graph-ingestion/merge_capabilities.py:104-163 | an answered run gives the merged graph with the id recorded, which is the quotient under drop to keep exactly when the two differ; a connection lost at any query leaves a partial merge or a whole one; a missing keep changes nothing |
| `MergeCapabilities.Store.CrashAndResume` | tools/graph-ingestion/merge_capabilities.py:116-163 | one pair: crashing after any number of queries, any number of times, and then running the decision gives the graph of one clean run, with drop recorded once |
| `MergeCapabilities.Store.CrashAndResumeFile` | tools/graph-ingestion/merge_capabilities.py:205-227 | the whole file, cut off after any number of queries, any number of times, and started over each time, comes to the nodes, edges and `merged_from` of one clean run; where the file drops no keep, each node that is left has appended the id of every node that went to it, once |
| `MergeCapabilities.Store.ApplyDecisions` | tools/graph-ingestion/merge_capabilities.py:205-227 | an answered loop gives what the file gives on nodes, edges and `merged_from`, and counts applied and skipped merges; a loop cut off at any query leaves a graph from which the file still comes to the same |
| `Records.EachRecordedOnce` | tools/graph-ingestion/merge_capabilities.py:152-163 | after a file in which no keep is dropped, a node that is left has appended to its `merged_from` exactly the ids of the nodes that the composed substitution takes to it, each once |
| `Records.ChainForgets` | tools/graph-ingestion/merge_capabilities.py:152-163 | with a keep that is dropped later this fails: of the two ids that end up at a node only the last is recorded there |
| `MergeCapabilities.Store.LoadGraph` | tools/graph-ingestion/load_graph.py:150-169 | the nodes are the old and the new; an edge is there exactly if it was, or a row has it and both its ends are there; a property has the value of the last row that sets it, or the one it had |
| `Toml.ReadsEscapedBody` | ps-cli/src/ps_cli/toml_writer.py:27-58 | reading an escaped value up to the next bare quote gives the value and stops exactly at its end |
| `Toml.EscapingIsInjective` | ps-cli/src/ps_cli/toml_writer.py:40-58 | two values with one escaped form are equal |
| `Toml.ReadsElements` | ps-cli/src/ps_cli/toml_writer.py:61-74 | reading a printed array of strings gives the strings back, the empty array included |
| `ConfigDir.SortingIsUnique` | ps-cli/src/ps_cli/targets.py:261-300 | there is one sorted list of the context names, so the printed text is determined by the value |
| `ConfigDir.FirstDifferenceDecides` | ps-cli/src/ps_cli/targets.py:290-298 | names are ordered by the code points where they first differ, a shorter one first |
| `ConfigDir.SortedNames` | ps-cli/src/ps_cli/targets.py:290-298 | the order in which contexts are printed lists each once, ascending by code point |
| `ConfigDir.FormatAuthTable` | ps-cli/src/ps_cli/targets.py:240-258 | the printed table holds a line for each field that is set and no other |
| `ConfigDir.Directory.WriteTargets` | ps-cli/src/ps_cli/targets.py:261-300 | writes the one text that the value has, and every later reading, strict or not, gives the value exactly when the context names are bare keys |
| `ConfigDir.TextReadsBackIffBare` | ps-cli/src/ps_cli/targets.py:261-300 | the text that is written for a value reads back as the value exactly when its names are bare |
| `PrintedNames.RoundTripIffBareNames` | ps-cli/src/ps_cli/targets.py:144-202 | in whatever order the contexts are printed, the text reads back as the value exactly when the names are bare: absent is kept apart from empty, and a missing auth table from one with no fields |
| `QuotedNames.QuotedNameLoads` | ps-cli/src/ps_cli/targets.py:144-202 | every name there is, the empty one included, loads from a header that spells it as a quoted key |
| `QuotedNames.RewritingLosesSpacedName` | ps-cli/src/ps_cli/modules/config_handlers.py:133-155 | a file with one name that has a space in it can be read by no later command once any context is set or selected |
| `QuotedNames.DottedNameBecomesOverrides` | ps-cli/src/ps_cli/targets.py:290-298 | a context `a.auth` beside `a` is lost when the file is rewritten, and `a` gains an auth table |
| `TargetsRoundTrip.OldEntriesAreDropped` | ps-cli/src/ps_cli/targets.py:101-141 | a plain string under `[contexts]` makes strict reading refuse the file, and lenient reading gives what the file holds without it |
| `Credentials.DecodesEncoded` | ps-cli/src/ps_cli/credentials.py:196-219 | decoding gives back the encoded bundle for every token and issuer, and no encoded bundle is the empty string that marks a deletion |
| `CredentialStore.StoreLaws` | ps-cli/src/ps_cli/credentials.py:284-379 | what is stored reads back, what is deleted reads as nothing, and no other context is touched |
| `CredentialStore.Store.GetTokens` | ps-cli/src/ps_cli/credentials.py:284-329 | four attempts: one that gets through decides for an entry that exists; otherwise the last attempt decides between nothing and an error |
| `OidcProvider.TokensRotate` | ps-test-support/src/ps_test_support/mock_oidc_provider.py:479-547 | whoever gets tokens by either grant holds the client's one good refresh token; a request that gets none changes no token |
| `OidcProvider.PollsAreTold` | ps-test-support/src/ps_test_support/mock_oidc_provider.py:479-531 | from authorization to decision: pending, denied, expired or tokens; slow_down once when asked for and after it what it hid; an unknown code is expired |
| `OidcProvider.MockOidcProvider.HandleTokenRequest` | ps-test-support/src/ps_test_support/mock_oidc_provider.py:479-507 | the provider's dictionaries change and answer as the two grants say |
| `DeviceFlow.PollForToken` | ps-cli/src/ps_cli/device_flow.py:318-377 | the k-th sleep is the interval plus 5 for each slow_down up to then, and the first answer that is neither pending nor slow_down decides, each kind in its way |
| `DeviceFlow.EnsureValidAccessToken` | ps-cli/src/ps_cli/device_flow.py:541-601 | succeeds exactly when the cache serves or a stored token can be refreshed and written back, and says which failure every other case is; a served cache touches nothing, a failure changes neither cache nor store, a success stored the rotated or kept token; a served token has more than 30 seconds left, a fresh one exactly when it was issued for more |
| `DeviceFlow.AskRepeatedly` | ps-cli/src/ps_cli/device_flow.py:541-601 | any number of calls in one invocation, failed ones included: a call is served exactly while the token of the last success has more than 30 seconds left, with that token and without the store; every other call is a try that succeeds exactly when the stored token can be refreshed, so tries start no earlier than expires_in minus 30 seconds after any success had ended |
| `DeviceFlow.HandOutShortToken` | ps-cli/src/ps_cli/device_flow.py:585-601 | any refresh answered with a lifetime of at most 30 seconds is handed out all the same |
| `DeepMerge.OverrideWinsElseDefault` | ps-cli/src/ps_cli/config.py:71-88 | at every depth a setting has the override's value if there is one, else the default's unless the override puts a value on its way |
| `DeepMerge.Merge` | ps-cli/src/ps_cli/config.py:71-88 | the loop, in any order of the keys, gives the merged tables |
| `ConfigHandlers.LoadConfig` | ps-cli/src/ps_cli/config.py:176-252 | a file that does not load and an undefined `--context` are errors; then the environment variable, `--context`, the selected context and the merged URL come in that order, and the first that is there decides, with its recorded URL, if only by failing |
| `ConfigHandlers.ResolveAuthOverride` | ps-cli/src/ps_cli/targets.py:205-237 | the overrides recorded for the context that supplied the URL; an error exactly for a context whose file does not load |
| `ConfigHandlers.MergeAuth` | ps-cli/src/ps_cli/modules/config_handlers.py:41-78 | field by field the flag if one is given and else what was there; never a result that sets no field, and absent exactly when neither side sets one |
| `ConfigHandlers.MergesCompose` | ps-cli/src/ps_cli/modules/config_handlers.py:41-78 | giving flags in two calls is giving both in one, the later on top |
| `ConfigHandlers.HandleConfigSetContext` | ps-cli/src/ps_cli/modules/config_handlers.py:133-155 | rewrites the file, then deletes the bundle; the file then reads as one entry set, the others and the current context kept, exactly when every name that was in it is bare; an unreadable file changes nothing |
| `ConfigHandlers.HandleConfigUseContext` | ps-cli/src/ps_cli/modules/config_handlers.py:158-197 | only a defined context of a strictly readable file is selected; the file then reads as that selection with the contexts kept exactly when every name that was in it is bare |
| `AuthHandlers.HandleAuthLogin` | ps-cli/src/ps_cli/modules/auth_handlers.py:60-108 | what a login against the provider that discovery names for the URL and overrides does to store and provider, and what it reports, through grant, lost answer and failed write |
| `AuthHandlers.HandleAuthStatus` | ps-cli/src/ps_cli/modules/auth_handlers.py:111-175 | logged in exactly when the stored token was accepted by the provider discovered at the URL, rotated and written back; which failure is reported for each state of the entry, the store and the exchange |
| `AuthHandlers.DispatchAuthLogin` | ps-cli/src/ps_cli/modules/auth_handlers.py:200-217 | the whole command, from `load_config` and the overrides to the store, is the machine's login step |
| `AuthHandlers.DispatchAuthStatus` | ps-cli/src/ps_cli/modules/auth_handlers.py:220-236 | the whole command, from `load_config` and the overrides to the store, is the machine's refresh step |
| `AuthHandlers.DispatchAuthLogout` | ps-cli/src/ps_cli/modules/auth_handlers.py:239-245 | the whole command is the machine's logout step |
| `AuthHandlers.DispatchSetContext` | ps-cli/src/ps_cli/modules/config_handlers.py:266-290 | the whole command is the machine's set-context step |
| `AuthHandlers.DispatchUseContext` | ps-cli/src/ps_cli/modules/config_handlers.py:293-309 | the whole command is the machine's use-context step |
| `SessionTheorems.RefreshAcceptedExactly` | ps-cli/src/ps_cli/device_flow.py:504-538 | over every run, lost answers, failed writes and shared clients included, a stored token is accepted under a key exactly when it was stored under that key and no later grant of the key went elsewhere or was lost |
| `SessionTheorems.StoredTokenIsCurrent` | ps-cli/src/ps_cli/device_flow.py:585-601 | a context with a client of its own whose grants all reach the store always holds the provider's current token, so no refresh is answered `invalid_grant` |
| `SessionTheorems.CredentialsFollowTheUrl` | ps-cli/src/ps_cli/modules/config_handlers.py:133-155 | over every run on a file of bare names in which set-context gets to delete, a bundle stored for a context in the file was obtained by contacting the URL, and with the overrides, now recorded for it, `PS_CLI_SERVICE_URL` or not |
| `SessionTheorems.RewritingOtherNamesBreaksTheMatch` | ps-cli/src/ps_cli/modules/config_handlers.py:158-197 | from any start, with a context `a.auth` beside `a`: a login to `a` stores a bundle that fits its entry, and selecting `a` after it leaves one that was not obtained with the overrides `a` then has |
| `SessionTheorems.SetContextKeepsMatchExactly` | ps-cli/src/ps_cli/modules/config_handlers.py:147-155 | set-context keeps that match exactly when it deletes, or nothing is stored, or what is stored was obtained for the entry it writes |
| `SessionTheorems.SelectedIsTarget` | ps-cli/src/ps_cli/modules/config_handlers.py:158-197 | what use-context selects is the context, URL and overrides of a later command that names nothing itself |
| `SessionTheorems.SelectionStays` | ps-cli/src/ps_cli/modules/config_handlers.py:133-155 | it stays selected through set-context, with its entry unless that is the one set, whose URL is then the new one |
| `SessionTheorems.FailedDeletionLeavesForeignBundle` | ps-cli/src/ps_cli/modules/config_handlers.py:150-155 | for any two URLs, a run with a failed deletion that leaves the first URL's bundle under the second |
| `Coverage.CoverageSet` | scripts/measure_skills.py:154-175 | a prefix that stops as soon as the target is reached, which happens exactly for a target of at most 1 or sizes all zero; on a list sorted largest first no choice of fewer skills reaches it |
| `Coverage.FrontIsLargest` | scripts/measure_skills.py:167-175 | no choice of skills is larger than as many from the front |
| `SimilaritySweep.ScoreDataset` | tools/company-merge/company_merge_similarity_sweep.py:695-719 | on success every pair in order with the cosine of the model's vector of its first text and of its cached second vector or else the model's; fails exactly when some pair has no such score; asks for no text twice, and on success for exactly the texts needed |
| `SimilaritySweep.ScoreAllMaps` | tools/company-merge/company_merge_similarity_sweep.py:141-181 | the plain form succeeds exactly when every pair has such a score, and then holds each pair with its own in order |
| `SimilaritySweep.Cache.Embed` | tools/company-merge/company_merge_similarity_sweep.py:671-690 | the model's vector for the text, fetched at most once |
| `SimilaritySweep.ThresholdResultAt` | tools/company-merge/company_merge_similarity_sweep.py:750-788 | the four counts, precision, recall, and F1 equal to 2TP/(2TP+FP+FN) with its zero conventions |
| `SimilaritySweep.F1Closed` | tools/company-merge/company_merge_similarity_sweep.py:767-777 | the two-step F1 equals the closed form for all counts |
| `SimilaritySweep.TalliesShareOutTheDataset` | tools/company-merge/company_merge_similarity_sweep.py:750-788 | the counts sum to the dataset; TP, FP and recall never rise with the threshold |
| `SimilaritySweep.SweepDataset` | tools/company-merge/company_merge_similarity_sweep.py:791-826 | one tally per threshold in order over one scoring, or no result at all |
| `SimilaritySweep.ReviewBandReport` | tools/company-merge/company_merge_similarity_sweep.py:829-873 | one row per floor in order, with the counts of the band, below the floor and below the merge threshold |
| `SimilaritySweep.FloorPassesExactly` | tools/company-merge/company_merge_similarity_sweep.py:880-890 | a floor passes exactly when it is at most the merge threshold and its report hides no match |
| `SimilaritySweep.MissedIsSurfacedPlusHidden` | tools/company-merge/company_merge_similarity_sweep.py:829-873 | surfaced plus hidden is missed exactly when no match scores from the merge threshold up to the floor |
| `SimilaritySweep.SelectRecommendation` | tools/company-merge/company_merge_similarity_sweep.py:1211-1230 | a result of the sweep with the highest F1 and, among those, the highest threshold; refused for none |
| `SimilaritySweep.OrderDoesNotMatter` | tools/company-merge/company_merge_similarity_sweep.py:1211-1230 | the recommended F1 and threshold depend only on which results there are |
| `LockoutSeed.SeedLocksOutEveryClient` | scripts/verify_enrolment_pages_live.py:707-747 | for every client address, listed or not, the policy's sum with the seeded row is at least the margin below the threshold |
| `LockoutSeed.SeedIsTight` | scripts/verify_enrolment_pages_live.py:732-747 | some client sits exactly at the margin if and only if the current highest total is not negative |

## Left out

- Thread start is assumed to succeed, and a probe's write to the health registry is one step with its return.
- The order in which log entries reach the file: emission is outside the lock, so order is stated on commits.
- A cancelled shutdown, and the log fields other than the exception class.
- StoredTokenIsCurrent: does not cover overlapping commands, since the locks cover single reads and writes only.
- CredentialsFollowTheUrl: does not cover edits of `targets.toml` by hand or by another program during the run, nor files with names that are not bare keys, for which `RewritingOtherNamesBreaksTheMatch` shows that it fails.
- ReloadIsStableExactly: speaks of nodes and edges, not of `merged_from`, to which a second merge appends again.
- EachRecordedOnce: is about files in which no keep is dropped; `ChainForgets` shows a file where it fails, and `MergeCapabilities.Store.ApplyDecisions` gives what any file records.
- WriteKeepsPartial: where edges that fall together disagree on a property, its value is one of theirs, since row order is unspecified.
- RoundTripIffBareNames: the reader has no dotted keys in assignments, inline tables, arrays of tables, multi-line strings, or values other than strings and arrays of strings; none of them is ever printed. An array where a string belongs (`current_context`, `url`, an auth field), or a string for `scopes`, is malformed here, while the source casts it and loads the file.
- HandleConfigSetContext: a file that holds one of these, or such a misplaced value, counts as unreadable, and so as left alone, where the source may load it.
- HandleConfigUseContext: likewise.
- DispatchSetContext: likewise.
- DispatchUseContext: likewise.
- QuotedNameLoads: the text is taken after newline translation, and only as far as the reader goes.
- RefreshAcceptedExactly: providers always rotate, as the mock provider does; a provider that returns no new token is covered by `Kept` in `DeviceFlow.EnsureValidAccessToken` only.
- HandleAuthLogin: the poll is taken at its deciding answer; waiting and slow_down are in `DeviceFlow.PollForToken`.
- Each device flow is a value in the provider's map, updated by replacing it; aliasing of a flow object is not modelled.
- Nodes have one label and a unique id, as the queries assume; `--dry-run` writes nothing and is not modelled.
- Access tokens, keys and claims of the mock provider, and its HTTP server.
- Discovery, TLS, HTTP clients, timeouts of single requests: each is the answer it comes to.
- `is_valid_service_url` is a parameter of `ConfigHandlers.LoadConfig`; the project file and the packaged default enter it as the merged value.
- Scores, thresholds and times are reals; rounding is not modelled. The embedding model is deterministic, and cosine is a parameter that may fail.
- `measure_all`'s reading of skill files; its sort is the ordering that `Coverage.CoverageSet` asks for.
- `all_pages`, which may not end when a server's next page never is 0.
- The validators of `ps_service/config.py`, routers, middleware, migrations, renderers and argument parsers.
