# Verified models of the homelab's configuration and recovery protocols

This project models the protocols by which the homelab's scripts change running services, and proves what they
promise when requests fail, answers are lost, and processes are killed. `dafny verify dfyconfig.toml` checks it.

| file | what it models |
|---|---|
| `JsonValues.dfy`, `Objects.dfy`, `Faults.dfy` | JSON values; searching collections of JSON objects; requests that may fail |
| `SharedMerge.dfy` | the merge and containment test that the adapters share |
| `AutobrrMatch.dfy`, `AutobrrPaths.dfy` | autobrr's merge, secret fingerprints, redaction, the match test, and what a match means path by path |
| `AutobrrServer.dfy` | the autobrr server as tables, with requests that are answered, refused or unanswered |
| `AutobrrClients.dfy`, `AutobrrFilters.dfy`, `AutobrrGuard.dfy`, `AutobrrReconcile.dfy` | the autobrr run: clients, actions, the guarded filter update, the whole protocol |
| `AutobrrMeaning.dfy` | what being as declared means on the autobrr server, in names, ids and paths |
| `ArrManager.dfy`, `ArrPlans.dfy` | reconciling the Arr managers, and what a plan may write |
| `ArrConvergence.dfy`, `ArrDisagreement.dfy`, `ArrFrames.dfy`, `ArrDryRun.dfy` | when it converges and when it never does, what it leaves alone, and its dry run |
| `SecretPipeline.dfy` | secret references from the Nix definition to the resolved value |
| `FileTrees.dfy`, `Recovery.dfy`, `Restore.dfy` | the stopped-writer recovery copy, its cleanup, and the restore |
| `PressureGuard.dfy` | the storage-pressure guard |
| `LibraryPaths.dfy` | replacing a Jellyfin library's paths with compensation |
| `PasswordLedger.dfy`, `AccountFields.dfy` | the password ledgers of Jellyfin, Audiobookshelf and Navidrome, and the fields of their accounts |
| `LanguageProfiles.dfy` | Bazarr's language profiles |
| `CredentialFile.dfy` | NZBGet's credential file |

Scripts that change a server, a journal or files are methods on classes with that state. A request or command draws
its outcome freely: done, without effect, or with an effect whose answer is lost; recovery steps can also be the last
before a kill. Contracts hold at every exit, so they speak of every prefix of a run. Pure code is functions and
lemmas. Hashes over the text of a value are parameters of the proofs, injective where a property needs that.

## What the proofs found

- A rollback of the recovery copy that is killed after the marker is gone makes cleanup refuse, and the writers stay
  down, although `docs/operations.md` (lines 22-23) says that cleanup resumes them. The model follows the code;
  `Recovery.SnapshotThenCleanup` gives the exact condition.
- A failure while the marker itself is written leaves staging that cleanup refuses, because that write is outside
  the guarded part (`scripts/operations/recovery.py`, line 129); no writer is down then.
- A declared null never matches in autobrr, so every finished managed run writes again
  (`AutobrrMatch.NullNeverMatches`, `AutobrrReconcile.Reconcile`).
- A password whose request took effect without an answer leaves the ledgers behind the server. When the password from
  before is declared again, its fingerprint still verifies, nothing is sent, and the server keeps the other one
  (`PasswordLedger.LostAnswer`, `AutobrrClients.LostAnswer`). For each account, and for each autobrr client, the
  declared secrets are in place after a finished managed run if and only if the ledger had not verified them at the
  start or was in step with the server then (`PasswordLedger.HeldExactly`, `AutobrrClients.HeldExactly`,
  `AutobrrReconcile.Reconcile`); for autobrr also if the run was cut off before and repeated
  (`AutobrrReconcile.InterruptedThenComplete`). Only such a lost answer, or a ledger that could not be written after
  the server accepted, breaks step of a password ledger (`PasswordLedger.ReconcileUsers`).
- A nested `fields` object that is copied wholesale makes the next merge fail (`SharedMerge.MergeTwice`).
- The dry run of the Arr adapter miscounts when a resource moves an object that a later resource matches, even if no
  result satisfies another's match (`ArrDryRun.ResultsApartIsNotEnough`). With results apart, a managed dry run counts
  right if and only if no stored object satisfies the matches of two resources (`ArrDryRun.CountsAgreeExactly`).
  Convergence needs only that results are apart (`ArrConvergence.SecondRunIsQuiet`). Two resources that match one
  object and declare different literals for a key of it rewrite it in every run
  (`ArrDisagreement.DisagreementLasts`, `ArrDisagreement.TugOfWar`).
- Jellyfin's compensation restores the original paths only if the failed request had no effect, and a refused
  compensation can leave no path at all (`LibraryPaths.UpdatePaths`, `LibraryPaths.RefusedCompensation`).
- The pressure flag toggles on a steady reading when the pause limit is above the resume limit; the Nix module
  forbids that (`modules/operations/default.nix`, line 592).

## Assumptions the contracts state

- autobrr: keys without dots, no declared secret equal to the redaction marker, and objects on the server where the
  declaration has objects (`ValidClient`, `ClientReady`, `FilterReady`, `ActionReady`); ids are distinct, below the
  next id, and not referenced before they are given out (`Sound`). The server hides the secrets of clients at every
  depth and keeps them when the marker comes back.
- Arr: for objects that lookups can name, matches use the lookup key, and ids are not declared; settings sections hold
  plain values and are declared once, as validation demands (`Orderly`). No resource's result satisfies another's
  match, over any template that it may start from, and in a managed run also over any object of the server that it may
  be merged into (`ResultsApart`); declaring other values for each other's match keys is enough, as are matches that
  exclude each other (`ArrPlans.LiteralsApart`, `ArrPlans.ConflictsApart`). For the dry run, lookups stand neither for a
  whole `fields` object nor in the implementation, and the server's objects do not already bear placeholders or future
  ids where the plan has lookups (`Predictable`, `Unmarked`).
- Secrets: the referenced files have credential names that are well formed and distinct (`GoodNames`).
- Recovery: no other actor starts or stops units during the window; service names are distinct; file systems are well
  formed when a snapshot starts.

## Model

| member | source | states |
|---|---|---|
| AutobrrReconcile.Reconcile | scripts/integration/autobrr.py:314-436 | one run against a server that may refuse any request or lose its answer: at every exit each filter, with all its actions, is identical to before, or is a declared one that is disabled or has every declared value, indexer and action; undeclared clients are identical, declared clients and actions keep every undeclared path, and new objects have their literal defaults; in bootstrap mode everything that exists is identical; each client that was settled is left alone with its fingerprints, and any other is left alone or has the whole declaration; a ledger that was in step for the declared secrets is in step; a reliable run from a ready server succeeds; a finished run has everything declared on the server, path by path, unless bootstrap mode passes over it; a finished managed run converges, leaves each client with the declared secrets if and only if it was unsettled or in step at the start, and writes if a null is declared; a converged server is not written to |
| AutobrrReconcile.InterruptedThenComplete | scripts/integration/autobrr.py:314-436 | a run cut off anywhere, then one full run: every declared client, filter and action exists exactly once by name, with the declared values at every path, the selected indexers and the client ids, and enabled as declared; each client holds the declared secrets if and only if the ledger had not verified them before the interruption or was in step then; undeclared objects are as before both runs; the run after that sends no write even if it is cut off itself |
| AutobrrReconcile.ReconcileFilters | scripts/integration/autobrr.py:346-436 | the loop over filters keeps crash-atomicity and readiness, serves every filter, and in bootstrap mode leaves every existing filter identical |
| AutobrrReconcile.CrashAtomicStep | scripts/integration/autobrr.py:385-435 | handling one filter, whatever becomes of its requests, keeps all filters crash-atomic |
| AutobrrReconcile.ReconcileFilter | scripts/integration/autobrr.py:346-435 | one filter: found by name, created disabled if missing, left alone in bootstrap mode, refused if ambiguous; a finished one is not written to again |
| AutobrrReconcile.CreateMissing | scripts/integration/autobrr.py:354-384 | a missing filter is created only after its indexers and clients were found, disabled, and then completed like an existing one |
| AutobrrReconcile.OtherFilter | scripts/integration/autobrr.py:121-129 | work on one filter changes neither readiness nor completeness of another |
| AutobrrReconcile.ClientsCame | scripts/integration/autobrr.py:363-369 | an action's client that exists or is declared stays resolvable at every exit of the client phase, and is there with its type once the phase finished |
| AutobrrReconcile.UndeclaredAfterRun | scripts/integration/autobrr.py:314-436 | clients, and filters with their actions, that are not declared are identical after any exit of a run |
| AutobrrMeaning.DoneIsThere | scripts/integration/autobrr.py:346-436 | a finished filter: one of the name, each declared value at its path, each declared indexer listed under its id, each declared action once with its values and the id of its client, and enabled as declared |
| AutobrrMeaning.SettledIsThere | scripts/integration/autobrr.py:324-345 | a settled client: one of the name, with each declared value that is no secret at its path |
| AutobrrGuard.UpdateFilter | scripts/integration/autobrr.py:420-435 | the disable, write, enable sequence: at every exit the filter is untouched, disabled, or complete; when it succeeds it is complete and enabled as declared |
| AutobrrGuard.PatchedFilter | scripts/integration/autobrr.py:388-392 | the patch holds the declared policy, lists every selected indexer without dropping one, and keeps undeclared keys |
| AutobrrGuard.ApplyFilter | scripts/integration/autobrr.py:385-435 | an unchanged complete filter is not written; anything else ends complete if no request fails |
| AutobrrGuard.MatchedPolicy | scripts/integration/autobrr.py:390-393 | a filter that passes the policy test has every declared policy value at its path, or nothing where an empty value is declared, and all selected indexers |
| AutobrrFilters.SelectIndexers | scripts/integration/autobrr.py:355-362 | succeeds just when every declared indexer is found unambiguously, and then gives their ids |
| AutobrrFilters.Sorted | scripts/integration/autobrr.py:389-392 | the ids of a set in ascending order, each once |
| AutobrrFilters.PlanActions | scripts/integration/autobrr.py:398-408 | the planned writes are exactly the declared actions that do not match, in order; fails only when one is ambiguous, has another type or cannot be compared, and always in the first two cases |
| AutobrrFilters.WriteActions | scripts/integration/autobrr.py:425-433 | at every exit undeclared actions are identical, declared ones keep their ids and every undeclared path, and nothing but this filter's actions changed; when it succeeds every declared action exists once and is as declared |
| AutobrrFilters.RemainingStep | scripts/integration/autobrr.py:425-433 | writing one planned action leaves the other plans valid and the finished actions as declared |
| AutobrrClients.ReconcileClients | scripts/integration/autobrr.py:324-345 | the client loop: at every exit places, ids, names and types stay, undeclared clients and undeclared paths of declared ones are identical, new clients have nothing undeclared and are disabled unless declared otherwise, and each client is left alone, always so if it was settled and in bootstrap mode, or has the whole declaration; a finished loop gave every unsettled client the declaration, and a managed one leaves all settled in server and state file |
| AutobrrClients.ReconcileClient | scripts/integration/autobrr.py:324-345 | one client: merged, stored and fingerprinted, or left alone when it matches or in bootstrap mode; whatever becomes of the requests it is untouched with its fingerprints or holds every declared value, secrets included |
| AutobrrClients.StoredClient | tests/integration/test_autobrr.py:144-164 | an update sent with redacted secrets stores the declaration under the old id, name and type, and keeps every undeclared path, stored secrets included |
| AutobrrClients.HeldExactly | scripts/integration/autobrr.py:328-345 | after a finished managed run a client holds the declared secrets if and only if the ledger had not verified them at the start or was in step with the server for this client |
| AutobrrClients.GivenTwice | scripts/integration/autobrr.py:324-345 | a run that was cut off and a finished one together give a client what the second alone would, judged by its state before the first |
| AutobrrClients.LostAnswer | scripts/integration/autobrr.py:328-345 | the concrete state after a lost answer: the former password counts as settled although the server holds the later one; for the later one the ledger is in step |
| AutobrrServer.ActionsPut | tests/integration/test_autobrr.py:107-159 | replacing an action of one filter replaces it in that filter's detail and in no other |
| AutobrrServer.Server.Detail | tests/integration/test_autobrr.py:107-119 | the filter detail lists the actions of that filter without their filter id |
| AutobrrMatch.MergeByKey | scripts/integration/autobrr.py:132-140 | the assignment loop computes the recursive merge, and raises exactly when a declared object meets something else |
| AutobrrMatch.MergeHolds | scripts/integration/autobrr.py:132-140 | the merge holds every declared leaf and keeps every undeclared key |
| AutobrrMatch.Fingerprints | scripts/integration/autobrr.py:154-162 | every secret at every depth is recorded under its dotted path, and a known secret keeps its salt |
| AutobrrMatch.UnderOnce | scripts/integration/autobrr.py:157-159 | with keys free of dots no two secrets share a path |
| AutobrrMatch.KeepRedacted | tests/integration/test_autobrr.py:149-164 | writing back what was read leaves every stored secret in place, at every depth |
| AutobrrMatch.UpdateKeeps | tests/integration/test_autobrr.py:149-164 | reading redacted, merging and writing back keeps the stored value at every undeclared path |
| AutobrrMatch.UpdateMatches | scripts/integration/autobrr.py:334-345 | merge, store, redacted read and saved fingerprints: the declaration matches if and only if it has no null and no empty secret other than the empty string |
| AutobrrMatch.RedactedMatch | scripts/integration/autobrr.py:165-195 | the same for any object that holds the declaration |
| AutobrrMatch.AbsentMatches | scripts/integration/autobrr.py:165-195 | what the server does not have matches just the empty values of the declared types |
| AutobrrMatch.ChangedSecretFails | scripts/integration/autobrr.py:171-182 | if different texts have different digests, a secret whose text changed makes the match fail at any depth, unless both sides are empty |
| AutobrrMatch.NullNeverMatches | scripts/integration/autobrr.py:183-194 | a declaration with a null at any depth, other than for a secret, matches nothing |
| AutobrrMatch.MatchByKey | scripts/integration/autobrr.py:165-195 | the comparison loop says that everything matches exactly when it does, which AutobrrPaths.MatchMeans spells out, and raises only where a value that is no object stands in the place of a declared one |
| AutobrrPaths.MatchMeans | scripts/integration/autobrr.py:165-195 | a match means just that at every path: a plain value is there, or nothing is and an empty value of a type is declared; a secret is there and the declared one has the fingerprint under its dotted path, or both are empty; and no value stands in the way of a declared object |
| AutobrrPaths.SecretKeyMeans | scripts/integration/autobrr.py:157-175 | the secret keys are `password` and `apikey`, each letter in either case |
| AutobrrMatch.MatchedSecrets | scripts/integration/autobrr.py:165-195 | an object that matches by fingerprints holds the declared secrets if and only if the fingerprints are in step with it |
| ArrManager.Reconcile | scripts/integration/adapters/arr.py:163-266 | against a server that may fail any request, with or without its effect: a report is that of the whole run, with the writes in step; wherever the run ends, the server is that of the run cut off after some section or resource; on a reliable server there is a report unless a check refuses, and then the next step is the refused one; a dry run writes nothing |
| ArrManager.ResourceStep | scripts/integration/adapters/arr.py:201-263 | one resource, with all its refusals, as its step function says on a reliable server; a failed step has had its one effect or none |
| ArrManager.ApplySucceeds | scripts/integration/adapters/arr.py:201-263 | a resource is handled if and only if it is supported, every lookup in it has an answer, its match is unambiguous, and, unless bootstrap mode passes over it, its implementation agrees or has one schema and its declared fields have a place |
| ArrManager.PolicySucceeds | scripts/integration/adapters/arr.py:163-200 | a settings section is handled if and only if nothing is declared for it, or it is there with every declared key and a place for declared fields |
| ArrManager.FoldTaken | scripts/integration/adapters/arr.py:163-263 | a step that fails leaves the server of the steps before it, or of those and itself; a refused one makes the whole run fail |
| ArrManager.LookupMeans | scripts/integration/adapters/arr.py:14-28 | a lookup resolves in a real run if and only if exactly one object bears the name under `label` for tags and `name` otherwise, and then to its id; a dry run has a placeholder where nothing does and the creation is planned |
| ArrManager.LookupOfMeans | scripts/integration/adapters/arr.py:8-13 | what counts as a lookup: nothing beside it, and one of three endpoints |
| ArrManager.SupportedMeans | scripts/integration/adapters/arr.py:201-209 | the endpoints and match keys that are accepted, written out |
| ArrManager.TemplateMeans | scripts/integration/adapters/arr.py:235-245 | a new object starts from nothing, or from the one schema that has the declared implementation |
| ArrManager.PoliciesExposed | scripts/integration/adapters/arr.py:190-200 | a run that gets past the settings sections found every declared key there, and leaves the keys of all sections as they were |
| ArrPlans.LiteralsApart | scripts/integration/adapters/arr.py:213-220 | declaring other values for each other's match keys keeps results apart on every server |
| ArrPlans.ConflictsApart | scripts/integration/adapters/arr.py:213-220 | matches that ask for different values of one key keep results apart and no object satisfies two of them |
| ArrDryRun.DryRunPredicts | scripts/integration/adapters/arr.py:201-263 | when results are apart, and in managed mode no stored object satisfies two matches, the dry run succeeds exactly when the real run would, with the same counts; its planned dependencies are exactly the lookups that the real run answers with objects it created itself |
| ArrDryRun.CountsAgreeExactly | scripts/integration/adapters/arr.py:217-263 | when results are apart and both runs succeed, their counts agree if and only if the run is not managed or no stored object satisfies the matches of two resources |
| ArrDryRun.ContestedMiscounts | scripts/integration/adapters/arr.py:217-263 | a managed run creates more than its dry run said as soon as a stored object satisfies two matches |
| ArrDryRun.ResolveAgrees | scripts/integration/adapters/arr.py:6-38 | two resolutions of a value succeed together if their lookups do, and are equal if all lookups are answered alike |
| ArrDryRun.ValuesAgree | scripts/integration/adapters/arr.py:210-216 | a dry run resolves a declaration when the real run does, and to the same values except where a lookup is answered with a placeholder |
| ArrDryRun.ResultsApartIsNotEnough | scripts/integration/adapters/arr.py:217-263 | a server and a plan with results apart whose dry run counts differently from the real run: one resource moves the object that another one matches |
| ArrConvergence.SecondRunIsQuiet | scripts/integration/adapters/arr.py:163-263 | when no resource's result satisfies another's match, a second managed run writes nothing and counts everything unchanged if and only if every merge of the first run was stable; otherwise it fails |
| ArrConvergence.TopLevelFieldsConverge | scripts/integration/common.py:159-172 | such plans with `fields` objects only at the top level, where providers keep theirs, always have a quiet second run |
| ArrDisagreement.DisagreeingNeverQuiet | scripts/integration/adapters/arr.py:217-254 | a managed run over a server where one object satisfies two resources that declare different literals for a key is never quiet |
| ArrDisagreement.DisagreementLasts | scripts/integration/adapters/arr.py:217-254 | as long as the plan moves no object away from their matches, the two find one object again after every finished run, so no later run is quiet |
| ArrDisagreement.TugOfWar | scripts/integration/adapters/arr.py:217-254 | a concrete plan each of whose runs rewrites one object twice and leaves the server as it was |
| ArrFrames.RunFrames | scripts/integration/adapters/arr.py:201-263 | in any run objects keep their places and implementations; unmatched ones are identical; each keeps its value at every path that the resources finding it do not declare; new ones were asked for |
| ArrFrames.CutOffFrames | scripts/integration/adapters/arr.py:163-263 | wherever a run is cut off, objects keep their places and implementations, unmatched ones and in bootstrap mode all are identical, each keeps every path that the resources finding it do not declare, and new ones were asked for; in bootstrap mode no settings section differs |
| ArrFrames.RunMerges | scripts/integration/adapters/arr.py:217-254 | when results are apart, an object ends as the merge of what it was with the one resource that matches it first, so it keeps every path which that declaration does not mention and every schema field which it does not name |
| ArrFrames.RunCreates | scripts/integration/adapters/arr.py:235-259 | when results are apart, each added object ends as the merge of one declaration into its template, under an id not assigned before |
| ArrFrames.BootstrapKeeps | scripts/integration/adapters/arr.py:223-226 | a bootstrap run leaves every existing object identical |
| ArrManager.CountsAddUp | scripts/integration/adapters/arr.py:163-266 | every declared section and resource is counted once, and the writes of a real run are the counted creations and updates |
| ArrFrames.PoliciesFrame | scripts/integration/adapters/arr.py:163-200 | settings sections keep their value at every undeclared path |
| ArrConvergence.EffectOnLookup | scripts/integration/adapters/arr.py:14-28 | a resolved lookup keeps its answer while other resources are written |
| SharedMerge.MergeByKey | scripts/integration/common.py:159-172 | the assignment loop computes the merge or raises where it raises |
| SharedMerge.MergeFails | scripts/integration/common.py:159-172 | the merge fails if and only if somewhere, with objects leading there on both sides, a `fields` object is declared whose names are not all names of well-formed schema fields there |
| SharedMerge.MergeTwice | scripts/integration/common.py:159-172 | merging a declaration again changes nothing if and only if no `fields` object was copied over wholesale; otherwise it raises |
| SharedMerge.MergeKeepsUndeclared | scripts/integration/common.py:159-172 | every undeclared path keeps its value |
| SharedMerge.MergeFieldsFrame | scripts/integration/common.py:162-167 | schema fields keep order, names and other properties; undeclared ones are identical, declared ones get their values |
| SharedMerge.MergeSatisfies | scripts/integration/common.py:187-199 | without `fields` objects the merged value contains the declaration |
| SharedMerge.MergeUnchanged | scripts/integration/common.py:187-199 | a merge that changes nothing, characterised by the current value |
| SharedMerge.ChangeTestsAgree | scripts/integration/common.py:187-199 | an unchanged merge and containment are the same test when no object lies inside a declared list |
| SharedMerge.ContainsTransitive | scripts/integration/common.py:187-199 | containment is transitive |
| SharedMerge.ContainsAntisymmetric | scripts/integration/common.py:187-199 | two values that contain each other are equal |
| Recovery.Snapshot | scripts/operations/recovery.py:121-204 | at every exit: only writers that ran are touched and each one that is down is in a complete journal; a manifest exists only if every directory was copied from files at rest, in a well-formed file system; what is left is the staged tree or a part of it, and everything else is as it was while it was copied; success means all writers run again, the journal is gone, every command of a service was run once, in order and with all writers stopped, and every database has its dump, listed beside the dumps; if it raises, the writers run again unless the commanded start of just the journalled ones failed, and the removal of staging was commanded unless it had not begun or was complete; on a reliable host every exit but a refusal ends with the writers running and no journal, a raise leaves no staging, and it succeeds if and only if staging has its place, there is no journal, all units are loaded and settled, and every declared directory is there, where without prepare commands that is seen before the start |
| Recovery.Conclude | scripts/operations/recovery.py:200-204 | the rollback of a stage that raised and the resumption of the writers after any exit but a kill |
| Recovery.SnapshotThenCleanup | scripts/operations/recovery.py:51-76 | after a snapshot that ended in any way, cleanup makes exactly the writers run that ran before if and only if they do already or the staging directory still carries its marker |
| Recovery.RollbackCanStrandWriters | scripts/operations/recovery.py:200-204 | the exception is real: on a concrete host whose rollback was killed after it removed the marker, cleanup refuses while a journalled writer is down |
| Recovery.StopAndPrepare | scripts/operations/recovery.py:132-170 | the commands of the services are run in the order of the inventory, none before all writers are stopped, and without any of them no file changes |
| Recovery.StopWriters | scripts/operations/recovery.py:132-161 | the journal is written before anything is stopped, and success means every writer of the inventory is inactive or failed; on a reliable host it succeeds if and only if all units are loaded and settled |
| Recovery.Resume | scripts/operations/recovery.py:62-76 | starts exactly the journalled writers, if any, with one command and then removes the journal; a torn journal raises and changes nothing |
| Recovery.Cleanup | scripts/operations/recovery.py:51-59 | refuses unowned or overlapping staging without any change; otherwise nothing is removed before the writers run and the journal is gone |
| Recovery.CopyAll | scripts/operations/recovery.py:172-197 | every directory is copied while all writers are stopped, to its own place, without reading its own output or touching a source; on a reliable host it succeeds if all directories are there |
| Recovery.CopyStep | scripts/operations/recovery.py:176-192 | one more copy leaves the earlier ones equal to their sources |
| Recovery.JobsDistinct | scripts/operations/recovery.py:172-179 | no two directories are copied to the same place |
| Recovery.JobsComplete | scripts/operations/recovery.py:172-176 | every declared directory is copied |
| Recovery.SourcesSurvive | scripts/operations/recovery.py:39-48 | no removal of staging content, whole or partial, reaches a declared directory |
| Recovery.NothingToRecover | scripts/operations/recovery.py:150-155 | while the journal is missing or torn every writer still runs |
| Recovery.RestoreManifest | tests/fixtures/media-workflow/restore.py:52-66 | restoring manifest entries in any order, from wherever the staging directory was brought, gives every recorded path the tree it had while the writers were stopped; nothing outside the state root and the directory above it differs at any exit, and every node still lies in a directory; it fails only where something else than a directory stands in the way |
| Recovery.SnapshotThenRestore | tests/fixtures/media-workflow/restore.py:47-66 | a finished snapshot, its staging directory brought to another place on any later file system, and a restore by its manifest: every declared directory is what it was while the writers were stopped, and everything else is untouched; when the snapshot finishes on a reliable host and when the restore succeeds is characterised too |
| Restore.RestoreAll | tests/fixtures/media-workflow/restore.py:58-66 | the restore loop, also with nested paths: finished directories stay restored, copies stay intact, everything else is identical, and nothing that it restores stands in the way of the rest; only directories strictly below the state root are restored, nothing outside of it and the directory above it is touched at any exit, and a well-formed file system stays one |
| Restore.StaysRestored | tests/fixtures/media-workflow/restore.py:58-66 | restoring a directory inside or around another leaves the other restored |
| PressureGuard.Guard.Run | scripts/operations/pressure.py:130-151 | one run: if nothing failed, under pressure every torrent in one of the six downloading states is stopped and owned and the queue is paused, and otherwise what was owned and still stopped runs again, an owned queue is resumed and all is released; no other torrent is ever touched; it has failed just when a request failed; the journal claims only what the guard holds, at every exit; failing clients keep their ownership; a killed run leaves the old journal, and any other replaces it once at its end |
| PressureGuard.Guard.ReconcileTorrents | scripts/operations/pressure.py:62-89 | the torrents and what is owned of them become what pressure asks for; a failed request has had its whole effect or none |
| PressureGuard.Guard.ReconcileQueue | scripts/operations/pressure.py:103-113 | pauses if not paused and then owns the pause; resumes only if owned and still paused; sends nothing else |
| PressureGuard.StartedWasStopped | scripts/operations/pressure.py:62-89 | every started torrent was reported downloading and then stopped by the guard, with no journal since that released it |
| PressureGuard.Runs | scripts/operations/pressure.py:130-151 | over any number of runs among users, failures and kills the history only grows, every start and resumption in it is of something owned, the journal claims only what is held, and its flag is the one that the readings give |
| PressureGuard.HeldMeans | scripts/operations/pressure.py:62-89 | what the guard holds, over the history: stopped by it and in every journal written since |
| PressureGuard.FlagMeans | scripts/operations/pressure.py:116-134 | with the limits in order the flag says what the last decisive reading said |
| PressureGuard.SteadyReadings | scripts/operations/pressure.py:116-127 | a repeated reading never toggles the flag if and only if the pause limit is not above the resume limit |
| SecretPipeline.PipelineMeans | modules/integration/default.nix:12-65 | an accepted definition resolves if and only if no object uses the reserved key and no file is empty, and then to the definition with every reference replaced by the file's contents |
| SecretPipeline.StartedPipelineMeans | modules/integration/default.nix:12-65 | the unit of an accepted definition can load its credentials if and only if every referenced file exists, and whatever it then loads the definition has its meaning |
| SecretPipeline.LoadingSucceeds | modules/integration/default.nix:521-521 | the listed files can be loaded if and only if all of them exist |
| SecretPipeline.SensitiveMeans | modules/integration/default.nix:20-37 | a key is sensitive just when it spells one of the ten words, each letter in either case and with any of the three separators in between |
| SecretPipeline.AcceptedMeans | modules/integration/default.nix:38-54 | a definition is accepted just when no part of it is a reference with anything beside it, or has a literal other than the empty string at a key that spells a secret |
| SecretPipeline.ReferenceResolves | scripts/integration/common.py:67-79 | a reference resolves if and only if it is nothing but a reference with an allowed and loaded name whose file has contents besides its final line ends, and to those |
| SecretPipeline.ReadsAreLoaded | modules/integration/default.nix:521-521 | every credential that resolving reads is in the list of loaded credentials |
| SecretPipeline.RuntimeConceals | modules/integration/default.nix:55-65 | at every depth, the compiled definition shows nothing at a key that spells a secret but the empty string or a reference |
| SecretPipeline.ReservedKeyFails | scripts/integration/common.py:67-79 | a literal reserved key that passes the checks is refused when it is resolved |
| LibraryPaths.UpdatePaths | scripts/integration/adapters/jellyfin.py:45-69 | success leaves exactly the declared paths; a rolled-back update restores the original paths if and only if no lost answer hid an effect; the error that says otherwise is raised if and only if a compensation failed; no state on the way lacks both an original and a declared path, except after a lost removal |
| LibraryPaths.Rollback | scripts/integration/adapters/jellyfin.py:30-42 | what compensation makes of the paths for any outcomes, and when no state on the way is bad |
| LibraryPaths.RolledBackTo | scripts/integration/adapters/jellyfin.py:30-42 | after complete compensation the paths are the original ones up to the effect of the unanswered request |
| LibraryPaths.RefusedCompensation | scripts/integration/adapters/jellyfin.py:30-42 | a refused compensation can leave no path at all |
| LibraryPaths.ReconcilePaths | scripts/integration/adapters/jellyfin.py:160-178 | whatever the paths were, an undisturbed update ends with the declared ones, and an unchanged library sends nothing; a rolled-back one restores the original paths if and only if no lost answer hid an effect, and the error that says otherwise is raised if and only if a compensation failed |
| PasswordLedger.ReconcileUsers | scripts/integration/adapters/jellyfin.py:182-228 | at every exit each fingerprint was taken from an accepted password, no password is sent for an account whose fingerprint verifies the declared one, at most one for any other existing account, undeclared accounts are identical, and the fields of each declared account are as they were or done; a reliable run succeeds exactly if every declaration is ready; a finished managed run gave every changed password to the server and every declared account its fields; a ledger in step stays in step, except for a password that the server took before the run failed; if every account is as wanted and every password known, nothing is sent |
| PasswordLedger.RunTwice | scripts/integration/adapters/audiobookshelf.py:49-92 | after a finished managed run the next one sends no password, even if it is cut off, and if no declaration holds a `fields` object it succeeds without sending anything; the first succeeds on a reliable server if the declarations are ready, and either leaves every declared password known if it succeeds |
| PasswordLedger.HeldExactly | scripts/integration/adapters/jellyfin.py:207-228 | after a finished managed run the server holds the declared password if and only if the ledger had not verified it at the start or was in step with the server for this account |
| PasswordLedger.LostAnswer | scripts/integration/adapters/jellyfin.py:207-228 | a lost answer makes a sound state in which the former password counts as settled while the server holds the later one |
| PasswordLedger.OnlyAccepted | scripts/integration/common.py:175-184 | with an injective hash the ledger verifies no password but accepted ones |
| PasswordLedger.JellyfinUser | scripts/integration/adapters/jellyfin.py:200-228 | policy and password as separate requests, each only if it is needed; afterwards the account is no administrator unless declared, contains the declared policy and keeps every undeclared path |
| PasswordLedger.AudiobookshelfUser | scripts/integration/adapters/audiobookshelf.py:56-92 | one request if anything declared is missing; afterwards the account contains the declaration, is an active user unless declared otherwise, and keeps every undeclared key |
| PasswordLedger.NavidromeUser | scripts/integration/adapters/navidrome.py:44-80 | one request if the merge differs; afterwards the account is no administrator unless declared, contains the declaration and keeps every undeclared path |
| AccountFields.DesiredIsDone | scripts/integration/adapters/navidrome.py:44-80 | what each adapter wants of an account has its literal defaults where nothing is declared, contains a declaration without `fields` objects, and is otherwise what was there |
| AccountFields.DesiredSucceeds | scripts/integration/adapters/navidrome.py:44-80 | a declaration can be dealt with if and only if no `fields` object in it fails to fit the account; patching never fails |
| PasswordLedger.TakeFingerprint | scripts/integration/common.py:175-184 | gives the previous fingerprint back exactly when it verifies the password |
| LanguageProfiles.ReconcileTwice | scripts/integration/adapters/bazarr.py:31-66 | the update succeeds exactly when it can, with the six fields and the need for languages written out, keeps positions, ids, names, undeclared profiles and the undeclared fields of declared ones, makes new profiles of the declaration and the five literal defaults, has distinct ids and each declared name once with its fields; a second run submits nothing |
| LanguageProfiles.Reconcile | scripts/integration/adapters/bazarr.py:31-66 | the loop computes the plan, with new ids above all existing ones |
| LanguageProfiles.PlanMeans | scripts/integration/adapters/bazarr.py:34-63 | what the plan means, for every collection and list of declarations |
| CredentialFile.InstallFragment | scripts/downloaders/nzbget-credentials.py:12-35 | the written file is the retained lines and then the declared settings; a refused fragment leaves the file |
| CredentialFile.ParseFragment | scripts/downloaders/nzbget-credentials.py:12-26 | the parsing loop refuses at the first bad line |
| CredentialFile.ReadLinesMean | scripts/downloaders/nzbget-credentials.py:13-24 | the settings are exactly the meaningful lines, in order, with distinct known keys |
| CredentialFile.AcceptedMeans | scripts/downloaders/nzbget-credentials.py:12-26 | a fragment is accepted if and only if each line is blank, a comment, or gives one of the known keys a value, no key twice, and one gives the control password |
| CredentialFile.ReadBack | scripts/downloaders/nzbget-credentials.py:27-29 | each declared key occurs exactly once, at its new value |
| CredentialFile.OthersRetained | scripts/downloaders/nzbget-credentials.py:28-28 | all other lines stay in their original order |
| CredentialFile.Absorbs | scripts/downloaders/nzbget-credentials.py:27-29 | an installation that covers the keys of an earlier one leaves no trace of it |
| CredentialFile.InstallTwice | scripts/downloaders/nzbget-credentials.py:12-35 | both installations succeed if and only if both fragments are accepted; what a later covering fragment writes does not depend on an earlier one, and installing a fragment again changes nothing |
| CredentialFile.LinesOfText | scripts/downloaders/nzbget-credentials.py:27-35 | what is written is read back line by line |

## Left out

- HTTP transport, retries, cookies, timeouts, URL checks and readiness waits: a request is one server step.
- The bodies of scrypt and sha256, and random salts: parameters and free choices.
- Python's equality of booleans and numbers, and numbers that are not integers: JSON values are compared as they are.
- Python's other line separators and whitespace in `splitlines` and `strip`: lines end at line feeds.
- Field whitelists, value ranges and enumerations of the Arr and autobrr adapters: single-branch checks before the protocol starts.
- The dry-run branch and the counts of the autobrr adapter: the Arr adapter's dry run is the harder one and is proved.
- AutobrrReconcile.Reconcile: entries of a filter's indexer list without a numeric id are refused, where the script would also accept other sortable ids.
- The fallback between autobrr's two downloader routes: both name the same table.
- ArrManager.Reconcile: match values are strings; other JSON values as names, paths or labels are not modelled.
- ArrManager.Reconcile: the requests by which one step reads the server fail together or not at all; they change nothing.
- ArrManager.Reconcile: the planned dependencies are a set, so the order in which the report lists them is not modelled.
- Recovery.Snapshot: ownership, modes, timestamps, symbolic links and the checks of the staging directory's ancestors are not modelled; paths are resolved component lists.
- Recovery.Snapshot: the manifest is a flat list of entries, without the grouping by service and the unit lists.
- Recovery.Host.Stop: on an unreliable host units may be left in any state, because systemd may fail at any point of a job.
- Recovery.DumpAll: dumps have arbitrary contents.
- PressureGuard.Guard.Run: users interfere between runs, not between the requests of one run.
- LibraryPaths.UpdatePaths: library options are one opaque value, and creating a library is not modelled.
- PasswordLedger.ReconcileUsers: onboarding, logins, libraries and encoding settings of the three services are not modelled; all three ledgers are one kind of map from account to fingerprint.
- Bazarr's plain settings, default profiles and enabled languages: comparisons of single values and one set union.
- Atomic replacement of the NZBGet file and its permissions.
- Seerr, qBittorrent's configuration, health checks, PostgreSQL restore, command lines and output: the same shapes as above or plain calls.
