# Proxa, verified

A Dafny model of the decision-making parts of Proxa, a declarative container
orchestrator: what the reconciler decides and does on every tick, how requests
are routed, how probe failures are counted, how definitions are hashed and
events are written, and which binaries may read which documents. The model
follows the Go code branch by branch; where the repository's documents say
something else, the code is followed and the difference is listed below.

Nothing here runs the program. `dafny verify dfyconfig.toml` checks everything.

## How it is organised

| file | component |
|---|---|
| `Domain`, `Strings`, `Arithmetic`, `Decimals`, `Ordering` | shared values, splitting, division by a variable, Go's decimal integers, byte-wise string order, `slices.SortFunc` as "some sorted permutation" |
| `Labels` | container names and labels |
| `Json`, `Hashing` | the canonical printer and the specification hash |
| `Diff`, `Churn` | `Compute` against a multiset specification, and what that specification implies |
| `Journal`, `Probes`, `Runtime` | the shared ghost log, the probe manager, a container runtime in which every call may fail |
| `Strategy`, `Tick`, `Convergence`, `Reconciler` | the two rollout strategies, one action, what a tick achieves, the whole reconciliation |
| `Success`, `Liveness`, `TwoTicks` | when a tick succeeds on a reliable runtime, the runs that show what stands in the way, how many ticks reach the fixed point |
| `Routing`, `Admission`, `Interleaving`, `Ingress`, `BackendPool` | the routing table, the store's admission rules, requests that interleave, the L4 forwarders, round robin |
| `Sse`, `Version`, `Precedence` | event-stream framing against the HTML Living Standard's parser, the version gate, and section 11 of Semantic Versioning 2.0.0 beside it |

The container world is a map from ID to name, labels and state. A runtime call
may succeed, fail without effect, or fail after taking effect (a `reliable`
runtime fails only where the daemon must refuse, without effect); each one records
the world it leaves behind in a ghost log, and the probe manager records in the
same log every snapshot that is read. Statements about "every moment of every
run" are statements about every position of that log. Go's random map iteration
is a choice of an arbitrary remaining key, and an unstable sort promises only a
sorted permutation, so results hold for every iteration order.

## Where the documents and the code disagree

- `specs/002-health-checks/contracts/strategy.md:55` has a start-first rollout wait `interval x retries`; the code waits `interval x (retries + 1)` and never less than ten seconds.
- `specs/002-health-checks/contracts/strategy.md:56` renames the old container before removing it; the code removes it under its own name.
- `specs/002-health-checks/contracts/probe.md:115` and `docs/operations.md:470` have a container turn unhealthy after several failures, with a transition of streak 4; in the code the first failure does it, so every fall carries streak 1 (`Probes.TransitionsAlternate`).
- Retry budgets up to 100 are accepted, but the history holds 32 results, so a budget of 33 or more is never used up (`Admission.LargeBudgetNeverUsedUp`).
- `specs/001-core-loop/validation.md:61` has the loop converge; with two live containers in one slot the diff sees only the last one listed. `Convergence.ConvergesExactly` says exactly when a fully successful tick then still reaches a fixed point, `Convergence.DuplicateRemains` gives one that does not.
- `specs/003-ingress/tasks.md:89` expects a conflict for any duplicate route; `routesConflict` ignores ports and no check looks for repeats inside one service's own list; `Admission.AdmittedRoutesBuild` shows that these two gaps are the only ones.
- FR-009 of `specs/003-ingress` promises that route changes are reloaded, and FR-007 that an L4 route forwards to its own service; a forwarder that is kept across an update keeps the service it was started for. `Ingress.StaleBinding` is the failing run, `Ingress.BoundAsDeclared` and `Ingress.ServedSinceAppearance` say exactly what is served instead.
- SC-001-2 of `specs/001-core-loop` compares desired replicas with running containers; the code counts "created" as active, so a container whose start failed fills its slot for good (`Convergence.StartFailedCounts`). `Convergence.OccupantsRunExactly` says exactly when a tick leaves only running ones.
- `specs/001-core-loop/validation.md:21` shows a crashed container removed and then created anew under its own name; the sort leaves the order of the two open, and in the other order the create is refused (`Liveness.SortDecides`, `Liveness.TickSucceedsExactly`).
- `specs/003-ingress/contracts/route.md:37` calls the host of an L4 route informational; `routesConflict` compares it all the same, so services with no host and different ports are refused (`Admission.HostlessPortsRefused`). `Admission.RefusedThoughBuildable` says exactly when a refusal was not needed.
- `specs/001-core-loop/contracts/toml-grammar.md:150` has stop-first keep two writers apart at all times; that holds of the container under the name of the slot (`Liveness.NoSecondHolder`), and a replica that kept its temporary name runs beside its successor when it is given up on (`Liveness.TemporaryNameCoexists`).
- Versions are semantic versions, but the gate strips pre-releases before it compares, so "1.0.0-rc.1" passes where "1.0.0" is required (`Precedence.PrereleaseAdmitted`). `Precedence.GateFollowsStandard` says exactly when the gate gives the verdict of section 11 of Semantic Versioning 2.0.0.
- Names are unique only within a project (`Labels.NamesCollideAcrossProjects`), and specification integers above 2^53 are hashed by their float64 value (`Hashing.LargeIntervalsCollide`).

## Model

| member | source | states |
|---|---|---|
| `Convergence.ConvergesExactly` | internal/reconciler/reconciler.go:164-200 | after a tick in which every action succeeds, the diff of the new world is empty however it is listed, if and only if the live containers that shared a slot with the one that counted were themselves as desired |
| `Convergence.Converges` | internal/reconciler/diff.go:58-155 | with at most one live container per slot a fully successful tick ends in a world with nothing to do and again at most one live container per slot |
| `Convergence.DuplicateRemains` | internal/reconciler/diff.go:72-75 | for every slot: of two running containers in it, undesired, a fully successful tick removes one and does not converge |
| `Convergence.StartFailedCounts` | internal/reconciler/diff.go:157-166 | a create whose start fails leaves a container in state "created"; every later diff finds nothing to do |
| `Convergence.RunsExactly` | internal/reconciler/diff.go:157-166 | after a fully successful tick every container in a desired slot runs if and only if all those the tick leaves alone were running |
| `Convergence.OccupantsRunExactly` | internal/reconciler/diff.go:157-166 | with one live container per slot that is: if and only if the container that counted in each slot without an action was running |
| `Convergence.SlotConverges` | internal/reconciler/action.go:17-67 | whatever fails elsewhere, a slot whose own actions succeeded holds exactly one container, active and with the wanted hash, or none if none is desired |
| `Convergence.SettledIsQuiet` | internal/reconciler/diff.go:99-142 | where every slot holds only what is wanted and something where something is wanted, the diff is empty |
| `Convergence.UndesiredSlotDrains` | internal/reconciler/diff.go:63-88 | a slot that is not desired loses all dead containers and at least one live one in every successful tick and gains none |
| `Convergence.DrainDecreases` | internal/reconciler/diff.go:130-142 | a service with no desired slot strictly loses containers in every tick whose actions on it succeed, until none is left |
| `Convergence.SlotBound` | internal/reconciler/diff.go:63-88 | after k such ticks a slot holds at most its initial number of live containers minus k, whatever states change between the ticks |
| `Convergence.DrainTerminates` | internal/reconciler/reconciler.go:164-200 | a drain is complete after max(1, the largest number of live containers in one slot) ticks, duplicates included; between ticks containers may change state or vanish and other services may do anything |
| `Diff.Compute` | internal/reconciler/diff.go:58-155 | for every map iteration order the result is sorted by slot and is, with multiplicities, the specified multiset of rotations, creates, replaces and surplus removals |
| `Diff.CollectDesired` | internal/reconciler/diff.go:91-97 | the map built by the nested loops has one entry for each replica of each service, later services winning |
| `Diff.WantedPass` | internal/reconciler/diff.go:99-128 | each desired slot yields exactly one create if nothing counts there, one replace if the hash differs, and nothing otherwise |
| `Diff.SurplusPass` | internal/reconciler/diff.go:130-142 | each occupied slot that is not desired yields exactly one remove of the container that counts |
| `Churn.LiveSound` | internal/reconciler/diff.go:63-75 | the container that counts for a slot was listed, is labelled for it, active and not given up on |
| `Churn.LiveComplete` | internal/reconciler/diff.go:63-75 | every active, healthy, labelled container makes its slot occupied |
| `Churn.DesiredSound` | internal/reconciler/diff.go:91-97 | every desired slot is a replica in range of a desired service |
| `Churn.DesiredComplete` | internal/reconciler/diff.go:91-97 | every replica in range of a desired service is a desired slot |
| `Churn.EachNamedOnce` | internal/reconciler/diff.go:58-155 | no container is named by two actions, no slot is created or replaced twice |
| `Churn.NamedExactly` | internal/reconciler/diff.go:58-155 | a listed container is named by an action if and only if it is dead, given up on, of the wrong hash, or the one that counts in an undesired slot |
| `Churn.ScalingChurn` | internal/reconciler/diff.go:99-142 | scaling a converged service from n to m replicas yields exactly the creates of replicas n to m-1, or the removes of replicas m to n-1, and no replace |
| `Reconciler.ProbeUnhealthySet` | internal/reconciler/reconciler.go:207-232 | while results keep arriving, a listed container is in the set if and only if, when it was looked at, its service was desired, it was probed, and its whole run of results ended in at least the budgeted number of failures, the budget being at most 32 |
| `Reconciler.BudgetUsedUp` | internal/reconciler/reconciler.go:219-230 | the snapshot test "not healthy and streak >= retries" means exactly that many consecutive failures in the uncapped run, and is never met for budgets above 32 |
| `Reconciler.ActionsRunnable` | internal/reconciler/reconciler.go:164-190 | a diff never makes two containers for one slot or names one twice, names only containers the runtime knows, and asks only for printable replicas |
| `Reconciler.UpdateProbes` | internal/reconciler/reconciler.go:273-308 | a listed container ends up tracked if and only if it is active and its service is desired, restarted exactly if its probe settings changed; tracking off the listing is untouched |
| `Reconciler.ExactAfter` | internal/reconciler/reconciler.go:273-308 | tracking what is wanted and then untracking what is listed and not wanted leaves exactly the wanted containers of the listing tracked |
| `Reconciler.Act` | internal/reconciler/reconciler.go:164-190 | what listing, diffing and acting leaves behind is a round: the specified actions, run with whatever failures, on the containers given up on by what was known when each was looked at, which is bounded on both sides by what was known before and after; of every other container than the replaced and the new ones tracking only gains results |
| `Reconciler.ReconcileProject` | internal/reconciler/reconciler.go:164-200 | every reconciliation either changes nothing or is a round to which the convergence and drain results apply, and every moment of it, listings included, is one of `Reconciler.SlotGuarded`; from start to end, whatever fails, tracking of containers outside the project only gains results; where a replace succeeded the successor is tracked and the old container is not when tracking is brought in line, and that ends exact on the listing |
| `Reconciler.SlotGuarded` | internal/reconciler/reconciler.go:164-200 | at every moment of every reconciliation, whatever fails, a desired slot whose container counts is guarded: without an action the container is there unchanged and alone; start-first it is there unchanged or a new one of the wanted hash was seen healthy; stop-first nothing new is in the slot while it exists |
| `Tick.Apply` | internal/reconciler/action.go:17-38 | at every moment one action touches only the container it names and adds only containers for its slot under unused IDs, and a plain one adds none while another holds the name it needs; on success the named container is gone, exactly one new running one is there, and after a replace that one is tracked and the old one is not; on a reliable runtime a plain action succeeds if and only if the daemon has nothing to refuse, and a start-first replace if moreover a healthy snapshot is read |
| `Tick.ApplyCreate` | internal/reconciler/action.go:40-67 | pull, create and start in that order, stopping at the first failure, with exactly these calls logged |
| `Tick.ApplyReplace` | internal/reconciler/action.go:20-36 | at every moment, for a service that asked for stop-first, or is stateful and asked for nothing, nothing new is in the slot while the old container exists; for any other the slot is held |
| `Tick.AppliedStep` | internal/reconciler/reconciler.go:177-190 | the effect of a list of actions extends by one action, failed or not |
| `Tick.ProbedStep` | internal/reconciler/reconciler.go:177-190 | the effect of a list of actions on tracking extends by one action, failed or not: nothing but replaced and new containers, successors tracked, replaced ones not |
| `Tick.RunActions` | internal/reconciler/reconciler.go:177-190 | a failed action does not stop the rest: in every slot without a failure the named containers are gone and the created one is the only newcomer, at every moment unnamed containers are unchanged and every action is guarded, and tracking changes only for replaced containers and new ones, the successors of successful replaces being tracked |
| `Tick.AllMomentsStep` | internal/reconciler/reconciler.go:177-190 | what guards one action at every moment guards all of them while it runs after the others |
| `Success.SucceedsExactly` | internal/reconciler/action.go:17-67 | on a reliable runtime every action of a list in one project succeeds if and only if no action needs the name of a container that no action up to it takes away and every start-first replace saw its new container healthy |
| `Liveness.TickSucceedsExactly` | internal/reconciler/reconciler.go:177-190 | the same for a whole tick, read off the world before it |
| `Liveness.SortDecides` | internal/reconciler/diff.go:144-152 | for a dead container under its own name the diff is its removal and a create that sort alike; on a reliable runtime the tick succeeds in one order, and in the other the slot fails and is left empty: both runs are returned |
| `Liveness.NoSecondHolder` | internal/reconciler/strategy.go:151-206 | at no moment of a reconciliation, whatever fails, does a new container in a stop-first slot exist together with one that had the name of the slot before the tick, rotations included |
| `Liveness.TemporaryNameCoexists` | internal/reconciler/diff.go:63-88 | a given-up stop-first replica that still has its temporary name does run together with its successor: the run is returned |
| `TwoTicks.TwoTicksConverge` | internal/reconciler/reconciler.go:164-200 | on a reliable runtime two ticks in a row reach the fixed point whatever the first one refuses: with one live container per slot, the names of slots held only in those slots, no container that waits for a start-first replace under its temporary name, none given up on in the second tick and its start-first successors seen healthy |
| `TwoTicks.LeakedNameStuck` | internal/reconciler/strategy.go:68-83 | a start-first replica under its temporary name is never replaced: the tick is refused and ends in the world it started from |
| `Strategy.ProbeDeadlineFor` | internal/reconciler/strategy.go:259-270 | the deadline is at least ten seconds even where the product wraps |
| `Strategy.DeadlineExact` | internal/reconciler/strategy.go:259-270 | the deadline is the larger of ten seconds and the effective interval times one more than the effective retries, if and only if that product fits in 64 bits |
| `Strategy.WaitForFirstHealthy` | internal/reconciler/strategy.go:232-254 | it touches no container, and reports success if and only if a healthy snapshot of this container was read meanwhile; a tracked container is looked at at least once |
| `Strategy.WaitForExit` | internal/reconciler/strategy.go:210-228 | it only looks: no container changes while it waits, and a reported exit is real |
| `Strategy.StartFirst` | internal/reconciler/strategy.go:68-138 | at every moment of every run, whichever calls fail, the slot holds the untouched old container or a new one of the wanted hash already seen healthy; success means exactly the new one is left; the old one is given up only after the new one was seen healthy, and a rollback happens only if it never was and leaves the old one untouched; calls and their order are stated for each outcome; on a reliable runtime the outcome is decided by the temporary name and the verdict; after success the new container is tracked and the old one is not, after a rollback the new one is not, and every other entry only gains results |
| `Strategy.Trial` | internal/reconciler/strategy.go:68-119 | up to the health verdict nothing that existed before is touched, and the verdict "healthy" rests on a snapshot that was read |
| `Strategy.Promote` | internal/reconciler/strategy.go:121-138 | while the old container is removed and the new one renamed the new one is always there |
| `Strategy.CutHolds` | internal/reconciler/strategy.go:68-138 | a run that only adds until the new container is seen healthy, and keeps it from then on, never loses the slot |
| `Strategy.StopFirst` | internal/reconciler/strategy.go:151-206 | at no moment of any run do the old container and a new one exist together; success means exactly the new one is left; calls and their order are stated for each outcome; on a reliable runtime it succeeds if and only if the old container exists and no other has the canonical name; after success the new container is tracked and the old one is not, and every other entry only gains results |
| `Strategy.Retire` | internal/reconciler/strategy.go:159-170 | stopping and removing the old container adds none, touches no other, and on success it is the only one gone |
| `Strategy.ApartHolds` | internal/reconciler/strategy.go:151-206 | a run that adds nothing until the old container is gone never has two writers |
| `Labels.BuildContainerLabels` | internal/runtime/docker/labels.go:37-48 | the result is the requested labels with the seven stamped ones on top, for any iteration order |
| `Labels.SlotRoundTrip` | internal/runtime/docker/container.go:35-49 | a slot printed at creation, re-read and re-printed when stamped, and parsed by the diff is the same slot, and the hash label arrives unchanged |
| `Labels.NameCollision` | internal/runtime/docker/labels.go:58-60 | two slots share a name if and only if their replicas agree and project and service join to the same text |
| `Labels.NameInjective` | internal/runtime/docker/labels.go:58-60 | within one project the name determines service and replica |
| `Labels.NamesCollideAcrossProjects` | internal/runtime/docker/labels.go:58-60 | ("a", "b-c") and ("a-b", "c") share their names |
| `Labels.TemporaryNeverCanonical` | internal/reconciler/strategy.go:69-70 | no temporary name of a rollout equals any canonical name |
| `Decimals.AtoiFormat` | internal/reconciler/action.go:44-57 | parsing what was printed gives back every machine integer, negative ones included |
| `Runtime.Docker.CreateContainer` | internal/runtime/docker/container.go:35-49 | a reported container is new, "created", under a never-used ID with the stamped labels; an unreported one may exist all the same |
| `Runtime.Docker.RemoveContainer` | internal/runtime/docker/container.go:86-92 | success means the container is gone; failure leaves the world alone or has removed it |
| `Runtime.Docker.RenameContainer` | internal/runtime/docker/container.go:96-104 | a taken or empty name or an unknown container is refused; nothing but the name changes |
| `Runtime.Docker.ListContainers` | internal/runtime/docker/container.go:167-196 | a listing has every managed container of the project exactly once, in any order |
| `Probes.History.Append` | internal/probe/result.go:19-26 | the ring holds the last 32 results |
| `Probes.History.Streak` | internal/probe/result.go:42-53 | the backward loop counts the failures at the end of the ring |
| `Probes.StreakRefinesCounter` | internal/probe/result.go:19-53 | the count in a window of n results is min(n, consecutive failures in the whole run) |
| `Probes.TransitionsAlternate` | internal/probe/manager.go:334-357 | over any run of results the transitions strictly alternate starting with a recovery, every fall carries streak 1 and every recovery streak 0, and the last one agrees with the current state |
| `Probes.Manager.Track` | internal/probe/manager.go:153-199 | refused exactly for the empty ID; unchanged settings keep the entry with its history, changed ones restart it; other entries are untouched |
| `Probes.Manager.Untrack` | internal/probe/manager.go:202-218 | exactly this entry goes |
| `Probes.Manager.TrackedIDs` | internal/probe/manager.go:222-230 | each tracked ID exactly once, in any order |
| `Probes.Manager.ReadSnapshot` | internal/probe/manager.go:234-246 | the snapshot is the one determined by all results so far |
| `Probes.Manager.RecordResult` | internal/probe/manager.go:334-357 | the result joins the run of this container, and the audit sink gets exactly the transition that this run has at this point, if any |
| `Probes.Manager.EmitTransition` | internal/probe/manager.go:392-417 | one record per transition for the sink: type, actor, short ID and JSON payload; the sink answer is not looked at |
| `Probes.RecordTells` | internal/probe/manager.go:405-412 | the record determines the transition: equal payloads mean equal states and streak |
| `Probes.EmittedAlternates` | internal/probe/manager.go:334-357 | the sink holds a record of each emission in order, and of a tracked container, whatever else has happened, the last emissions, one for each transition since tracking began, strictly alternate from a recovery, the final one agreeing with its snapshot |
| `Json.MarshalSorted` | internal/hash/hash.go:60-105 | whatever the map iteration order, the text is the canonical one of the document |
| `Json.QuoteUnique` | internal/hash/hash.go:74-78 | a quoted string is self-delimiting: string and remainder can be read back from the text |
| `Json.JoinedUnique` | internal/hash/hash.go:69-101 | a comma-separated list can be read back part by part |
| `Json.PrintUnique` | internal/hash/hash.go:60-105 | a printed document followed by a delimiter can be read back in one way only |
| `Json.PrintInjective` | internal/hash/hash.go:60-105 | two documents print alike if and only if they are equal |
| `Ordering.SortedUnique` | internal/hash/hash.go:63-67 | a set of keys has one sorted listing, so the order of insertion cannot show |
| `Hashing.ComputeHash` | internal/hash/hash.go:29-57 | replicas, strategy and schedule are cleared, the rest is printed canonically, numbers in the shortest digits of their float64, and digested |
| `Hashing.PrintedSame` | internal/hash/hash.go:48-56 | two integers are printed alike if and only if they decode to one float64 |
| `Hashing.PrintedExact` | internal/hash/hash.go:48-56 | integers below 2^53 are printed as they are |
| `Hashing.JsonSame` | pkg/types/taskdef.go:21-121 | two definitions have the same JSON form if and only if they agree on every field, integers up to their float64 value |
| `Hashing.HashIgnoresDeployment` | internal/hash/hash.go:29-36 | the hash does not depend on replicas, strategy or schedule |
| `Hashing.HashAgrees` | internal/hash/hash.go:29-57 | unless the digest collides on the two texts, hashes agree if and only if the definitions agree outside replicas, strategy and schedule, integers up to their float64 value |
| `Hashing.HashDetectsDrift` | internal/hash/hash.go:29-57 | for integers up to 2^53 the hashes agree if and only if the definitions are equal outside those three fields |
| `Hashing.Float64Exact` | internal/hash/hash.go:49-56 | integers up to 2^53 survive the passage through float64 |
| `Hashing.LargeIntervalsCollide` | internal/hash/hash.go:49-56 | intervals of 2^53 and 2^53 + 1 nanoseconds hash alike whatever the digest |
| `Routing.MatchesAreRanked` | internal/ingress/router.go:77-90 | of two different globs matching one path, one is longer, or as long and exact against a wildcard |
| `Routing.MatchMeans` | internal/ingress/router.go:77-90 | a wildcard matches the paths starting with all but its star, one ending in slash-star also the path before the slash; any other glob matches itself, and the empty one everything |
| `Routing.BuildRouter` | internal/ingress/router.go:97-169 | for every iteration order it succeeds if and only if no two declarations clash, and then the table holds exactly the declared routes in order of precedence |
| `Routing.AddRoute` | internal/ingress/router.go:108-143 | the bookkeeping refuses a declaration if and only if it clashes with one walked before |
| `Routing.FirstMatchIsBest` | internal/ingress/router.go:45-58 | the first match of a sorted table is the most specific of all declarations that apply |
| `Routing.BestIsUnique` | internal/ingress/router.go:45-58 | at most one declaration is the best for a host and path |
| `Routing.LookupL7` | internal/ingress/router.go:45-58 | the answer is the best declaration for host and path, and there is none only if no declaration applies |
| `Routing.LookupL4` | internal/ingress/router.go:61-70 | the answer is the declaration with that protocol and port, and there is none only if none is declared |
| `Admission.RoutesChecked` | internal/parser/toml/validate.go:119-144 | a list is accepted if and only if each of its routes is |
| `Admission.AcceptedRoute` | internal/parser/toml/validate.go:119-163 | an accepted L7 route has a host, an accepted L4 route a port in range, and a star stands only at the end of a path |
| `Admission.LargeBudgetNeverUsedUp` | internal/parser/toml/validate.go:200-202 | accepted budgets of 33 to 100 are never used up; up to 32 a probed container is given up on exactly at the budgeted number of consecutive failures |
| `Admission.StepKeeps` | internal/server/handlers.go:194-295 | every request, taken as one step, keeps stored routes valid and free of conflicts between services; steps that interleave are `Interleaving.ConflictsOnlyByOverlap` |
| `Admission.ReachableStoresConflictFree` | internal/parser/toml/validate.go:227-274 | so does every sequence of such requests from the empty store |
| `Admission.RacingUpserts` | internal/server/handlers.go:227-238 | two upserts that both check before either writes are both admitted, and the store stays conflict-free if and only if they do not conflict with each other |
| `Admission.RaceBreaks` | internal/server/handlers.go:227-238 | two definitions for one host in two projects both pass the check against the empty store, and after both writes the store holds a conflict |
| `Interleaving.ConflictsOnlyByOverlap` | internal/server/handlers.go:194-295 | however upserts, scalings and deletions interleave, the checks and reads of each apart from its write, stored routes are valid, and two stored services conflict only if each was checked before the other was written; if no two were, the store is free of conflicts |
| `Admission.AdmittedRoutesBuild` | internal/reconciler/reconciler.go:144-162 | the published routes of every reachable store build a table if and only if no service repeats a host and path and no two L4 routes share protocol and port |
| `Admission.AdmittedRoutesUsable` | internal/parser/toml/validate.go:119-144 | every published L4 route has a port in range and every L7 route a host |
| `Admission.UncheckedRepeatAdmitted` | internal/parser/toml/validate.go:227-274 | a service that declares one route twice is admitted, and its table is refused |
| `Admission.RefusedThoughBuildable` | internal/parser/toml/validate.go:227-274 | a valid definition is refused although the table with it would build if and only if it conflicts with the store, an L4 route takes part in every conflict, no service repeats a host and path and no two L4 routes share protocol and port |
| `Admission.HostlessPortsRefused` | internal/parser/toml/validate.go:262-272 | of two services of one project with an L4 route each, no host and different ports, the second is refused, although the table of both builds |
| `Ingress.CertMagicIngress.UpdateRoutes` | internal/ingress/certmagic_ingress.go:142-197 | refused if and only if routes clash, and then nothing changes; otherwise table and hosts are the declared ones, dropped forwarders were stopped exactly once, kept ones are the same objects, and the bindings are those of `Ingress.BoundAsDeclared` |
| `Ingress.CertMagicIngress.StopGone` | internal/ingress/certmagic_ingress.go:171-178 | exactly the forwarders whose keys are gone are stopped, once each |
| `Ingress.CertMagicIngress.StartNew` | internal/ingress/certmagic_ingress.go:179-194 | exactly the missing keys get a forwarder, bound to the declared service and balancing |
| `Ingress.ForwardersTrackTable` | internal/ingress/certmagic_ingress.go:142-197 | while the controller runs, the forwarders' keys are the table's L4 keys with a positive port |
| `Ingress.BoundAsDeclared` | internal/ingress/certmagic_ingress.go:179-194 | an accepted update of a running controller leaves every forwarder bound as declared if and only if the keys that are kept were already bound so |
| `Ingress.ServingKeys` | internal/ingress/certmagic_ingress.go:142-197 | over any run of updates, refused ones included, exactly the keys of the last accepted table are bound |
| `Ingress.ServedSinceAppearance` | internal/ingress/certmagic_ingress.go:179-194 | for every key that is declared there is exactly one update at which it last appeared, and the key is bound to the service and balancing declared by it |
| `Ingress.StaleBinding` | internal/ingress/certmagic_ingress.go:180-183 | for every port that changes hands between two accepted updates the forwarder serves the first service, not the declared one |
| `BackendPool.Pool.Pick` | internal/ingress/backend_pool.go:56-85 | none if and only if none is healthy, and then no ticket is used; otherwise a healthy backend, under round robin the one the ticket designates |
| `BackendPool.Pool.Healthy` | internal/ingress/backend_pool.go:34-44 | exactly the healthy backends, in order |
| `BackendPool.Pool.HealthyCount` | internal/ingress/backend_pool.go:95-105 | their number |
| `BackendPool.FairBeforeWrap` | internal/ingress/backend_pool.go:56-85 | any run of n tickets that does not wrap gives each of h positions floor(n/h) or ceiling(n/h) of them |
| `BackendPool.PicksFair` | internal/ingress/backend_pool.go:56-85 | on a fixed pool each healthy backend is picked floor(n/h) or ceiling(n/h) times and no other at all |
| `BackendPool.PickRun` | internal/ingress/backend_pool.go:56-85 | n calls of `Pick` return the backends of n consecutive tickets, and the cursor moves by n |
| `BackendPool.AtCount` | internal/ingress/backend_pool.go:56-85 | a backend listed once is returned as often as its position is picked |
| `BackendPool.FairAlways` | internal/ingress/backend_pool.go:75-80 | every run is fair, wrapping ones included, if and only if h divides 2^64 |
| `BackendPool.UnfairAtWrap` | internal/ingress/backend_pool.go:75-80 | otherwise the tickets around the wrap serve one position twice |
| `Sse.WriteSSEEvent` | internal/server/sse.go:16-25 | the loop writes the name line, one data line per line of data, and a blank line |
| `Sse.WriteSSEData` | internal/server/sse.go:29-32 | one data line and a blank line |
| `Sse.ParseStream` | internal/server/sse.go:16-32 | the parser of section 9.2.6 of the HTML Living Standard cuts a stream without stray CR into exactly the lines that were written |
| `Sse.FrameRead` | internal/server/sse.go:16-32 | it reads the lines of a clean frame as its message, whatever follows |
| `Sse.StreamWeight` | internal/server/sse.go:29-32 | a stream holds as much data as its messages, and less if a log line was broken by a line feed |
| `Sse.RoundTrip` | internal/server/sse.go:16-32 | a sequence of calls is parsed back as exactly the messages written, in order, if and only if no data has a CR and no name or log line a line end |
| `Version.AtoiSafe` | internal/parser/toml/parser.go:131-143 | exactly the nonempty digit strings are read, with 64-bit wrap-around |
| `Version.WrappedIsValue` | internal/parser/toml/parser.go:131-143 | the number read is the value modulo 2^64, and the value itself if and only if it fits |
| `Version.SemverCompare` | internal/parser/toml/parser.go:92-115 | the loop decides at the first difference and gives up at the first component that is no number |
| `Version.CompareMeans` | internal/parser/toml/parser.go:92-115 | the sign is the lexicographic order on zero-padded component lists |
| `Version.NumericTotal` | internal/parser/toml/parser.go:92-115 | of two numeric versions one is less or they are the same, never both |
| `Version.CompareAntisymmetric` | internal/parser/toml/parser.go:92-115 | exchanging the arguments negates the sign |
| `Version.LessTrans` | internal/parser/toml/parser.go:92-115 | "less" composes with "at most" on either side |
| `Version.AtMostTrans` | internal/parser/toml/parser.go:92-115 | "at most" is transitive |
| `Version.TrailingZero` | internal/parser/toml/parser.go:124-129 | a trailing ".0" never matters |
| `Version.TagsIgnored` | internal/parser/toml/parser.go:117-122 | everything from the first "-" or "+" on is ignored; section 11 of Semantic Versioning 2.0.0 ignores only what follows a "+" |
| `Version.CheckMetaVersion` | internal/parser/toml/parser.go:73-87 | the branches of the gate, tied to the comparison |
| `Version.GateMeans` | internal/parser/toml/parser.go:73-87 | the gate rejects if and only if both sides are declared, the binary is not "dev", and it is older in that order |
| `Version.NewerPasses` | internal/parser/toml/parser.go:73-87 | a numeric binary at least as new as one that passes a gate passes it too |
| `Version.HugeComponentWraps` | internal/parser/toml/parser.go:131-143 | a component of 2^63 reads as a negative number and ranks below zero |
| `Precedence.GateFollowsStandard` | internal/parser/toml/parser.go:73-122 | for numeric cores that fit 64 bits the gate gives the verdict of section 11 of Semantic Versioning 2.0.0 if and only if the cores differ or the pre-release of the binary does not rank below the required one |
| `Precedence.GateAgreesExactly` | internal/parser/toml/parser.go:73-143 | for numeric cores of any size: if and only if, for equal cores, that holds and, for different ones, wrap-around has not turned their order |
| `Precedence.PrereleaseAdmitted` | internal/parser/toml/parser.go:117-122 | where a release is required every pre-release of it passes the gate, and section 11 ranks it below |
| `Precedence.TagLeIsTotalPreorder` | internal/parser/toml/parser.go:117-122 | the order of sections 11.3 and 11.4 on pre-releases and releases is total and transitive |
| `Precedence.StandardsExample` | internal/parser/toml/parser.go:117-122 | it puts the example chain of section 11.4 in the given order |
| `Precedence.TagRead` | internal/parser/toml/parser.go:117-122 | the pre-release of a version is what stands between the first "-" and the build metadata |

## Left out

- SHA-256: the digest is a parameter, and results that need it assume only that it does not collide on the two texts compared. `Diff`, `Strategy` and `Tick` take the specification hash as a parameter.
- Strings that are not valid UTF-8: a character is a Unicode scalar value. Glob lengths are counted in characters; among globs that match one path this ranks as bytes do.
- Host name syntax and the definition rules outside routes and health (names, strategy, ports, volumes, resources, security): parameters of the admission model, for which every choice is covered.
- The digest of probe settings that decides whether tracking restarts: a parameter of the probe manager.
- Probing itself (HTTP and exec probes, timers, start-up): results arrive at any time for any probed container; time passes by arbitrary amounts.
- Reconciler.UpdateProbes: no probe results arrive while it runs, and the backends pushed and the status written by the same function are not part of this model.
- Reconciler.ReconcileProject: containers do not change on their own and API requests do not interleave during a tick; probe results do arrive while the unhealthy set is read and while a rollout waits.
- Tick.RunActions: the guarantees at every moment concern the containers in the runtime's world; a container that the daemon itself kills or restarts during a tick is not part of this model.
- Strategy.StartFirst: the branch for a refused `Track` is not part of this model, since it is taken only for an empty ID, which the runtime never hands out; `StopFirst` likewise.
- Strategy.WaitForFirstHealthy: that its ticks come no faster on average than one per polling interval is built in, so that the loop ends.
- BackendPool.PickRun: concurrent picks are modelled as picks holding consecutive tickets; the random strategy is any healthy backend, without its distribution.
- Admission.StepKeeps: requests are atomic, where the handler checks first and writes afterwards; what interleaving requests do is `Interleaving.ConflictsOnlyByOverlap` and, for two upserts, `Admission.RacingUpserts`.
- Admission.ReachableStoresConflictFree: sequences of atomic requests only, likewise; the reads of one check happen at one moment in every case. A read failure while publishing is a project whose services are missing.
- Ingress.CertMagicIngress.UpdateRoutes: listeners, byte pumping and certificates are not part of this model; a forwarder is its key, service, balancing and the number of times it was stopped.
- Status aggregation, backend addresses, the pool registry, logging and audit events other than probe transitions: single-branch bookkeeping.
- The Docker client, SQLite, HTTP handlers beyond their effect on the store, TLS and ACME: foreign input and output.
- Command line, dashboard, authentication, roles and security profiles: user interface or flat case tables.
