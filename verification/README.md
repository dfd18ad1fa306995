# The runtime agent, modelled and proved

This project models the controller in `internal/runtimeagent`: the agent that keeps Docker
containers, proxy routes and listeners in line with applied runtime documents on one node. It
states what the controller promises and proves it with Dafny 4.11.

`dafny verify dfyconfig.toml` checks everything.

## How the model is built

Every Docker call, file operation and bind may fail. An oracle decides how: a call is done,
refused without effect, or takes effect and still reports an error; a failed `docker run` may
leave a container in any state; a failed write may leave the old file or lose it. The oracle
also fixes how long each call takes and the order in which `docker ps` lists names. "Whatever
fails" below means for every oracle.

* `Text`, `Arith`, `Collections`, `Sorting`, `Quantities`: strings and numerals, ordered
  lists, CPU and memory quantities with int64 wrap-around written out.
* `Runtimes`, `Selection`, `Naming`, `Admission`, `Routing`, `RouteTable`, `Restarts`, `Statuses`,
  `Reports`, `RoundRobin`, `AuditLog`: the documents and the parts of the controller that can be
  understood on their own.
* `Docker`, `Rollout`, `Endpoints`, `Controller`: the engine, the rollout of a deployment, the
  discovery of endpoints, and the state machine of Apply, Remove, Resync and Shutdown. Every
  write to memory or to the containers leaves a snapshot in a trace, so that theorems can
  speak about intermediate states.
* `Effects`, `Locality`, `Availability`, `Convergence`, `Scaling`, `Healing`, `Reconciliation`:
  what a rollout does to the containers, with failures and without.
* `Invariants`, `Safety`, `Runs`, `Serving`, `Answers`, `Discovery`, `Rollbacks`, `Dating`,
  `Recovery`, `Success`, `Failures`, `Apartness`, `Histories`: theorems about single steps and
  whole runs of the controller. A run is any sequence of its operations, with the containers
  changing by themselves in between.
* What the answers mean is stated apart from the functions that compute them, in terms of ports,
  hosts, paths, labels, limits and past restarts: see `Answers`, `Discovery`, `Scaling`, `Healing`,
  `Selection`, `Reports`, and in `Admission` what containers may use.
* `Examples`, `Witnesses`: small runtimes that meet every condition of the main theorems, and
  the states in which the promises below fail.
* `Manager` (module `Managers`): the controller as an object with the program's fields. Its
  methods loop and update in place as the program does, and each is proved to have the effect
  of the state machine, so that the theorems hold of the object.

## What turned out not to hold

Each of these is a lemma that gives the exact condition under which the promise is kept, and a
state in which it fails. Unless said otherwise the condition can be looked up before the call.

* A spec that is on disk but not in memory can come back without admission: by a rollback, or
  for a moment by Remove (`Safety.ApplyPortsExactly`, `Safety.RemovePortsExactly`, and
  `Safety.ApplyFitsExactly`, `Safety.RemoveFitsExactly` for capacity;
  `Witnesses.StrandedIsUnsafe`).
* After a restart, a single failing call while a spec is loaded makes the rollback remove all
  healthy containers of the runtime, because the failed generation is then that of the running
  containers (`Rollbacks.RollbackTakesExactly`; `Rollbacks.ReloadRollbackWipes`,
  `Examples.SiteWiped`).
* A rollback also takes down a replica that the update had switched over already: it is down
  until the next Resync (`Rollbacks.RollbackUpExactly`, about the state the rollback starts
  from; `Witnesses.SwitchedIsLost`).
* A cleanup that fails leaves containers of a generation that is assigned again
  (`Dating.WentBackDated`, `Dating.AssignedAgain`, both about the state afterwards;
  `Witnesses.FailedStays`).
* A rolling update with surge loses a replica if the new revision's container is there, not
  ready, and self-heal passes over it (`Availability.AvailabilityExact`;
  `Witnesses.ReplicaIsLost`).
* The containers of a deployment that an update drops or renames are never removed, however
  well the update and every later resync go (`Reconciliation.ReconcileExactly`,
  `Success.QuietApplySucceeds`, `Recovery.ResyncExactly`; `Witnesses.DroppedStays`).
* A container left under its surge name by a broken rename is never removed, and blocks later
  replacements of the same generation (`Convergence.BrokenRename`,
  `Convergence.ExactlyCanonical`, `Convergence.Converges`; `Witnesses.StrayStays`).
* A failed bind leaves the listeners out of step with the routes
  (`Serving.ApplyListenersExactly`; `Witnesses.SiteUnheard`).
* An update that fails at the network or the endpoints leaves its old routes in the table, and
  admission does not see them (`Serving.ApplyInStepExactly`, `Serving.PublishSafeExactly`;
  `Witnesses.RoutesArePart`, `Witnesses.RoutesAreCrossed`).
* The second endpoint lookup ignores the namespace (`Endpoints.LeakExactly`;
  `Witnesses.NamesakeLeaks`).
* Container names do not tell runtimes apart: what counts is how namespace, name, deployment and
  revision read once joined (`Naming.CollideExactly`; `Naming.NamesCollide`,
  `Naming.DeploymentsCollide`).
* Hosts that differ in case clash for admission, although no request can take both
  (`Answers.OverlapExactly`; `Answers.OverlapByCase`).
* A path prefix ending in two slashes matches more than it says (`Routing.MatchIsPrefix`;
  `Routing.DoubleSlashWitness`).
* int64 sums and limits can wrap (`Safety.ApplyFitsExactly`, `Safety.AdmittedFitsExactly`,
  `Quantities.CpuOverflow`; `Witnesses.SumsWrap`, `Quantities.CpuOverflowWitness`).
* Failing audit appends can lose events, and drain the backups if they go on
  (`AuditLog.FailureLosesExactly`; `AuditLog.FailedAppendsDrain`).

## Hypotheses

Stated where they are used. The container names of one runtime, and of different runtimes, do
not clash (`Statuses.NamesApart`, `Recovery.Foreign`): both can be read off the documents
(`Statuses.NamesApartExactly`, `Recovery.ForeignExactly`). Containers under a canonical name
carry the labels of that name (`Locality.Labelled`), and no leftover is in the way of a
replacement (`Convergence.Clear`). Digests are not empty. The allocatable number of processes,
an int64 in the program, is at most MaxInt64. Over runs, capacity asks that the exact sums of what
is accepted fit int64 where the node enforces them (`Safety.Countable`); ports and routing do not.

## Model

| member | source | states |
|---|---|---|
| Quantities.ParseCPUMilli | internal/runtimeagent/scheduler.go:270-305 | the digit loop computes the reading `CpuMilli` on every string, with int64 wrap-around written out |
| Quantities.CpuExactCeiling | internal/runtimeagent/scheduler.go:270-305 | for every accepted CPU limit the reading is the exact ceiling of 1000 times the decimal value, for any number of fraction digits, as long as the whole part is below MaxInt64/1000 |
| Quantities.CpuMonotone | internal/runtimeagent/scheduler.go:270-305 | a larger decimal value never reads as fewer milli-CPUs |
| Quantities.CpuOverflow | internal/runtimeagent/scheduler.go:280-302 | exactly when an accepted limit is misread as a negative number: whole part equal to MaxInt64/1000 and the ceiling past MaxInt64 |
| Quantities.CpuOverflowWitness | internal/runtimeagent/scheduler.go:280-302 | a concrete accepted limit that is misread |
| Quantities.ParseMemoryBytes | internal/runtimeagent/scheduler.go:307-331 | the parser computes the reading `MemoryBytes` on every string |
| Quantities.MemoryExact | internal/runtimeagent/scheduler.go:307-356 | on every accepted memory limit parsing succeeds if and only if number times unit is at most MaxInt64, and then gives that product; no accepted suffix is unknown |
| Quantities.UnitsExactly | internal/runtimeagent/scheduler.go:333-356 | each decimal suffix is a thousand of the one before, each binary one 1024, and a trailing "b" changes nothing |
| Runtimes.ValidateRuntime | internal/runtimeagent/spec.go:489-677 | the nested checks accept exactly the well-formed runtimes: names, ports, selectors, target ports and routes |
| Runtimes.MatchingExactly | internal/runtimeagent/spec.go:735-756 | the deployments a selector matches are exactly those whose labels agree on every selector key |
| Runtimes.DnsLabelExactly | internal/runtimeagent/spec.go:787-792 | a name is valid if and only if it is up to 63 letters, digits and hyphens with a letter or digit at either end |
| Selection.PicksMatch | internal/runtimeagent/spec.go:746-756 | a selector picks a deployment if and only if each of its entries is a label of it, up to blanks |
| Selection.TargetPortExactly | internal/runtimeagent/spec.go:758-774 | the target port is the number of the document, or that of the first deployment in name order that the service selects and that declares the name; it is missing exactly if there is neither |
| Runtimes.KeyPathInjective | internal/runtimeagent/spec.go:331-333 | the text of a valid key tells it from every other key |
| Admission.ValidateGlobalPortConflicts | internal/runtimeagent/scheduler.go:93-154 | the loops accept exactly the candidates that clash with no runtime in memory and not with themselves |
| Admission.ClashFreeIsCompatible | internal/runtimeagent/scheduler.go:117-152 | the three one-sided tests amount to a symmetric notion: no shared service port, no service port that is an ingress port, no two overlapping routes |
| Admission.RuntimeResourceRequest | internal/runtimeagent/scheduler.go:234-248 | the loop computes the exact sum, wrapped to int64, of what all containers of the runtime may use, replica by replica |
| Admission.AskedIsHeld | internal/runtimeagent/scheduler.go:240-246 | a deployment asks for the sum of the limits of its containers, one by one, so one more replica asks for exactly one container more, in each dimension |
| Admission.TotalIsDemand | internal/runtimeagent/scheduler.go:234-248 | what the program sums over all runtimes in memory is what all their containers may use |
| Admission.ResourceSnapshotFor | internal/runtimeagent/scheduler.go:206-222 | requested is the wrapped exact sum over runtimes, available the clamped difference; what a runtime adds is what its containers may use (`RuntimeResourceRequest`) |
| Admission.ValidateNodeCapacity | internal/runtimeagent/scheduler.go:190-204 | accepts exactly if the wrapped total of the others and the candidate fits each enforced dimension |
| Admission.TotalOf | internal/runtimeagent/scheduler.go:79-91 | the order in which runtimes are summed does not matter |
| Admission.AddWrapped | internal/runtimeagent/scheduler.go:250-256 | int64 additions lose nothing more than wrapping the exact sum once |
| Admission.CapacityExact | internal/runtimeagent/scheduler.go:190-204 | a total that the test has let pass is within what is allocatable if and only if it fits int64 in every enforced dimension; no total that is within is turned away |
| Admission.AvailableExact | internal/runtimeagent/scheduler.go:258-264 | with the exact total within what is allocatable, available is the plain difference in each enforced dimension: it is never clamped |
| Admission.AllocatableExactly | internal/runtimeagent/scheduler.go:206-210 | what is allocatable is what the node says, or its capacity if it says nothing |
| Admission.SubExactly | internal/runtimeagent/scheduler.go:258-264 | what is left is the difference, or nothing if that is negative |
| Routing.MatchIsPrefix | internal/runtimeagent/ingress.go:98-103 | a path match is the documented prefix match if and only if the prefix does not end in two slashes |
| Routing.EqualLengthPrefixes | internal/runtimeagent/ingress.go:98-103 | two prefixes of equal length that match one path are equal |
| Routing.DoubleSlashWitness | internal/runtimeagent/ingress.go:102 | with a prefix ending in two slashes, two different prefixes of equal length match one path |
| Routing.RoutesForRuntime | internal/runtimeagent/ingress.go:44-69 | fills the map with exactly the claimed ports, each with the sorted list of its claims |
| Routing.SortRoutesOrdered | internal/runtimeagent/ingress.go:71-78 | sorting permutes and puts longer prefixes first |
| Routing.FirstIsLongest | internal/runtimeagent/ingress.go:18-42 | the first match of a sorted list is a longest match |
| Routing.LongestUnique | internal/runtimeagent/ingress.go:18-42 | on claims that admission keeps apart there is one longest match |
| RouteTable.ReplaceKeepsRebuilt | internal/runtimeagent/route_state.go:7-37 | filter, append and sort in place keep every port list equal to the sorted union of the claims of the routed runtimes, with no list empty |
| RouteTable.RemoveKeepsRebuilt | internal/runtimeagent/route_state.go:39-58 | removing a key leaves the union of the others' claims |
| RouteTable.PortsAreClaimed | internal/runtimeagent/route_state.go:7-58 | a port is in the table exactly when a routed runtime claims it |
| RouteTable.SafeIsSeparated | internal/runtimeagent/scheduler.go:172-188 | what admission rules out makes every tie between routes of a port impossible |
| RouteTable.ResolveIsLongestPrefix | internal/runtimeagent/ingress.go:18-42 | on runtimes that do not clash the resolver returns the one longest matching claim, and answers whenever one matches |
| Routing.ResolutionDeterminedByClaims | internal/runtimeagent/ingress.go:18-42 | two ordered lists of the same separated claims resolve alike, in whatever order ties were listed |
| RouteTable.ResolveIgnoresHistory | internal/runtimeagent/ingress.go:18-42 | two tables of the same routed runtimes resolve every request alike |
| Answers.AnswersDocuments | internal/runtimeagent/ingress.go:18-65 | told of the documents alone: an answer names a service of a routed runtime that listens on the port, or to which an ingress route leads, by port, host and path, that no longer one does; and if there is no answer, nothing listens and nothing leads |
| Answers.DocumentsAnswered | internal/runtimeagent/ingress.go:18-65 | whatever listens on the port is the answer, and so is the service of a route that leads there if no longer one does |
| Answers.RunInOrder | internal/runtimeagent/manager.go:118-355 | both hold after every run in which no update is overtaken and no clashing spec comes back from disk |
| Answers.CleanPathExactly | internal/runtimeagent/spec.go:776-785 | a path is cleaned to itself without blanks around it, with a slash in front |
| Answers.OverlapExactly | internal/runtimeagent/scheduler.go:176-188 | two hosts in lower case and without blanks around them overlap if and only if some request host is admitted by both |
| Answers.OverlapByCase | internal/runtimeagent/scheduler.go:176-188 | hosts that differ in case overlap for admission, although no request host is admitted by both |
| Answers.CompatibleExactly | internal/runtimeagent/scheduler.go:93-154 | told of the documents, two runtimes are compatible if and only if no port is a service of one and a service or ingress of the other, and no request could take a route of each by the same path |
| Answers.AdmittedExactly | internal/runtimeagent/scheduler.go:38-52 | a valid runtime is admitted if and only if it is compatible with every other in memory and with itself, and the wrapped total of what all containers may use is within the node |
| RouteTable.PrefixIsOwner | internal/runtimeagent/route_state.go:12-16 | the string-prefix test selects exactly the runtime's own cache entries |
| RouteTable.EndpointIsolation | internal/runtimeagent/route_state.go:12-19 | after a replacement the runtime's entries are the refreshed ones, all others as before; after a drop none of its entries is left |
| RouteTable.ListenerStability | internal/runtimeagent/route_state.go:20-35 | start and stop sets are disjoint; if every bind succeeds the listeners are the ports with routes and kept ports keep their server; if one fails they are not |
| RouteTable.DropStability | internal/runtimeagent/manager.go:219-231 | a removal stops exactly the listeners it leaves without routes |
| Naming.SanitizeDockerName | internal/runtimeagent/container.go:341-364 | the builder loop computes the sanitized name |
| Naming.SanitizedIsSafe | internal/runtimeagent/container.go:341-364 | whatever the text, the name is not empty, holds harmless characters only and has no punctuation at either end |
| Naming.CanonicalSpelled | internal/runtimeagent/container.go:332-339 | how the canonical name of a valid runtime's container is spelled |
| Naming.SurgeSpelled | internal/runtimeagent/deployment.go:88 | how the surge name is spelled |
| Naming.CanonicalInjective | internal/runtimeagent/container.go:332-339 | replicas of one deployment revision have distinct names |
| Naming.SurgeNeverCanonical | internal/runtimeagent/deployment.go:88 | no surge name is a canonical name, of whatever runtime, deployment, replica or generation |
| Naming.NamesCollide | internal/runtimeagent/container.go:338 | two different valid runtimes share all their container names |
| Naming.DeploymentsCollide | internal/runtimeagent/container.go:338 | also with different deployments: two valid runtimes whose keys read differently once joined share every container name |
| Naming.CollideExactly | internal/runtimeagent/container.go:332-339 | any two containers of any two runtimes and deployments share a name if and only if they are the same replica, and namespace, name, deployment and revision read the same once joined and made safe |
| Naming.CollideAlike | internal/runtimeagent/container.go:338 | for one and the same deployment, two valid runtimes share a name if and only if namespace and name read the same once joined |
| Statuses.NamesApartExactly | internal/runtimeagent/container.go:332-339 | the container names of one runtime are apart if and only if no two of its deployments, both with a replica, spell alike |
| Recovery.ForeignExactly | internal/runtimeagent/container.go:332-339 | the container names of two runtimes are apart if and only if no deployment of one and of the other, both with a replica, spell alike |
| Restarts.StreakBounded | internal/runtimeagent/self_heal.go:69-136 | over every interleaving of heals, healthy marks and messages the streak stays within the limit and the count, and the count is the number of restarts |
| Restarts.AttemptsSpaced | internal/runtimeagent/self_heal.go:85-92 | any two restarts are at least one backoff apart per restart between them, even across healthy marks |
| Restarts.WindowHoldsFew | internal/runtimeagent/self_heal.go:85-128 | a window of length T holds at most T/backoff + 1 restarts |
| Restarts.QuadraticBackoff | internal/runtimeagent/self_heal.go:79-92 | k restarts with no recovery between them span at least backoff*k*(k-1)/2, and there are at most MaxRestarts of them |
| Restarts.RunFaithful | internal/runtimeagent/self_heal.go:69-136 | whatever happens a record is exactly what its past makes it: the streak is the number of restarts since the last recovery, the count that of all, and the next attempt is due one backoff per restart of the streak after the last one |
| Restarts.DecidedByPast | internal/runtimeagent/self_heal.go:69-104 | told of the past: a container is restarted if and only if self-heal is on, fewer restarts than the limit have followed the last recovery and the backoff is over; which note a refusal leaves |
| Healing.UnhealthyTurn | internal/runtimeagent/deployment.go:60-83 | a turn that meets an up-to-date container that is down or unhealthy restarts it if that is allowed when it begins, and only if it is allowed by then; otherwise nothing changes |
| Healing.ReadyTurn | internal/runtimeagent/deployment.go:70-83 | a turn that meets an up-to-date, ready container leaves it alone, and it has recovered: it has the whole limit of restarts again |
| Healing.RunRecords | internal/runtimeagent/self_heal.go:69-136 | in every state that any run reaches each record is exactly what its past makes it |
| Healing.GivenUpExactly | internal/runtimeagent/self_heal.go:79-83 | in every such state a container is given up if and only if as many restarts as the limit have followed its last recovery |
| Healing.RunDisabled | internal/runtimeagent/self_heal.go:71-76 | with self-heal off no run restarts anything |
| Histories.RunStreaks | internal/runtimeagent/self_heal.go:69-136 | in every state that any run of the controller reaches, whatever fails, each container's streak is within the limit and its count, and counts never go down |
| Histories.RunSpaced | internal/runtimeagent/self_heal.go:69-128 | over every run of the controller, whatever fails, each container's restarts fall within the run and after the next attempt its record allowed, any two at least one backoff apart per restart between them |
| Histories.RunWindow | internal/runtimeagent/self_heal.go:77-92 | any span of time T of any run holds at most T/backoff + 1 restarts of a container |
| Histories.RunQuadratic | internal/runtimeagent/self_heal.go:79-128 | over every run, k restarts of a container with no recovery between them span at least backoff*k*(k-1)/2, and there are at most MaxRestarts of them |
| Statuses.ReadyReplicasByDeployment | internal/runtimeagent/status.go:178-197 | the four nested loops compute the fold `ReadyReplicas` |
| Statuses.ReadyIsCardinality | internal/runtimeagent/status.go:178-197 | each counter is the cardinality of the canonical names found behind the services that select the deployment |
| Statuses.ReadyAtMostReplicas | internal/runtimeagent/status.go:178-197 | the counter the loops compute never exceeds replicas, whether or not the names of the deployments are apart |
| Statuses.RunningExactly | internal/runtimeagent/status.go:25-33 | asked to report Running without error, the runtime phase is Running exactly when every deployment status is, and Degraded otherwise |
| Statuses.FailedEverywhere | internal/runtimeagent/status.go:25-33 | with an error every phase reported is Failed |
| Statuses.NewStatusWithOptions | internal/runtimeagent/status.go:19-82 | the loops build the status `NewStatus` |
| Reports.RunningTold | internal/runtimeagent/status.go:19-82 | part by part: a deployment is Running if as many as its replicas are ready, a service if it has as many endpoints as replicas behind it, an ingress if that holds of the service of each route, and otherwise Degraded; names, ports, replicas and revisions are those of the document |
| Reports.ReadyTold | internal/runtimeagent/status.go:178-197 | the ready count reported is the number of canonical names found |
| Reports.UnderWayTold | internal/runtimeagent/status.go:19-82 | while something is under way everything is reported as that |
| Effects.ReconcileEffect | internal/runtimeagent/deployment.go:25-137 | for every pattern of failures and at every intermediate point: no container is altered, new ones carry the runtime's owner and generation, and another owner's container goes only from under one of the runtime's canonical names |
| Locality.ReplicaEffect | internal/runtimeagent/deployment.go:36-83 | one turn of the loop touches its two names only; when it succeeds the canonical container is a fresh ready one, or the old one and not due for a restart |
| Locality.MadeAs | internal/runtimeagent/container.go:50-69 | the labels and the state a container is started with |
| Scaling.EnsureScales | internal/runtimeagent/deployment.go:34-137 | told of names and labels: after a pass without failures that succeeds every replica has its container, no container of the deployment is out of the range of the replicas or of another revision, and of the others exactly those are gone |
| Scaling.ScalesTo | internal/runtimeagent/deployment.go:34-137 | scaling up or down from exactly the first n containers to k succeeds and leaves exactly the first k, touching nobody else's |
| Scaling.NeverBeside | internal/runtimeagent/deployment.go:36-83 | with a strategy without surge no container ever runs beside the one it replaces, at no point of a pass and whatever fails |
| Scaling.AlwaysBeside | internal/runtimeagent/deployment.go:87-99 | with surge and nothing failing the replacement does run beside the old container |
| Availability.AvailabilityExact | internal/runtimeagent/deployment.go:34-137 | with surge, a replica that is up stays up at every point of every pass, whatever fails, if and only if a ready container of it is no surplus of the new spec or its canonical container is missing, ready or due for a restart |
| Convergence.ReplicaConverges | internal/runtimeagent/deployment.go:36-83 | without failures a turn goes wrong only if it must replace a container and the surge name is taken |
| Convergence.Converges | internal/runtimeagent/deployment.go:34-137 | without failures a pass succeeds exactly when no replica is blocked; then every canonical name holds a fitting, up-to-date container and elsewhere only the deployment's surplus is gone |
| Convergence.ExactlyCanonical | internal/runtimeagent/deployment.go:101-137 | the deployment ends with exactly its canonical names if and only if it started without strays |
| Convergence.BrokenRename | internal/runtimeagent/deployment.go:87-99 | a surge whose rename fails removes the old container and leaves the new one under its surge name, as a stray |
| Convergence.EnsureIdle | internal/runtimeagent/deployment.go:34-137 | on a ready, up-to-date deployment without surplus a pass issues no run, removal, rename or status write |
| Convergence.SecondPassIdle | internal/runtimeagent/deployment.go:34-137 | after a successful pass a second one does nothing once its containers are ready |
| Reconciliation.ReconcileExactly | internal/runtimeagent/deployment.go:25-32 | without failures, from workable containers, the runtime succeeds and owns exactly its canonical containers, with the digests of its spec, and those that were misplaced before, such as a dropped deployment's; so it ends at its spec if and only if nothing was misplaced |
| Reconciliation.TidyDownward | internal/runtimeagent/deployment.go:101-137 | losing containers keeps a runtime's containers tidy |
| Endpoints.ServiceFinds | internal/runtimeagent/service.go:49-67 | without failures a service's endpoints are, in name order, exactly the ready ones among the containers that the lookup that counts finds for the deployments it selects: the first lookup if it finds any, else the one that ignores the namespace |
| Endpoints.RefreshOnlyReads | internal/runtimeagent/service.go:14-24 | refreshing endpoints changes nothing but the clock |
| Discovery.RefreshCovers | internal/runtimeagent/service.go:14-67 | without failures the entry of every service holds exactly the containers, running and healthy, that have the labels of a deployment it selects, on its port |
| Discovery.AppliedIsServed | internal/runtimeagent/manager.go:155-193 | after an Apply that succeeds with no engine call failing the cached endpoints of every service are exactly those, as the containers then are; and the runtime is reported Running if and only if each replica's own container is among them, else Degraded |
| Discovery.ResyncIsServed | internal/runtimeagent/reconcile.go:8-34 | after such a Resync the same holds of every runtime in memory, as its turn left the containers |
| Endpoints.LeakExactly | internal/runtimeagent/service.go:69-120 | endpoints stay inside the runtime, whatever fails, if and only if no ready container of another owner carries the same old labels; without failures also if the runtime has a running container of its own |
| RoundRobin.PicksConsecutive | internal/runtimeagent/service.go:129-136 | requests to other services do not move a service's counter |
| RoundRobin.FairRun | internal/runtimeagent/service.go:129-136 | over any run of requests without counter wrap each of n endpoints is chosen floor(w/n) or ceil(w/n) times, from any start |
| RoundRobin.FairAcrossWrap | internal/runtimeagent/service.go:131-135 | across the uint64 wrap every window is fair if and only if n divides 2^64 |
| Invariants.RunInvariant | internal/runtimeagent/manager.go:118-355 | in every state reachable from a sound one, whatever fails: specs and files sound, routed runtimes known, and the incremental table equal to the rebuilt one |
| Invariants.InitialInvariant | internal/runtimeagent/manager.go:60-99 | a controller just started on files that hold well-formed specs under their own names satisfies the invariant, whatever containers it finds |
| Safety.AdmittedIsSafe | internal/runtimeagent/scheduler.go:93-154 | adding an admitted runtime keeps memory free of clashes, whatever the sums come to |
| Safety.AdmittedFitsExactly | internal/runtimeagent/scheduler.go:190-204 | an admitted runtime leaves what all containers may use within the node if and only if that fits int64 in every enforced dimension |
| Safety.ReadNonNegative | internal/runtimeagent/scheduler.go:234-248 | a valid document asks for a negative quantity only where a CPU limit is misread |
| Safety.ApplyKeepsExactly | internal/runtimeagent/manager.go:118-154 | any property of the specs in memory holds at every write of an accepted Apply, for every pattern of failures, if and only if it holds with the candidate in memory, and the runtime is in memory already, no spec of it is on disk, or it holds with that spec too |
| Safety.ApplyPortsExactly | internal/runtimeagent/manager.go:118-154 | an accepted Apply keeps memory free of clashes at every write, whatever fails and whatever the sums come to, if and only if the runtime is in memory already, no spec of it is on disk, or that spec clashes with nothing |
| Safety.ApplyFitsExactly | internal/runtimeagent/manager.go:118-154 | an accepted Apply keeps memory within the node at every write, whatever fails, if and only if what all containers may use then fits int64 in every enforced dimension and a spec found on disk only would fit too |
| Safety.RemoveKeepsExactly | internal/runtimeagent/manager.go:203-221 | the same for Remove, which writes the spec once more before it deletes it |
| Safety.RemovePortsExactly | internal/runtimeagent/manager.go:203-221 | a Remove keeps memory free of clashes at every write, whatever fails, if and only if the runtime is in memory, no spec of it is on disk, or that spec clashes with nothing |
| Safety.RemoveFitsExactly | internal/runtimeagent/manager.go:203-221 | a Remove keeps memory within the node at every write, whatever fails, under the same condition for capacity |
| Runs.RejectedExactly | internal/runtimeagent/manager.go:125-139 | a candidate is turned away as invalid if and only if it is, and as denied if and only if it is valid and not admitted |
| Runs.RunKeeps | internal/runtimeagent/manager.go:118-355 | any property of the specs that every step of a run keeps holds at every write of the run, whatever fails |
| Runs.RunPorts | internal/runtimeagent/manager.go:118-355 | no two runtimes in memory clash at any write of any run, whatever fails and whatever is asked for, unless a clashing spec comes back from disk |
| Runs.RunFits | internal/runtimeagent/manager.go:118-355 | as long as what is accepted can be counted in int64, what all containers may use is within the node at every write of every run, unless a spec that does not fit comes back from disk |
| Runs.OrdinaryRunPorts | internal/runtimeagent/manager.go:118-355 | on a node with no spec on disk only, runs whose removals complete are free of clashes at every write, with no other condition |
| Runs.OrdinaryRunFits | internal/runtimeagent/manager.go:118-355 | and within the node at every write, as long as what is accepted can be counted |
| Runs.RunAvailable | internal/runtimeagent/scheduler.go:62-65 | at the end of every such run available is exactly what is allocatable less what all containers may use, in each enforced dimension, and not negative |
| Witnesses.SumsWrap | internal/runtimeagent/scheduler.go:242-244 | the first update of a started node of one CPU: 2^61 replicas of one CPU are accepted, and what their containers may use is beyond the node |
| Serving.ApplyListeners | internal/runtimeagent/manager.go:160-172 | in terms of how the call ends: the proxy listens on exactly the ports with routes if and only if no bind failed, and then kept ports keep their server |
| Serving.ApplyListenersExactly | internal/runtimeagent/manager.go:118-172 | before the call: listeners and routes stay together, whatever fails, if and only if the candidate is turned away or every port it claims has its listener already |
| Serving.RunListeners | internal/runtimeagent/manager.go:160-231 | as long as binds succeed the listeners are the ports with routes in every reachable state |
| Serving.ApplyInStep | internal/runtimeagent/manager.go:142-161 | in terms of how the call ends: routes and specs part exactly when an update fails at the network or the endpoints while other routes of the runtime are in the table |
| Serving.ApplyInStepExactly | internal/runtimeagent/manager.go:118-161 | before the call: routes and specs stay in step, whatever fails, if and only if the candidate is turned away, the runtime has no routes, or it has those of the very same document |
| Serving.PublishSafeExactly | internal/runtimeagent/manager.go:118-172 | before the call: the table stays free of clashes, whatever fails, if and only if the candidate is turned away or is compatible with what the others have in the table |
| Serving.ResolvesLongest | internal/runtimeagent/ingress.go:18-42 | in every state in step with safe specs the resolver returns the one longest matching claim |
| Serving.RunInStep | internal/runtimeagent/manager.go:118-355 | over every run in which no update is overtaken routes and specs stay in step |
| Serving.RunResolvesLongest | internal/runtimeagent/ingress.go:18-42 | after every run in which no update is overtaken and no clashing spec comes back from disk, whatever is asked for, the resolver returns the one longest matching claim, and answers whenever one matches |
| Serving.RunsResolveAlike | internal/runtimeagent/ingress.go:18-42 | two runs that end with the same routed runtimes resolve every request alike, whatever the order |
| Rollbacks.RollbackInverse | internal/runtimeagent/rollback.go:26-97 | a completed rollback of an in-memory update restores specs, statuses, routes, listeners and cache, with the previous spec on file; no container is new or altered, none of the failed generation is left, other owners' containers outside the runtime's names remain |
| Rollbacks.RollbackStatus | internal/runtimeagent/rollback.go:26-61 | the status put back is the recorded one, or if there is none a report of the previous spec as running with the endpoints cached for it |
| Rollbacks.RollbackRemovesExactly | internal/runtimeagent/rollback.go:75-97 | a completed rollback removes exactly the containers labelled with the failed generation, also ones an earlier Apply started |
| Rollbacks.RollbackTakesExactly | internal/runtimeagent/rollback.go:26-97 | before the call: every rollback of an accepted update that completes takes away all containers of the given generation the runtime had already, and some failure leads to one; so none is endangered if and only if there is none |
| Rollbacks.UnnumberedRollback | internal/runtimeagent/rollback.go:75-79 | with a generation of zero or less a rollback removes no container |
| Rollbacks.RollbackUpExactly | internal/runtimeagent/rollback.go:75-97 | after a completed rollback a replica is up if and only if a container of it that was up is not of the failed generation |
| Rollbacks.GenerationIsFresh | internal/runtimeagent/manager.go:361-369 | an assigned generation is carried by no container yet, short of the end of int64 |
| Dating.GivenExactly | internal/runtimeagent/manager.go:361-369 | an update keeps the generation it names, or is given the one after that in memory, or the first; nothing else of it changes |
| Rollbacks.ReloadRollbackWipes | internal/runtimeagent/manager.go:105-116 | after a restart, one failing call while a spec from disk is applied again makes the rollback remove every container of the runtime |
| Dating.ApplyContainers | internal/runtimeagent/manager.go:118-194 | whatever fails and however it ends, an Apply alters no container and starts only containers of its own runtime and generation |
| Dating.WentBackDated | internal/runtimeagent/manager.go:361-369 | after an update of a runtime in memory that went back, whether or not the rollback completed, no container carries a later generation than its spec if and only if none of the failed generation is left, or that is no later one |
| Dating.AssignedAgain | internal/runtimeagent/manager.go:361-369 | the failed generation is the next one assigned; it is on no container yet if and only if containers are dated |
| Dating.RunDated | internal/runtimeagent/manager.go:361-369 | over runs whose generations advance and whose failed updates leave no container when they go back, no container carries a later generation than its spec |
| Recovery.ResyncExactly | internal/runtimeagent/reconcile.go:8-34 | from workable containers one Resync without failures gives every runtime exactly its canonical containers and those that were misplaced before; so each ends at its spec if and only if nothing of it was misplaced |
| Recovery.RolledBackRecovers | internal/runtimeagent/rollback.go:26-97 | after an update that failed at any call and was rolled back, one Resync without failures gives every runtime up-to-date containers of the spec it had before, and exactly those if nothing of it was misplaced before the update |
| Success.AppliedIsEstablished | internal/runtimeagent/manager.go:173-193 | an Apply that reports success has put the runtime into memory, disk, table, status and cache alike, and left every other runtime there as it was |
| Success.QuietApplySucceeds | internal/runtimeagent/manager.go:118-194 | an accepted Apply on workable containers succeeds when nothing fails, and the runtime then owns exactly its canonical containers and what was misplaced before; exactly the canonical ones if and only if nothing was |
| Success.FailureIsReported | internal/runtimeagent/manager.go:143-169 | an Apply that fails without a rollback leaves what was applied in memory, and on file if files can be written, and every phase it reports is Failed |
| Success.NetworkExactly | internal/runtimeagent/deployment.go:11-23 | the network is there if it is found or can be made |
| Failures.RolloutStops | internal/runtimeagent/deployment.go:25-32 | a rollout breaks off at the first deployment that fails |
| Failures.ResyncStops | internal/runtimeagent/reconcile.go:8-34 | a Resync breaks off at the first runtime that fails |
| Failures.ResyncFailureReported | internal/runtimeagent/reconcile.go:13-22 | a turn in which rollout or refresh fails leaves the runtime reported as Failed throughout |
| Failures.UnknownExactly | internal/runtimeagent/service.go:69-120 | endpoints are unknown if and only if the second lookup is refused and the first was refused or found nothing running |
| Failures.FinishExactly | internal/runtimeagent/manager.go:173-193 | an Apply that has come that far succeeds if and only if its three files are written |
| Failures.RolledBackExactly | internal/runtimeagent/rollback.go:26-61 | a rollback is complete if and only if its cleanup is and both files are written |
| Success.RemovedIsErased | internal/runtimeagent/manager.go:196-245 | a Remove that reports success leaves no entry, file, route, cached endpoint or container of the runtime, and has removed no other container |
| Apartness.RemoveKeepsOthers | internal/runtimeagent/manager.go:196-245 | a Remove, whether or not it works, leaves every other runtime its spec, status, file, routes and cached endpoints, and removes no container but those with the labels of the runtime |
| Apartness.ShutdownStops | internal/runtimeagent/manager.go:329-355 | routes and listeners are gone; specs, statuses, files, cached endpoints and containers are as they were |
| Examples.SiteApplied | internal/runtimeagent/manager.go:118-194 | a concrete runtime that meets every condition of the theorems is applied on an empty node |
| Examples.SiteWiped | internal/runtimeagent/manager.go:105-116 | a concrete restart on which one failing call removes the healthy container |
| Witnesses.StrandedIsUnsafe | internal/runtimeagent/manager.go:196-245 | reached from a started node: a state without clashes with a spec on disk only, and an accepted update in it that a rollback turns into a port clash; another Remove does too |
| Witnesses.RoutesArePart | internal/runtimeagent/manager.go:142-161 | reached from a started node: an update that fails at the network, memory with the new port and the table with the old one |
| Witnesses.RoutesAreCrossed | internal/runtimeagent/manager.go:118-194 | and one step later: two runtimes routed on one port, although no two specs in memory clash and every bind worked |
| Witnesses.DroppedStays | internal/runtimeagent/deployment.go:101-137 | reached from a started node with nothing failing: an update that drops a deployment is applied, and the dropped container stays |
| Witnesses.StrayStays | internal/runtimeagent/deployment.go:87-137 | reached from a started node: a container under its surge name that no later pass without failures renames or removes |
| Witnesses.SwitchedIsLost | internal/runtimeagent/rollback.go:75-97 | reached from a started node: a surge update whose replica was switched over before one call failed; the rollback removes the only container |
| Witnesses.FailedStays | internal/runtimeagent/rollback.go:75-97 | reached from a started node: the same update when nothing can be listed; a container is left of the generation that is assigned next |
| Witnesses.ReplicaIsLost | internal/runtimeagent/deployment.go:36-99 | a replica that is up beside a dead container of the new revision, and a rollout that takes it down |
| Witnesses.NamesakeLeaks | internal/runtimeagent/service.go:69-120 | a runtime of the same name in another namespace is such a twin: with nothing failing its container becomes an endpoint |
| Witnesses.SiteUnheard | internal/runtimeagent/manager.go:160-172 | a first Apply that may leave routes without a listener |
| Managers.Manager.EnsureDeployment | internal/runtimeagent/deployment.go:34-85 | the replica loop does what `Ensure` says, call by call |
| Managers.Manager.EnsureReplica | internal/runtimeagent/deployment.go:36-83 | one turn of the loop: drift, surge, heal or start |
| Managers.Manager.ReplaceContainerWithSurge | internal/runtimeagent/deployment.go:87-99 | start beside, remove, rename |
| Managers.Manager.RemoveExtraReplicas | internal/runtimeagent/deployment.go:101-137 | removes exactly what is out of range or of another revision, up to the first failure |
| Managers.Manager.HealContainer | internal/runtimeagent/self_heal.go:69-104 | the three refusals and the attempt, with the record each leaves |
| Managers.Manager.MarkRestartHealthy | internal/runtimeagent/self_heal.go:118-128 | resets the streak and keeps the next attempt; a record without attempts, or none, is left alone |
| Managers.Manager.SetRestartMessage | internal/runtimeagent/self_heal.go:130-136 | changes the reason only |
| Managers.Manager.RunContainer | internal/runtimeagent/container.go:37-160 | status writes and the labelled container, or a failure that may leave one |
| Managers.Manager.ReconcileDeployments | internal/runtimeagent/deployment.go:25-32 | deployment by deployment, up to the first failure |
| Managers.Manager.DiscoverDeploymentEndpoints | internal/runtimeagent/service.go:69-120 | both lookups and the readiness test |
| Managers.Manager.RefreshRuntimeEndpoints | internal/runtimeagent/service.go:14-24 | service by service, up to the first failure |
| Managers.Manager.RemoveRoutesForKey | internal/runtimeagent/route_state.go:39-58 | the in-place filter is `WithoutKey`, and the ports to stop are those it empties |
| Managers.Manager.ReplaceRoutesAndState | internal/runtimeagent/route_state.go:7-37 | the in-place replacement is `Replace`, with its start and stop sets |
| Managers.Manager.StartPort | internal/runtimeagent/proxy.go:17-42 | binds, and keeps a server that is already there |
| Managers.Manager.StopPort | internal/runtimeagent/proxy.go:44-52 | forgets the server |
| Managers.Manager.ResolveRoute | internal/runtimeagent/ingress.go:18-42 | the search loop finds the first match whose runtime is known |
| Managers.Manager.PickEndpoint | internal/runtimeagent/service.go:129-136 | takes the counter modulo the number of endpoints and advances it |
| Managers.Manager.RuntimesForScheduling | internal/runtimeagent/scheduler.go:79-91 | all other runtimes, with the exact total of what they ask for |
| Managers.Manager.ResourceSnapshot | internal/runtimeagent/scheduler.go:62-65 | requested is the wrapped exact total of what all containers in memory may use, available the clamped difference |
| Managers.Manager.AdmitRuntime | internal/runtimeagent/scheduler.go:38-52 | accepts exactly what `Admitted` says |
| Managers.Manager.PreviousRuntimeState | internal/runtimeagent/rollback.go:10-24 | memory first, then the spec file |
| Managers.Manager.RemoveOwnedContainersForGeneration | internal/runtimeagent/rollback.go:75-97 | nothing for a generation of zero or less, else one by one up to the first failure |
| Managers.Manager.RestorePreviousRuntime | internal/runtimeagent/rollback.go:44-61 | memory first, then the files |
| Managers.Manager.RollbackRuntime | internal/runtimeagent/rollback.go:26-42 | cleanup and restoration both happen, whatever comes of either |
| Managers.Manager.UpdateRuntimeStatus | internal/runtimeagent/manager.go:378-389 | writes spec and status to memory |
| Managers.Manager.RecordFailedStatus | internal/runtimeagent/manager.go:391-401 | writes the failed spec to memory and, if it can, to disk |
| Managers.Manager.Apply | internal/runtimeagent/manager.go:118-194 | the object does what the state machine's Apply does, and keeps the invariant |
| Managers.Manager.Remove | internal/runtimeagent/manager.go:196-245 | the object does what the state machine's Remove does, and keeps the invariant |
| Managers.Manager.Resync | internal/runtimeagent/reconcile.go:8-34 | the object does what the state machine's Resync does, and keeps the invariant |
| Managers.Manager.Shutdown | internal/runtimeagent/manager.go:329-355 | the object does what the state machine's Shutdown does, and keeps the invariant |
| AuditLog.AuditLogger.Append | internal/runtimeagent/audit.go:63-87 | does what `AppendTried` says, file operation by file operation; the files keep a suffix of the history, to which the event is added exactly when the call succeeds |
| AuditLog.AuditLogger.RotateIfNeeded | internal/runtimeagent/audit.go:108-142 | the counting-down rename loop does what `RotationTried` says, up to the operation that fails |
| AuditLog.AttemptIsStep | internal/runtimeagent/audit.go:63-142 | whichever file operation fails, an append rotates and adds the event, or leaves the rotation broken off at some file |
| AuditLog.AppendedLog | internal/runtimeagent/audit.go:108-142 | the new line goes to the end of the log, or starts it afresh if the log had reached the limit, which is then the first backup |
| AuditLog.AuditLogger.Read | internal/runtimeagent/audit.go:89-106 | trimming file by file gives the last matching events of all files together |
| AuditLog.LastExactly | internal/runtimeagent/audit.go:89-106 | the last n of a list are as many, if there are, counted from its end |
| AuditLog.MatchesExactly | internal/runtimeagent/audit.go:184-201 | an event matches unless a filter that is set differs from its field |
| AuditLog.ShiftLosesOldest | internal/runtimeagent/audit.go:125-141 | a rotation, complete or broken off anywhere, loses exactly the oldest backup |
| AuditLog.RunKeepsSuffix | internal/runtimeagent/audit.go:63-151 | after any sequence of appends, whatever fails, the files concatenate to a suffix of the full history |
| AuditLog.FailureLosesExactly | internal/runtimeagent/audit.go:63-142 | some failing file operation makes an append fail and take events off the files if and only if the log is full and the file a rotation gives up is not empty: the oldest backup, or the log itself if no backups are kept |
| AuditLog.FailedAppendsDrain | internal/runtimeagent/audit.go:125-141 | appends that keep failing just before the current log is moved give up one backup each, until only the current log is left |

## Left out

- Availability.AvailabilityExact: speaks of one pass over a deployment, not of a rollback after it; of that `Rollbacks.RollbackUpExactly` says, from the state the rollback starts from, which replicas are up.
- Rollbacks.RollbackInverse: speaks about updates of a runtime that is in memory; for a spec found only on disk the generation given decides, see `Rollbacks.ReloadRollbackWipes`.
- Runtimes.ValidateRuntime: images, volumes, environment, health checks, secrets and node selectors are not modelled.
- Naming.SanitizeDockerName: trimming and case folding are those of ASCII, here and everywhere.
- Statuses.NewStatusWithOptions: conditions, messages, times and restart counts are not modelled; phases, ready counts and generations are.
- Endpoints.ServiceFinds: says which containers are endpoints and in which order, not how often one is listed; a container found for two deployments is listed for each.
- Invariants.InitialInvariant: asks that every spec file hold a well-formed runtime under its own name; how the program reads other files is not modelled.
- Managers.Manager.AdmitRuntime: a runtime is taken as assigned to this node; the node name and the node selector are not compared.
- Managers.Manager.SetRestartMessage: a message is one of four kinds of note; its text is not modelled.
- Managers.Manager.RunContainer: image pulls, secrets, mounts and readiness polling are part of the outcome of one call. Labels that a document adds are taken not to override the owner labels, although the program appends them later on the command line.
- Managers.Manager.DiscoverDeploymentEndpoints: an endpoint is a container and a port; a container without an address is one that could not be inspected.
- Managers.Manager.UpdateRuntimeStatus: the status file it also writes, ignoring failures, is not modelled. What a status file would be read as is an input of Apply; writes of one matter only where the program looks at how they went.
- AuditLog.AuditLogger.Append: lines are written whole or not at all, and events are taken as normalized; files beyond the configured number of backups are ignored.
- Docker beyond names, labels and health: a run or a rename to a taken name is refused, as the engine does.
- The digest of a deployment is a field of it; nothing assumes that different deployments have different digests.
- `NormalizeRuntime` and parsing: runtimes are taken as normalized.
- A torn spec file counts as lost.
- Contexts and cancellation, events and logging, configuration, metrics, the HTTP API and the reverse proxy around `resolveRoute` and `pickEndpoint`, session affinity by hash.
- Concurrency below the reconcile lock: Apply, Remove, Resync and Shutdown exclude one another; readers see the snapshots in the trace.
- `Load`: a sequence of Apply steps; that it stops at the first error is not modelled.
- The past of a restart record, the trace and the routed runtimes are history variables: no decision looks at them.
