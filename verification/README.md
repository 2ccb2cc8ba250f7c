# Verification of the node power agent

A Dafny model of an agent that sets the CPU power policy of the Kubernetes node it runs on, and proofs of what
that agent promises. The agent watches its own Node object. For every snapshot the watch delivers (and for a fresh
copy on every resync tick) it reads two labels, drives sysfs through a power backend, and writes four annotations
back to the same Node. That write wakes its own watch, so the central question is whether it ever comes to rest,
and what is true of the hardware and of the annotations once it has.

`dafny verify dfyconfig.toml` checks the whole project.

## How the model is laid out

| file | content |
|---|---|
| `Text.dfy`, `Ordering.dfy`, `Wrappers.dfy`, `Errors.dfy` | string splitting and number parsing, stable sorting and path order, results and errors |
| `Profile.dfy` | the five profiles and their kernel spellings |
| `Sysfs.dfy` | the mutable file tree, the rooted accessor, and the re-rooting simulation |
| `Topology.dfy` | discovery of the cpufreq policies |
| `Backend.dfy` | what each backend does, as functions on the visible files, and the laws they obey |
| `SmallHosts.dfy` | two hosts written out in full, with the backend detected on each |
| `Rerooting.dfy` | the same results at any root, for detection and every backend call |
| `Hardware.dfy` | the same in file names and texts alone: detection, apply, current and set_turbo as an observer of sysfs sees them |
| `PowerBackends.dfy` | the backend objects with their write loops, and detection |
| `Reconcile.dfy` | labels to backend calls to report; runs of reconciles |
| `Status.dfy` | desired annotations, the patch guard, and the JSON merge patch (section 2 of RFC 7396) |
| `Reporting.dfy` | the report, the status and the annotations in label and file texts alone |
| `Metrics.dfy` | gauges and counters over a run |
| `Watch.dfy` | the self-watching half as a transition system: Node, queue of snapshots, pending patch; what a snapshot calls for is a parameter |
| `Convergence.dfy` | the bound on the activity of any agent whose wishes depend on the labels alone |
| `Restless.dfy` | why the guard, and wishes without timestamps, are needed: agents lacking either never rest |
| `Protocol.dfy` | the whole agent: watch and hardware together, the proof that it is such an agent, and what holds at rest |
| `Runtime.dfy` | the agent as an object whose every method is proved to take a step of the protocol |

The transition system lets the environment edit the Node (labels and any annotation) at any point, also between
the two halves of a reconcile; change values in sysfs; restart the watch after delivering any prefix of what was
queued; and lose patch requests. Queued snapshots may be stale in labels and in annotations, a resync overtakes the
queue, and the copy it fetched may be outdated by the time it is reconciled. A patch that changes nothing may or may
not produce an event.

Fixed for a run are the directories, the detected policies, and which value each file accepts (`Host.accepts`), so a
write can be refused by path and by value. Directory enumeration is nondeterministic (`Disk.Enumerate`). The `dyn`
backend is the datatype `PowerBackend` over the backend classes. The host root (`/`) is the empty path.

## Where documentation and code disagree

The model follows the code; each case has its exact condition proved.

- `docs/labels.md` lines 50-53 promise `applied-turbo: unsupported` for a turbo request that the detected backend does
  not support. The code shows the requested value on every backend, the unsupported one included, and never writes
  "unsupported"; so the promise is kept exactly when the backend drives turbo or no valid value is requested
  (`Status.TurboAnnotationExactly`, with two detected hosts in `Status.TurboAnnotationCounterexample`).
- `docs/verification.md` lines 88-89 promise `status: unsupported` on unsupported hardware regardless of labels. The
  code reports `invalid_label` when a label is invalid (`Reconcile.UnsupportedStatusExactly`,
  `Reconcile.UnsupportedStatusCounterexample`).
- As a consequence, that the turbo annotation tells the truth is proved for backends that drive turbo only.

## Model

| member | source | states |
|---|---|---|
| `Profile.ParseInvertsPrint` | crates/cpu-power-hal/src/profile.rs:32-61 | over all strings, a profile parses from exactly the string it prints to |
| `Text.SplitSpaced` | crates/cpu-power-hal/src/topology.rs:65-75 | splitting a kernel list returns its tokens however they are spaced, padded or terminated |
| `Text.SplitCovers` | crates/cpu-power-hal/src/topology.rs:65-75 | conversely every string is some spacing of the tokens it splits into, so the two lemmas determine the split |
| `Text.ParseU32Characterised` | crates/cpu-power-hal/src/topology.rs:54-56 | the suffixes that parse are exactly digit strings after at most one `+` whose unbounded value is at most 4294967295, although the parser stops at the first overflowing digit |
| `Text.ParseDecimal` | crates/cpu-power-hal/src/topology.rs:54-56 | printing then parsing a number is the identity up to 4294967295 and fails for every larger one |
| `Text.SplitKernelList` | crates/cpu-power-hal/src/topology.rs:65-75 | a list as the kernel prints it, words separated by single spaces, is split into exactly its words |
| `Text.LowercaseContains` | crates/cpu-power-hal/src/backend/mod.rs:87-96 | searching the lower-cased text finds a word iff the text spells it somewhere, each letter in either case |
| `Ordering.SiblingOrder` | crates/cpu-power-hal/src/sysfs.rs:64 | entries of one directory sort by the first character in which their names differ, a prefix first |
| `Sysfs.Disk.Enumerate` | crates/cpu-power-hal/src/sysfs.rs:54-62 | a directory's names, each once, in an order nothing can rely on |
| `Sysfs.RootedSysfs.ReadToString` | crates/cpu-power-hal/src/sysfs.rs:45-48 | the text of the file below the root up to its last character that is not a newline, or nothing if it is missing |
| `Sysfs.RootedSysfs.Write` | crates/cpu-power-hal/src/sysfs.rs:50-52 | if accepted, the visible files change at this path alone, otherwise not at all; nothing outside the root changes |
| `Sysfs.RootedSysfs.ReadDir` | crates/cpu-power-hal/src/sysfs.rs:54-65 | whatever the enumeration order, the children of the directory, each once, in strict path order and in the caller's namespace; its names are those of the listing operation of the re-rooting simulation |
| `Sysfs.RootedSysfs.PathExists` | crates/cpu-power-hal/src/sysfs.rs:67-69 | whether the path names a visible file or directory |
| `Sysfs.ResolveInjective` | crates/cpu-power-hal/src/sysfs.rs:36-41 | different sysfs paths resolve to different disk paths |
| `Sysfs.RerootingIsSimulation` | crates/cpu-power-hal/src/sysfs.rs:36-70 | no client of the four accessor operations, however it adapts them to the replies, can tell a tree at R from that subtree at `/`; the subtree ends up the same and nothing outside R changes |
| `Topology.ReadPolicy` | crates/cpu-power-hal/src/topology.rs:58-85 | the reads give the description that `Topology.DescriptionOf` tells file by file |
| `Topology.PolicyDirectories` | crates/cpu-power-hal/src/topology.rs:47-56 | an entry is policy n iff it exists as /sys/devices/system/cpu/cpufreq/policy followed by a suffix that parses to n |
| `Topology.DescriptionOf` | crates/cpu-power-hal/src/topology.rs:58-85 | which file each part of a description is read from, whatever the spacing of its lists, and its value without that file |
| `Topology.CpuListToken` | crates/cpu-power-hal/src/topology.rs:96-100 | each token of a CPU list adds its number, or nothing if it is none, at its place |
| `Topology.CpuListOfDecimals` | crates/cpu-power-hal/src/topology.rs:96-100 | a printed list of 32-bit CPU numbers is read back |
| `Topology.DiscoverPolicies` | crates/cpu-power-hal/src/topology.rs:35-90 | empty without the cpufreq directory, an error if it cannot be listed, otherwise every entry named "policy" and a 32-bit number, described once, in numeric order with ties in path order, and nothing else |
| `Topology.SortedByNumber` | crates/cpu-power-hal/src/topology.rs:88-89 | the stable sort by number of a list in path order is the order by number, then path, of the same policies |
| `Topology.DiscoveryIsUnique` | crates/cpu-power-hal/src/topology.rs:47-89 | the discovered list is determined by the files, so it is the same for every enumeration of the directory |
| `Topology.DiscoveredPathsDistinct` | crates/cpu-power-hal/src/topology.rs:47-89 | discovered policies never share a directory, even where their numbers coincide |
| `Topology.BuildThenDiscover` | crates/cpu-power-hal/tests/fixtures/mod.rs:20-26 | a tree built with one policyN for each number of a set, beside non-policy entries, is discovered as exactly that set in ascending order |
| `Backend.ApplyIsPrefix` | crates/cpu-power-hal/src/backend/epp.rs:63-80 | for plans whose writes never disagree about a file, as those of policies in different directories never do: after an apply exactly the writes before the first failing one are in place and no other file has changed; it succeeds iff every write is advertised and accepted, and otherwise reports that first failure |
| `Backend.PartialApply` | crates/cpu-power-hal/src/backend/governor.rs:83-97 | policy by policy, for both backends: before the first failing policy the new value is in place, from it on the file is untouched |
| `Backend.ApplyForgetsHistory` | crates/cpu-power-hal/src/backend/epp.rs:63-80 | from any two states that agree outside the managed files, a successful apply gives the same state and outcome |
| `Backend.ApplyIsIdempotent` | crates/cpu-power-hal/src/backend/epp.rs:63-80 | repeating a successful apply changes nothing |
| `Backend.TurboSetMeaning` | crates/cpu-power-hal/src/backend/epp.rs:100-131 | a successful set_turbo makes the state decoded from the named file (`intel_pstate/no_turbo` inverted, `amd_pstate/boost` direct, or `cpufreq/boost` where that does not exist) equal the request; a failed one changes nothing; which AMD file is used never changes |
| `Backend.ApplyKeepsTurbo` | crates/cpu-power-hal/src/backend/epp.rs:45-80 | applying a profile changes only managed files, never the decoded turbo state and never whether the preferred boost file exists |
| `Backend.ApplyAndTurboCommute` | crates/cpu-power-hal/src/backend/epp.rs:63-131 | apply and set_turbo give the same files and the same two outcomes in either order, also when one fails |
| `Backend.DetectedApplyThenCurrent` | crates/cpu-power-hal/src/backend/epp.rs:63-98 | on any topology detected as EPP, a successful apply is read back as that profile |
| `Backend.AdvertisedExactly` | crates/cpu-power-hal/src/backend/epp.rs:66-73 | for a discovered policy a profile is refused iff the kernel's list has tokens and the profile is not one of them, however the list is spaced |
| `Backend.MiddleProfileGovernor` | crates/cpu-power-hal/src/backend/governor.rs:41-58 | a middle profile gets the first of schedutil, ondemand, powersave that is on offer and is refused iff none is |
| `Backend.MiddleProfilesCollapse` | crates/cpu-power-hal/src/backend/governor.rs:70-98 | on heterogeneous policies the three middle profiles leave the same files and fail at the same policy or not at all |
| `Backend.DetectionDetermined` | crates/cpu-power-hal/src/backend/mod.rs:68-85 | detection has exactly one answer for given files, captures policies in different directories, and an EPP backend has at least one |
| `Backend.NothingToManage` | crates/cpu-power-hal/src/backend/mod.rs:69-73 | a missing or unlistable directory, or one without policies, yields the unsupported backend |
| `Hardware.DetectionFromFiles` | crates/cpu-power-hal/src/backend/mod.rs:68-96 | told from the files of the lowest-numbered policy: EPP iff `energy_performance_preference` exists; governor fallback iff it does not and `scaling_available_governors` is not blank; unsupported otherwise; every policy is captured; the vendor is the one that the text of `scaling_driver` mentions |
| `Hardware.VendorFromDriver` | crates/cpu-power-hal/src/backend/mod.rs:87-96 | Intel iff the driver name spells "intel" somewhere in any capitalisation, AMD iff it spells "amd" and not "intel" |
| `Hardware.CanApplyExactly` | crates/cpu-power-hal/src/backend/epp.rs:63-80 | an apply succeeds iff every policy takes the profile: a right text for it is on offer, and its file accepts that text |
| `Hardware.ApplyExactly` | crates/cpu-power-hal/src/backend/epp.rs:63-80 | for both kinds of backend, in file names and texts: the policies before the first that does not take the profile carry it afterwards, no other file has changed, and success means there is no such policy |
| `Hardware.ErrorNamesCulprit` | crates/cpu-power-hal/src/backend/governor.rs:83-96 | the error is determined: it names the first policy that does not take the profile, with its number, the profile and what it offers if no offered text is right, or else the path that refused the text |
| `Hardware.ExtremeGovernors` | crates/cpu-power-hal/src/backend/governor.rs:41-98 | after a successful performance every `scaling_governor` holds "performance", after a successful power "powersave"; each is refused at a policy iff that governor is not on offer there |
| `Hardware.CurrentExactly` | crates/cpu-power-hal/src/backend/epp.rs:82-98 | only EPP reads back, from the first policy's file: the profile with that text, none iff the text is no profile's, an error naming the file if it is missing |
| `Hardware.TurboSetExactly` | crates/cpu-power-hal/src/backend/epp.rs:100-131 | the one file written and its text for Intel, for AMD with and without `amd_pstate/boost`, and the outcome on every backend: a refused write changes nothing and names the file |
| `PowerBackends.EppBackend.Apply` | crates/cpu-power-hal/src/backend/epp.rs:63-80 | the write loop does what `Hardware.ApplyExactly` says in file names and texts, and nothing outside the root |
| `PowerBackends.EppBackend.ReadCurrent` | crates/cpu-power-hal/src/backend/epp.rs:82-98 | the first policy's profile, none for an unknown text or no policies, an error for a missing file |
| `PowerBackends.EppBackend.SetTurbo` | crates/cpu-power-hal/src/backend/epp.rs:100-131 | the method does what `Hardware.TurboSetExactly` says in file names and texts, and nothing outside the root |
| `PowerBackends.GovernorFallbackBackend.Apply` | crates/cpu-power-hal/src/backend/governor.rs:70-98 | the same as for EPP, with the governors of `Hardware.ExtremeGovernors` and `Backend.MiddleProfileGovernor`; only the first profile other than performance and power ever applied logs the collapse |
| `PowerBackends.PowerBackend.SetTurbo` | crates/cpu-power-hal/src/backend/unsupported.rs:30-32 | through the common interface each kind of backend does what its model says: no-op success when unsupported, an error for governors |
| `PowerBackends.DetectBackend` | crates/cpu-power-hal/src/backend/mod.rs:68-85 | always returns a backend, the one that `Hardware.DetectionFromFiles` and `Backend.NothingToManage` tell from the files |
| `Rerooting.HalIsRerootable` | crates/cpu-power-hal/src/sysfs.rs:33-41 | discovery, detection and any sequence of apply, set_turbo and current through an accessor at R give the results, and leave the visible files, of an accessor at `/` on the subtree |
| `Reconcile.ReconcileOnce` | crates/power-agent/src/reconcile.rs:76-106 | files and report after driving a backend with two labels, for every backend and every partial failure |
| `Reconcile.TryTurbo` | crates/power-agent/src/reconcile.rs:86-94 | turbo is touched only for a valid label, and "not supported" is told apart from an error |
| `Reconcile.ProfileLabelParses` | crates/power-agent/src/reconcile.rs:50-58 | a label is accepted iff absent or one of five texts written out, then stands for itself, is reported as invalid otherwise, and falls back to "default" |
| `Reconcile.ReportIsDetermined` | crates/power-agent/src/reconcile.rs:76-106 | the report produced by the calls depends on the labels and on whether the AMD boost file exists, on nothing else in the files |
| `Reconcile.RunKeepsBoost` | crates/cpu-power-hal/src/backend/epp.rs:111-123 | no run of reconciles changes whether the AMD boost file exists |
| `Reconcile.ReportOverRuns` | crates/power-agent/src/status.rs:63-89 | the same labels are reported alike at any point of any run |
| `Reconcile.ReconcileReflects` | crates/power-agent/src/reconcile.rs:76-106 | after one reconcile the files reflect the labels up to the first failing policy, whatever they held before |
| `Reconcile.LastReconcileWins` | crates/power-agent/src/reconcile.rs:76-106 | after any run the files reflect the last labels, whatever earlier reconciles wrote |
| `Reconcile.TurboOverRuns` | crates/cpu-power-hal/src/backend/epp.rs:100-131 | for every backend and run the decoded turbo state is the last valid label that could be written, or the initial state |
| `Reconcile.TurboFollowsLabels` | crates/power-agent/src/reconcile.rs:63-94 | on Intel and AMD without write errors that is simply the last valid label |
| `Reconcile.UnsupportedIsInert` | crates/cpu-power-hal/src/backend/unsupported.rs:22-32 | on unsupported hardware no run changes a file and no labels give status "error" |
| `Reconcile.UnsupportedStatusExactly` | crates/power-agent/src/reconcile.rs:37-47 | unsupported hardware reports "unsupported" iff both labels are absent or valid; the status on every backend is `Reporting.StatusExactly` |
| `Reconcile.UnsupportedStatusCounterexample` | docs/verification.md:88-89 | a host without cpufreq is detected as unsupported, and an unknown profile label there does not give the documented status |
| `Reporting.ReportExactly` | crates/power-agent/src/reconcile.rs:76-106 | every part of the report from the labels and the environment: which values were rejected, that the profile failed iff some policy does not take it, turbo iff a valid request is refused by its switch, and unsupported iff a valid request meets a backend without one |
| `Reporting.ReportedErrors` | crates/power-agent/src/reconcile.rs:84-94 | the reported errors are exactly those of the two calls, whatever the files hold, and "not supported" is none |
| `Reporting.StatusExactly` | crates/power-agent/src/reconcile.rs:37-47 | for every backend: "error" iff some policy does not take the labelled profile or a valid turbo request is refused by its switch; else "invalid_label" iff a label is invalid; else "unsupported" iff the backend is; else "ok", also for turbo requested on the governor fallback |
| `Reporting.AnnotationTexts` | crates/power-agent/src/status.rs:63-89 | the four annotations, keys and values written out for every backend and all labels |
| `Status.GuardIsExact` | crates/power-agent/src/status.rs:98-102 | the guard asks for a patch iff the merge would change the annotations |
| `Status.PatchSettles` | crates/power-agent/src/status.rs:40-56 | after a patch its guard is off, foreign annotations are unchanged, and earlier patches of the same keys leave no trace |
| `Status.BuildPatch` | crates/power-agent/src/status.rs:40-48 | the document filled key by key holds exactly the desired annotations |
| `Status.PatchTouchesOnlyAnnotations` | crates/power-agent/src/status.rs:27-29 | under JSON merge patch the document overlays the annotations and leaves labels and every other member of the Node as they were |
| `Status.TurboAnnotationExactly` | crates/power-agent/src/status.rs:64-69 | the annotation shows the requested value on every backend and never "unsupported"; the documented promise, stated of the backend's capability, is kept iff the backend drives turbo or no valid turbo value is requested |
| `Status.TurboAnnotationCounterexample` | docs/labels.md:50-53 | two hosts written out in full, detected as unsupported and as governor fallback, that show "enabled" for a turbo nothing can drive |
| `Metrics.SetOneHot` | crates/power-agent/src/metrics.rs:84-100 | after the loop exactly one gauge of the vector is 1, the active one, and no other gauge is touched |
| `Metrics.Metrics.Observe` | crates/power-agent/src/metrics.rs:83-114 | both gauge vectors become one-hot on the report, one counter rises by one, turbo keeps its value when unmanaged |
| `Metrics.MetricsConserved` | crates/power-agent/src/metrics.rs:83-114 | after any run the gauges match the last report, each counter is the number of reports with its result, and turbo shows the last managed value |
| `Metrics.CountersAddUp` | crates/power-agent/src/metrics.rs:110-112 | the four counters add up to the number of reconciles |
| `Watch.FinishFeedsWatch` | crates/power-agent/src/status.rs:50-56 | a patch that reaches the server always leaves an event to deliver; only a failed one leaves the watch drained |
| `Watch.StepKeepsInvariant` | crates/power-agent/src/reconcile.rs:117-191 | every step keeps: the watch ends at the server's Node; once it is drained the last reconcile was of that Node and a fetched copy is current; a pending patch is the one its snapshot calls for; with nothing queued or pending there is nothing left to patch |
| `Watch.AgentKeepsForeignData` | crates/power-agent/src/status.rs:27-29 | without outside edits no run changes labels or unmanaged annotations |
| `Convergence.PatchedCost` | crates/power-agent/src/status.rs:40-56 | the Node after a patch calls for the same annotations and can cause fewer patches than the patch was charged for |
| `Convergence.StepAccounting` | crates/power-agent/src/reconcile.rs:168-188 | every delivery, resync and patch lowers the measure, every patch lowers the bound on patches, and each outside action raises them by at most its allowance |
| `Convergence.NoHotLoop` | crates/power-agent/src/status.rs:20-29 | over any run whose outside edits leave alone what the labels call for, deliveries, resyncs and patches are bounded by the measure at the start plus a constant for each edit, relist and resync tick; patches by two for each stale snapshot (queued or fetched), one for each with mismatched annotations, one or two for the one in flight, and one for each outside action, even if patches that change nothing are echoed |
| `Convergence.AgentAloneConverges` | crates/power-agent/src/status.rs:91-102 | left alone the agent takes at most five steps for each snapshot queued or fetched plus four, and where it can go no further it has converged |
| `Convergence.CanConverge` | crates/power-agent/src/status.rs:91-102 | from every state within the invariant there is a run of the agent alone to rest, with every patch reaching the server |
| `Convergence.SteadyStateIsSilent` | crates/power-agent/src/reconcile.rs:180-186 | once converged, any number of resyncs, faults and drifts changes nothing in the Node, the queue or the pending patch |
| `Convergence.ResyncRetries` | crates/power-agent/src/reconcile.rs:141-143 | after a failed patch the next resync asks for it again iff the Node still does not show it |
| `Restless.GuardedIsWatch` | crates/power-agent/src/status.rs:35-38 | the machine of the next two rows, given the guarded rule, runs exactly like the watch |
| `Restless.UnguardedNeverRests` | crates/power-agent/src/status.rs:91-97 | without the guard, where every patch bumps the version and so produces an event: in every run of the agent alone without lost patches the work in flight stays constant, so another agent step is always possible, and every other step is a patch |
| `Restless.TimestampsNeverRest` | crates/power-agent/src/status.rs:20-24 | with the guard in place but a value never seen before in every wish, such as the time: every patch really changes the Node, and again no run of the agent alone comes to rest, without any echo |
| `Protocol.StepKeepsHardware` | crates/power-agent/src/reconcile.rs:117-126 | every step keeps: the choice of turbo file is fixed, and without drift the hardware reflects the snapshot reconciled last |
| `Protocol.RunRefinesWatch` | crates/power-agent/src/status.rs:60-63 | every run of the whole agent, with drift, refused writes and partial applies, is a run of an agent whose desired annotations depend on the labels alone |
| `Protocol.ReachableInvariant` | crates/power-agent/src/reconcile.rs:147-191 | every state reachable from detection keeps the watch invariant and the hardware invariant |
| `Protocol.AgentHasNoHotLoop` | crates/power-agent/src/status.rs:20-29 | the bounds of `Convergence.NoHotLoop` for the real agent, from every state reachable from detection |
| `Protocol.AgentComesToRest` | crates/power-agent/src/status.rs:91-102 | from every reachable state the agent alone stops within five steps for each snapshot queued or fetched plus four; there the Node shows the four annotation texts that its unchanged labels call for unless a patch failed, and the hardware enforces the labels unless it drifted |
| `Protocol.QuiescentIsConverged` | crates/power-agent/src/reconcile.rs:147-191 | in every reachable state at rest the last reconcile was of exactly the server's Node and, unless its patch failed, the annotations are the desired ones for its labels |
| `Protocol.SteadyStateEndToEnd` | crates/power-agent/src/reconcile.rs:76-191 | in every reachable state at rest without drift since: every policy file holds the text that the server Node's own profile label names ("default" without a valid one), or the right governor for it, up to the first policy that does not take it; and turbo is on or off as the turbo label says if its switch accepts that; whatever stale snapshots did before |
| `Protocol.AnnotationsAtRest` | crates/power-agent/src/status.rs:63-89 | in every reachable state at rest whose last patch did not fail, the Node shows the four annotations that its own labels call for, each key and text written out |
| `Protocol.ResyncUndoesDrift` | docs/verification.md:83-86 | in a converged state a resync (fetch, then reconcile) puts the labelled values back, which ends the drift, and leaves the Node and the watch untouched |
| `Protocol.AnnotationsTellTheTruth` | crates/power-agent/src/status.rs:63-89 | at rest, status "ok" means both labels are valid and every policy carries the profile that the applied-profile annotation names (that text, or on the governor fallback the right governor for it); on a known vendor turbo is as annotated |
| `Protocol.AgentKeepsForeignData` | crates/power-agent/src/status.rs:27-29 | in any run of the real agent without outside edits, labels and all but the four annotations stay as they were |
| `Runtime.ServerMerge` | crates/power-agent/src/status.rs:44-56 | encoding the Node, merging the agent's document and decoding is the overlay the protocol uses |
| `Runtime.Agent.Drive` | crates/power-agent/src/reconcile.rs:117-138 | applies the values under the profile key and the turbo key of the snapshot's labels, records exactly one report in the metrics and stamps the reconcile time |
| `Runtime.Agent.ReconcileNode` | crates/power-agent/src/reconcile.rs:117-145 | one reconcile up to its patch request is the protocol's reconcile step |
| `Runtime.Agent.FinishPatch` | crates/power-agent/src/status.rs:50-57 | the answer to the patch request is the protocol's patch step |
| `Runtime.Agent.TakeWatched` | crates/power-agent/src/reconcile.rs:170-172 | the watch arm is the delivery step of the protocol |
| `Runtime.Agent.FetchNode` | crates/power-agent/src/reconcile.rs:181 | the answer to the resync request is stored; others may act before it is used |
| `Runtime.Agent.TakeFetched` | crates/power-agent/src/reconcile.rs:182 | the stored copy, stale or not, is reconciled as the resync step of the protocol |
| `Runtime.Agent.Turn` | crates/power-agent/src/reconcile.rs:168-188 | every turn of the loop is a protocol step, with its report recorded |
| `Runtime.Agent.Loop` | crates/power-agent/src/reconcile.rs:147-191 | the loop over any interleaving is a run of the protocol, keeps its invariant, and its metrics account for every reconcile of the run |
| `Runtime.Start` | crates/power-agent/src/main.rs:24-55 | detection on the host's files followed by construction starts the agent in the protocol's initial state |

## Left out

- Kubernetes client, watcher backoff, tokio, signals: only queue, relist, get and patch steps remain.
- Deletion of the Node: the watch filter drops it and a resync that finds none only logs, which is the `Fault` step.
- `emit_events` and `publish`: branching towards an external recorder, without state.
- `config.rs`, `http.rs`, `main.rs` beyond start-up, `pstate-cli`: plumbing over the same library.
- Message texts and log output: errors keep the policy, profile, list and path.
- Concurrent patch order: a patch whose reply is lost after the server applied it is the `Finish(true, _)` step, since the agent does nothing different.
- File names that are not UTF-8: discovery skips them; names are strings here.
- `..` components, symbolic links and relative paths in `resolve`: every caller passes an absolute sysfs path.
- Read errors other than a missing file, and entries that fail in the middle of a listing: a listing fails as a whole or not at all.
- Kernel rewriting of a written value: a file reads back what was written to it.
- CPU hotplug and files that appear or vanish by themselves: drift changes values only, and policies are those captured at start.
- Metric counters are unbounded and gauges are integers; the two floating-point values used are 0 and 1.
- Runtime.Agent.Loop: the end of the watch stream is the end of the schedule; the choice between watch and timer is the schedule's.
