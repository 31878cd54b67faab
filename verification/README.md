# Currus: a verified model of its stateful core

Currus gives Go programs one interface over Docker, Podman and containerd, and ships an in-memory engine, `Fake`, for
tests. This project models the parts of it where a simple promise has to survive concurrency, unordered maps, unstable
sorts or a chain of fallbacks, and proves the promise for all inputs, runs and reachable states. Checking it takes one
command in this directory: `dafny verify dfyconfig.toml`.

## What is modelled

**The in-memory engine.** `FakeEngine.Fake` is the engine as the object it is: maps and atomic counters updated in
place, container records and stop channels behind pointers. Each method is proved to have exactly the effect that
`FakeStore` gives the corresponding locked section as a function on values. `FakeSystem` puts those sections under
concurrent use: any number of `CreateContainer` calls (id increment, one step per port entry, locked insertion) and any
number of waiters (snapshot under the read lock, unlocked state read, blocked goroutine, send, close). A run is a list
of labels, a label that is not enabled changes nothing, so statements about every list of labels cover every
interleaving. `FakeInvariant` proves what every reachable state satisfies, `FakeHistory` what a waiter's answer says
about the past, `FakeRemoval` what removal means for the future, `FakePorts` the host port allocation, and
`FakeRefinement` that the engine with its two-level member index behaves as a plain map of phases and a plain relation
of network and container, error codes included.

**Ports.** `Decimal` prints and parses 16-bit numbers as the Go library does, saturation and early exit included.
`Sorting` says what an unstable sort under a total preorder determines, `Selections` what a filter keeps. `Ports` holds the sort key both backends share,
`DockerPorts` the two conversions of the Docker driver and their round trip, `CrossBackend` the agreement between the
fake and the Docker driver.

**Credentials.** `Base64` follows section 4 of RFC 4648 and skips line breaks and unused trailing bits, as Go's
standard encoding does. `Credentials` builds entries, `AuthFiles` is the Podman file cascade, `CredentialChains` the
Docker and the Podman precedence chain over helper binaries.

**Detection.** `Detect` is the priority ladder of `New`; the clients opened and not closed are a resource of the
machine.

**Goroutines of the Docker driver.** `EventStream` is the event forwarder with its 64-slot channel and `DockerWait` the
goroutine of `WaitContainer`, both as state machines over labels.

## Environment

- Credential helpers answer as a function of (helper, registry) during one call; `list` may fail or be empty.
- A file is missing, unreadable, or has contents that may parse as a flat object, as a wrapped config, or as neither.
  Paths are symbolic, so two differently written paths are different files.
- `netip` and `network.ParsePort` are parameters. Nothing is assumed about them; what a result needs of them is written
  into it as `Canonical`, `Accepted` or, where a converse needs it, the law `ParsesOwnPrint`: printed ports and
  addresses parse back to themselves. `SwappedSpellings` shows what goes wrong without it.
- In detection, each attempt to open a client has its own outcome, so two attempts on one address may differ. Option
  handling, TLS loading and Docker context metadata are inputs.
- The client library's event and wait channels, the context and the consumer act in any order.

## Where code and documentation differ

- `AuthEntry.IdentityToken` (credentials.go:77-79) is documented to exclude a user name and password. Entries from
  auth files can carry both; `InlineTokenExcludesPasswordIff` says exactly when, `TokenWithPasswordExists` gives two.
  Helpers never supply one (`TokenBreachIsInline`).
- `Port.Host` (spec.go:122) is documented as the actual bound port on output. The fake's port counter yields 0 at its
  32769th allocation and every 65536th after that, and the container then reports 0: `ZeroPortReportedIff` says exactly
  which containers do, `ZeroPortIsReached` gives a run.
- `New` (detect.go:37-38) is documented to probe until an engine answers a ping. Explicitly selected engines and
  environment endpoints are never pinged and their failure is final. `ReturnsOnlyReachableIff` and `FindsAnyWorkingIff`
  say exactly when the two halves of that promise hold, `DockerHostBreaksBoth` gives an environment that breaks both.

## Model

| member | source | states |
|---|---|---|
| FakeEngine.ResolveEphemeralPorts | currustest/fake.go:612-645 | without interference: container port and host IP of every entry as given, an empty protocol read as "tcp", explicit hosts kept, zero hosts filled in input order from the low 16 bits of consecutive increments; then ascending by container port, protocol in text order and host port |
| FakeEngine.Fake.constructor | currustest/fake.go:128-150 | a new engine is empty and its port counter stands at 32767 |
| FakeEngine.Fake.CreateContainer | currustest/fake.go:186-204 | an empty image is the only error and changes nothing; otherwise the id is "fake-" and the next number in decimal, the ports are filled in and in ascending order, the container is created and joined to every network of its spec |
| FakeEngine.Fake.StartContainer | currustest/fake.go:207-222 | not found, conflict when running, else running with its start line as log and a fresh open channel of its own; nothing else changes |
| FakeEngine.Fake.StopContainer | currustest/fake.go:226-243 | not found, conflict unless running, else exited with its channel closed once and dropped; the channel is always open when closed |
| FakeEngine.Fake.RemoveContainer | currustest/fake.go:246-265 | not found, conflict when running without force, else gone from the map and from every member set, emptied sets dropped |
| FakeEngine.Fake.ListContainers | currustest/fake.go:268-286 | each live container once, all or only the running ones, with its name, image, state and labels |
| FakeEngine.Fake.ContainerLogs | currustest/fake.go:290-300 | not found exactly for ids that are not live, else the container's current log text |
| FakeEngine.Fake.Inspect | currustest/fake.go:322-349 | not found exactly for ids that are not live, else the container's running flag, labels, command with its arguments, and resolved ports |
| FakeEngine.Fake.WaitContainer | currustest/fake.go:366-396 | alone, resolves at once unless the container runs and has a channel, else blocks on the open channel of the current run |
| FakeEngine.Fake.CreateNetwork | currustest/fake.go:454-461 | registers the network under its prefixed id |
| FakeEngine.Fake.RemoveNetwork | currustest/fake.go:476-486 | only a registered network can be removed, and its member set goes with it |
| FakeEngine.Fake.ConnectContainer | currustest/fake.go:489-501 | only a live container can be connected; the network need not be registered |
| FakeEngine.Fake.DisconnectContainer | currustest/fake.go:504-518 | only a live container can be disconnected; an emptied member set is dropped |
| FakeEngine.Fake.NetworkMembers | currustest/fake.go:529-539 | the network's row of the membership relation, each member once |
| FakeInvariant.NextIdFresh | currustest/fake.go:190 | the next id differs from every id issued before |
| FakeInvariant.OpKeepsInv | currustest/fake.go:207-265 | every locked operation keeps: unique ids, running exactly when a channel is in the map, open channels exactly those in the map under their maker's id, live members only |
| FakeInvariant.InsertKeepsInv | currustest/fake.go:192-201 | inserting a container under an unused id keeps the same |
| FakeInvariant.StepKeepsInv | currustest/fake.go:186-396 | one step of any caller keeps the whole invariant, ids in flight and waiters included |
| FakeInvariant.ReachableInv | currustest/fake.go:186-396 | every state of every interleaving satisfies the invariant while fewer than 2^64 ids were issued |
| FakeHistory.ClosingStops | currustest/fake.go:226-243 | the only step that closes a waiter's channel is a stop of the very container the waiter points at, and it leaves that container exited |
| FakeHistory.WaiterResolution | currustest/fake.go:376-395 | over every run, a waiter is resolved exactly when one step after its snapshot resolved it: the state read of a container at rest or without a channel, the wakeup by the stop of the very run it snapshotted, or its own cancelled context; its one answer is that step's answer |
| FakeHistory.EveryWaiterSnapped | currustest/fake.go:367-370 | every waiter in any state took its snapshot at some step, so the history results cover all of them |
| FakeHistory.SnapshotPointers | currustest/fake.go:367-370 | in every later state a waiter points at the record its id had at the snapshot, and holds exactly the channel the map then had for that id |
| FakeHistory.WaiterTruthful | currustest/fake.go:362-396 | an answer "status 0, no error" means that at some moment between the snapshot and the step that resolved the waiter the container was not running, through restarts, removals and the unlocked read |
| FakeHistory.SignalComesFromOwnStop | currustest/fake.go:385-393 | a closed channel was closed after the snapshot by the stop of the run the waiter saw |
| FakeHistory.NoLostWakeup | currustest/fake.go:207-243 | a blocked waiter lacks its signal exactly as long as its container is in the run it snapshotted, so a stop followed at once by a restart still wakes it |
| FakeHistory.OneResultThenClose | currustest/fake.go:376-395 | no result before resolution, exactly one afterwards, and the channel closes only then |
| FakeHistory.OnlyExitOrCancellation | currustest/fake.go:385-393 | every answer is "status 0, no error", or status 0 with "context canceled" or "context deadline exceeded" as the waiter's own context says |
| FakeRemoval.RemovedForever | currustest/fake.go:245-265 | in every continuation a removed container is unchanged, its id unused, and a channel it left stays in the map and open |
| FakeRemoval.LeftoverIffForced | currustest/fake.go:246-265 | the map keeps a channel without a container exactly for ids that were force-removed while running |
| FakeRemoval.ForceRemovedWaiterHangs | currustest/fake.go:246-264 | removing a running container by force strands every waiter blocked on it: it stays as it is in every continuation in which its own context is not cancelled |
| FakePorts.DrawIs | currustest/fake.go:142-144 | over any run the (k+1)-st allocation is (32768 + k) mod 65536, the 64-bit wrap included |
| FakePorts.DrawsCollideIff | currustest/fake.go:622-625 | two allocations coincide exactly when their positions differ by a multiple of 65536 |
| FakePorts.DrawRange | currustest/fake.go:142-144 | the first 32768 allocations are at least 32768, and an allocation is zero exactly at positions congruent to 32769 |
| FakePorts.ZeroPortReportedIff | currustest/fake.go:612-645 | a container reports host port 0 exactly when one of its own allocations stood at such a position |
| FakePorts.ZeroPortIsReached | currustest/fake.go:619-626 | a run in which a container does report host port 0 |
| FakePorts.NoSharedEphemeralPort | currustest/fake.go:186-192 | up to 65536 allocations no ephemeral port goes to two containers |
| FakePorts.EveryContainerResolved | currustest/fake.go:612-645 | whatever creates overlap, each container's ports are in ascending order its spec filled in entry by entry, with exactly the allocations made for it, in input order |
| FakePorts.EveryContainerRequested | currustest/fake.go:186-192 | every container, live or removed, carries the spec some create call asked for and the id that call drew |
| FakePorts.CreateAlone | currustest/fake.go:186-204 | an uninterrupted create through the concurrent steps equals the sequential one |
| FakeRefinement.OpRefines | currustest/fake.go:207-518 | each locked operation does to phases and membership what the simple machine does and returns the same error |
| FakeRefinement.InsertRefines | currustest/fake.go:192-201 | creation adds the id as created and one pair per network of the spec |
| FakeRefinement.RunRefines | currustest/fake.go:186-518 | over every run the store represents exactly the phases and membership relation of the simple machine |
| FakeRefinement.MembersAreLive | currustest/fake.go:476-518 | in every reachable state members are live, and a network has a member set exactly when it has a member |
| Decimal.ParseDigits | driver_docker.go:595 | a digit string parses to its value, saturated at 65535 |
| Decimal.ParseMalformed | driver_docker.go:595 | any other text parses to 0, or to 65535 when its leading digits already leave the range; the error is ignored |
| Decimal.FormatLeads | driver_docker.go:1000 | printing leaves no leading zero |
| Decimal.ParseFormat | driver_docker.go:1000 | printing then parsing is the identity exactly on 16-bit numbers |
| Sorting.ArrangementsTie | driver_docker.go:608 | two sorted arrangements of the same elements tie position by position |
| Sorting.SortedUniqueIffNoTies | driver_docker.go:608 | sorting determines the list exactly when no two different elements tie |
| Ports.CmpPortTies | driver_docker.go:1010-1019 | the comparison is antisymmetric and zero exactly on equal (container, protocol, host) |
| Ports.CmpPortTransitive | driver_docker.go:1010-1019 | the comparison is transitive |
| Ports.CmpPortIsTotalPreorder | driver_docker.go:1008-1019 | it is a total preorder whose ties are the equal keys |
| Ports.PortLeqIsInOrder | driver_docker.go:1008-1019 | the comparison is: ascending container port, then protocol in text order, then ascending host port |
| Ports.CompareTextBefore | driver_docker.go:1014 | text order is by the first differing character, a proper prefix first |
| Ports.SortedKeysAgree | driver_docker.go:608 | sorted lists of one multiset show one key sequence, and are equal when no two ports share a key |
| Ports.SortedListUniqueIff | currustest/fake.go:633-642 | the sorted port list is unique exactly when no two different ports share a key |
| DockerPorts.ConvertPorts | driver_docker.go:977-1006 | succeeds exactly when every "port/protocol" text and every given address parses, else names the first offender; on success every key holds, in list order, the bindings of exactly the ports whose text parses to it, with the parsed address and the decimal host port where given |
| DockerPorts.InspectPorts | driver_docker.go:577-611 | the runtime map if nonempty, else the configured one, else nothing; one report for every binding that has a host port, with the key's number and protocol, the parsed host port and the printed address, in ascending order, whatever the iteration order |
| DockerPorts.FlattenOrderIrrelevant | driver_docker.go:588-607 | iteration order changes the order of the collected ports, never their multiset |
| DockerPorts.ConvertInspectRoundTrip | driver_docker.go:577-611 | converting any accepted list and inspecting the stopped container gives the sorted multiset of the ports with a host port, in the libraries' spelling |
| DockerPorts.CanonicalRoundTrip | driver_docker.go:977-1006 | on canonical input that is the input itself with protocols defaulted and ports without a host port dropped |
| DockerPorts.CanonicalPortsComeBack | driver_docker.go:577-611 | the same said port by port: exactly the ports with a host port, each as given with an empty protocol read as "tcp", in ascending order |
| DockerPorts.RoundTripIffCanonical | driver_docker.go:977-1006 | when the libraries parse back what they print, that holds for an accepted list exactly when every port with a host port is canonical |
| DockerPorts.InspectOrderIndependent | driver_docker.go:589-610 | two inspections of one map list the same keys in the same order, and the same ports unless two ports tie |
| CrossBackend.BackendsAgree | currustest/fake.go:608-645 | for explicit, canonical specs the fake and the Docker driver report the same multiset with the same key sequence, and the same list without ties |
| CrossBackend.AgreementNeedsCanonical | driver_docker.go:977-1019 | for every explicit, accepted list the two backends report the same multiset exactly when every port is canonical, when the libraries parse back what they print |
| CrossBackend.OnePortAgreement | driver_docker.go:977-1019 | for one port the same without any law about the libraries |
| CrossBackend.SwappedSpellings | driver_docker.go:983-999 | without that law two ports can trade spellings, and the multisets agree though neither port is canonical |
| Base64.DecodeEncode | credentials.go:391-395 | decoding undoes encoding for every byte string, and only the empty string encodes to nothing |
| Base64.AlphabetRuns | credentials.go:391 | the alphabet is that of section 4 of RFC 4648 |
| Base64.EncodesThree | credentials.go:381-383 | every three bytes become the four symbols with the same 24 bits |
| Base64.EncodesTail | credentials.go:381-383 | one or two bytes at the end are filled up with zero bits and padded to four symbols |
| Base64.DecodeIff | credentials.go:391-395 | exactly the texts that are, line breaks aside, symbols in groups of four with at most two padding signs at the end decode |
| Base64.EncodeDecoded | credentials.go:391-395 | encoding what was decoded gives the text back, but for unused bits before the padding |
| Credentials.CredentialRoundTrip | credentials.go:388-403 | decoding "user:password" gives the pair back exactly when the user name has no colon; else it is cut at the first colon |
| Credentials.HelperGetMeans | credentials.go:324-385 | only an answer is a hit, absence and a nonzero exit are misses, all else fails; the entry is an identity token for the user name "<token>", else user name, password and their base64 pair |
| Credentials.InlineMeans | credentials.go:407-428 | both tokens as given; with an auth field that field and the two parts of its decoded text around the first colon, or nothing; else the plain user name and password and their base64 pair |
| Credentials.InlineConsistent | credentials.go:407-428 | an auth file entry with a user name or password has an auth field, and that field decodes to them unless the user name holds a colon |
| Credentials.InlineFixedPoint | credentials.go:407-428 | re-reading an entry from its own auth field changes nothing, exactly when the file gave the field or the user name has no colon |
| Credentials.HelperConsistent | credentials.go:368-385 | helper entries are consistent in the same way, and token entries carry no user name, password or auth field |
| Credentials.InlineTokenExcludesPasswordIff | credentials.go:68-79 | the documented exclusion of token and password holds exactly when the file does not give a token next to a base64 text with a colon and more than the colon, or next to a plain user name or password |
| Credentials.TokenWithPasswordExists | credentials.go:407-428 | two concrete auth file entries that break the documented exclusion, "dTpw" with a token and plain fields with a token |
| AuthFiles.MergeMissing | credentials.go:534-543 | one file adds only keys not seen before, in any iteration order |
| AuthFiles.MergePodmanAuthFiles | credentials.go:520-547 | each key maps to the value in the earliest readable file that mentions it, and the domain is the union |
| AuthFiles.CascadeIs | credentials.go:163-200 | the files, path by path and from the strongest to the weakest: REGISTRY_AUTH_FILE alone if set, else the runtime, the config, Docker's and the legacy file |
| AuthFiles.FirstWinsUnique | credentials.go:520-547 | first-found-wins determines the merged map |
| AuthFiles.OverrideIsSoleSource | credentials.go:162-167 | with the explicit override set, the merged config is that file's config, or empty when it cannot be read |
| CredentialChains.ResolveDockerCredentials | credentials.go:437-472 | fails exactly on a config.json that cannot be read or parsed; a registry has an entry exactly when the config names it or the global store lists it, and its source gives that entry |
| CredentialChains.ResolveDockerRegistry | credentials.go:476-516 | a registry with a helper, or any registry under a global store, gets that source's answer or nothing; else the inline entry unless blank |
| CredentialChains.DockerIgnoresInlineIff | credentials.go:482-505 | what the auth file says about a registry never matters exactly when a helper of its own or a global store covers it |
| CredentialChains.ResolvePodmanRegistry | credentials.go:630-674 | the registry's own helper if it answers, else the first global helper that answers, else the inline entry unless blank |
| CredentialChains.CollectPodmanRegistries | credentials.go:551-579 | exactly the inline keys, the helper keys and everything any global helper lists |
| CredentialChains.PodmanExternalHelpers | credentials.go:608-626 | the user's registries.conf if it names a helper other than "containers-auth.json", else the system's; those helpers, in order, without that one |
| CredentialChains.ResolvePodmanCredentials | credentials.go:588-603 | over the merged cascade, a registry has an entry exactly when the config names it or a global helper lists it, and the chain gives that entry |
| CredentialChains.MergedConfigUnique | credentials.go:520-547 | the merged cascade is one config, whatever the iteration orders |
| CredentialChains.ResultsConsistent | credentials.go:437-603 | every entry of either result is consistent |
| CredentialChains.TokenBreachIsInline | credentials.go:368-428 | an entry of either chain with a token next to a user name or password can only be the inline entry of a file that gives both |
| CredentialChains.PodmanResultDomain | credentials.go:551-603 | a collected registry is missing exactly when no helper answers and the inline entry is absent or blank; an uncollected one has neither helper nor inline entry |
| CredentialChains.DockerWithinPodman | credentials.go:476-516 | with one config, no store and no global helpers, Podman returns all Docker returns, and besides exactly the registries whose helper misses but whose inline entry answers |
| CredentialChains.OverrideContainsDocker | credentials.go:588-603 | the same end to end, through the file override |
| CredentialChains.BlankShadows | credentials.go:534-538 | a blank entry in an earlier file hides a full one in any later file |
| Detect.TryCandidate | detect.go:208-230 | one candidate is opened, probed, and closed again unless it works |
| Detect.AutoDetect | detect.go:160-238 | of the documented sockets, address by address, the first that opens, pings and answers info is returned, nothing later is opened, every rejected client is closed |
| Detect.BuildAndResolveDockerEngine | detect.go:289-300 | one client is opened and either returned or closed |
| Detect.OpenKind | detect.go:111-157 | the selected kind decides: unsupported, TLS failure, one resolved Docker-API client, or one unprobed containerd client |
| Detect.EnvEndpoint | detect.go:311-395 | answers exactly when an environment endpoint is configured, and otherwise touches nothing |
| Detect.New | detect.go:57-77 | every rung of the documented ladder in order, with what it opens or refuses; clients opened and not closed are exactly the returned one, or none on an error |
| Detect.DocumentedPriority | detect.go:46-51 | with nothing configured the j-th documented socket wins exactly when it is usable and none before it is; a usable Docker socket is the only one opened |
| Detect.ReturnsOnlyReachableIff | detect.go:35-77 | the promise that a returned engine answers a ping holds for every behaviour of the engines exactly when the ladder ends in the socket search or opens nothing |
| Detect.FindsAnyWorkingIff | detect.go:35-77 | the promise that an engine is returned while some well-known socket works holds for every behaviour exactly when nothing is configured |
| Detect.DockerHostBreaksBoth | detect.go:311-323 | one environment, DOCKER_HOST alone, that breaks both promises |
| Detect.NoFallThroughIff | detect.go:60-76 | CONTAINER_ENGINE and the socket places are irrelevant to every outcome of New exactly when the kind is explicit or an environment endpoint is configured |
| Detect.SearchFindsFirst | detect.go:204-237 | if some candidate works the search succeeds, at that candidate exactly when none before it works |
| EventStream.ForwardingIsFifo | driver_docker.go:708-746 | received, buffered and in-hand events show, one by one and in order, the messages taken so far: type, action, and the name or else the id as actor; the buffer holds at most 64 |
| EventStream.DrainedStreamIsComplete | driver_docker.go:716-719 | a drained stream that ended with the raw channel has delivered everything ever sent |
| EventStream.NothingAfterClose | driver_docker.go:713 | after the close nothing is sent and the stream stays closed |
| EventStream.FullBufferHolds | driver_docker.go:720-724 | with a full buffer only a receive lets the goroutine go on, not even cancellation |
| EventStream.SendBlocksIff | driver_docker.go:720-724 | a held event is sent exactly when fewer than 64 are buffered |
| DockerWait.AtMostOneResult | driver_docker.go:685-702 | exactly one offered result before the single close, none exactly on a nil error |
| DockerWait.SendNeverBlocks | driver_docker.go:685-701 | the one-slot channel is empty whenever the send is reached |

## Left out

- FakeInvariant.ReachableInv: and the results that rest on it assume fewer than 2^64 ids; after a wrap the code reuses ids and overwrites containers.
- FakeEngine.Fake.CreateContainer: states the call without interference; FakePorts.EveryContainerResolved covers overlapping creates.
- FakeEngine.Fake.WaitContainer: stops before the goroutine, which FakeSystem models step by step.
- Detect.New: results are success or error; that the interface value is non-nil next to some errors is not modelled.
- FakeEngine.Fake.Inspect: leaves out environment, working directory, mounts, security, DNS, host name, extra hosts and init flag, which it copies from the spec unchanged.
- Images, volumes, exec, stats and copies of the fake: single-map updates.
- A data race on the unlocked state read: it is taken as one atomic read.
- Liveness: no fairness is assumed, so nothing says that an enabled goroutine moves.
- Collisions between explicit and ephemeral host ports in the fake, and unique container names: the code enforces neither.
- The sort of the Go library is represented by what it promises, a sorted permutation with ties in any order.
- Strings are compared by code point, which is byte order for valid UTF-8.
- The containerd driver, HTTP and gRPC calls, JSON and TOML parsing, process execution, TLS and Docker context files.
- CPU statistics, mounts, restart policies, DNS, capabilities, error mapping and daemon socket resolution: small case splits.
- The mapping of wait conditions in the Docker driver and the choice between the two credential chains by engine kind: plain dispatch.
