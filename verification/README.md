# Verified core of the Mini-Go compiler, VM and RPC runtime

This project models the parts of Mini-Go whose correctness is not visible in any one function, and proves what they
are for. `dafny verify dfyconfig.toml` checks it.

- **Compiler.** Incremental analysis reuses a checked package when a shallow digest matches; it must equal a full run.
  The linker keeps exactly the functions that three mutually triggering conditions make reachable, prunes the rest, and
  orders and hashes what is left.
- **RPC.** Leases between two endpoints, ownership of route-set resources, the single decision on a provisional result,
  the fragmenting transport, the canonical value codec, and the FFI session's accounts.
- **VM.** Frame pooling, label removal, map iteration under mutation, and the settlement of pending FFI calls.
- **Hot reload.** Revisions, patch plans, and the shape check behind rebinding module state.

Algorithms that loop or update objects in place are methods and classes, proved against specification functions.
Protocols are state machines: `Next` takes one step, a step is one lock section or one atomic update, a step that is not
enabled changes nothing, and `Run` takes any list of steps. The theorems quantify over every such list, that is, over
every interleaving. Digests are free constructors, so equal digests have equal contents.

Files follow the components: `IncrementalAnalysis`; `LinkerReachability` (what must be kept), `LinkerRules` (the
same, as flat rules over the program), `LinkerWorklist` (the queue that computes it), `Pruning`, `LinkOrder`; `WireCodec`, `WireVectors`
(concrete bytes), `KeyedSort`, `ValueCodec`, `ValueValidation`, `ValuePlain`
(what the decoder accepts), `ValueShuffle` (orders of entries and fields), `ValueRoundTrip`, `ValueCanonical`, `ValueOrder`,
`ValueWriter` (the encoder as it runs); `FragmentCodec`, `Transport`; `LeaseRenewal`, `LeaseTables`, `LeaseSafety`
and `LeaseHandshake` (bindings), `OperationLeases` and `OperationLife` (operations and results); `ResultDecision`, `RouteOwnership` (the steps and what they keep),
`RouteSafety` and `RouteOutcome` (whole runs), `RouteShutdown` (progress), `FfiSession`; `FrameReuse`, `FrameLedger`, `LabelStripping`, `MapIteration`, `FfiSettlement`;
`GlobalShape`, `HotReload`, `PatchLife`, `RootRetention`; and `Options`.

## Where the code falls short of the plain statement

Each item has a lemma with a concrete input and a theorem saying exactly when the code does meet the statement.

- A resource exported after the call's list of provisional resources was read is forgotten when a rejection or a
  decision, accepting or not, drops that list; shutdown does not close it (`RouteSafety.LateExportLeaks`). At the end an
  exported resource has had a close attempt exactly if it was not on a list dropped that way before cleanup began, and
  only late exports are (`RouteSafety.OwnershipIsSafe`, `RouteSafety.LostForGood`).
- Whether globals still refer to a retired revision is judged at sweeps only. A call of the old revision can store such
  a reference after the sweep of a patch and return, and the payload is released (`RootRetention.StaleMarkReleases`).
  A payload is released while referenced exactly if the reference was stored after the revision's last sweep had found
  none (`RootRetention.ReleasedExactly`, `RootRetention.DoomedExactly`); a guest that takes no retired revision up again
  never loses one (`RootRetention.DisciplinedIsSafe`).
- The validator compares trimmed label names, the loader compares them as written and sends an unknown name to
  position 0 (`LabelStripping.BlankMisleads`, `LabelStripping.ResolvesRight`).
- Deletion through reflection removes an entry but not its identity, so a live iterator yields zero values for it
  (`MapIteration.ReflectDeleteIsYielded`), or, if the key is stored again, the new entry under the old identity
  (`MapIteration.ReflectDeleteThenStore`). The iterator notices exactly if the next surviving identity is the deleted
  key's and its entry was not already zero (`MapIteration.ReflectDeleteUnnoticed`); the index stays right exactly if there
  was nothing to delete (`MapIteration.ReflectDeleteKeepsInverse`).
- A renewal acknowledges an operation whose result has retired with its binding, so the holder counts on a result the
  peer has given up (`OperationLeases.OrphanIsRenewed`). An undecided operation whose result has retired is acknowledged
  exactly if its binding's lease has ended and its own still runs (`OperationLeases.RetiredIsRenewedExactly`); with the
  binding leased the holder's lease is always covered (`OperationLeases.OperationSafety`).

## Model

| member | source | states |
|---|---|---|
| `IncrementalAnalysis.SemanticDependencies` | compiler/dependency_facts.go:12-45 | the pending-stack loop returns all members of analysed direct imports and the types of everything they reach through analysed packages, in whatever order it visits |
| `IncrementalAnalysis.ReachableByFirstStep` | compiler/dependency_facts.go:21-43 | a package in the closure is a direct import or lies in the closure of one direct import's own imports |
| `IncrementalAnalysis.FactsFromDirectDigests` | compiler/analysis.go:102-131 | the whole transitive fact set can be read off the export digests of the direct imports |
| `IncrementalAnalysis.DigestsDetermineFacts` | compiler/analysis.go:102-131 | two runs with equal dependency digests hand the checker equal facts, even if graph and configuration history differ |
| `IncrementalAnalysis.RunConsistent` | compiler/analysis.go:85-178 | after every package of a full run, each recorded package is the check of its source against its imports' facts and its digest covers its surface and the types below it |
| `IncrementalAnalysis.ReuseIsFresh` | compiler/analysis.go:102-131 | with equal configuration, source digest and dependency digest, the cached information and export digest are what a fresh check would produce |
| `IncrementalAnalysis.ReuseStep` | compiler/analysis.go:102-131 | recording a reused package leads to the same loop state as analysing it |
| `IncrementalAnalysis.RunMeans` | compiler/analysis.go:77-193 | a full run looks at a prefix of the order, records what parses with its facts and digests, has the diagnostics of graph, parser and checker in order, and ends with the order or at the first failure that is not passed over |
| `IncrementalAnalysis.StopsAtFailure` | compiler/analysis.go:184-186 | without passing over errors, nothing after a package that does not parse or was recorded with errors is looked at |
| `IncrementalAnalysis.RunsToTheEnd` | compiler/analysis.go:85-193 | passing over errors, or without any, exactly the packages of the order are looked at |
| `IncrementalAnalysis.Analyze` | compiler/analysis.go:53-193 | with any earlier snapshot, itself possibly incremental, the result equals the result without one, and is what graph, front end and result alone say it should be: which packages were looked at, recorded and digested, their diagnostics in order, and where an error stops the run |
| `LinkerReachability.DerivableClosed` | compiler/linker_reachability.go:98-450 | the facts derivable by the linker's rules form the least closed set: roots, edges of kept functions, required methods of reachable receivers, and all methods of reachable receivers once reflection is on |
| `LinkerReachability.WalkedClosed` | compiler/linker_reachability.go:101-271 | the types a walk owes are closed under its successor relation |
| `LinkerRules.DerivableIsMustStay` | compiler/linker_reachability.go:98-450 | what the worklist's rules derive is exactly what every set obeying the rules stated flatly over the program must have: entries, declared types, each instruction, type parts, interface calls, error methods and reflection |
| `LinkerRules.BrokenMeans` | compiler/linker_reachability.go:272-450 | linking a function fails exactly if it is missing, or needs an export, a variable export or a dynamic result type that is not there |
| `LinkerRules.FindExportMeans` | compiler/linker_reachability.go:71-73 | an export is found by name exactly if one exists, the last of that name |
| `LinkerRules.NamedReceiverMeans` | compiler/linker_reachability.go:532-561 | the receiver is the declaration some number of pointers and instances away, if there is one, cycles or not |
| `LinkerRules.UnderlyingMeans` | compiler/types/query.go:8-54 | the underlying type ends the chain of aliases and declarations, unless that is longer than the table |
| `LinkerRules.InterfaceMethodsMeans` | compiler/types/query.go:91-111 | an interface type has its own methods if it declares any, else those of the interface it stands for |
| `LinkerRules.ValidMeans` | compiler/types/model.go:80-95 | a valid reference names or points to its declaration, or carries exactly what its kind calls for |
| `LinkerRules.InterfaceCallKeeps` | compiler/linker_reachability.go:400-412 | an implementation of a method of an interface that a kept function calls through is kept once its receiver is reachable |
| `LinkerRules.LocalIsReceiver` | compiler/linker_reachability.go:288-299 | the declared type behind a local of a kept function is a reachable receiver |
| `LinkerRules.BroughtIsReceiver` | compiler/linker_reachability.go:300-450 | types, constants, globals and exports that a kept function uses make their declared types reachable, and require the error method where they can be errors |
| `LinkerRules.CalledIsKept` | compiler/linker_reachability.go:339-399 | direct calls, closures and loaded function exports keep their targets |
| `LinkerRules.ReflectionKeeps` | compiler/linker_reachability.go:182-192 | once a kept function looks methods up by reflection, every method of a reachable receiver is kept |
| `LinkerWorklist.Worklist.Enqueue` | compiler/linker_reachability.go:39-49 | queueing a derivable function once keeps the worklist sound |
| `LinkerWorklist.Worklist.RequireMethod` | compiler/linker_reachability.go:193-208 | requiring a method queues exactly the matching methods of receivers already reachable |
| `LinkerWorklist.Worklist.AddReceiver` | compiler/linker_reachability.go:128-146 | a newly reachable receiver queues its methods already required, or all of them under reflection |
| `LinkerWorklist.Worklist.EnableReflection` | compiler/linker_reachability.go:182-192 | turning reflection on queues the methods of every reachable receiver |
| `LinkerWorklist.Worklist.Visit` | compiler/linker_reachability.go:104-271 | the recursive type visitor ends, and what it has seen is closed and recorded |
| `LinkerWorklist.Worklist.Trace` | compiler/linker_reachability.go:272-450 | processing a function records everything keeping it implies, or reports failure exactly for a broken function |
| `LinkerWorklist.FixpointReached` | compiler/linker_reachability.go:272-450 | when every kept function is traced and the queue is empty, kept and derivable coincide |
| `LinkerWorklist.RetainReachable` | compiler/linker_reachability.go:30-450 | linking succeeds exactly if no derivable function is broken, and then keeps exactly the derivable functions, which are those that every set obeying the flat rules must have, whatever the order of queue and maps |
| `Pruning.FoundAfterPrune` | compiler/linker_reachability.go:451-529 | an export whose function is kept is still found under its name |
| `Pruning.KeptNameHasExport` | compiler/linker_reachability.go:451-529 | a name that stays in a requirement still has an export in the pruned dependency |
| `Pruning.RequirementAfterPrune` | compiler/linker_validation.go:15-106 | a valid requirement is valid after pruning |
| `Pruning.ReferenceAfterPrune` | compiler/linker_validation.go:15-106 | a valid reference from a kept function is valid after pruning |
| `Pruning.PruningPreservesLinks` | compiler/linker_validation.go:15-106 | if all cross-package references validate before pruning to the kept set, they validate after; distinct export names are not needed |
| `Pruning.RetainReachableCode` | compiler/linker_reachability.go:30-529 | what the whole pass returns validates if its input did |
| `Pruning.ReferenceMeans` | compiler/linker_validation.go:56-106 | a call or closure needs its target, if it has one, a load its export, an address of another module a variable, anything else nothing |
| `Pruning.PrunedExactly` | compiler/linker_reachability.go:451-530 | exactly the kept functions stay and the exports of dropped ones go; methods stay, with a forgotten implementation exactly if it was dropped; everything else is as it was |
| `LinkOrder.OrderWalk.Visit` | compiler/linker_reachability.go:576-601 | the recursive visitor ends on the unseen modules, adds every module it owes once, and in acyclic graphs after its dependencies |
| `LinkOrder.DependencyOrder` | compiler/linker_reachability.go:576-615 | for any preferred list the order lists every module once, dependencies first if the graph is closed and acyclic |
| `LinkOrder.BindHashes` | compiler/linker_image.go:96-135 | binding succeeds exactly if every module follows its requirements, and then each hash covers the hashes of its requirements |
| `LinkOrder.OrderedIsAcyclic` | compiler/linker_image.go:96-135 | a graph that has an order with dependencies first is acyclic |
| `LinkOrder.LinkModules` | compiler/linker_image.go:96-135 | ordering and binding meet no unavailable module exactly on closed, acyclic graphs |
| `LinkOrder.RetainReachableModules` | compiler/linker_image.go:224-247 | the retained modules are the least set around the root closed under requirements; failure exactly if that set needs an absent module |
| `WireCodec.UintRoundTrip` | rpc/wire_codec.go:118-136 | the varint decoder accepts exactly the encodings of 64-bit values, whatever follows |
| `WireCodec.IntRoundTrip` | rpc/wire_codec.go:139-145 | zig-zag integers survive the wire |
| `WireCodec.DelimitedRoundTrip` | rpc/wire_codec.go:200-214 | length-delimited bytes survive the wire within the decoder's limit |
| `WireCodec.WireEncoder.Uint` | rpc/wire_codec.go:31 | the septet loop appends exactly the varint |
| `WireCodec.ReadSeptets` | rpc/wire_codec.go:118-136 | the reading loop computes the scan, including truncation and the ten-byte bound |
| `WireCodec.WireDecoder.Uint` | rpc/wire_codec.go:118-136 | a successful read advances past exactly the canonical varint, a failed one not at all |
| `WireCodec.WireDecoder.RawView` | rpc/wire_codec.go:200-214 | a successful read advances past exactly the delimited bytes |
| `WireVectors.UvarintWeighs` | rpc/wire_codec.go:31 | a varint weighs its number in groups of seven bits, the lowest first, with every byte but the last asking for more and none spent on a leading zero |
| `WireVectors.ZigZagAlternates` | rpc/wire_codec.go:32-34 | integers are numbered 0, -1, 1, -2, 2 and so on |
| `WireVectors.KindBytes` | rpc/endpoint_value_codec.go:59-73 | the thirteen kinds of data by the byte that stands for them |
| `WireVectors.MapBytes` | rpc/endpoint_value_codec.go:115-133 | a map with one entry, byte by byte |
| `WireVectors.FrameBytes` | rpc/endpoint_fragment.go:31-52 | a fragment header and a renewal list, byte by byte |
| `KeyedSort.LexIsByteOrder` | rpc/endpoint_value_codec.go:129 | one key is at most another exactly if it is a prefix of it or has the smaller byte where they first differ |
| `KeyedSort.SortPermutation` | rpc/endpoint_value_codec.go:115-145 | sorting records by key forgets the input order when equal keys carry equal records |
| `KeyedSort.SortUnique` | rpc/endpoint_value_codec.go:115-145 | any sorted rearrangement is the one computed |
| `ValueValidation.ValidateMeans` | rpc/value.go:65-150 | the counting walk accepts exactly the proper values whose total bytes and elements stay within limits |
| `ValueValidation.FitsMeans` | rpc/value.go:65-150 | a value fits its type text exactly if, place by place, its items, entries, fields or content do |
| `ValueValidation.ResourceProper` | rpc/value.go:65-150 | a resource is proper exactly at the top, with an epoch, an identity and a 64-byte hash that its trimmed type text equals |
| `ValuePlain.DecodeExactly` | rpc/endpoint_value_codec.go:157-260 | the decoder accepts exactly the encodings, entries and fields in any order, of values within its limits, consumes exactly the encoding and returns the value in the order written |
| `ValueShuffle.ShuffleSize` | rpc/value.go:65-150 | reordering entries and fields at any depth keeps the byte and element totals |
| `ValueShuffle.ShuffleProper` | rpc/value.go:65-150 | reordering entries and fields at any depth keeps a value proper |
| `ValueRoundTrip.RoundTrip` | rpc/endpoint_value_codec.go:75-260 | in whatever order a validated value is written, with anything after it, decoding consumes exactly what was written and returns the value in that order |
| `ValueRoundTrip.PlainCanon` | rpc/endpoint_value_codec.go:115-145 | encoding with a stable sort writes the canonical form as it stands |
| `ValueRoundTrip.CanonRoundTrip` | rpc/endpoint_value_codec.go:75-260 | that encoding decodes to the value with entries and fields sorted at every depth |
| `ValueRoundTrip.CanonSize` | rpc/value.go:65-150 | the canonical form has the same size |
| `ValueRoundTrip.CanonProper` | rpc/value.go:65-150 | the canonical form of a proper value is proper |
| `ValueCanonical.EncodingIsCanonical` | rpc/endpoint_value_codec.go:75-260 | two values have equal encodings exactly if they have equal canonical forms |
| `ValueCanonical.ShuffleEncodes` | rpc/endpoint_value_codec.go:75-155 | reordering entries and fields at any depth leaves the encoding unchanged when equal encoded keys have equal entries |
| `ValueCanonical.AnySortEncodes` | rpc/endpoint_value_codec.go:115-133 | whatever order an unstable sort comes to, the bytes are the same when equal encoded keys have equal entries |
| `ValueCanonical.WrittenRoundTrip` | rpc/endpoint_value_codec.go:13-57 | an accepted list, its values written in any order, is accepted by `DecodeValues` and returned in that order |
| `ValueCanonical.ValuesRoundTrip` | rpc/endpoint_value_codec.go:13-57 | whatever `EncodeValues` accepts, `DecodeValues` accepts and returns in canonical form |
| `ValueOrder.AscendingEncodes` | rpc/endpoint_value_codec.go:115-145 | sorted at every depth with ties broken anyhow, a value has one encoding when equal encoded keys have equal entries |
| `ValueOrder.AscendingIsByteOrder` | rpc/endpoint_value_codec.go:115-145 | in a validated value in ascending order field identities strictly grow, and each encoded map key is a prefix of the next or smaller at the first differing byte |
| `ValueOrder.CanonicalExactly` | rpc/endpoint_value_codec.go:115-145 | a value is its own canonical form exactly if its entries and fields ascend at every depth |
| `ValueOrder.EncodeCanon` | rpc/endpoint_value_codec.go:75-155 | a value and its canonical form have the same encoding |
| `ValueOrder.ReencodeExactly` | rpc/endpoint_value_codec.go:13-57 | a decoded payload is the encoding of its result as it stands, and encoding the result again gives the payload exactly if everything in it ascends |
| `ValueWriter.SortRecords` | rpc/endpoint_value_codec.go:127-138 | keys in byte order and the same records, with nothing promised among equal keys |
| `ValueWriter.EncodeBinaryValue` | rpc/endpoint_value_codec.go:75-155 | the recursive encoder appends exactly the bytes of a reordering of the value with keys in byte order and identities growing at every depth |
| `ValueWriter.EncodeMap` | rpc/endpoint_value_codec.go:115-133 | encoding keys on the side, sorting by them and writing entries appends the entries in ascending order of their written keys, whatever the sort does with ties |
| `ValueWriter.EncodeStruct` | rpc/endpoint_value_codec.go:134-144 | fields go out in ascending order of identity |
| `ValueWriter.WriteValues` | rpc/endpoint_value_codec.go:13-31 | the encoder succeeds exactly if the list is valid and what it wrote fits; that decodes to the list, reordered into byte order at every depth, and is the one encoding when equal encoded keys have equal entries |
| `FragmentCodec.FragmentRoundTrip` | rpc/endpoint_fragment.go:31-92 | the fragment decoder accepts exactly the encodings of well-formed fragments within its limits |
| `FragmentCodec.ChunkFits` | rpc/endpoint_fragment.go:8-12 | the header never exceeds its reserved size, so a chunk of the remaining size always encodes |
| `FragmentCodec.EncodeFragmentTo` | rpc/endpoint_fragment.go:31-52 | the buffer-appending encoder refuses exactly malformed or oversized fragments |
| `Transport.Reassembler.Append` | rpc/endpoint_fragment.go:94-123 | copying into the assembly buffer yields the concatenation of the chunks, and errors exactly on a break in the sequence |
| `Transport.ReadLoop` | rpc/endpoint_transport.go:601-638 | the read loop's messages and failure are those of reading frame by frame |
| `Transport.FragmentWriter.WriteControl` | rpc/endpoint_transport.go:388-503 | one control turn of the write loop, with expiry, refusal and transport errors |
| `Transport.FragmentWriter.WriteData` | rpc/endpoint_transport.go:388-503 | one data turn: identity taken at the first fragment, deadline refreshed, drop before the first fragment |
| `Transport.WriteLoop` | rpc/endpoint_transport.go:367-504 | the loop's frames and failure are those of the turns |
| `Transport.TransportRoundTrip` | rpc/endpoint_transport.go:388-503 | for all queues, deadlines, drops, frame sizes and errors the reader meets no sequence error and has exactly the completed messages, in order |
| `Transport.LanesAreFair` | rpc/endpoint_transport.go:405-425 | data messages arrive in the order begun, all but one under way, and at most four control fragments go out while a data fragment waits |
| `Transport.HealthyTurnSends` | rpc/endpoint_transport.go:436-503 | a turn without errors that has anything to send puts exactly one frame on the wire |
| `Transport.ControlGoes` | rpc/endpoint_transport.go:398-425 | a queued control message goes out whole unless a data message is under way that has waited for four |
| `Transport.DataGoes` | rpc/endpoint_transport.go:436-503 | otherwise the data message goes on, begun as its refreshed encoding if there is one, and control has its turn again |
| `Transport.ControlWaitsOnce` | rpc/endpoint_transport.go:398-425 | of any two healthy turns with control queued at least one sends a control message |
| `Transport.ExpiredIsDropped` | rpc/endpoint_transport.go:426-451 | what has expired is never begun, and the connection fails exactly if nobody is told or the message was already under way |
| `LeaseRenewal.TargetListRoundTrip` | rpc/endpoint_lease.go:42-111 | a target list survives the wire exactly when it is short enough, without zero or repeated identities; it arrives split by kind, in order |
| `LeaseRenewal.SplitMore` | rpc/endpoint_lease.go:84-111 | one more target goes to the end of the list of its kind |
| `LeaseRenewal.RenewalRound` | rpc/endpoint_lease.go:139-182 | one maintenance round sends ceil(n/L) batches of L distinct targets that together cover every target, or one batch if all fit |
| `LeaseRenewal.ReachedInRotation` | rpc/endpoint_lease.go:58-77 | a target at distance d from the offset is in batch k, where kL <= d < (k+1)L for batches of L |
| `LeaseRenewal.RotationCovers` | rpc/endpoint_lease.go:58-77 | any ceil(n/L) consecutive batches over an unchanged list cover every target, from any starting offset |
| `LeaseRenewal.WindowDistinct` | rpc/endpoint_lease.go:58-77 | a batch from any start repeats no target |
| `LeaseTables.RenewBindings` | rpc/endpoint_lease.go:276-285 | exactly the bindings still leased are extended and acknowledged |
| `LeaseTables.RenewOperations` | rpc/endpoint_lease.go:286-298 | exactly the operations that run or whose result is on offer are acknowledged, and each is extended in its own table |
| `LeaseTables.AdvanceLeases` | rpc/endpoint_lease.go:244-267 | acknowledged leases, of bindings or of operations, move forward only, and only while running |
| `LeaseTables.ExpireTable` | rpc/endpoint_lease.go:337-357 | exactly the leases not running at the sampled time are removed, in any order |
| `LeaseTables.ExpireInbound` | rpc/endpoint_lease.go:313-336 | an operation goes with its own lease or its binding's, and exactly the calls that lose theirs are cancelled |
| `LeaseTables.RetireResults` | rpc/endpoint_lease.go:358-367 | exactly the offered results whose binding or own lease has run out retire, and those nobody decides are settled |
| `LeaseSafety.BackedStays` | rpc/endpoint_lease.go:270-344 | a promise the granter covers stays covered, or is over, after any step of either endpoint |
| `LeaseSafety.AckCovers` | rpc/endpoint_lease.go:225-268 | an acknowledgement leaves the holder with a lease the granter covers, also when it started from the provisional one |
| `LeaseSafety.StepKeepsInvariant` | rpc/endpoint.go:343-405 | every lock section of either endpoint keeps the lease invariant |
| `LeaseSafety.LeaseSafety` | rpc/endpoint.go:343-405 | in every run, for a binding returned by Bind: while its lease runs at the holder, with no close sent and no endpoint failed, the granter still holds it with an expiry at least as late |
| `LeaseSafety.AckRenews` | rpc/endpoint_lease.go:244-262 | an acknowledgement moves exactly the acknowledged leases that still run, to the sending time plus the lease time, and never back |
| `LeaseSafety.HealthyBindingStays` | rpc/endpoint_lease.go:225-268 | in every run, a binding whose renewals are acknowledged before the lease they extend is up is never dropped by its holder |
| `LeaseHandshake.BindSucceeds` | rpc/endpoint.go:343-405 | on a healthy connection an undisturbed bind returns its binding, leased on both sides for the whole lease time, with nothing left in transit |
| `LeaseHandshake.FinishExactly` | rpc/endpoint.go:397-405 | Bind returns a confirmed binding exactly if its lease and its confirmation still run, and otherwise lets go of it |
| `LeaseHandshake.ConfirmsExactly` | rpc/endpoint.go:376-396 | an answer that names the binding confirms it from the sending time, any other loses it; answers are used once |
| `LeaseHandshake.ServesExactly` | rpc/endpoint_lease.go:270-302 | a renewal is answered once, naming exactly the bindings still leased, which are extended by the lease time |
| `LeaseHandshake.SweepsExactly` | rpc/endpoint_lease.go:322-344 | a sweep removes exactly the leases that are up, at either end |
| `LeaseHandshake.UnrenewedComesBack` | rpc/endpoint_lease.go:322-400 | a binding nobody renews is the granter's again once its lease is up and a sweep has seen it |
| `LeaseHandshake.ClosedComesBack` | rpc/endpoint_dispatch.go:275-307 | so is a binding its holder has closed |
| `OperationLeases.BackedStays` | rpc/endpoint_lease.go:270-380 | a promise on an operation the granter covers, or will cover on receipt, stays covered or is over |
| `OperationLeases.StepKeeps` | rpc/endpoint_dispatch.go:26-48 | every lock section keeps an operation and its offered result under one lease, and gives neither up before the lease is up or the operation over |
| `OperationLeases.ServedCovers` | rpc/endpoint_lease.go:270-302 | whatever a served renewal acknowledges is covered until the sending time plus the lease time |
| `OperationLeases.StepKeepsInvariant` | rpc/endpoint_dispatch.go:181-300 | every lock section of either endpoint keeps the lease invariant of operations, results, requests and renewals |
| `OperationLeases.OperationSafety` | rpc/endpoint_transport.go:515-530 | in every run, for an operation the peer received: while its lease runs at the holder, neither side ended it, no endpoint failed and its binding is leased, the granter runs it or offers its result, under one lease at least as long |
| `OperationLeases.RetiredIsRenewedExactly` | rpc/endpoint_lease.go:270-302 | in every run a renewal acknowledges an undecided operation with a retired result exactly if the binding's lease has ended and the operation's own still runs |
| `OperationLeases.OrphanIsRenewed` | rpc/endpoint_lease.go:286-298 | a run in which the binding's lease has ended, the result is gone, and the holder's lease on the operation was extended all the same |
| `OperationLife.TakesOnce` | rpc/endpoint_transport.go:800-832 | a request is taken once, run with a full lease, or refused and over |
| `OperationLife.OffersOrEnds` | rpc/endpoint_dispatch.go:181-205 | a call that ends while its lease runs leaves a result under that lease; without a result the operation is over |
| `OperationLife.DecidesOnOffer` | rpc/endpoint_dispatch.go:206-258 | a decision takes up a result on offer only, and its end removes result and operation; a canceled one retires the result |
| `OperationLife.SweepsExactly` | rpc/endpoint_lease.go:313-367 | an operation stays exactly while its own lease and, as long as it executes, its binding's run; a result retires exactly when its lease or its binding's is up |
| `OperationLife.ClosesExactly` | rpc/endpoint_dispatch.go:275-307 | closing a binding retires the results it offers and takes their leases, and nothing else |
| `OperationLife.ServesExactly` | rpc/endpoint_lease.go:286-302 | a renewal names exactly the operations that run or whose result is on offer, and extends each where it is leased |
| `OperationLife.SendsOnce` | rpc/endpoint_transport.go:475-526 | a request is sent once and leased from the time its last fragment was written |
| `OperationLife.AckRenews` | rpc/endpoint_lease.go:244-267 | an acknowledgement is used once and moves exactly the acknowledged leases that still run, forward |
| `OperationLife.KeptUpIsKept` | rpc/endpoint_lease.go:225-268 | an operation whose renewals are acknowledged before the lease they extend is up is never dropped by its holder |
| `ResultDecision.Result.Enter` | rpc/result.go:65-88 | the first caller fixes the decision, a cancelled Accept as a discard; opposite and late callers are refused |
| `ResultDecision.Result.Leave` | rpc/result.go:92-112 | the last cancelled caller of an undelivered result gives it up |
| `ResultDecision.Result.Close` | rpc/result.go:114-134 | the callback's errors are published and an abandoned release claimed |
| `ResultDecision.Result.ClaimRelease` | rpc/result.go:136-147 | a release is claimed only if accepted, abandoned, decided without error and not yet claimed |
| `ResultDecision.Result.Shutdown` | rpc/result.go:158-171 | shutdown discards an undecided result and otherwise joins the decision |
| `ResultDecision.CallbackOnce` | rpc/result.go:114-134 | in every run the callback runs at most once, with the fixed decision, has run when the channel closes, and the channel closes once |
| `ResultDecision.DecisionIsFixed` | rpc/result.go:74-82 | a decision, once taken, and its callback verdict never change |
| `ResultDecision.DeliveredOrReleased` | rpc/result.go:98-147 | an accepted, error-free result without callers was either received by one or had its release claimed, never both, and a release is claimed at most once |
| `ResultDecision.RepliesAreTrue` | rpc/result.go:65-112 | success and failure report the caller's own decision, a conflict the opposite one, cancellation a cancelled context |
| `ResultDecision.EntersExactly` | rpc/result.go:60-88 | the first caller fixes the decision and starts its goroutine; later ones wait, or are refused exactly for an opposite decision or an abandoned result |
| `ResultDecision.LeavesExactly` | rpc/result.go:89-112 | a canceled caller leaves at once, any other stays until the decision is made and is told success or its errors |
| `ResultDecision.DecisionCompletes` | rpc/result.go:114-134 | a decision begun can always be completed, with the adopted decision and its callback's errors |
| `ResultDecision.ReportsOnce` | rpc/result.go:149-156 | a claimed release reports once and its errors join the decision's |
| `ResultDecision.ClaimIsReleased` | rpc/result.go:136-152 | each claim runs one release |
| `ResultDecision.JoinsAreTrue` | rpc/result.go:158-171 | what shutdown joins is the errors of the decision, once it has been made |
| `RouteOwnership.ReturnKeeps` | rpc/route_set_resources.go:15-29 | returning borrows keeps the ownership invariant; the borrow channel closes with the last borrower |
| `RouteOwnership.AdmitKeeps` | rpc/route_set.go:347-417 | admitting a call borrows only resources nobody is closing |
| `RouteOwnership.ExportKeeps` | rpc/route_set_resources.go:391-414 | an export is listed under its call |
| `RouteOwnership.FinishResultKeeps` | rpc/route_set_resources.go:173-192 | a decision moves the call's resources to the accepted ones or releases them |
| `RouteOwnership.AttemptKeeps` | rpc/route_set_resources.go:70-150 | a close attempt begins only when no other is unfinished |
| `RouteOwnership.InvokeJobs` | rpc/route_set_resources.go:140-150 | a close runs only once the captured borrow channel is closed, so nobody borrows the resource |
| `RouteOwnership.FinishReleaseKeeps` | rpc/route_set_resources.go:207-257 | a failed release before cleanup leaves the resource to shutdown; any other detaches it |
| `RouteOwnership.BeginCleanupCover` | rpc/route_set_resources.go:291-308 | forced cleanup owes every accepted and every provisional resource |
| `RouteOwnership.FinishCleanupCover` | rpc/route_set_resources.go:310-357 | at the end nobody owes a close, so none is missing |
| `RouteOwnership.StepKeepsBasic` | rpc/route_set_resources.go:70-357 | every lock section of calls, drops, decisions, releases and cleanup keeps the invariant |
| `RouteSafety.DropsList` | rpc/route_set_resources.go:173-192 | dropping a call's list loses exactly what is on it and was never read from it |
| `RouteSafety.StepKeepsTakes` | rpc/route_set_resources.go:173-308 | only resources read from a list are ever activated, owed or closed, and none of them is lost |
| `RouteSafety.OwnershipIsSafe` | rpc/route_set_resources.go:70-357 | in every run at most one close per resource is in flight, none while it is borrowed, none after a success; once closed, an exported resource has had a close attempt exactly if no list was dropped without it, and only exports after the list was read can be lost so |
| `RouteSafety.LostForGood` | rpc/route_set_resources.go:173-192 | a resource once lost is never closed, whatever happens later |
| `RouteSafety.LateExportLeaks` | rpc/route_set.go:456-500 | a run in which a resource exported after the list was read is lost and never closed |
| `RouteOutcome.FinishResultEffect` | rpc/route_set_resources.go:173-192 | accepted in time, everything the result lists is active and in order and the decision owes nothing; discarded or too late, nothing changes and the decision owes it all |
| `RouteOutcome.ActiveIsAccepted` | rpc/route_set_resources.go:173-192 | in every run no call is both accepted and discarded, and a resource is active only if the call that exported it was accepted |
| `RouteOutcome.DecisionClosesItsOwn` | rpc/route_set_resources.go:173-252 | in every run a decision closes resources of its own call only, and only if that was discarded or the set no longer takes calls |
| `RouteOutcome.AdmitsExactly` | rpc/route_set.go:143-230 | a service call is let in while the set is open, a call on a resource also while it drains, and only if all it borrows is active with no close on record |
| `RouteOutcome.LateExactly` | rpc/route_set_resources.go:386-414 | an export is late exactly if its call no longer runs and has read its list |
| `RouteOutcome.ReleasesExactly` | rpc/route_set_resources.go:207-252 | the late release of a decided result closes exactly what the result lists, while the set takes calls |
| `RouteOutcome.DropClosesExactly` | rpc/route_set_resources.go:129-160 | a successful Drop takes the resource away, a failed one leaves everything; either is over only when reported |
| `RouteOutcome.ListClosesExactly` | rpc/route_set_resources.go:228-252 | a successful close of a list takes the resource away, a failed one leaves it in the order for another attempt, unless cleanup has begun |
| `RouteOutcome.BeginsExactly` | rpc/route_set_resources.go:259-309 | cleanup begins when forced, or by itself exactly when a draining set has no call, no undecided result and no resource left |
| `RouteOutcome.ClosedIsEmpty` | rpc/route_set_resources.go:310-360 | a closed set holds nothing |
| `RouteShutdown.StepAlive` | rpc/route_set_resources.go:118-252 | every section keeps each unfinished close attempt in the hands of the thread that began it |
| `RouteShutdown.Advances` | rpc/route_set_resources.go:205-252 | during cleanup some thread can always go on, and comes nearer its end |
| `RouteShutdown.ShutdownIsPossible` | rpc/route_set_resources.go:273-384 | from every reachable state the threads under way can finish and the set be closed |
| `FfiSession.ClaimPending` | rpc/ffi_session_lifecycle.go:41-49 | the loop takes exactly the undecided results of the lease and counts them |
| `FfiSession.StepConserves` | rpc/ffi_session_lifecycle.go:29-148 | every section keeps counters equal to what the tables hold, within the limits |
| `FfiSession.SessionConserves` | rpc/ffi_session.go:216-278 | in every run bindings and reservations stay within the binding limit, undecided and deciding results within theirs, and the byte counter is exactly theirs |
| `FfiSession.ClaimedOnce` | rpc/ffi_result.go:16-90 | in every run no result is taken for decision twice |
| `FfiSession.ShutdownLeavesNothing` | rpc/ffi_session_lifecycle.go:153-195 | when shutdown completes, every binding is gone, every result decided once, and all counters are zero |
| `FfiSession.AdmitsExactly` | rpc/ffi_session.go:254-266 | a binding or a result is refused only when the session is closed, there is no open lease, or one more would break a limit of what the tables hold |
| `FfiSession.PublishesKind` | rpc/ffi_session_lifecycle.go:130-151 | a finished constructor publishes the kind it built, unless the session has closed meanwhile; giving up leaves nothing |
| `FfiSession.TakesExactly` | rpc/ffi_result.go:16-46 | a worker takes exactly an undecided result of the lease it was asked for |
| `FfiSession.ClosesKind` | rpc/ffi_session_lifecycle.go:14-92 | closing retires a binding of the kind asked for and takes exactly its undecided results |
| `FfiSession.ShutdownIsPossible` | rpc/ffi_session_lifecycle.go:153-205 | from every reachable state constructors, workers and cleanups can finish and shutdown complete |
| `FrameReuse.MarkEscapes` | runtime/loader.go:141-155 | the marking loop marks a local exactly if some instruction of the function can capture it |
| `FrameReuse.ExecutedIsMarked` | runtime/loader.go:141-155 | a local captured by an instruction the call executes is marked |
| `FrameReuse.EnterEffect` | runtime/frame.go:96-162 | a taken frame, recycled or new, gives the call slots nobody else reaches, holding the arguments and otherwise nothing |
| `FrameReuse.LeaveEffect` | runtime/frame.go:164-247 | recycling changes nothing that is still reachable |
| `FrameReuse.StepKeepsOk` | runtime/frame.go:577-588 | every step keeps frames disjoint, idle storage and buffers empty and captured slots outside frames |
| `FrameReuse.StepAlike` | runtime/instruction.go:527-547 | a machine with frames, marks and a pool stays indistinguishable from one whose locals are cells of their own, through values, sharing and frame buffers |
| `FrameReuse.FramesAreInvisible` | runtime/frame.go:96-247 | in every run the guest sees exactly what it would see if every local were a cell of its own, a repeated declaration made a new one, and there were no frames, pool or marks: values, operands, popped and returned values, deferred calls and iterators |
| `FrameReuse.PoolingIsInvisible` | runtime/frame.go:96-247 | in particular, whatever the pool hands out, keeps or drops, the guest sees the same as with fresh frames |
| `FrameReuse.CapturesStayOutside` | runtime/frame.go:577-588 | in every run of loaded functions no captured slot ever lies in a frame, and storage and buffers of idle frames are always empty |
| `FrameReuse.MissedMarkIsVisible` | runtime/frame.go:577-588 | with marks that miss a capture, the captured slot is shared with the next call that gets the frame |
| `FrameLedger.EvictRestore` | runtime/frame.go:220-256 | losing and regaining buffers changes no logical byte count and no capacity |
| `FrameLedger.CountsItsSlots` | runtime/frame.go:249-257 | a frame counts for its node and for each place it has, or had before it lost them |
| `FrameLedger.ModuleFrames.Take` | runtime/frame.go:96-133 | taking a frame keeps the pool sums exact and hands out its capacities unchanged |
| `FrameLedger.ModuleFrames.Recycle` | runtime/frame.go:192-235 | pooling, keeping buffers and refusing happen exactly under the limits, and the sums stay exact |
| `FrameLedger.TakeIdleBalances` | runtime/frame.go:96-117 | taking an idle frame keeps both sums equal to what the pools hold |
| `FrameLedger.AddIdleBalances` | runtime/frame.go:192-235 | pooling a frame, evicted or not, keeps both sums exact and within their limits |
| `FrameLedger.CounterIsExact` | runtime/hot_reload_revision.go:98-108 | over any run of any number of modules, payload releases included, the VM-wide counter is the sum of their physical bytes and stays within its limit |
| `FrameLedger.EveryRunIsAccounted` | runtime/frame.go:196-217 | the same from an empty VM on |
| `LabelStripping.InstructionLayout` | runtime/loader.go:245-265 | labels map to the number of instructions before them |
| `LabelStripping.SpaceMeans` | runtime/loader.go:245-265 | what is trimmed from a name are the characters with the Unicode property White_Space |
| `LabelStripping.GoesOn` | runtime/instruction.go:588-602 | control goes on to the next place, to the target of a jump taken, or stops |
| `LabelStripping.LoadInstructions` | runtime/loader.go:112-157 | the loop builds the list without labels, with jump targets resolved |
| `LabelStripping.ResolvesRight` | runtime/loader.go:137-139 | a jump resolves to its label's position exactly if it is spelled like the label or the label precedes every instruction |
| `LabelStripping.Forward` | runtime/instruction.go:588-602 | each labelled run is followed by the stripped list, pausing at labels |
| `LabelStripping.Backward` | runtime/instruction.go:588-602 | each stripped run is one of the labelled code |
| `LabelStripping.StrippingPreservesMeaning` | runtime/loader.go:112-157 | for any meaning of the other instructions, a call ends in a state on one side exactly if it does on the other |
| `LabelStripping.BlankMisleads` | runtime/loader.go:245-265 | validated code whose jump the loader sends to the start |
| `MapIteration.VmMap.StoreAt` | runtime/composite_value.go:73-97 | storing keeps an entry's identity or gives it a new one |
| `MapIteration.VmMap.DeleteAt` | runtime/composite_collection.go:150-169 | deletion removes the entry and its identity |
| `MapIteration.VmMap.ClearAll` | runtime/composite_collection.go:229-234 | clearing removes all of both |
| `MapIteration.VmMap.Identities` | runtime/map_iterator.go:17-44 | a snapshot lists each identity once |
| `MapIteration.MapIterator.Next` | runtime/map_iterator.go:46-71 | the loop skips identities that are gone and yields the next entry with its current value |
| `MapIteration.StoreKeepsInverse` | runtime/composite_mutation.go:80-97 | entries and identities stay inverse to each other |
| `MapIteration.DeleteKeepsInverse` | runtime/composite_collection.go:150-169 | deletion, also of a missing or non-reflexive key, keeps them inverse |
| `MapIteration.NonReflexiveIsNew` | runtime/composite_value.go:90-97 | a NaN key is stored as one more entry beside all others |
| `MapIteration.ChangesLookups` | runtime/composite_value.go:73-97 | after a store, a deletion or a clear each key finds what it should and every other key what it did |
| `MapIteration.GoneForGood` | runtime/composite_value.go:73-84 | identities are never reused, and an entry keeps its key |
| `MapIteration.YieldsLiveEntry` | runtime/map_iterator.go:46-64 | a yield shows an entry that exists at that moment, with its value |
| `MapIteration.IterationIsExact` | runtime/map_iterator.go:17-71 | under any stores, deletions and clears an iteration yields no entry twice, none that was added later, and once exhausted every entry present from start to end |
| `MapIteration.DeletedIsNotYielded` | runtime/map_iterator.go:46-64 | an entry deleted before it is reached is never yielded, even if its key is stored again |
| `MapIteration.ReflectDeleteKeepsInverse` | runtime/reflect_mutation_routes.go:274 | deletion through reflection keeps the index right exactly if there was nothing to delete |
| `MapIteration.ReflectDeleteIsYielded` | runtime/reflect_mutation_routes.go:274 | an iterator yields zero values for an entry deleted that way |
| `MapIteration.ReflectDeleteUnnoticed` | runtime/map_iterator.go:46-64 | the iterator's next result is unchanged by such a deletion exactly if the next surviving identity is not the deleted key's or its entry is already zero |
| `MapIteration.ReflectDeleteThenStore` | runtime/reflect_mutation_routes.go:274 | if the key is stored again, the new entry is yielded under the old identity |
| `FfiSettlement.BudgetsKept` | runtime/limits.go:93-135 | every step keeps the counters equal to what unreleased calls own and within the limits |
| `FfiSettlement.BudgetsHold` | runtime/ffi_call.go:136-264 | in every run counters equal the sums over unreleased calls, and are zero when none is left |
| `FfiSettlement.SettledOnce` | runtime/ffi_call.go:77-264 | in every run a result is delivered or discarded at most once, a failed one never delivered, and exactly once when its call is over |
| `FfiSettlement.LateIsDiscarded` | runtime/ffi_call.go:77-104 | a completion after settlement is discarded and touches no budget |
| `FfiSettlement.StartsExactly` | runtime/ffi_call.go:136-160 | a call starts exactly if its request fits the limit and another event is allowed, and waits for the host exactly if its request fits beside what other calls own; refused, it gives its event back |
| `FfiSettlement.AnswerExactly` | runtime/ffi_call.go:97-134 | the first answer is held exactly if it is no failure and fits, and makes the call ready either way; any later one is discarded and changes nothing else |
| `FfiSettlement.AnswersArrive` | runtime/ffi_call.go:77-94 | an answer reaches its call as long as the call is attached, and is discarded otherwise |
| `FfiSettlement.ClosesExactly` | runtime/ffi_call.go:189-264 | a ready call may be consumed and an open one canceled; either way it gives back its event and all its bytes, and what it held is delivered exactly if it was consumed and the guest had room |
| `GlobalShape.CompareGlobals` | runtime/hot_reload_plan.go:130-150 | accepts exactly equal counts with every old global present under the same type text |
| `GlobalShape.BindModuleState` | runtime/module.go:298-313 | binds exactly if every declaration finds a cell, and binds that cell |
| `GlobalShape.BindsExactly` | runtime/module.go:298-313 | after an accepted comparison binding succeeds exactly if the new code names no more identities |
| `GlobalShape.AcceptedBinds` | runtime/hot_reload_plan.go:130-150 | with distinct old identities an accepted comparison always binds, with the same identities and type texts |
| `GlobalShape.RepeatedIdMisleads` | runtime/hot_reload_plan.go:130-150 | why the comparison needs validated input: with a repeated identity, which artifact validation refuses, an accepted comparison could fail to bind |
| `HotReload.InstanceRevision.Retain` | runtime/hot_reload_revision.go:25-37 | a closed revision cannot be pinned |
| `HotReload.InstanceRevision.Release` | runtime/hot_reload_revision.go:39-53 | the last pin of a retired, unmarked revision closes it |
| `HotReload.InstanceRevision.Retire` | runtime/hot_reload_revision.go:63-72 | retiring closes only an idle revision |
| `HotReload.InstanceRevision.SetRootRetained` | runtime/hot_reload_revision.go:74-82 | unmarking closes only an idle revision |
| `HotReload.LiveCountIsExact` | runtime/hot_reload_retention.go:78-101 | the count used for capacity is the number of live revisions |
| `HotReload.StepKeeps` | runtime/hot_reload.go:153-237 | every step of plans, pins, sweeps and shutdown keeps the chain of revisions, the bound and the cells |
| `HotReload.RevisionsAreOrdered` | runtime/hot_reload.go:153-237 | over any chain of patches generations strictly increase, the newest revision is current, and live revisions stay within a positive limit |
| `HotReload.ReleasedOnlyWhenIdle` | runtime/hot_reload_revision.go:25-96 | outside shutdown a payload is released only when retired, not current, pinned by nobody and not marked as root-retained |
| `HotReload.PlanAlwaysBinds` | runtime/hot_reload.go:91-237 | a plan applied to its base always binds its module states, leaving every existing cell with its type text; the target's root module is among them |
| `PatchLife.PreparesExactly` | runtime/hot_reload.go:91-151 | a plan is made exactly for a different, compatible program while none is pending and one more live revision is within the limit |
| `PatchLife.CommitPatches` | runtime/hot_reload.go:153-237 | a plan applied to its base with room makes a fresh revision current, retires and marks the old one and lists it for sweeping |
| `PatchLife.PatchSucceeds` | runtime/hot_reload.go:91-237 | from every state that keeps the invariant a patch that may be prepared can be applied at once |
| `PatchLife.PlansEnd` | runtime/hot_reload.go:170-181 | a plan given up, failing or stale is abandoned and makes way for another |
| `PatchLife.PinsExactly` | runtime/hot_reload_revision.go:25-37 | exactly revisions that are not closed can be pinned |
| `PatchLife.LetsGoExactly` | runtime/hot_reload_revision.go:39-61 | letting go of the last pin of a retired, unmarked revision closes it and takes it off the list; otherwise it only counts |
| `PatchLife.SweepsExactly` | runtime/hot_reload_retention.go:3-41 | a sweep marks exactly what globals refer to, closes what is neither marked nor pinned, and unlists what is closed |
| `PatchLife.ShutdownClosesAll` | runtime/hot_reload_retention.go:110-123 | shutdown closes every revision and leaves none current or listed |
| `PatchLife.GuestStores` | runtime/hot_reload_retention.go:11-27 | the guest may leave any revision that exists in a global, if its program has one |
| `RootRetention.MarkIsLastSweep` | runtime/hot_reload_retention.go:3-41 | in every run a retired revision is marked exactly if its last sweep, or its retirement, found it referenced, and an unmarked, unpinned one is closed |
| `RootRetention.ReleasedExactly` | runtime/hot_reload_revision.go:39-61 | in every run a payload is released while globals refer to it exactly if a reference was stored after the revision's last sweep had found none |
| `RootRetention.DisciplinedIsSafe` | runtime/hot_reload_retention.go:3-41 | in every run whose guest adds no retired revision to what globals refer to, whatever globals refer to is alive and no referenced payload is released |
| `RootRetention.DoomedExactly` | runtime/hot_reload_revision.go:39-61 | a reachable state loses a referenced revision by its holders letting go exactly if the reference was stored after its last sweep as unreferenced |
| `RootRetention.StaleMarkReleases` | runtime/hot_reload_retention.go:3-41 | a run with one module, one function-typed global and a changed target, in which the payload that the global refers to is released |

## Left out

- Parsing, checking, lowering, optimising and emission: the incremental model takes them as deterministic functions.
- Artifact validation, JSON and hash algorithms: validity is assumed where the linker and loader assume it, and digests
  are injective. Trimming of type and module texts in the linker is not modelled, nor is payload decoding of instructions.
- Function keys joined into one string: the linker model uses pairs.
- Diagnostic normalisation, statistics and documents of an analysis result, and the variant that drops checked programs;
  its results are never passed to a later analysis.
- Sorting of module names before visiting: the order model allows any order.
- Sockets, scheduling, timers and contexts: nondeterministic steps; cancellation and clock readings are inputs.
- Fair scheduling: progress is stated as steps that are always possible and lead to the end, not as steps that happen.
- A zero lease expiry is not modelled; in `OperationLeases` binding leases change as they like and stand for the protocol
  of `LeaseSafety`.
- Route sets that proxy a remote binding, handles, resource limits and the order in which shutdown closes resources.
- In-place form of the protocols: leases, route sets, FFI calls and sessions and the hot-reload instance are values
  stepped by functions; their fields are not separate objects. The fields of a result, a revision, a pool, a map and an
  iterator are.
- The recursion of the value decoder works on the remaining bytes as a value; only its primitive reads move an offset.
- Floating-point values in the codec are opaque 8-byte words; UTF-8 validity (section 4 of RFC 3629) and type-text rules
  are predicates.
- 64-bit exhaustion of map-entry, revision, call and result identities; message identities and varints are bounded.
- FrameLedger.ModuleFrames.Take: omits the clamp of a negative pool sum, because the sum is proved never negative.
- HotReload.PlanAlwaysBinds: covers globals; comparison of exports, types and functions only refuses more plans.
- FfiSettlement.BudgetsHold: allocation charges of the guest are an input of each step.
- MapIteration.MapIterator.Next: values are shown, cloning of keys and values is not modelled.
- Reflection, debugging, profiling, error texts, host adapters, standard library and editor tooling.
