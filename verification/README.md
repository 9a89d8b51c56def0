# Provisioning controller: a verified model

The controller installs operating systems on bare-metal machines. This project models
the five parts of it that carry invariants over unbounded runs, and proves them in Dafny.

* **Static addresses and bindings** (`Addresses`, `Prober`, `Allocator`, `AllocatorBytes`,
  `Bindings`, `BindingTheorems`). A
  `PUT /bindings` keeps or replaces nine override columns and picks a static address by a
  bounded first-fit scan. `Bindings.Store` is the store as an object; `Bindings.Next` lets any
  number of PUTs, deletes and ssh-key operations interleave between their database accesses,
  with `allocMu` as the only synchronisation; every successful call of the object is a run of
  it (`BindingTheorems.UpsertIsRun`). Addresses are modelled as big-endian byte strings and,
  through `Addresses.BytesAreNumbers`, as numbers below 2^32.
* **Chunked uploads** (`Chunks`, `Filenames`, `Uploads`, `UploadProofs`, `UploadTheorems`,
  `UploadCatalog`, `UploadCompletes`, `UploadAbort`,
  `UploadClaims`, `UploadRetry`). Create, chunk write, finalize and abort interleave, split at every
  database statement and file-system call; SHA-256 is an arbitrary function.
* **DHCP pools** (`Dhcp`, `PoolSets`, `Routing`, `Catalogs`, `DhcpServer`). Validation of pools and pool
  sets, routing by giaddr as section 4.3.1 of RFC 2131 asks for, and hot reload against
  packets in flight.
* **BMC credentials** (`Placeholder`, `Bmc`). Placeholder identities derived from addresses,
  the credential store, and its two reconcile paths.
* **Two small machines**: the agent's asynchronous log sink (`LogSink`, `FlushSafety`) and
  the login limiter (`Throttle`).

Concurrent parts are state machines: a total `Next(s, step)` in which a step that is not
enabled changes nothing, and a `Run` of any list of steps. The theorems quantify over all
lists of steps, so over all interleavings.

Properties that turned out not to hold of the code as one might expect are stated with the
exact condition under which they do, and with a run that breaks them:

* A deleted binding's overrides can come back, because `Delete` does not take `allocMu`
  (`BindingTheorems.DeleteUndoneRun`). It happens exactly to the columns a PUT had loaded and
  does not mention when the delete falls between its reads and its insert
  (`BindingTheorems.DeleteUndoneIff`); in every reachable state an override is what the last
  PUT since the last delete dictates if and only if it is not one of those
  (`Bindings.LastMentionIff`), and in every run without such a delete all of them are
  (`BindingTheorems.LastMentionWins`).
* A catalog row can be left without its file when the rename fails and the delete that should
  undo the commit fails too (`UploadCompletes.LostRun`); a settled row has its file if and
  only if that did not happen (`UploadCatalog.CatalogIntegrity`), and it never heals
  (`UploadCatalog.LostForever`).
* A flush of the log sink may return before everything accepted earlier is posted
  (`FlushSafety.OverlapMayMiss`). Whether a call may be relied on can be read off the state
  in which it is made: exactly when no other flush posts, or drains a channel with entries
  (`FlushSafety.FlushSafeIff`); and against further calls as well, exactly when the channel
  is empty and no other flush posts (`FlushSafety.FlushAlwaysSafeIff`). The comment on
  `Flush` (cmd/agent/reporter_handler.go:96-99) promises completeness for repeated calls.
* An aborted upload can still appear in the catalog (`UploadAbort.AbortedAndPublished`): the
  commit does not look at the session row. A complete upload stays out if and only if no
  finalize is between its claim and its commit at the abort (`UploadAbort.AbortPreventsIff`).
* A relayed client can be confirmed on an address outside the pool whose options it gets
  (`DhcpServer.RoamingRun`): a REQUEST that names no address is answered from the lease
  record alone. `DhcpServer.AckInsideIff` says exactly when the address lies in the pool.
* Overlapping login attempts pass the limit: a positive limit is never passed if and only if
  attempts do not overlap (`Throttle.LimitHoldsIff`). The bounds for any degree m of overlap
  are met exactly, for every limit (`Throttle.CountBoundTight`, `Throttle.RateBoundTight`).
* Reconciling a credential onto a UUID no machine has leaves it without a machine row: the
  table in force is the one the inventory package creates first, without the foreign key
  (internal/inventory/schema.go:49-63). Which calls keep every credential owned is decided by
  the state before them (`Bmc.ReconcileOwnedIff`, `Bmc.OrphanRun`). This is a fault of the
  store call: the HTTP handler (internal/bmc/api.go:111-128) reads the machine's report first
  and passes on only machines that have one.
* The loop that reserves the DHCP pool would never end on a /0 subnet with a pool ending at
  255.255.255.255, and only then (`Allocator.PoolLoopStopsExactly`). No such subnet reaches
  it: `validateCIDR` (internal/subnets/validate.go:34) refuses prefix lengths below 1, and on
  every subnet it admits the loop ends (`Allocator.CatalogIsSafe`).

Where comments and code disagree the model follows the code: the comment in
internal/bmc/placeholder.go:22-23 says that leading zeros normalise, but `net.ParseIP`
rejects them; the comment in internal/dhcp/pools.go:16 names another section of RFC 2131 than
the one on subnet selection.

## Model

| member | source | states |
|---|---|---|
| Addresses.NextAddr | internal/bindings/store.go:1370-1381 | byte-carry increment is +1 modulo 2^32 on the big-endian value |
| Addresses.NextIP | internal/bindings/store.go:1370-1381 | the in-place loop on a copy of the bytes computes that increment, and stops at the first byte that does not wrap |
| Addresses.IpGTIsNumeric | internal/bindings/store.go:1365-1368 | byte-wise lexicographic comparison is numeric order |
| Addresses.MaskValue | internal/bindings/store.go:1148-1160 | masking with a prefix clears exactly the host bits of the value |
| Addresses.FillValue | internal/bindings/store.go:1383-1392 | filling the host bits yields network + 2^h - 1 |
| Addresses.BytesAreNumbers | internal/bindings/store.go:1352-1392 | every byte-level primitive is the numeric one: successor, membership as an interval, broadcast as its top, order, equality; the whole space is prefix length 0 |
| Prober.InUseBatch | internal/bindings/icmpprobe.go:186-237 | one layer's answer when the other is absent or ARP failed; otherwise ARP's verdict, to which ICMP, asked about exactly the silent addresses, adds what it lists, and from which its failure takes nothing; an address ARP calls live is always live |
| Prober.Merge | internal/bindings/icmpprobe.go:233-235 | every key the second layer reports becomes live, nothing else changes |
| Prober.CompositeSilence | internal/bindings/icmpprobe.go:186-237 | an address the composite calls silent was silent in both layers when both gave a verdict |
| Allocator.PoolLoopStopsExactly | internal/bindings/store.go:1352-1361 | the pool loop ends if and only if the subnet is not the whole space or the pool ends below the last address |
| Allocator.CatalogIsSafe | internal/subnets/validate.go:34-36 | on every subnet the catalog admits, prefix lengths 1 to 32, the pool loop ends, whatever the pool |
| Allocator.ReservePool | internal/bindings/store.go:1352-1361 | the pool loop reserves exactly start up to the smaller of end and broadcast, and nothing when start is outside |
| AllocatorBytes.ReservePool | internal/bindings/store.go:1352-1361 | the same loop on byte strings, with byte-wise increment, comparison and membership, reserves the same addresses |
| Allocator.ReservedIPs | internal/bindings/store.go:1258-1362 | the reserved set is exactly gateway, other bindings, controller, live leases and the pool from its start to the smaller of its end and broadcast |
| Allocator.CollectCandidates | internal/bindings/store.go:1180-1198 | the scan terminates and collects, in ascending order, the first up to 512 unreserved addresses strictly between network and broadcast |
| AllocatorBytes.CollectCandidates | internal/bindings/store.go:1180-1198 | the same scan on byte strings, with the byte-wise broadcast test, terminates and collects the same candidates |
| Allocator.ProbeBatch | internal/bindings/store.go:1200-1228 | one batch either yields its first silent address or shows that all of it answered |
| Allocator.ProbeCandidates | internal/bindings/store.go:1200-1230 | the batched loop returns the first candidate that did not answer within the first 128, and probes exactly the leading batches |
| Allocator.AllocateIPFromSubnet | internal/bindings/store.go:1148-1232 | a previous address strictly between network and broadcast is kept; otherwise first fit: strictly between them, not the gateway, another binding's, the controller's, leased or in the pool; without a prober the first candidate |
| Allocator.FirstFitSpelt | internal/bindings/store.go:1180-1253 | first fit in elementary terms: the first of the first 128 of up to 512 free addresses not reported live in its batch of sixteen, none only if all were |
| Allocator.FreshIsFirstFit | internal/bindings/store.go:1180-1232 | a fresh address is an unreserved host address and every smaller unreserved host address answered a probe, also when a later batch errors |
| Allocator.FailsExactly | internal/bindings/store.go:1180-1232 | the allocation fails exactly when no unreserved host address exists or the first min(128, count) all answered; an unavailable prober never makes it fail |
| Allocator.FirstFitDeterministic | internal/bindings/store.go:1180-1232 | the first-fit specification determines the outcome |
| Allocator.CandidatesUnique | internal/bindings/store.go:1180-1198 | the candidate list is determined by subnet and reserved set |
| Allocator.ProbesBounded | internal/bindings/store.go:1200-1253 | at most 128 addresses are probed, none twice |
| Allocator.FreshIsSticky | internal/bindings/store.go:1155-1173 | an address first fit returns passes the sticky test |
| Allocator.FreshAnsweredNeither | internal/bindings/icmpprobe.go:186-237 | a fresh address was silent to ARP in its batch if ARP gave a verdict on it, and to ICMP in that batch's silent part if both did |
| Bindings.Store.Upsert | internal/bindings/store.go:335-623 | the whole new table; each error by its condition; every key a stored list names exists; a static address fits the stored subnet (strictly inside, never an explicit gateway, the top address only explicitly on a /31); the address by sticky test and first fit with the configured prober over exactly the reserved addresses |
| Bindings.ColumnsSpelt | internal/bindings/store.go:443-594 | the three-state rule for each column in elementary terms: cleared by an empty value, set by another, kept when not mentioned |
| Bindings.HostFits | internal/subnets/validate.go:165-193 | which explicit addresses a subnet admits, /31 and /32 included |
| Bindings.Store.Allocate | internal/bindings/store.go:412-433 | the row's own address if sticky, otherwise first fit against the other rows and the surroundings |
| Bindings.AllocatesOne | internal/bindings/store.go:1148-1232 | subnet, rows, surroundings and probe answers determine the allocated address or the failure |
| Bindings.Store.Delete | internal/bindings/store.go:777-793 | exactly that row goes; not found otherwise |
| Bindings.Store.RefCountBySSHKey | internal/bindings/store.go:862-873 | the number of bindings whose key list contains the key, at any place; zero exactly when no list does |
| Bindings.RunKeepsInv | internal/bindings/store.go:335-623 | every run keeps mutual exclusion, key integrity, address provenance, column history and what each goroutine has read |
| Bindings.MutualExclusion | internal/bindings/store.go:115-125 | at most one goroutine is inside the section under `allocMu` |
| Bindings.FreshAddressIsUnheld | internal/bindings/store.go:596-623 | at the step that inserts a freshly auto-picked address no other row holds it |
| Bindings.CollisionNeedsExplicit | internal/bindings/store.go:335-433 | two rows share an address only if one was given it explicitly, so auto-picked addresses stay pairwise distinct forever |
| Bindings.NoDanglingKeys | internal/bindings/store.go:317-384 | in no reachable state does a binding name a key absent from the catalog, PUTs that keep the existing list included |
| Bindings.ListedKeysExist | internal/bindings/store.go:317-384 | the same in elementary terms: every key of every stored list is in the catalog |
| Bindings.LastMentionIff | internal/bindings/store.go:443-594 | in every reachable state an override is what the last PUT that mentioned it since the last delete dictates, if and only if no PUT brought it back after that delete |
| BindingTheorems.LastMentionWins | internal/bindings/store.go:443-594 | in every run in which no delete of the machine falls between a PUT's reads and its insert, each override is what the last PUT that mentioned it since the last delete dictates |
| BindingTheorems.DeleteUndoneIff | internal/bindings/store.go:777-793 | when a delete falls into a PUT, a column ends up as on a fresh row if and only if the PUT mentions it or had loaded nothing for it |
| BindingTheorems.DeleteUndoneRun | internal/bindings/store.go:777-793 | for every machine, column and value, a run from the empty store that brings a deleted override back |
| BindingTheorems.UpsertIsRun | internal/bindings/store.go:335-623 | every successful sequential call is an undisturbed run of the interleaving model that stores the same row, origin and columns included |
| BindingTheorems.RefusedIsRun | internal/bindings/store.go:335-623 | every refused sequential call is a run that leaves rows, keys and history as they were |
| BindingTheorems.UnknownKeyIsRun | internal/bindings/store.go:374-379 | a PUT that names an unknown key is stopped by its own key checks, rows and keys unchanged |
| BindingTheorems.ClearDesiredSpelt | internal/bindings/store.go:893-912 | sets one column of one row to 'none' and touches nothing else |
| BindingTheorems.UnlistedKeyGoes | internal/sshkeys/api.go:151-185 | a key no binding lists can be deleted, and only it goes |
| BindingTheorems.ListedKeyStays | internal/sshkeys/api.go:151-185 | a key some binding lists is refused at the count, which gives the lock back |
| BindingTheorems.RepeatKeepsAddress | internal/bindings/store.go:1155-1173 | over every interleaving an auto-picked address stays on its row until a delete of the row or a PUT with an explicit address, a dhcp profile or another subnet |
| Chunks.CeilDiv | internal/images/store.go:161-216 | ceiling division gives a chunk count whose chunks cover the total, the last one non-empty |
| Chunks.PlanUpload | internal/images/store.go:161-216 | each size error if and only if its condition; accepted sizes form a valid shape with the default chunk size when none is given |
| Chunks.AcceptedLengthsSum | internal/images/uploads.go:92-140 | the accepted lengths of chunks 1..n add up to the offset of chunk n + 1, so all of them to the total; the last is in 1..chunk size |
| Chunks.ConcatChunks | internal/images/uploads.go:370-387 | the loop yields the concatenation and its size, or the first missing chunk |
| Chunks.ConcatOfCuts | internal/images/uploads.go:370-387 | the concatenation of a cut file's chunks is the file |
| Filenames.CommitKeepsUnique | internal/images/store.go:343-392 | a commit keeps file names and hashes unique across the catalog |
| Filenames.NameSpelt | internal/images/uploads.go:517-553 | the committed name by cases on the upload name's stem and extension and on what is taken |
| UploadProofs.RunKeepsInv | internal/images/uploads.go:182-303 | every run keeps the shape, claim, commit, catalog and per-goroutine invariants |
| UploadCatalog.RunExtra | internal/images/uploads.go:182-303 | every run keeps: each file in the catalog directory belongs to a settled row, lost rows are settled, and rows, snapshots and images carry the hash announced at creation |
| UploadCatalog.CatalogIntegrity | internal/images/uploads.go:182-303 | a catalog row not between commit and rename has its file on disk, with the bytes that were hashed, if and only if the rename and its rollback did not both fail; otherwise nothing is under its name; its sha256 is that hash, and the one the client announced, if any |
| UploadCatalog.LostForever | internal/images/uploads.go:182-303 | a row that lost both keeps its name and stays lost through every continuation |
| UploadCompletes.LostRun | internal/images/uploads.go:182-303 | for every file and session, a run from the empty store that leaves a catalog row of exactly that file and session without its file |
| UploadAbort.AbortIsFinal | internal/images/uploads.go:389-399 | an abort that finds no finalize between its claim and its commit is final: in no continuation does the session contribute to the catalog |
| UploadAbort.AbortPreventsIff | internal/images/uploads.go:389-399 | an abort keeps a complete upload out of the catalog in every continuation if and only if no finalize is between its claim and its commit at that moment |
| UploadAbort.AbortedAndPublished | internal/images/store.go:343-392 | for every file, a run from the empty store in which the session is aborted and the file published afterwards |
| UploadTheorems.MoveOverwritesNobody | internal/images/store.go:333-436 | moving an assembled image into place leaves every other row's file as it was |
| UploadTheorems.OneFinalizer | internal/images/uploads.go:343-368 | at most one goroutine holds a session's claim |
| UploadTheorems.UploadingMeansUnclaimed | internal/images/uploads.go:343-368 | state "uploading" implies no active finalizer |
| UploadTheorems.ReleaseIsOwn | internal/images/uploads.go:362-368 | a failed finalizer's release never drops another claim nor touches another session |
| UploadClaims.RunClaims | internal/images/uploads.go:183-200 | in every reachable state a session is "finalizing" exactly because a finalizer holds its claim or its release statement failed, never both |
| UploadClaims.FinalizingIffHeld | internal/images/uploads.go:183-200 | in every run whose release statements work, "finalizing" means an active finalizer: no error return leaves a claim behind |
| UploadClaims.ReleaseRestores | internal/images/uploads.go:362-368 | a release that works sets the state back to "uploading", keeps the rest of the row, and touches nothing else |
| UploadClaims.HeldRefusesWrites | internal/images/uploads.go:82-110 | no chunk write of a session starts while a finalizer holds its claim |
| UploadClaims.BumpIsHighWater | internal/images/store.go:279-290 | the progress counter is a high-water mark |
| UploadClaims.MoveIsRename | internal/images/uploads.go:283-292 | the staged bytes move under the committed name and nothing is left behind |
| UploadRetry.IncompleteFails | internal/images/uploads.go:183-215 | a finalize that finds a chunk missing fails, releases, and leaves tables and chunks as it found them |
| UploadRetry.RetrySucceeds | internal/images/uploads.go:183-303 | after such a failure the missing pieces can be written and a second finalize puts exactly the file into the catalog |
| UploadTheorems.OneImagePerSession | internal/images/store.go:343-392 | each session contributes at most one image over a whole run, and its row is then gone |
| UploadTheorems.AssembledSizeIsDeclared | internal/images/uploads.go:202-232 | once the concat loop is through, the assembled size is the declared total, whatever chunk writes straggled in |
| UploadTheorems.HonestRun | internal/images/uploads.go:82-150 | in every run whose writes carry the pieces of a file, everything on disk, in memory and in the catalog for that session is a piece, a prefix or the whole of that file |
| UploadTheorems.UploadReassembles | internal/images/uploads.go:182-303 | cutting a file and uploading the pieces in any order with any retries and interference: what the session contributes is that file |
| UploadCompletes.CompleteUploadSucceeds | internal/images/uploads.go:182-303 | once all pieces are on disk an undisturbed finalize puts exactly that file under the resolved name, if the client's hash is right and a name is free |
| Dhcp.OverlapsIff | internal/dhcp/pools.go:84-92 | comparing two prefixes under the shorter mask reports an overlap if and only if they share an address |
| Dhcp.RangesOverlapIff | internal/dhcp/pool.go:119-121 | two non-empty ranges overlap if and only if they share an address |
| Dhcp.NewPoolRanges | internal/dhcp/pool.go:58-117 | accepts exactly IPv4 fields with at least one range, ordered bounds and no address in two ranges, and builds a pool that carries the ranges, mask, gateway, name servers, exclusions and lease time given, 24 hours for zero |
| Dhcp.ParseRanges | internal/dhcp/pool.go:90-109 | the nested loops accept exactly ordered, pairwise disjoint ranges and keep their order |
| PoolSets.NewSubnetPools | internal/dhcp/pools.go:60-106 | accepts exactly the lists with valid pools, one local pool, parsable selectors inside their pool's network and pairwise disjoint as address sets, and builds that set |
| Routing.AtMostOneMatch | internal/dhcp/pools.go:127-142 | in an accepted set any giaddr matches at most one relay pool |
| Routing.RouteExact | internal/dhcp/pools.go:127-142 | the pool chosen is the pool of the input whose selector holds giaddr |
| Routing.RouteNone | internal/dhcp/pools.go:127-142 | no pool when no selector holds giaddr |
| Routing.AcceptanceIgnoresOrder | internal/dhcp/pools.go:60-106 | acceptance of a list is invariant under permutation |
| Routing.RoutingIgnoresOrder | internal/dhcp/pools.go:60-142 | so is the pool chosen for every giaddr, the local pool included |
| Routing.SubnetsToPools | cmd/controller/main.go:167-188 | the set assembled from the local input and one input per subnet that declares ranges |
| Routing.LocalHasNoSelector | cmd/controller/main.go:167-188 | in an accepted set the local pool is the given local input |
| Routing.RelayStaysInSubnet | cmd/controller/main.go:832-839 | a relayed packet gets the pool of a catalog subnet whose prefix contains both giaddr and the start of the pool's first range, or no pool |
| Catalogs.InputsAcceptedIff | internal/dhcp/pools.go:60-106 | acceptance of any list in elementary terms: good fields, the pool's first range in the selector key's network, exactly one local input, no relay address covered twice |
| Catalogs.SelectorSpelt | internal/dhcp/pools.go:110-122 | a CIDR selector covers the addresses that agree on its prefix bits, a bare address itself, anything else is refused |
| Catalogs.CoveredIsServed | internal/dhcp/pools.go:127-142 | a giaddr that a selector covers is served by a pool with that input's fields |
| Catalogs.CatalogAcceptedIff | cmd/controller/main.go:167-188 | a catalog is accepted exactly when the local pool is good, every subnet with ranges is a good IPv4 CIDR whose first range starts inside it, and no address lies in two of them |
| Catalogs.CatalogServes | cmd/controller/main.go:167-188 | every giaddr inside a catalog subnet with ranges is served by a pool with exactly its ranges, mask, gateway and name servers and the local lease time |
| Catalogs.CatalogSilent | internal/dhcp/pools.go:127-142 | a giaddr outside all of them is not served |
| Catalogs.DirectIsLocal | internal/dhcp/pools.go:127-142 | a direct packet is served by the pool the local input describes |
| DhcpServer.New | internal/dhcp/server.go:95-141 | fails exactly on unparsable addresses or a full mode without leases or any pool; otherwise starts in the given mode (proxy for none) with the given leases and pools, a legacy pool folded into a local-only set |
| DhcpServer.Server.Reload | internal/dhcp/server.go:152-174 | accepted exactly for proxy (or empty) mode or full mode with pools and leases, and then mode, pools and leases are the given ones; a rejected reload changes nothing |
| DhcpServer.Server.Snapshot | internal/dhcp/server.go:176-183 | the three fields as of one moment, ready for full mode |
| DhcpServer.FullModeIsReady | internal/dhcp/server.go:95-183 | in every reachable state and every snapshot, full mode implies pools and leases |
| DhcpServer.RelayedPacket | internal/dhcp/server.go:327-442 | across every interleaving with reloads, a packet with nonzero giaddr is unanswered or answered from a relay pool of the one generation it took its snapshot of, in giaddr's subnet, never the local pool; an offered address, and a confirmed one that the REQUEST named, lies in that pool; any other confirmed address is the one last offered to the client |
| DhcpServer.AckInsideIff | internal/dhcp/server.go:398-442 | which REQUESTs are confirmed, and exactly when the confirmed address lies in the pool: when the REQUEST names it or the address on record lies there |
| DhcpServer.RespondSpelt | internal/dhcp/server.go:327-442 | every case of a reply: proxy outside full mode, silence without a pool or a free address, OFFER, ACK or NAK otherwise |
| DhcpServer.RelayedDiscover | internal/dhcp/server.go:327-396 | once a catalog is installed, a DISCOVER relayed through any address of a catalog subnet is offered the free address found in its ranges, with that subnet's options |
| DhcpServer.InstallTakesEffect | internal/dhcp/server.go:152-174 | an accepted reload becomes the current generation as given, a refused one leaves it alone |
| DhcpServer.ArrivalSeesCurrent | internal/dhcp/server.go:176-183 | a packet is handled on the generation current at its arrival |
| DhcpServer.RoamingRun | internal/dhcp/server.go:398-442 | for every catalog, a client offered any address of the local pool is confirmed on it by a relayed REQUEST that names none |
| Placeholder.ParserIsCanonical | internal/bmc/validate.go:57-64 | the IPv4 scanner accepts exactly the canonical dotted texts, each as its own address |
| Placeholder.PlaceholderInjective | internal/bmc/placeholder.go:24-34 | different canonical addresses have different placeholder identities |
| Placeholder.EncodingValidates | internal/bmc/placeholder.go:46-59 | every placeholder identity validates, unchanged |
| Placeholder.ValidatedIsEncoding | internal/bmc/placeholder.go:46-59 | validation returns only encodings of IPv4 addresses and is idempotent |
| Placeholder.SmbiosIsNotPlaceholder | internal/bmc/placeholder.go:39-41 | no SMBIOS UUID looks like a placeholder |
| Placeholder.MachineForms | internal/bmc/validate.go:46-55 | a validated identity is an SMBIOS UUID or the encoding of an address |
| Placeholder.SmbiosValidates | internal/bmc/validate.go:46-55 | every SMBIOS UUID, in any case and with surrounding white space, validates to its lower-case form |
| Placeholder.AcceptedForm | internal/bmc/validate.go:46-55 | what validates and is no placeholder is 8-4-4-4-12 lower-case hexadecimal digits |
| Placeholder.AddressValidates | internal/bmc/validate.go:57-64 | every canonical address, with surrounding white space, validates to itself and has its own placeholder |
| Placeholder.OtherTexts | internal/bmc/validate.go:57-64 | texts whose first separator is a colon go to the IPv6 parser, texts without separator are refused |
| Placeholder.EncodingExample | internal/bmc/placeholder.go:17-20 | the documented example |
| Bmc.Store.UpsertCredential | internal/bmc/store.go:133-259 | each refusal exactly by its condition in the order of the checks; on success the row has the normalised address, the given fields, the new secret if a password was given and the old one otherwise, and its old creation time; every other row, and on refusal every row, is as it was; only a placeholder's machine row may be added |
| Bmc.Store.EnsureMachineExists | internal/bmc/store.go:406-429 | a missing machine row is created for a placeholder and refused for an SMBIOS UUID |
| Bmc.Store.FindByIP | internal/bmc/store.go:436-451 | the one row with the normalised address; none for an invalid text |
| Bmc.Store.DeleteCredential | internal/bmc/store.go:373-396 | exactly the row of the validated identity goes, a placeholder's machine row with it when the cleanup works; nothing otherwise |
| Bmc.Store.ReconcileToMachine | internal/bmc/store.go:462-505 | each outcome by its condition; on success the row with the address is the target's row, every other row is as it was and a placeholder's machine row is gone; nothing changes otherwise |
| Bmc.Store.ReconcilePlaceholder | internal/bmc/store.go:515-567 | the same for the row keyed by the address's placeholder |
| Bmc.RunKeepsRows | internal/bmc/store.go:133-567 | after every run addresses are canonical and unique and placeholder rows are keyed by their own address |
| Bmc.RunFacts | internal/bmc/store.go:133-567 | the same for two rows of a run: equal addresses mean the same row; a placeholder key is `PlaceholderUUID` of its address |
| Bmc.RunOwned | internal/bmc/store.go:373-567 | in every run whose reconciles aim at existing machines every credential's machine row exists |
| Bmc.ReconcileOwnedIff | internal/bmc/store.go:462-567 | each reconcile leaves every credential with a machine row if and only if its input is refused, there is no row to move, or its target is a known machine, all read off the state before the call |
| Bmc.OrphanRun | internal/bmc/store.go:462-505 | for every address and every SMBIOS UUID, registering the address as a placeholder and pairing it leaves that credential under a UUID without a machine row |
| Bmc.ReconcilesAgree | internal/bmc/store.go:462-567 | the two reconciles have the same result, refusals included, when the address's row hangs on a placeholder; otherwise the automatic one does nothing |
| Bmc.ReconcilesConserve | internal/bmc/store.go:462-567 | for every credential value, all non-owner fields included, the number of rows that hold it is unchanged |
| LogSink.RunKeepsInv | cmd/agent/reporter_handler.go:130-195 | every run keeps conservation, the channel bound and what each worker and flush may rely on |
| LogSink.Conservation | cmd/agent/reporter_handler.go:145-195 | submitted entries are dropped, queued, in flight or posted, as multisets; nothing is posted twice |
| LogSink.SubmitSpelt | cmd/agent/reporter_handler.go:145-152 | an entry is queued last unless the channel holds 1024, and only then dropped |
| LogSink.TakeSpelt | cmd/agent/reporter_handler.go:154-192 | workers and flushes take the oldest entry and post it |
| LogSink.StartSpelt | cmd/agent/reporter_handler.go:130-143 | five idle workers and an empty channel |
| LogSink.ReturnedFlush | cmd/agent/reporter_handler.go:175-195 | after a flush has returned all workers are gone and what was accepted before it began is posted except for what other flushes hold |
| LogSink.FlushCompleteIff | cmd/agent/reporter_handler.go:175-195 | everything accepted before is posted exactly once if and only if no other flush holds one of those entries |
| LogSink.SerialFlushComplete | cmd/agent/reporter_handler.go:175-195 | when flushes do not overlap, a returned flush is complete |
| LogSink.FirstReturnMayMiss | cmd/agent/reporter_handler.go:175-195 | a run in which the first flush to return has not seen its entry posted |
| FlushSafety.OverlapMayMiss | cmd/agent/reporter_handler.go:175-195 | from every reachable state in which another flush posts, or drains a channel with entries, some continuation without further calls lets the new flush return too early |
| FlushSafety.FlushSafeIff | cmd/agent/reporter_handler.go:175-195 | a call of flush will in every continuation without further calls have everything accepted before it posted when it returns, if and only if no other flush posts or drains a channel with entries at the call |
| FlushSafety.FlushAlwaysSafeIff | cmd/agent/reporter_handler.go:175-195 | the same in every continuation, further calls included, if and only if the channel is empty and no other flush posts at the call |
| LogSink.StepsUseUpWork | cmd/agent/reporter_handler.go:154-195 | every effective worker or flush step decreases a measure |
| LogSink.FlushNeverStuck | cmd/agent/reporter_handler.go:175-195 | until every flush has returned some such step is enabled, so a flush ends once submissions pause |
| Throttle.LoginThrottle.Blocked | internal/authapi/throttle.go:46-58 | blocked exactly when a live window has reached the limit; an expired entry is freed |
| Throttle.LoginThrottle.NoteFailure | internal/authapi/throttle.go:61-73 | counts in a live window, otherwise opens one |
| Throttle.SuccessClears | internal/authapi/throttle.go:76-80 | a success removes the entry, and the next check passes |
| Throttle.CountBounded | internal/authapi/api.go:89-154 | with at most m overlapping attempts the counter never passes limit + m - 1; the limit itself for m = 1 |
| Throttle.RateBound | internal/authapi/api.go:89-154 | any half-open interval of one window length holds at most 2 (limit + m - 1) - 1 failures recorded since the last success; 2 limit - 1 for m = 1 |
| Throttle.CountBoundTight | internal/authapi/api.go:89-154 | for every limit and every m some run with at most m overlapping attempts brings the counter to limit + m - 1 |
| Throttle.LimitHoldsIff | internal/authapi/api.go:89-154 | a positive limit is never passed if and only if attempts do not overlap |
| Throttle.RateBoundTight | internal/authapi/throttle.go:46-73 | for every limit and every m some run records 2 (limit + m - 1) - 1 failures within one window length |
| Throttle.OtherAddressesIrrelevant | internal/authapi/throttle.go:46-80 | an address's entry, attempts and failures are what they would be if no other address existed |

## Left out

- Allocator.AllocateIPFromSubnet: demands that the pool loop ends, which `PoolLoopStopsExactly` shows to be the weakest such demand; `Bindings.Store` demands only that subnets come from the catalog, which implies it.
- Allocator.ReservedIPs: a database or interface error while collecting addresses is not modelled; in `Bindings.Next` any step may fail.
- Bindings.Store.Upsert: existence of machine, image and profile, family and architecture compatibility, shape validation of the columns, the root-password cipher and database errors are not outcomes of the model; the columns enter validated and encrypted.
- Bindings.CollisionNeedsExplicit: an explicitly supplied address is checked against the subnet only, not against other bindings, so distinctness is stated for auto-picked ones.
- BindingTheorems.RepeatKeepsAddress: subnet deletion, which is not under `allocMu`, is not modelled.
- UploadCatalog.CatalogIntegrity: `DeleteImageFile`, `RewriteLegacyNames` and garbage collection of stale uploads are not modelled.
- Uploads and LogSink are modelled on values, one atomic step per statement, because their properties are about interleavings; two simultaneous writes of the same chunk number share a `.partial` file and are not modelled.
- Filenames.CommitKeepsUnique: `sanitizeFilename` is not modelled; base names enter sanitised and non-empty.
- The cap on concurrent upload sessions, whose count and insert are not atomic.
- PoolSets.NewSubnetPools: parsing of address and prefix texts by net/netip, and which of several errors is reported, are not modelled.
- DhcpServer.RelayedPacket: of the lease store only the contract the handler relies on is modelled (offers lie in the given ranges, confirmations repeat the last offer); expiry, eviction and uniqueness of leases, option encoding, PXE fields and the destination of the reply are not.
- Placeholder.EncodingValidates: IPv6 texts are an arbitrary function, white space is that of Latin-1 and case folding that of ASCII.
- Bmc.Store.UpsertCredential: validators of port, user name, interface and display name and the password cipher are oracles; each call is one atomic step, and database errors other than a taken key are not modelled.
- Bmc.RunOwned: removal of machine rows by the inventory package is not modelled.
- LogSink.Conservation: whether a POST succeeds is not modelled; the code ignores it.
- HTTP handlers, JSON, sessions, TLS, command-line wiring and the frontend: plumbing without a hard invariant.
- Raw ARP and ICMP sockets, disk images, IPMI and the installer pipeline: foreign effects.
- Jobs, leases, subnets, profiles and sessions stores: only what the modelled code relies on.
