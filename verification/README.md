# A verified model of fluxpeer

fluxpeer is a mesh VPN: a control server that enrols devices and hands out configurations, nodes that
run the tunnels and edit the host's firewall and routes, a per-host daemon that supervises one node
process per network, and a relay. This project models the parts of it whose correctness is an argument
about many steps rather than one, in Dafny, and proves what those parts promise.

Check it with `dafny verify dfyconfig.toml`.

## What is modelled

| modules | part of the system |
|---|---|
| `NftPreflight`, `NftSemantics`, `NftArrival` | the check that no foreign nftables rule can drop forwarded tunnel traffic, an evaluation semantics of nftables to judge it by, and exactly when that drops a packet |
| `Iptables`, `IptablesHost` | forwarding, NAT and kill-switch rules through iptables, with any command able to fail |
| `SqlStore`, `SqlRuns`, `SqlLoops`, `Contention` | the persistent control store as transactions over tables, every run of it, its loops, and the retry around each transaction |
| `MemoryStore`, `MemoryEpochs`, `MemoryService`, `Ipam`, `HostPool` | the in-memory control store, configuration epochs, and address allocation |
| `Processes`, `Daemon`, `DaemonSafety` | the daemon's lifecycle protocol under concurrent requests |
| `Bypass`, `HostEffects` | reconcilers of host routes whose every host call may fail; retry backoff |
| `PinCache` | the carrier address cache racing the kill switch's mode changes |
| `Disco`, `DiscoRuns` | the replay cache and the shared index of outstanding probes |
| `Gso`, `Frames`, `TokenBucket` | UDP batching, TCP framing, the relay's rate limiter |

Code that updates objects or loops is a class or a method here, proved against functions on values; what
the system promises is proved of those functions, over every run. Interleavings are state machines whose
steps are the atomic sections of the code (a mutex held, a transaction, one system call).

## How the world outside is modelled

- Host commands, kernel answers, DNS answers, file writes and child exits are nondeterministic; a failed
  host command has no effect on the host. iptables commands also fail as the tables make them fail: a missing
  chain, a missing rule, a chain that is not empty or still referred to. The ghost field `faults` counts the
  others, so a success can be promised of commands the environment left alone.
- Transactions are all-or-nothing and serialised; a table is a map. Clocks are parameters.
- Random tokens and invite codes are inputs; codes are assumed new. Keys, addresses and ids are datatypes
  that keep exactly the distinctions the code makes (a canonical key or some other text, a dotted quad or
  some other text, a numeric id with its padding).
- Time in the rate limiter is `real`; rounding of floating point is not modelled.

## Where the code differs from what it says

Each is stated as lemmas: an input on which the promise fails, and when it holds.

- `Iptables.UpGuardLeadsIff`, `Iptables.GuardStaysBehind`: the comment that all three rules precede external ones
  (node/src/firewall.rs:482) holds exactly when the chain had no ingress guard yet or one already leading:
  an existing guard is not moved.
- `Iptables.KillChainExemptsIff`, `Iptables.ExemptionAppendedBehindDrop`: rules of the kill-switch chain are
  appended when missing, so after a partly failed cleanup an exemption can land behind the DROP.
- `Ipam.ReserveExactIff`, `Ipam.SecondReservationLeaks`: reserving a second host for a key that already leases
  another leaves the first one marked with nobody holding it; no operation of the store does so.
- `SqlRuns.DanglingDeviceRevivableIff`, `SqlRuns.OrphanTokenRevived`: migration raises the id sequence above the ids of rows but not above
  network ids that rows merely refer to, so a device left behind by a vanished network, token included, can come to
  belong to a new one, exactly when the sequence can still issue the missing id.
- `Gso.BatchingIsInvisibleIff`, `Gso.EmptyPacketsLost`: batching is invisible on the wire except when an empty
  packet directly follows an empty packet for the same destination; the buffer then no longer says how many.
- `NftSemantics.TestAfterVerdictMapDefeatsPreflight`, `NftSemantics.RuleContinuesIff`: the preflight discards a
  rule for a test our flow never passes, wherever the test stands; a verdict map ahead of it may already have
  dropped the packet. A discarded rule is passed over exactly when no verdict stands before that test, and
  soundness is stated for rulesets whose discarded rules are passed over. `NftArrival.DropsIffArrives` says exactly
  when a packet can be dropped: when evaluation can arrive at a rule with a dropping verdict ahead of such tests.
- `NftSemantics.MatchPossibleExact`: the preflight takes a connection state test against the empty set for one a
  packet may pass, which none does; its test of every other match is exact.
- `PinCache.LateReturnMayBeStale`, `PinCache.ResultIsCurrentIff`: a lookup that began before the cache was locked
  may end with an answer that is no longer the pin, or with a DNS failure; the second lemma says exactly when
  it does not. A lookup that began under lock always ends with the pin or blocked.
- `Contention.LateErrorAppliesTwice`, `Contention.RetryAppliesOnceIff`: a database that reports SQLite busy or, where the
  PostgreSQL retry is asked for, a serialisation error after the commit took effect makes the loop apply the transaction
  twice.
  Every loop applies it at most once exactly when the database reports no such error after a commit.
- `Disco.ClockRetreatReplays`, `Disco.ReplayedIff`: the replay cache relies on a clock that does not run backwards.
  Whatever the clock does, an accepted id is accepted again exactly when it is still within its window, there is
  room, and a ping in between read the clock past the id's expiry.

## Model

| member | source | states |
|---|---|---|
| `NftPreflight.ScanRule` | node/src/firewall.rs:525-537 | a rule is rejected only if it is a real hazard or unreadable; an accepted related rule cannot drop and every chain it transfers to is queued |
| `NftPreflight.ScanChain` | node/src/firewall.rs:525-537 | the same for all rules of one chain |
| `NftPreflight.Walk` | node/src/firewall.rs:521-538 | the worklist ends, also on cyclic jumps, and visits every reachable chain: Ok exactly when none reachable is hazardous or unreadable |
| `NftPreflight.CheckBase` | node/src/firewall.rs:513-539 | one base chain passes if and only if its policy and everything reachable from it are clean |
| `NftPreflight.NftCheckForward` | node/src/firewall.rs:509-541 | a ruleset is accepted if and only if every external forward base chain is clean; each kind of refusal has a witness |
| `NftSemantics.MatchPossibleExact` | node/src/firewall.rs:274-301 | some packet between the two interfaces can pass a match if and only if the preflight says possible and the match is no state test against the empty set, with `*` standing for any text |
| `NftSemantics.RuleContinuesIff` | node/src/firewall.rs:285-301 | a rule is passed over for every answer of the unrecognised statements if and only if no verdict stands before the first test the packet never passes |
| `NftSemantics.UnrelatedHasBlocker` | node/src/firewall.rs:285-301 | a rule judged unrelated contains a test no packet of our flow passes |
| `NftSemantics.ReachableRuleStays` | node/src/firewall.rs:525-537 | a rule of a reachable clean chain neither drops our flow nor leaves the reachable chains, if the discarded ones among them are passed over |
| `NftSemantics.HarmlessChainSafe` | node/src/firewall.rs:509-541 | evaluation with jumps, gotos and returns never drops while it stays in harmless chains, however long it runs |
| `NftSemantics.PreflightSound` | node/src/firewall.rs:509-541 | soundness: if the rules it discards in the chains it visits are passed over, an accepted ruleset drops no tunnel packet in either direction at any external forward base chain, whatever the unrecognised tests answer; rules it looks into may have any order |
| `NftSemantics.VerdictLastDiscardsSilent` | node/src/firewall.rs:285-301 | discarded rules with their verdict last are passed over by every packet of our flow |
| `NftArrival.CanDropIff` | node/src/firewall.rs:285-301 | a rule drops the packet for some answers if and only if a verdict that can drop stands ahead of every test the packet never passes |
| `NftArrival.ChainMay` | node/src/firewall.rs:509-541 | answers for each rule on the way combine into answers for the whole evaluation: every ending the rules' possible effects allow does happen, from any position of the oracle |
| `NftArrival.ChainOnlyMay` | node/src/firewall.rs:509-541 | and evaluation ends in no other way |
| `NftArrival.DropsIffArrives` | node/src/firewall.rs:509-541 | where the policy does not drop, as in every accepted ruleset: a packet is dropped for some answers and some length of evaluation if and only if evaluation can arrive, by falling through, jumping, returning or going to, at a rule with a dropping verdict ahead of every test the packet never passes |
| `NftSemantics.TestAfterVerdictMapDefeatsPreflight` | node/src/firewall.rs:285-301 | a concrete ruleset with a test behind a verdict map is accepted and drops |
| `Iptables.DeleteFirstEffect` | node/src/firewall.rs:132-146 | one delete removes one copy and no other rule |
| `Iptables.DeleteFirstOnlyFewer` | node/src/firewall.rs:132-146 | the copies of every other rule stay as they are |
| `Iptables.EnsureSpares` | node/src/firewall.rs:118-130 | inserting or appending when missing never makes a second copy of any rule |
| `Iptables.EnsureKeepsForeign` | node/src/firewall.rs:118-130 | ensuring an owned rule keeps the order of foreign ones |
| `Iptables.WithoutKeepsForeign` | node/src/firewall.rs:132-146 | draining an owned rule keeps the order of foreign ones |
| `Iptables.ForeignNested` | node/src/firewall.rs:348-375 | kill-switch rules are among the instance's own |
| `Iptables.UpOrdersRules` | node/src/firewall.rs:478-491 | after Up both ACCEPTs lead the chain, each once, the guard is behind them and foreign rules keep their order, from any chain |
| `Iptables.UpFromClean` | node/src/firewall.rs:478-491 | from a chain without own rules the result is exactly the three rules followed by the old chain |
| `Iptables.UpGuardLeadsIff` | node/src/firewall.rs:479-490 | the guard precedes all foreign rules if and only if it was absent or already did |
| `Iptables.GuardStaysBehind` | node/src/firewall.rs:479-490 | a chain on which a foreign rule stays ahead of the guard |
| `Iptables.KillChainExemptsIff` | node/src/firewall.rs:326-332 | both exemptions precede the DROP if and only if there was no DROP yet or they already did |
| `Iptables.ExemptionAppendedBehindDrop` | node/src/firewall.rs:326-332 | the chain a cleanup leaves that drained one exemption and then failed, and the exemption behind its DROP after switching on again |
| `IptablesHost.Host.Ensure` | node/src/firewall.rs:118-130 | on success the rule is present and nothing else changed; on failure nothing changed; on an existing chain it succeeds unless the environment makes a command fail |
| `IptablesHost.Host.Drain` | node/src/firewall.rs:132-146 | success removes every copy and only those; unless the environment makes a command fail it succeeds exactly when there are fewer than 256 copies; foreign rules keep their order and no other rule its copies changed in every outcome |
| `IptablesHost.Host.DrainBoth` | node/src/firewall.rs:487-488 | two drains in turn, foreign rules kept in every outcome; fewer than 256 copies of each are enough |
| `IptablesHost.Host.FrontBoth` | node/src/firewall.rs:489-490 | two insertions in turn, foreign rules kept in every outcome |
| `IptablesHost.Host.EnsureOwned` | node/src/firewall.rs:118-130 | insertion in front of an owned rule touches one chain and no foreign rule |
| `IptablesHost.Host.AppendOwned` | node/src/firewall.rs:118-130 | the same for an appended rule |
| `IptablesHost.Host.UpOne` | node/src/firewall.rs:483-490 | the commands on one chain amount to UpChain, or stop part-way with foreign rules untouched and no rule doubled; fewer than 256 copies of each ACCEPT are enough for success |
| `IptablesHost.Host.UpFilter` | node/src/firewall.rs:464-491 | the forward chain, and Docker's chain if present |
| `IptablesHost.Host.UpFamily` | node/src/firewall.rs:456-495 | one address family: forward chain, Docker's chain if present, masquerade when it owns the overlay; other chains untouched; what the tables must hold for it to succeed |
| `IptablesHost.Host.Up` | node/src/firewall.rs:450-497 | both families: a completed Up has its full effect, any outcome keeps foreign rules and doubles no rule; on ready tables it completes unless the environment makes a command fail |
| `IptablesHost.Host.ListTable` | node/src/firewall.rs:351-354 | every rule of every chain of the table is listed |
| `IptablesHost.Host.DrainLine` | node/src/firewall.rs:364-365 | draining one listed rule keeps what was already gone gone and the count of every rule not drained; it succeeds if the rule had fewer than 256 copies when the cleanup began |
| `IptablesHost.Host.DrainLines` | node/src/firewall.rs:355-366 | after the loop no owned rule listed is left; it succeeds if none had 256 copies, and when it has none had |
| `IptablesHost.Host.CleanTable` | node/src/firewall.rs:351-366 | success leaves of each chain exactly its foreign rules, independent of interface names; unless the environment makes a command fail it succeeds if and only if no owned rule has 256 copies |
| `IptablesHost.Host.CleanTables` | node/src/firewall.rs:350-366 | the same for both tables of one family |
| `IptablesHost.OwnChainIsFree` | node/src/firewall.rs:368-372 | once a family is clean its own chain can be deleted if and only if nobody else had a rule in it or one that refers to it |
| `IptablesHost.Host.DeleteOwnChain` | node/src/firewall.rs:368-372 | deleting it changes what no chain holds |
| `IptablesHost.Host.CleanFamily` | node/src/firewall.rs:349-373 | both tables and the instance's own chain of one family, with the exact condition for success |
| `IptablesHost.Host.Cleanup` | node/src/firewall.rs:348-375 | Down, or kill switch off: every chain ends as its foreign subsequence; unless the environment makes a command fail it succeeds if and only if no owned rule has 256 copies and nobody else uses the own chains |
| `IptablesHost.Host.FillKillChain` | node/src/firewall.rs:326-332 | the own chain gets two exemptions and the DROP, each once |
| `IptablesHost.Host.LeadJump` | node/src/firewall.rs:333-341 | the jump is inserted only if it does not already lead among kill-switch jumps |
| `IptablesHost.Host.KillswitchFamily` | node/src/firewall.rs:311-343 | one family: on success the own chain is filled and the forward chain guarded; the other family is untouched and foreign rules keep their order in every outcome |
| `IptablesHost.Host.KillswitchOn` | node/src/firewall.rs:456-463 | both families: success switches IPv4, and IPv6 unless its absence was tolerated |
| `IptablesHost.GuardedLeads` | node/src/firewall.rs:333-341 | after switching on only kill-switch jumps stand ahead of ours |
| `IptablesHost.UppedIsRemovable` | node/src/firewall.rs:450-497 | however far an Up got on tables without own rules, a Down finds what it needs to succeed |
| `IptablesHost.Host.UpThenDown` | node/src/firewall.rs:450-497 | on tables without own rules, whose own chains are missing or unused and empty, Up followed by a Down none of whose commands the environment makes fail ends Ok with every chain as before, however the Up ended |
| `IptablesHost.SameForeignWeakens` | node/src/firewall.rs:348-375 | a kill-switch cleanup is also an edit of own rules only |
| `IptablesHost.Host.Perform` | node/src/firewall.rs:450-497 | each operation, however it ends, keeps the order of the rules of others |
| `IptablesHost.Host.PerformAll` | node/src/firewall.rs:450-497 | over every sequence of Up, Down, kill switch on and off by any set of instances, each failing at any command, rules owned by none of them keep their order in every chain |
| `SqlStore.AllocateAddress` | control-server/src/sql_store.rs:314-332 | the least host of 100..=249 no active device of the network uses, in both families; exhausted exactly when all are used |
| `SqlStore.EnrollEffect` | control-server/src/sql_store.rs:258-298 | after a committed enrolment the returned device, with the returned token, is the one active holder of the key; no other device changed; a use was charged and the epoch raised exactly if nobody held the key |
| `SqlStore.ReenrollRotates` | control-server/src/sql_store.rs:266-272 | enrolling the same key again gives the same device a new token and charges nothing, used-up invite included |
| `SqlStore.EnrollNeverTripsIndex` | control-server/src/sql_store.rs:253-332 | on a sound database enrolment never runs into a unique index or a primary key |
| `SqlStore.EnrollKeepsSound` | control-server/src/sql_store.rs:258-298 | enrolment keeps active keys and addresses distinct and the sequence above all ids |
| `SqlStore.ImportKeepsSound` | control-server/src/sql_store.rs:347-376 | so does an import |
| `SqlStore.RevokeKeepsSound` | control-server/src/sql_store.rs:425-436 | so does a revocation |
| `SqlStore.DeleteNetworkKeepsSound` | control-server/src/sql_store.rs:204-222 | so does deleting a network with its devices |
| `SqlStore.InsertRouteKeepsSound` | control-server/src/sql_store.rs:478-494 | so does inserting a route under a new id |
| `SqlStore.RelayKeepsSound` | control-server/src/sql_store.rs:660-689 | so does registering a relay |
| `SqlStore.MigrationSettles` | control-server/src/integrity.rs:29-115 | whatever the legacy rows, a migration that commits leaves a sound database |
| `SqlStore.RestartIsIdentity` | control-server/src/integrity.rs:29-115 | on a sound database migration rewrites nothing, bumps no epoch and keeps the sequence |
| `SqlStore.MigrateTwice` | control-server/src/integrity.rs:29-115 | a second migration right after a successful one changes nothing |
| `SqlRuns.StepKeepsInv` | control-server/src/sql_store.rs:151-712 | every transaction, committed or rolled back, and every single statement on routes and epochs keeps soundness, invite accounting, token and death bookkeeping, and only advances the sequence |
| `SqlRuns.RouteChangeKeepsInv` | control-server/src/device_routes.rs:10-38 | so does a device adding or withdrawing a route of its own |
| `SqlRuns.StartSatisfiesInv` | control-server/src/integrity.rs:29-115 | opening any migratable legacy database establishes the invariant |
| `SqlRuns.RunKeepsInv` | control-server/src/sql_store.rs:151-494 | so does every run, restarts and migrations included |
| `SqlRuns.ReachableStoreIsConsistent` | control-server/src/sql_store.rs:253-376 | in every reachable state active keys and addresses of a network are distinct, each invite's uses equal the devices made through it and stay within its limit, enrolment cannot trip an index, and a restart is idle |
| `SqlRuns.TokenAuthority` | control-server/src/persistence.rs:433-439 | a token is readable exactly for an active device of an existing network and is the one from its last committed enrolment |
| `SqlRuns.DeadForever` | control-server/src/sql_store.rs:425-436 | a revoked or cascaded device id is never active and never has a readable token again, in any later run |
| `SqlRuns.RevokedForGood` | control-server/src/sql_store.rs:204-222 | after a revocation or the deletion of its network a device id is never active and never readable, whatever runs afterwards |
| `SqlRuns.HandedOutAreNew` | control-server/src/integrity.rs:22-27 | ids handed out by a step ascend above the sequence and were never used or issued |
| `SqlRuns.NoIdIssuedTwice` | control-server/src/integrity.rs:22-51 | no id is issued twice, by whichever of the transactions that draw ids, across deletions, rollbacks, restarts and migrations |
| `SqlRuns.SpentForever` | control-server/src/integrity.rs:22-51 | a network id that is gone and that the sequence can no longer issue never comes back |
| `SqlRuns.DanglingDeviceRevivableIff` | control-server/src/integrity.rs:35-51 | the token of an active device whose network is missing becomes readable in some run if and only if the sequence can still issue that network's id |
| `SqlRuns.OrphanTokenRevived` | control-server/src/integrity.rs:35-51 | a concrete legacy database whose orphaned token is unreadable at start and readable after a run |
| `SqlLoops.ImportBatch` | control-server/src/sql_store.rs:347-376 | the import loop computes the import specification: duplicates skipped, one id per new row, one epoch bump if any |
| `SqlLoops.RecoverMark` | control-server/src/integrity.rs:35-51 | the mark is the greatest numeric suffix, refused exactly when one does not fit |
| `SqlLoops.ScanRows` | control-server/src/integrity.rs:53-98 | the scan succeeds exactly when rows are legal and no two active ones clash, and yields the normalised rows and the changed networks |
| `SqlLoops.MigrateRows` | control-server/src/integrity.rs:29-115 | the migration loops compute the migration specification |
| `Contention.Retry` | control-server/src/contention.rs:18-45 | at most 8 calls, at most 3 when every outcome is SQLite busy, retrying exactly the retryable outcomes |
| `Contention.LateErrorAppliesTwice` | control-server/src/contention.rs:18-45 | for every error the loop retries: reported after the commit took effect and followed by a success, it has the transaction applied twice |
| `Contention.RetryAppliesOnceIff` | control-server/src/contention.rs:18-45 | given the errors a database may report although the commit took effect: every retry loop against it applies its transaction at most once if and only if none of them is one the loop retries |
| `Contention.RetryAppliesOnce` | control-server/src/contention.rs:18-45 | busy and serialisation errors meaning rolled back, success applies the transaction to the database exactly once and failure at most once |
| `HostPool.LeastFree` | control-server/src/ipam.rs:60-62 | the least free host of a range, or None exactly when all are used |
| `Ipam.AllocateExact` | control-server/src/ipam.rs:56-66 | a new key gets the least unleased host of 100..=249, exhaustion exactly when all 150 are leased, a known key keeps its host, and the cache stays exact |
| `Ipam.ReserveExactIff` | control-server/src/ipam.rs:71-81 | a successful reservation keeps the cache exact if and only if the key held no other host |
| `Ipam.SecondReservationLeaks` | control-server/src/ipam.rs:71-81 | two reservations by one key leave a host marked for nobody |
| `Ipam.RecycleExact` | control-server/src/ipam.rs:84-91 | recycling frees exactly the key's host |
| `Ipam.Allocator.AllocateFor` | control-server/src/ipam.rs:56-66 | the scan over the used array computes the allocation |
| `Ipam.Allocator.ReserveFor` | control-server/src/ipam.rs:71-81 | the in-place reservation, refused if another key holds the host |
| `Ipam.Allocator.RecycleFor` | control-server/src/ipam.rs:84-91 | the in-place release |
| `MemoryStore.EnrollKeepsInv` | control-server/src/state.rs:157-191 | enrolment keeps every allocator exact, every lease with an active device and active keys distinct |
| `MemoryStore.ImportKeepsInv` | control-server/src/state.rs:197-245 | so does an import, refused reservations included |
| `MemoryStore.RevokeKeepsInv` | control-server/src/state.rs:261-274 | so does a revocation |
| `MemoryStore.StepKeepsInv` | control-server/src/state.rs:93-377 | so does every operation of the store |
| `MemoryStore.InitialInv` | control-server/src/state.rs:75-91 | a new store satisfies the invariant |
| `MemoryStore.RunKeepsInv` | control-server/src/state.rs:93-377 | and every state a run reaches |
| `MemoryEpochs.ViewDeterminesConfig` | control-server/src/state.rs:419-486 | what a device's configuration shows depends only on its network's view |
| `MemoryEpochs.StepCovers` | control-server/src/state.rs:50-61 | every operation that changes a network's view raises its epoch, and none lowers one |
| `MemoryEpochs.StepKept` | control-server/src/state.rs:93-377 | one operation keeps the invariant and covers every network at once |
| `MemoryEpochs.RunCovers` | control-server/src/state.rs:93-377 | the same over every run from every sound state, the empty store included |
| `MemoryEpochs.EpochCoversConfig` | control-server/src/state.rs:419-486 | if a device's configuration before and after any run differs in anything but the epoch, the epoch strictly increased |
| `MemoryEpochs.ReachableAllocatorsAreExact` | control-server/src/ipam.rs:56-91 | in every state a new store reaches a host is marked used if and only if exactly one key leases it, and that key is active in the network |
| `MemoryEpochs.EnrolleeGetsLeastFreeHost` | control-server/src/state.rs:157-191 | in every state a new store reaches a redeemable invite gives a new key the least unleased host of 100..=249 in both families, and nothing exactly when all 150 are leased |
| `MemoryService.Store.BumpEpoch` | control-server/src/state.rs:50-61 | only the named network's epoch rises |
| `MemoryService.Store.BumpEach` | control-server/src/state.rs:340-377 | each network of a scope is bumped once |
| `MemoryService.Store.Admit` | control-server/src/state.rs:169-190 | allocation and insertion; fails exactly when the allocator does |
| `MemoryService.Store.Enroll` | control-server/src/state.rs:157-191 | computes the enrolment specification; a failure changes nothing |
| `MemoryService.Store.ImportOne` | control-server/src/state.rs:217-239 | one imported device, its reservation refused or not |
| `MemoryService.Store.ImportNext` | control-server/src/state.rs:212-240 | one round: a seen key changes nothing, any other is imported and seen from then on |
| `MemoryService.Store.ImportEach` | control-server/src/state.rs:204-240 | the loop: every entry is created or skipped, one new id per created device |
| `MemoryService.Store.ImportDevices` | control-server/src/state.rs:197-245 | computes the import specification; a bad key changes nothing |
| `MemoryService.Store.RegisterRelay` | control-server/src/state.rs:340-365 | registering a relay bumps exactly the networks in its scope |
| `MemoryService.Store.UpdateRelay` | control-server/src/state.rs:367-377 | moving or changing a relay bumps old and new scope |
| `MemoryService.Store.Lease` | control-server/src/state.rs:170-175 | asking the network's allocator changes no other network's |
| `MemoryService.Store.Claim` | control-server/src/state.rs:217-225 | an imported address claims its host in that network's allocator, or leaves it as it was |
| `MemoryService.Store.Release` | control-server/src/state.rs:261-274 | a revocation frees the key's host in its network's allocator only |
| `MemoryService.Store.Dispatch` | control-server/src/state.rs:101-377 | every operation, editing tables and allocators in place, takes the step the run theorems are about |
| `MemoryService.Store.Handle` | control-server/src/state.rs:101-377 | whichever operation is called and whether it succeeds, allocators stay exact, leases stay with active devices, and a network whose configurations change has its epoch raised |
| `MemoryService.Store.Serve` | control-server/src/state.rs:101-377 | any sequence of calls leaves the store in the state of the corresponding run |
| `Processes.Registry.Operation` | node/src/daemon_process.rs:40-44 | an interface's reservation is given exactly when it is free and no shutdown is on |
| `Processes.Registry.Quiesce` | node/src/daemon_process.rs:45-50 | the global reservation is given exactly when no other is out |
| `Processes.Registry.Drop` | node/src/daemon_process.rs:31-37 | what dropping either reservation gives back; a committed shutdown stays closed |
| `Processes.Registry.Spawn` | node/src/daemon_process.rs:65-85 | a child is started only if none is registered and no shutdown is on, with a generation of its own, a cleanup obligation and no old exit status |
| `Processes.Registry.Finish` | node/src/daemon_process.rs:89-96 | removal and exit status change together |
| `Processes.Registry.Signal` | node/src/daemon_process.rs:100-103 | a stop reaches the registered child |
| `Processes.Registry.Cleaned` | node/src/daemon_process.rs:64 | settles the obligation of that interface only |
| `DaemonSafety.DecideFollows` | node/src/daemon.rs:432-536 | each step a request takes meets the conditions the invariants rely on |
| `DaemonSafety.RequestKeepsReserved` | node/src/daemon_process.rs:27-50 | reservations given out are those requests hold, one per interface, none beside a shutdown |
| `DaemonSafety.RequestKeepsAdmission` | node/src/daemon.rs:432-434 | at most one request is admitted, and it is the one the lock names |
| `DaemonSafety.RequestKeepsRegistered` | node/src/daemon_process.rs:65-96 | registered entries are exactly the children not yet reaped |
| `DaemonSafety.ExitKeepsRegistered` | node/src/daemon_process.rs:86-96 | also when a child exits at any moment |
| `DaemonSafety.RequestKeepsPlaced` | node/src/daemon.rs:436-476 | what a request has checked still holds when it acts on it, despite other requests |
| `DaemonSafety.ExitKeepsPlaced` | node/src/daemon_process.rs:86-96 | and despite children exiting |
| `DaemonSafety.SpawnKeepsExclusive` | node/src/daemon.rs:436-448 | a start that passed the checks never puts a second member beside a protected one |
| `DaemonSafety.RequestKeepsExclusive` | node/src/daemon.rs:436-476 | no step of any request does |
| `DaemonSafety.RequestKeepsRecorded` | node/src/daemon.rs:471-475 | a running protected member is on record, or its starter still holds admission to record it |
| `DaemonSafety.RequestKeepsAccounts` | node/src/daemon.rs:484-518 | every registered child keeps its cleanup obligation |
| `DaemonSafety.SweepKeepsSweep` | node/src/daemon.rs:522-536 | unless an interface failed, every obligation left is still to be visited by the shutdown |
| `DaemonSafety.StepKeepsInv` | node/src/daemon.rs:432-536 | every step of every request, of shutdown, every exit and every file edit keeps the whole invariant |
| `DaemonSafety.ReachableInv` | node/src/daemon.rs:432-536 | so it holds in every reachable state |
| `DaemonSafety.LifecycleIsSafe` | node/src/daemon_process.rs:27-112 | one request per interface, none beside a shutdown, one live child per interface, each with entry, obligation and no old exit status |
| `DaemonSafety.FinishTakesOwnEntry` | node/src/daemon_process.rs:89-96 | a finishing child removes its own entry and no other |
| `DaemonSafety.KillSwitchIsExclusive` | node/src/daemon.rs:432-476 | a live child started with protection requested is the only live child, whatever races, edits and exits |
| `DaemonSafety.CommittedShutdownIsFinal` | node/src/daemon.rs:520-536 | once a shutdown commits there is no member, child or obligation, then and ever after |
| `Bypass.State.InstallDesired` | node/src/bypass.rs:49-51 | installs or borrows every desired prefix not held; stops at the first failure; old routes untouched |
| `Bypass.State.RetireOld` | node/src/bypass.rs:52-55 | removes exactly the held prefixes no longer desired |
| `Bypass.State.RestoreOld` | node/src/bypass.rs:61-67 | tries to put back each old route that is gone |
| `Bypass.State.ReleaseNew` | node/src/bypass.rs:68-72 | tries to release each new route |
| `Bypass.State.Forward` | node/src/bypass.rs:48-57 | nothing old is removed before everything desired is installed or borrowed; shared prefixes are never touched |
| `Bypass.State.Rollback` | node/src/bypass.rs:58-74 | if every call takes effect the owned prefixes are those of before |
| `Bypass.State.Reconcile` | node/src/bypass.rs:43-76 | owned always equals successful adds minus successful removes; borrowed routes are never removed; a failed attempt whose undoing succeeds restores the owned prefixes |
| `Bypass.State.Sync` | node/src/bypass.rs:18-38 | with retain nothing held is given up; otherwise success leaves only desired routes |
| `Bypass.TracksConcat` | node/src/bypass.rs:43-76 | the record stays exact over any sequence of calls |
| `HostEffects.Routes.RetireObsolete` | node/src/apply.rs:337-342 | obsolete routes go unless their removal failed; desired ones stay |
| `HostEffects.Routes.Attempt` | node/src/apply.rs:343-358 | one missing prefix ends installed, skipped with its delay, or reported failed; nothing else changes |
| `HostEffects.Routes.Sync` | node/src/apply.rs:330-360 | installed equals the routes we put on the host and is disjoint from skipped; on success every desired prefix is one or the other; a skipped prefix is retried only after 60 seconds or at a new epoch |
| `HostEffects.Retry.Run` | node/src/apply.rs:293-306 | the effect runs exactly when no delay is pending at this epoch; otherwise the stored error is returned and nothing changes |
| `HostEffects.DelayIsCapped` | node/src/apply.rs:293-306 | the delay after k failures is min(2^k, 60) |
| `HostEffects.BackoffSchedule` | node/src/apply.rs:293-306 | the k-th consecutive failing attempt comes no earlier than the sum of the capped delays after the first |
| `PinCache.Shared.Cached` | node/src/carriers.rs:68-73 | the pinned set, or blocked and noted as missing |
| `PinCache.Shared.Record` | node/src/carriers.rs:99-122 | under lock nothing is published; a failed write leaves the pins as they were |
| `PinCache.LockedPinsNeverChange` | node/src/carriers.rs:99-122 | over every interleaving pins do not change while the mode stays Locked |
| `PinCache.BootstrapNeverReturns` | node/src/carriers.rs:60-62 | the mode never returns to Bootstrap |
| `PinCache.DecisionIsPinned` | node/src/carriers.rs:81-122 | the step that decides a result leaves exactly it in the cache, unless DNS or the pin file failed it |
| `PinCache.LockedCallReturnsPin` | node/src/carriers.rs:81-122 | a call begun and ended under lock returns the pinned set, or blocked if there is none; never a failure |
| `PinCache.AnswersWerePinned` | node/src/carriers.rs:81-122 | every Ok answer was the host's pin at an instant of its call |
| `PinCache.ResultIsCurrentIff` | node/src/carriers.rs:81-122 | in every run a result held is the pin, or blocked for want of one, if and only if nothing failed the call and the last publication for its host since the decision, if any, put the same addresses |
| `PinCache.LateReturnMayBeStale` | node/src/carriers.rs:81-122 | an interleaving in which an answer returned under lock is not the pin |
| `PinCache.PinsComeFromDns` | node/src/carriers.rs:52-122 | every pin is a retained one or a DNS answer to a lookup of that host, with 1 to 64 addresses |
| `Disco.Probes.Ping` | node/src/disco.rs:30-35 | accepts exactly a fresh id within the window while fewer than 128 are live |
| `Disco.Probes.Begin` | node/src/disco.rs:36-47 | a started probe enters pending and the shared index together, or nothing is started |
| `Disco.Probes.Finish` | node/src/disco.rs:48-54 | succeeds exactly for a pending unexpired id from one of its targets, and removes it from both |
| `Disco.NoPingTwice` | node/src/disco.rs:28-35 | with a clock that never runs backwards no ping id is accepted twice in a run |
| `Disco.AcceptedExactly` | node/src/disco.rs:28-35 | a ping is accepted if and only if it is within its window, was never accepted, and fewer than 128 accepted ids are unexpired; the cache never exceeds 128 |
| `Disco.EntryStaysIff` | node/src/disco.rs:30-35 | whatever the clock does, an accepted id stays in the cache exactly until a ping reads the clock past its expiry |
| `Disco.ReplayedIff` | node/src/disco.rs:30-35 | whatever the clock does, an id accepted before is accepted again if and only if the ping is within its window, fewer than 128 entries are live, and a ping in between read the clock past the id's expiry; the clock has then run backwards |
| `Disco.ClockRetreatReplays` | node/src/disco.rs:30-35 | a run with a retreating clock that accepts an id twice |
| `DiscoRuns.StepKeepsIndex` | node/src/disco.rs:36-54 | every step on any peer keeps unexpired index entries and unexpired pending probes in agreement |
| `DiscoRuns.StepKeepsBound` | node/src/disco.rs:36-38 | no peer has more than 128 probes pending |
| `DiscoRuns.StepKeepsLog` | node/src/disco.rs:36-54 | a pending probe is the last thing logged about its id |
| `DiscoRuns.ReachableInv` | node/src/peer.rs:89-91 | all of it in every reachable state, with peers added and dropped at any time |
| `DiscoRuns.IndexNamesTheHolder` | node/src/disco.rs:17-19 | the index names a peer for an id if and only if that peer has it pending and unexpired |
| `DiscoRuns.AnswersAreOwed` | node/src/disco.rs:48-54 | each answer taken consumes one probe of that peer, came from a target of it, within 30 seconds |
| `Gso.Socket.SendSplit` | node/src/gso.rs:154-158 | the fallback loop sends the buffer in pieces of the segment size |
| `Gso.Sender.Flush` | node/src/gso.rs:73-95 | what reaches the wire and what is left, for either answer of the kernel |
| `Gso.Sender.Push` | node/src/gso.rs:48-69 | the same for a push; the flush after a short segment is never reached |
| `Gso.SegmentFits` | node/src/gso.rs:53-58 | a batch of two or more has a segment size that fits 16 bits |
| `Gso.FlushDelivers` | node/src/gso.rs:73-95 | a flush delivers exactly what is pending unless the batch is several empty packets |
| `Gso.PushDelivers` | node/src/gso.rs:48-69 | a push loses and reorders nothing unless an empty packet joins an empty one |
| `Gso.PushCosts` | node/src/gso.rs:48-69 | and then one datagram is lost for good |
| `Gso.BatchingIsInvisibleIff` | node/src/gso.rs:48-95 | after a closing flush the wire carries exactly the packets pushed, in order and with destinations, if and only if no empty packet directly followed an empty one for the same destination |
| `Gso.ReachableBatchIsSendable` | node/src/gso.rs:73-83 | a nonempty batch always has a destination, and a segment size the kernel takes |
| `Gso.EmptyPacketsLost` | node/src/gso.rs:84-91 | two empty packets: one datagram, or none |
| `Frames.DecodeExplains` | node/src/tcp_direct.rs:71-87 | for every byte stream the frames, encoded again, and the rest are the stream; the rest is short, or starts with an oversized length exactly when decoding stopped for good |
| `Frames.DecodeIsUnique` | node/src/tcp_direct.rs:71-87 | any such reading of a stream is the decoder's |
| `Frames.RoundTripIff` | node/src/tcp_direct.rs:55-87 | decoding inverts encoding if and only if no frame exceeds 65535 bytes, keepalives included |
| `Frames.StopsAtFirstOversized` | node/src/tcp_direct.rs:75-78 | everything before the first oversized length is delivered and nothing from it on |
| `Frames.BufferBound` | node/src/tcp_direct.rs:71-81 | fewer than 65539 bytes stay buffered |
| `Frames.DecodeConcat` | node/src/tcp_direct.rs:67-88 | decoding resumes across a cut at any byte |
| `Frames.ReadsDoNotMatter` | node/src/tcp_direct.rs:65-89 | however the stream is cut into reads, the result is that of decoding it whole |
| `Frames.Drain` | node/src/tcp_direct.rs:71-87 | the drain loop takes every complete frame, in order, and stops at an oversized length or when the consumer is gone |
| `Frames.Pump.Read` | node/src/tcp_direct.rs:65-89 | frames delivered so far are those of all bytes received so far |
| `Frames.Pump.Tick` | node/src/tcp_direct.rs:46-54 | the third tick without a read closes the connection; an earlier one sends a keepalive |
| `Frames.Pump.Send` | node/src/tcp_direct.rs:55-64 | bytes written are the encoding of the frames sent, keepalives included |
| `Frames.Pump.Serve` | node/src/tcp_direct.rs:44-93 | over any sequence of ticks, frames to send, arriving bytes and ends of stream: the frames handed on are a prefix of those of all bytes that arrived, all of them while the connection is open, and it is closed once three ticks pass with nothing arriving in between |
| `Frames.EndToEnd` | node/src/tcp_direct.rs:55-89 | the far end delivers a prefix of the frames sent, in order, and all of them once all bytes are read |
| `TokenBucket.Limiter.Allow` | relay-server/src/ratelimit.rs:30-43 | a request is granted exactly when the refilled balance reaches one token, and only the balance and clock change |
| `TokenBucket.WindowBound` | relay-server/src/ratelimit.rs:30-43 | grants in any window are at most the capacity plus what accrued since its first request, for any clock readings |
| `TokenBucket.GrantsAllIffFits` | relay-server/src/ratelimit.rs:20-43 | a full bucket grants a whole sequence if and only if every window of it fits |
| `TokenBucket.RateBound` | relay-server/src/ratelimit.rs:30-43 | over nondecreasing times at most capacity + rate * (t - s) requests are granted within [s, t] |
| `TokenBucket.RateExact` | relay-server/src/ratelimit.rs:20-43 | a new limiter refuses none of a sequence if and only if every window i..j has at most capacity + rate * (t_j - t_i) requests |

## Left out

- HTTP, WebSocket and CLI front ends, status sockets, logs, file permissions and process arguments.
- Cryptography: sessions, key exchange, message authentication, password hashing, random generation.
- The fw4 and macOS backends, sysctl handling, firewall leases, and the nft backend's own rules: only the
  nft preflight and the iptables backend are modelled.
- nft `queue` verdicts, `xt` statements (targets of the xtables compatibility layer, which may drop) and verdict maps
  that are not recognised as able to drop; sets beyond lists of strings.
- iptables rules are sequences of tokens: quoting of spaces in `-S` output, and edits by other programs
  between two commands of one operation, are not modelled.
- In-memory address uniqueness: an import ignores a refused reservation, so it is not promised.
- SQL epoch coverage: approving or deleting a route and changing settings bump the epoch in a second
  statement, so it is stated for the in-memory store only.
- The handlers of the in-memory store that only edit one table carry no row of their own; what they promise is
  stated once for all operations by `MemoryService.Store.Handle`.
- Renaming, settings, statistics, admin accounts and audit records of the stores.
- `all` of node/src/apply.rs combines error texts; errors are opaque here.
- Watch channels: who is notified of an epoch, and when.
- `missing` and `failed` diagnostics of the carrier cache beyond what one call does; literal addresses, which
  bypass the cache.
- Receive batching of node/src/gso.rs; dialing and connection generations.
- IptablesHost.Host.Up: for IPv6 a tolerated absence of the tool ends Ok with nothing done for that family, so
  the full effect is promised only when nothing was tolerated.
- NftSemantics.PreflightSound: states soundness, not completeness; the check refuses some harmless rulesets by
  design.
- Disco.Probes.Finish: pending and the shared index are updated in one step, though the code takes the index
  lock after the peer's own.
