# Redcurrant: the distribution of prefixes and what depends on it

Redcurrant is an object store. A directory service, META0, maps each of the 65536 two-byte prefixes
of container identifiers to the META1 services that serve it; META1 maps containers to META2
services; META2 keeps the contents. This project models, in Dafny 4.11, the parts of that system
that carry state over many steps, and proves what they keep.

- **Prefix assignment** (`Meta0Utils`, `Meta0AssignModel`, `Meta0Drain`, `Meta0Rebalance`,
  `Meta0Moves`, `Meta0Assign`, `Meta0ShortRun`, `Meta0Operations`, `Meta0Fill`, `Meta0RoundRobin`).
  The table in its two forms, the allocator that drains disabled META1s and then evens out the load, the requests that run it
  (assign, disable, fill), and the round-robin initialisation. The allocator is a class whose methods
  change the table in place; its steps are specified by functions on states (`Move`, `Drop`, `Probe`,
  `Scan`, `TurnResult`, `DrainAll`), about which the invariants are proved. Main results: `Allocator.Assign`,
  `AssignPrefixes`, `DisableMeta1`, `Fill`, `Balanced`.
- **The prefixes of a META1** (`Meta1Prefixes`): the bitmap of managed prefixes against the table it
  was loaded from.
- **Batched policy updates in META1** (`Meta1PolicyUpdate`): counters and transactions under every
  pattern of failures. Main result: `Update.Run`.
- **Size notification** (`SizeNotification`, `NotificationProtocol`): the notifier of META2 as methods,
  and the same critical sections as steps of a protocol in which writers interleave with it. Main
  result: `NothingLost`.
- **Deduplication in META2** (`Meta2Dedup`, `Meta2DedupRun`, `Meta2Chunks`): aliases redirected to one
  header per hash and policy, chunks replaced in contents, with failures anywhere. Main results:
  `DedupAliases`, `DedupChunks`.
- **Two loops** (`BeanOrder`, `CrawlerWindow`): the ordering of generated tables, and the crawler's
  window of unacknowledged contexts under three threads. Main results: `TerminatesIffGrounded`,
  `WindowBounded`, `Hysteresis`.

`Collections` holds what they share. The project is checked with `dafny verify dfyconfig.toml`.

## Reading the model

An absent URL vector or list (NULL) is the empty sequence. Addresses are compared as wholes
and hosts as texts. I/O is a parameter: what remote services answer, and which steps of a base or of
a transaction fail, are arguments over which the contracts quantify. A ghost parameter that repeats an
earlier state only serves the specification.

Where the code does less than one would expect, the code is followed and the exact condition is proved:

- A prefix with a single replica is never moved, not even by force (`ForcedAcceptance`): the scan of
  its vector meets only the service to replace. So a disabled META1 that serves such a prefix cannot
  be drained, and `CanBeDrained` says when all can.
- When disabled services share a prefix, their drains change it once each: a prefix changes at most
  once iff they share none (`AssignPrefixes`, `SharedChangesTwice`). The mask of `UnrefMeta1` excludes
  sharing inside one request (`MaskKeepsApart`), not with services disabled earlier.
- The drain then counts such a prefix once per service, and the rebalancing stops at 65536 counted
  prefixes, so it can stop with moves left. `StopsShort` is the exact condition, a function of the
  start of the run, which `PlanUnique` says is determined by the request: more moves to come than the
  count allows. Sharing, with at most 65536 hand-overs, is necessary (`AssignEnds`); `OneSuchRun` is a
  run that stops short.
- A prefix that the drain meets twice makes an error that is not returned: `Drain` notes it iff the
  drained services share a prefix, and succeeds all the same.
- The balanced fill inserts rows under a primary key, so it succeeds only on a blank table (`Fill`).
- `reverse_dependencies` does not end on a cycle, nor when a foreign key leads to a table that is not
  a bean (`TerminatesIffGrounded`, `GroundedIffRanked`).
- Replacing a chunk by itself deletes its rows (`SelfSubstitution`).
- In alias deduplication each load overwrites the error, so the one left is that of the last group
  visited with headers to merge (`DedupAliases`).
- In the policy update each save overwrites the error, so one is left iff nothing was written after
  the last failure (`ErrorLeft`, `FinalError`); `Forgotten` is an update that loses a row and reports
  no error.
- The notifier reads the replication from the first prefix; where another prefix has fewer META1s it
  can run into a missing one (`SendWithRetry`).
- An acknowledgement that reaches the crawler before the context is in the table is lost
  (`EarlyAcknowledgement`): only what comes after the insertion takes an entry out (`EntryStays`).

## Model

| member | source | states |
|---|---|---|
| `Meta0Utils.PrefixTable.Replace` | meta0v2/meta0_utils.c:129-151 | succeeds iff the source URL is in the vector; then its first occurrence, and nothing else, becomes the destination |
| `Meta0Utils.ReplaceFirstMembers` | meta0v2/meta0_utils.c:129-151 | on a vector without repetition, a replacement by a new URL removes the source, adds the destination, and leaves no repetition |
| `Meta0Utils.PrefixTable.ToTree` | meta0v2/meta0_utils.c:27-46 | every service maps to the prefixes it serves, with the multiplicity it has in each vector |
| `Meta0Utils.TreeEntryIsHeld` | meta0v2/meta0_utils.c:27-46 | with a vector free of repetitions, a service is in the tree iff it serves a prefix, and its list is exactly its prefixes, each once |
| `Meta0Utils.TreeToList` | meta0v2/meta0_utils.c:183-206 | the list has one entry per service of the tree, with the same prefixes, in the same order |
| `Meta0Utils.PrefixTable.ToList` | meta0v2/meta0_utils.c:208-220 | the list sends each prefix to each service as often as the vector of the prefix names it; it is empty iff the table is |
| `Meta0Utils.ListToArray` | meta0v2/meta0_utils.c:153-181 | the table names each service under each prefix as often as the list sends the prefix to it |
| `Meta0Utils.RoundTrip` | meta0v2/meta0_utils.c:153-220 | array to list and back gives, at every one of the 65536 prefixes, a permutation of the original vector |
| `Meta0Utils.ThereAndBack` | meta0v2/meta0_utils.c:153-220 | the two conversions in a row give back a permutation of every vector |
| `Meta0Assign.Acceptable` | meta0v2/meta0_prefixassign.c:265-302 | the scan of the URLs of a prefix computes the acceptance that `ForcedAcceptance`, `UnforcedAcceptance` and `AcceptsNew` characterise |
| `Meta0AssignModel.ForcedAcceptance` | meta0v2/meta0_prefixassign.c:265-302 | a forced replacement is accepted iff the prefix has two replicas or more and does not name the destination: a single replica never moves |
| `Meta0AssignModel.UnforcedAcceptance` | meta0v2/meta0_prefixassign.c:265-302 | an unforced replacement is accepted iff moreover the host of the destination is the one of the source, or not among the hosts of the other URLs |
| `Meta0AssignModel.UnforcedIsForced` | meta0v2/meta0_prefixassign.c:265-302 | whatever is accepted without force is accepted with it |
| `Meta0AssignModel.SpreadKept` | meta0v2/meta0_prefixassign.c:235-347 | an unforced move never lowers the number of distinct hosts of the prefix |
| `Meta0AssignModel.RoomSpent` | meta0v2/meta0_prefixassign.c:391-406 | whoever takes the place of a drained service uses up one of the working services outside the vector |
| `Meta0AssignModel.SortByScore` | meta0v2/meta0_prefixassign.c:153-167 | a permutation of the list in order of decreasing score |
| `Meta0AssignModel.SortIsStable` | meta0v2/meta0_prefixassign.c:153-167 | services of one score keep their order |
| `Meta0AssignModel.SkipTreated` | meta0v2/meta0_prefixassign.c:173-198 | drops only treated prefixes and stops at one that is not |
| `Meta0AssignModel.MoveKeepsLink` | meta0v2/meta0_prefixassign.c:349-406 | a move keeps the link: scores count the prefixes held, pending prefixes are held, vectors keep their length without repetition; exactly one point changes hands and the prefix becomes treated |
| `Meta0AssignModel.MoveConserves` | meta0v2/meta0_prefixassign.c:391-406 | a move keeps the total score |
| `Meta0AssignModel.MoveLowersImbalance` | meta0v2/meta0_prefixassign.c:391-406 | a move from above the average to below it lowers the sum of distances to the average by exactly 2 |
| `Meta0AssignModel.MoveSettles` | meta0v2/meta0_prefixassign.c:416-477 | a prefix given up by a source stays without taker after any later move, because candidates below the average only shrink |
| `Meta0AssignModel.DropSettles` | meta0v2/meta0_prefixassign.c:450-477 | giving up the head prefix of a source is recorded only when no service below the average accepts it |
| `Meta0AssignModel.ProbeSettles` | meta0v2/meta0_prefixassign.c:173-232 | skipping treated prefixes and closing a source keep what was settled |
| `Meta0AssignModel.MoveTracks` | meta0v2/meta0_prefixassign.c:391-406 | as long as a prefix is moved only while untreated, each vector differs from the first one by at most one replaced URL |
| `Meta0AssignModel.MovedOnceMeaning` | meta0v2/meta0_prefixassign.c:391-481 | a vector changed once differs in one position, and loses a host only if a drained service had no taker on another host |
| `Meta0Drain.DrainTurn` | meta0v2/meta0_prefixassign.c:423-447 | one prefix handed over advances the drain of a service: its list, the treated prefixes and the table agree step by step |
| `Meta0Drain.TakerIffRoom` | meta0v2/meta0_prefixassign.c:434-441 | some working service takes a place over iff there is another replica and a working service outside the vector |
| `Meta0Drain.DrainableIffFeasible` | meta0v2/meta0_prefixassign.c:423-447 | when its turn comes a service can be drained iff its prefixes had room enough at the start for all drains so far and this one |
| `Meta0Drain.ApartNext` | meta0v2/meta0_prefixassign.c:430-433 | a prefix of a service was treated before its turn iff the service shares it with an earlier one |
| `Meta0Drain.DrainNth` | meta0v2/meta0_prefixassign.c:423-447 | after each drained service: all drained so far hold nothing, the others kept their prefixes, every hand-over used up one working service, the count and the note of a prefix met twice are exact |
| `Meta0Drain.SharedIsNotTracked` | meta0v2/meta0_prefixassign.c:423-447 | two drained services that shared a prefix leave it changed more than once |
| `Meta0Rebalance.ScanSearches` | meta0v2/meta0_prefixassign.c:201-232 | the search for a source changes only flags and treated heads, and returns a service above the average with an untreated head |
| `Meta0Rebalance.ScanFindsFirst` | meta0v2/meta0_prefixassign.c:201-232 | on a sorted list, finds the first available service above the average with an untreated prefix, hence one of highest score; none iff there is none |
| `Meta0Rebalance.ScanMisses` | meta0v2/meta0_prefixassign.c:201-232 | on a sorted list, a search that finds nothing has closed every service above the average |
| `Meta0Rebalance.TurnInRun` | meta0v2/meta0_prefixassign.c:450-477 | every turn keeps the link, the total score, the once-only changes and the accounting of the imbalance; it shortens the remaining lists when a source is found, and nothing is left to move when none is |
| `Meta0Moves.TakerFits` | meta0v2/meta0_prefixassign.c:434-441 | the choice of the drain, unforced then forced, exists iff a place can be taken over, and loses a host only without better choice |
| `Meta0Moves.ExhaustedIffNoMove` | meta0v2/meta0_prefixassign.c:450-477 | nothing could be moved any more iff the rebalancing, left alone, would make no further move |
| `Meta0Moves.MovesBounded` | meta0v2/meta0_prefixassign.c:450-477 | no prefix is moved twice: never more moves than untreated prefixes |
| `Meta0Moves.RunsOut` | meta0v2/meta0_prefixassign.c:450-477 | a rebalancing that only the lack of a source stops ends with nothing movable; untreated prefixes are as they were, and no score changed by more than the number of moves |
| `Meta0Moves.RightCountIsEnough` | meta0v2/meta0_prefixassign.c:474-475 | with a right count of treated prefixes the counter never stops the run early |
| `Meta0Moves.AssignEnds` | meta0v2/meta0_prefixassign.c:416-481 | drain and rebalancing together: a prefix is treated iff changed, changed at most once iff the drained services share none; a run cut short needs sharing and at most 65536 hand-overs |
| `Meta0Assign.Allocator.SelectDest` | meta0v2/meta0_prefixassign.c:235-347 | returns an acceptable destination (below the average unless a service is drained), the last acceptable one of the list, which has the lowest score on a sorted list; none iff none is acceptable |
| `Meta0Assign.Allocator.Replace` | meta0v2/meta0_prefixassign.c:391-406 | the in-place update of table, scores, lists and bitmap is exactly one move |
| `Meta0Assign.Allocator.HandOver` | meta0v2/meta0_prefixassign.c:434-443 | tries without force, then with force; moves iff some working service can take the prefix |
| `Meta0Assign.Allocator.DrainOne` | meta0v2/meta0_prefixassign.c:423-447 | succeeds iff every prefix of the service has a taker; then the service holds nothing, and a prefix treated before is noted |
| `Meta0Assign.Allocator.Drain` | meta0v2/meta0_prefixassign.c:423-447 | succeeds iff every prefix of a drained service has another replica and one working service outside its vector per drain; drained services end empty; an error for a prefix met twice is noted iff the services share one, and not returned |
| `Meta0Assign.Allocator.SelectSource` | meta0v2/meta0_prefixassign.c:201-232 | the recursive search does what the search on values does |
| `Meta0Assign.Allocator.Turn` | meta0v2/meta0_prefixassign.c:450-477 | one turn: the source is the first of the sorted list with something to move; its head prefix goes to the least loaded acceptable service or is given up |
| `Meta0Assign.Allocator.RebalanceTurn` | meta0v2/meta0_prefixassign.c:452-477 | the body of the loop: one turn, the count, and when the loop goes on |
| `Meta0Assign.Allocator.Rebalance` | meta0v2/meta0_prefixassign.c:450-477 | ends, keeps every invariant, and leaves nothing movable iff the count it was given plus the moves to make do not pass 65536 (or pass it at once) |
| `Meta0Assign.Allocator.Assign` | meta0v2/meta0_prefixassign.c:416-481 | link, replica counts and total score restored; drained services empty, outsiders untouched; success iff the drains are feasible at the start; at most one URL per prefix changes iff the drained services share no prefix; nothing movable is left iff the count does not stop the run, for which sharing and at most 65536 hand-overs are necessary; without a drain the imbalance falls by 2 per treated prefix |
| `Meta0ShortRun.StopsWithMovesLeft` | meta0v2/meta0_prefixassign.c:416-481 | from any start in which drained services share 21845 prefixes and are counted 65535 times, the run succeeds with something left to move |
| `Meta0ShortRun.StartIsShared` | meta0v2/meta0_prefixassign.c:416-481 | a concrete start of that kind: three disabled services, four working ones, two outsiders |
| `Meta0ShortRun.OneSuchRun` | meta0v2/meta0_prefixassign.c:416-481 | the run from it: success, a prefix met twice noted, a move left |
| `Meta0Operations.SplitServices` | meta0v2/meta0_prefixassign.c:510-568 | services of the conscience split into working and to be drained, each with exactly the prefixes it holds |
| `Meta0Operations.InitAssign` | meta0v2/meta0_prefixassign.c:485-604 | fails iff there are fewer services than replicas, no replica, or no service at all; else a plan with scores, flags and lists: a listed service works unless a reference disables it, and the average times the services is at most 65536 times the replicas (modulo 2 to the 32) while the next integer is too much |
| `Meta0Operations.AverageBounds` | meta0v2/meta0_prefixassign.c:571-581 | the average is the product of prefixes and replicas, as it fits in 32 bits, shared out and rounded down |
| `Meta0Operations.ServiceCountMeans` | meta0v2/meta0_prefixassign.c:510-571 | the services that share the prefixes: the listed ones not disabled, and those not listed that serve a prefix, each once |
| `Meta0Operations.WorkingReversed` | meta0v2/meta0_prefixassign.c:510-568 | the list of working services is in the reverse of the order of the conscience |
| `Meta0Operations.UnrefReversed` | meta0v2/meta0_prefixassign.c:510-568 | so is the list of services to drain |
| `Meta0Operations.PlanUnique` | meta0v2/meta0_prefixassign.c:485-604 | the plan, with the order of its lists, is determined by the table, the conscience and the references |
| `Meta0Operations.PlanLinks` | meta0v2/meta0_prefixassign.c:485-604 | every plan starts with scores and lists linked to the table |
| `Meta0Operations.MaskPrefixes` | meta0v2/meta0_prefixassign.c:626-639 | the mask takes the prefixes of a service iff none is already in it |
| `Meta0Operations.UnrefMeta1` | meta0v2/meta0_prefixassign.c:606-662 | succeeds iff the named services share no prefix; then exactly they are marked as disabled |
| `Meta0Operations.TurnsAreHolders` | meta0v2/meta0_prefixassign.c:423-447 | a prefix takes part in as many drains as it has disabled holders |
| `Meta0Operations.PlanDrainable` | meta0v2/meta0_prefixassign.c:423-447 | the drains are feasible iff each prefix with disabled holders has two replicas and at least as many working services outside its vector as disabled ones in it |
| `Meta0Operations.ApartNeedsOne` | meta0v2/meta0_prefixassign.c:423-447 | when disabled services share no prefix, one working service outside each vector is enough |
| `Meta0Operations.PlanApart` | meta0v2/meta0_prefixassign.c:423-447 | the services to drain are apart iff no two disabled listed services share a prefix |
| `Meta0Operations.SharedChangesTwice` | meta0v2/meta0_prefixassign.c:423-447 | if two disabled services shared a prefix, the stored vector differs from the first one in two places |
| `Meta0Operations.ExhaustedIsNothingToMove` | meta0v2/meta0_prefixassign.c:450-477 | nothing movable, read on the two tables: no unchanged prefix of a service above the average is acceptable to one below |
| `Meta0Operations.AssignPrefixes` | meta0v2/meta0_prefixassign.c:852-914 | success iff there are services for the replicas and for every drain, else which error; every stored vector keeps its length, without repetition, and the stored scores count the prefixes held; disabled services of the conscience hold nothing; at most one URL per prefix changes iff the disabled services share none; no move is left iff the count does not stop the run of the plan, for which sharing and at most 65536 hand-overs are necessary |
| `Meta0Operations.RunEnds` | meta0v2/meta0_prefixassign.c:852-914 | what a run leaves, in terms of the stored table alone |
| `Meta0Operations.MaskKeepsApart` | meta0v2/meta0_prefixassign.c:606-662 | services that pass the mask, added to a base without disabled services, are apart |
| `Meta0Operations.DisableMeta1` | meta0v2/meta0_prefixassign.c:916-984 | success iff the named services share no prefix and there are services for every drain, else which error; afterwards no disabled service of the conscience serves a prefix; at most one URL per prefix changes iff all disabled services are apart |
| `Meta0Fill.AcceptsNew` | meta0v2/meta0_prefixassign.c:265-302 | without a source, a service is accepted iff it is not in the vector and, without `nodist`, its host is not either |
| `Meta0Fill.SomeoneFits` | meta0v2/meta0_prefixassign.c:809-822 | pigeonhole: with fewer replicas placed than services (or hosts), some service is accepted |
| `Meta0Fill.SlotWithinSupply` | meta0v2/meta0_prefixassign.c:809-822 | a filled vector never outgrows the services (or hosts) |
| `Meta0Fill.LevelOne` | meta0v2/meta0_prefixassign.c:809-822 | giving a prefix to a least loaded service keeps all scores within one of each other |
| `Meta0Fill.GreedyOne` | meta0v2/meta0_prefixassign.c:809-822 | each place goes to a service with the fewest prefixes among those that could join the vector at that time |
| `Meta0Fill.FillPass` | meta0v2/meta0_prefixassign.c:809-822 | a pass adds one URL to each of the 65536 prefixes and 65536 to the total score, and cannot fail while services (or hosts) remain |
| `Meta0Fill.FillPasses` | meta0v2/meta0_prefixassign.c:809-822 | all passes: exact replica counts and totals, level scores after the first pass |
| `Meta0Fill.Fill` | meta0v2/meta0_prefixassign.c:777-849 | succeeds iff the table is blank and the replicas are between 1 and both the services listed and the services (or hosts) working; then every prefix has exactly the replicas asked, distinct, on distinct hosts without `nodist`; every place of the stored table was given to one of the least loaded services that could take it, and with one replica the loads differ by one at most |
| `Meta0RoundRobin.Base.FillPass` | meta0v2/meta0_backend.c:330-366 | one pass inserts one row per prefix, until a row violates the primary key |
| `Meta0RoundRobin.Base.Fill` | meta0v2/meta0_backend.c:368-388 | succeeds iff the transaction does and no row clashes; then the rows added to prefix p are, in order, those of the URLs at p + r - 1, ..., p + 1, p, modulo their number, for r replicas; otherwise the base is unchanged |
| `Meta0RoundRobin.GivenAt` | meta0v2/meta0_backend.c:330-366 | the rank of each URL that a prefix gets, in closed form |
| `Meta0RoundRobin.FitsIffEnough` | meta0v2/meta0_backend.c:330-388 | on a blank base with distinct URLs, no row clashes iff there are as many URLs as replicas |
| `Meta0RoundRobin.Different` | meta0v2/meta0_backend.c:330-388 | every prefix gets as many different URLs of the list as replicas |
| `Meta0RoundRobin.ShareBounds` | meta0v2/meta0_backend.c:330-366 | one pass gives each URL the floor or the ceiling of 65536 over the number of URLs |
| `Meta0RoundRobin.Balanced` | meta0v2/meta0_backend.c:330-388 | every URL gets between replicas times the floor and replicas times the ceiling |
| `Meta1Prefixes.SetBit` | meta1v2/meta1_prefixes.c:36-48 | setting the bit of one prefix changes the answer for no other |
| `Meta1Prefixes.Manage` | meta1v2/meta1_prefixes.c:36-41 | after it exactly one more prefix may be managed |
| `Meta1Prefixes.CacheFromList` | meta1v2/meta1_prefixes.c:52-75 | bit p is set iff the list sends prefix p to the local URL |
| `Meta1Prefixes.PrefixSet.IsManaged` | meta1v2/meta1_prefixes.c:206-217 | the bitmap answers for the table: true iff a table was loaded and names the local URL for the prefix |
| `Meta1Prefixes.PrefixSet.Difference` | meta1v2/meta1_prefixes.c:109-117 | lists, in increasing order, exactly the prefixes whose bits differ |
| `Meta1Prefixes.PrefixSet.Load` | meta1v2/meta1_prefixes.c:77-134 | bitmap and table agree after every load; an empty or failed answer changes nothing; the reported list is exactly the symmetric difference, and only from the second load on |
| `Meta1Prefixes.PrefixSet.ManageAll` | meta1v2/meta1_prefixes.c:234-255 | every prefix is managed, and the table says so |
| `Meta1Prefixes.PrefixSet.GetAll` | meta1v2/meta1_prefixes.c:276-302 | lists exactly the managed prefixes, in increasing order |
| `Meta1Prefixes.PrefixSet.Reload` | meta1v2/meta1_server.c:31-78 | elections are exited for exactly the prefixes lost, none on the first load |
| `Meta1Prefixes.PrefixSet.GetPeers` | meta1v2/meta1_server.c:154-188 | once loaded, succeeds iff the prefix is managed; the peers are the other URLs of the prefix |
| `Meta1Prefixes.WithoutMeans` | meta1v2/meta1_server.c:121-142 | filtering removes every copy of the local URL and nothing else |
| `SizeNotification.Decides` | meta2v2/meta2_backend.c:2616-2625 | the first META1 in circular order that does not refuse decides: it accepts, or is missing |
| `SizeNotification.SendWithRetry` | meta2v2/meta2_backend.c:2602-2625 | refused iff all are asked and refuse; the process dies iff the first that does not refuse is missing, or the replication read is zero; with enough META1s accepted iff one accepts; asked in circular order from the picked one, each at most once |
| `SizeNotification.Backend.Group` | meta2v2/meta2_backend.c:2652-2698 | splits the table by prefix: every container once, with its size, under its own prefix |
| `SizeNotification.Backend.PutBack` | meta2v2/meta2_backend.c:2627-2633 | after a refusal, newer sizes win and every other container is back |
| `SizeNotification.Backend.Notify` | meta2v2/meta2_backend.c:2676-2717 | without writers: survives iff no prefix to notify runs into a missing META1; then exactly the containers of refused prefixes remain, with their sizes |
| `NotificationProtocol.RecordIsAddModified` | meta2v2/meta2_backend.c:1155-1163 | the recording step does to the sizes what the backend does |
| `NotificationProtocol.SwapIsRenew` | meta2v2/meta2_backend.c:2636-2643 | the swap takes all recorded sizes out |
| `NotificationProtocol.PutBackIsAddBack` | meta2v2/meta2_backend.c:2572-2591 | the put-back step keeps a size recorded in the meantime |
| `NotificationProtocol.StepInv` | meta2v2/meta2_backend.c:2572-2717 | every step of writers and notifier keeps: the latest size of each container is accepted, pending, in flight, or about to be put back |
| `NotificationProtocol.NothingLost` | meta2v2/meta2_backend.c:2572-2717 | the same in every state of every interleaving |
| `NotificationProtocol.PutBackKeepsNewer` | meta2v2/meta2_backend.c:2572-2591 | a put-back changes no pending size, and leaves the latest one pending for its container |
| `NotificationProtocol.AcceptedInOrder` | meta2v2/meta2_backend.c:2593-2717 | META1s never accept an older size over a newer one |
| `NotificationProtocol.QuietMeansDelivered` | meta2v2/meta2_backend.c:2676-2717 | when nothing is pending or in flight, the META1s hold the latest sizes |
| `NotificationProtocol.CanDeliver` | meta2v2/meta2_backend.c:2572-2717 | from every state of every run some continuation, without a new recording, delivers all the latest sizes |
| `Meta2DedupRun.Base.DuplicatesByHash` | meta2v2/meta2_dedup_utils.c:62-110 | exactly the hashes shared by two headers or more, each with its headers, last loaded first |
| `Meta2DedupRun.Base.ByPolicy` | meta2v2/meta2_dedup_utils.c:126-136 | splits the headers of a hash by policy, back in loading order |
| `Meta2DedupRun.Base.RedirectRow` | meta2v2/meta2_dedup_utils.c:163-190 | one alias redirected and reported, or neither when its save fails |
| `Meta2DedupRun.Base.SubstituteHeader` | meta2v2/meta2_dedup_utils.c:155-211 | redirects and reports exactly the aliases visited and saved: those of the old headers up to the first failed load, which stops it |
| `Meta2DedupRun.ReachedInGroup` | meta2v2/meta2_dedup_utils.c:192-205 | in a group a header is reached iff the loads of all headers to merge before it succeed |
| `Meta2DedupRun.GroupServed` | meta2v2/meta2_dedup_utils.c:155-211 | the aliases a group redirects, read on the table of headers and the failures alone |
| `Meta2DedupRun.Base.DedupGroup` | meta2v2/meta2_dedup_utils.c:138-144 | one group; an earlier error is forgotten iff the group has headers to merge |
| `Meta2DedupRun.Base.DedupHash` | meta2v2/meta2_dedup_utils.c:122-147 | treats every group of its hash; the error left is that of the last group with headers to merge |
| `Meta2DedupRun.Base.DedupAliases` | meta2v2/meta2_dedup_utils.c:112-153 | for every pattern of failed loads and saves, the aliases redirected are exactly those on a header to merge that is reached, visited and saved, and the saved space and the impacted names are exactly theirs, in whatever order the groups come; in a real run these are the aliases that differ from before; while loads succeed they are all aliases to redirect but those whose save fails; a dry run changes nothing; an error is left iff a load failed in the last group visited with headers to merge |
| `Meta2DedupRun.RunServed` | meta2v2/meta2_dedup_utils.c:112-211 | what moved is what was reported, under any failures |
| `Meta2Dedup.FirstIsEarliest` | meta2v2/meta2_dedup_utils.c:62-147 | the representative of a header is the earliest row of its hash and policy |
| `Meta2Dedup.TailMeans` | meta2v2/meta2_dedup_utils.c:62-147 | a header gives way iff an earlier row has its hash and policy |
| `Meta2Dedup.GainIsSizeOfFirst` | meta2v2/meta2_dedup_utils.c:172-185 | each redirected alias counts for the size of that earliest row |
| `Meta2Dedup.MeaningKept` | meta2v2/meta2_dedup_utils.c:87-211 | the representative of a header has the same hash and policy |
| `Meta2Dedup.NoDuplicatesLeft` | meta2v2/meta2_dedup_utils.c:87-211 | afterwards no two aliases end on different headers with equal hash and policy |
| `Meta2Dedup.Idempotent` | meta2v2/meta2_dedup_utils.c:87-211 | a second run moves nothing |
| `Meta2Dedup.PlanIsSettled` | meta2v2/meta2_dedup_utils.c:112-147 | representatives are never redirected themselves |
| `Meta2DedupRun.HarmlessKeepsMeaning` | meta2v2/meta2_dedup_utils.c:112-211 | after any run, faulty or not, every alias resolves to a header of the same hash and policy |
| `Meta2DedupRun.ErrorIsATail` | meta2v2/meta2_dedup_utils.c:192-205 | an error left is the failed load of some header to merge |
| `Meta2DedupRun.ReportsAgree` | meta2v2/meta2_dedup_utils.c:112-211 | a dry run announces the saved space and the impacted aliases of the real run |
| `Meta2Chunks.Base.SubstituteRow` | meta2v2/meta2_dedup_utils.c:226-268 | the row is saved under the new chunk and then deleted; a failed save keeps it, a failed deletion keeps both rows |
| `Meta2Chunks.Base.SubstituteOne` | meta2v2/meta2_dedup_utils.c:270-276 | all rows of one old chunk, in any order, with the exact effect of failed saves and deletions |
| `Meta2Chunks.Base.SubstituteChunk` | meta2v2/meta2_dedup_utils.c:213-290 | counts the old chunks read and stops at the first failed load, with the exact rows left under any failures; without failures those of the reference steps; contents keep their hashes |
| `Meta2Chunks.StepsRename` | meta2v2/meta2_dedup_utils.c:213-290 | with the new chunk not among the old ones the table becomes its image under the renaming |
| `Meta2Chunks.SelfSubstitution` | meta2v2/meta2_dedup_utils.c:213-290 | with the new chunk among the old ones, it is a renaming iff every row named up to its last occurrence is named at the same place by a chunk replaced later |
| `Meta2Chunks.RowMeaning` | meta2v2/meta2_dedup_utils.c:226-268 | saving a row under a chunk of equal hash, deleted or not, keeps the hashes of every content at every position |
| `Meta2Chunks.Base.NextGroup` | meta2v2/meta2_dedup_utils.c:350-362 | the chunks of one answer not met before, each once, in order |
| `Meta2Chunks.Base.GroupsOf` | meta2v2/meta2_dedup_utils.c:345-383 | fails iff a load fails; otherwise all the new chunks of each answer are merged into the first of them |
| `Meta2Chunks.CopiesMerged` | meta2v2/meta2_dedup_utils.c:345-383 | for loaded answers, every chunk of an answer not met before stands for the first such chunk of that answer |
| `Meta2Chunks.Base.SubstituteGroups` | meta2v2/meta2_dedup_utils.c:384-393 | succeeds iff no load of a chunk to replace fails; otherwise stops there, with the exact rows left |
| `Meta2Chunks.GroupsSeparate` | meta2v2/meta2_dedup_utils.c:345-383 | the groups share no chunk and hold none met before |
| `Meta2Chunks.Base.DedupChunks` | meta2v2/meta2_dedup_utils.c:292-424 | under any answers and failures every content keeps its hashes at every position; succeeds iff all answers needed are loaded and no load of a chunk to replace fails; then every chunk of every answer not met before is replaced by the first such chunk of its answer, chunks in no answer stay, and without failures the rows are the image of the old ones under that replacement |
| `Meta2Chunks.NewStands` | meta2v2/meta2_dedup_utils.c:336-393 | over all chunks of the alias, the new chunks of an answer give way to the first of them |
| `Meta2Chunks.ExpectedOrigin` | meta2v2/meta2_dedup_utils.c:336-393 | every group comes from the new chunks of one answer |
| `Meta2Chunks.FoldedIsImage` | meta2v2/meta2_dedup_utils.c:384-393 | a run over separate groups replaces every chunk by the first of its group and nothing else |
| `Meta2Chunks.ReplacedAreGone` | meta2v2/meta2_dedup_utils.c:384-393 | afterwards no row names a replaced chunk |
| `Meta1PolicyUpdate.Update.CommitAndCount` | meta1v2/meta1_backend_services.c:1526-1535 | the rows of the open transaction are all counted and committed, or all counted as failed and rolled back |
| `Meta1PolicyUpdate.Update.Save` | meta1v2/meta1_backend_services.c:1571-1579 | a row with a new value becomes pending, and is written outside check-only mode; the error is that of this save |
| `Meta1PolicyUpdate.Update.Treat` | meta1v2/meta1_backend_services.c:1547-1584 | one row keeps counters, committed rows and pending rows in agreement, with fewer than ten rows pending; where transactions end is the subject of `Batches` |
| `Meta1PolicyUpdate.Update.Run` | meta1v2/meta1_backend_services.c:1509-1605 | for every pattern of failures: checked = updated + failed + unchanged, the base differs by exactly the rows counted as updated, check-only changes nothing; the report, the error and the counts are those of the row-by-row account; without technical failures the report counts the new values as updated and the failures of the policy as failed |
| `Meta1PolicyUpdate.Batches` | meta1v2/meta1_backend_services.c:1547-1584 | while begin, save and commit succeed: pending are the new values since the last hundredth row that ended a transaction, modulo 10, and updated are all others |
| `Meta1PolicyUpdate.EveryHundred` | meta1v2/meta1_backend_services.c:1581-1583 | where the policy answers for every row, that row is the last multiple of a hundred |
| `Meta1PolicyUpdate.SmoothRun` | meta1v2/meta1_backend_services.c:1547-1596 | without technical failures every new value is updated |
| `Meta1PolicyUpdate.SaveLosesBatch` | meta1v2/meta1_backend_services.c:1571-1583 | a failed save loses exactly the rows pending with it |
| `Meta1PolicyUpdate.CommitLosesBatch` | meta1v2/meta1_backend_services.c:1526-1535 | a failed commit loses exactly the rows of the full transaction, and nothing where the transaction is not full |
| `Meta1PolicyUpdate.TenRowsLost` | meta1v2/meta1_backend_services.c:1571-1583 | ten new values of which the tenth cannot be saved: none updated, ten failed |
| `Meta1PolicyUpdate.ErrorLeft` | meta1v2/meta1_backend_services.c:1547-1584 | after any number of rows an error is left iff a save or commit failed and no row was written after that |
| `Meta1PolicyUpdate.FinalError` | meta1v2/meta1_backend_services.c:1586-1596 | no report iff the last commit fails, or a save or commit failed with no row written after it |
| `Meta1PolicyUpdate.CheckOnlyError` | meta1v2/meta1_backend_services.c:1571-1584 | in check-only mode an error is left iff any commit failed |
| `Meta1PolicyUpdate.Forgotten` | meta1v2/meta1_backend_services.c:1571-1596 | two rows of which the first cannot be saved: reported as 2, 1 and 1, without an error |
| `Meta1PolicyUpdate.ApplyMeans` | meta1v2/meta1_backend_services.c:499-524 | of the selected rows exactly the updated ones have their new value, the others their old one |
| `Meta1PolicyUpdate.ApplyElsewhere` | meta1v2/meta1_backend_services.c:499-524 | rows that were not selected never change |
| `Meta1PolicyUpdate.CountAll` | meta1v2/meta1_backend_services.c:1509-1605 | the fates of the rows add up |
| `BeanOrder.ReverseDependencies` | meta2v2/m2gen.py:153-185 | returns every bean once, each after all it references, as the turns of the queue list them |
| `BeanOrder.StepProgress` | meta2v2/m2gen.py:169-184 | each turn lists a bean or brings the first ready one nearer |
| `BeanOrder.TerminatesIffGrounded` | meta2v2/m2gen.py:153-185 | the loop ends iff among any beans left one references only beans outside them, whatever the order of the queue |
| `BeanOrder.RankedIsGrounded` | meta2v2/m2gen.py:153-185 | every acyclic graph whose targets are beans satisfies that condition |
| `BeanOrder.OrderIsRank` | meta2v2/m2gen.py:153-185 | the place in a returned order is a rank that falls along every foreign key |
| `BeanOrder.GroundedIffRanked` | meta2v2/m2gen.py:153-185 | the graphs on which the loop ends are exactly those without cycles whose targets are all beans |
| `BeanOrder.StuckStays` | meta2v2/m2gen.py:169-184 | beans none of which is free among themselves never leave the queue |
| `CrawlerWindow.Inf` | crawler/crawler.c:217-223 | half a positive upper limit, rounded down, and below it |
| `CrawlerWindow.StepKeeps` | crawler/crawler.c:735-860 | every step of every thread keeps room for each insertion to come, and the count of elements |
| `CrawlerWindow.WindowBounded` | crawler/crawler.c:819-835 | in every interleaving the table never exceeds a positive limit, even when a stop breaks the wait |
| `CrawlerWindow.HandledBounded` | crawler/crawler.c:838-846 | in every interleaving at most the maximal number of elements is handled |
| `CrawlerWindow.Hysteresis` | crawler/crawler.c:819-835 | once seen full, the window takes no element before it was seen at the lower limit |
| `CrawlerWindow.EntryStays` | crawler/crawler.c:241-326 | a context inserted once is in the table iff no acknowledgement and no expiry of it came after its insertion |
| `CrawlerWindow.StopEnds` | crawler/crawler.c:735-860 | once a stop is raised the trip thread can end within four steps, from wherever it stands, without handling another element |
| `CrawlerWindow.EarlyAcknowledgement` | crawler/crawler.c:808-813 | an acknowledgement between sending and insertion is lost: the context is in the table afterwards |
| `CrawlerWindow.Grows` | crawler/crawler.c:819-846 | below the limits, or without any, every number of unacknowledged contexts is reached |
| `CrawlerWindow.WindowFills` | crawler/crawler.c:819-835 | the limit itself is reached, and seen |
| `CrawlerWindow.WindowReopens` | crawler/crawler.c:819-835 | a full window opens again at exactly the lower limit |
| `CrawlerWindow.BudgetSpent` | crawler/crawler.c:838-846 | the maximal number of elements is used up, even if no action takes any |
| `CrawlerWindow.BoundedIffLimited` | crawler/crawler.c:819-846 | over all runs the table is bounded iff one of the two limits is positive |

## Left out

- Meta0Operations.InitAssign: looks services up in the tree form of the table instead of scanning its list form and removing entries from it.
- Meta0Operations.UnrefMeta1: the same, and the bitmap of seen prefixes is a set; the bitmap itself is modelled in Meta1Prefixes.
- Meta0Assign.Allocator.SelectDest: an empty list of candidates gives no destination, where the source dereferences NULL; the operations report that case as `Died`. Addresses are equal as wholes, where the source compares a prefix of one with the other without case.
- Meta0Assign.Allocator.Assign: the list of working services is a value; that list heads are deleted in place is not modelled. Scores are unbounded, only the average wraps at 32 bits.
- Meta0RoundRobin.Base.Fill: requires a non-empty list of fewer than 65536 URLs, as the assertion in the source does; a busy base, on which the source waits, is not modelled.
- SizeNotification.SendWithRetry: a sending that fails without an error counts as accepted, as in the source.
- SizeNotification.Backend.Notify: states the result without concurrent writers; NotificationProtocol covers the interleavings with writers, for one notifier.
- Meta1Prefixes.PrefixSet.GetPeers: takes the prefix, not its hexadecimal name, and assumes a first load has been made.
- Meta1Prefixes.PrefixSet.Load: the retry over several META0 services is not modelled; prefixes are read in little-endian order.
- Meta1PolicyUpdate.Update.Run: what the policy answers for a row is an argument (tags, excluded service, polling of the load balancer are not modelled); a commit that fails is rolled back; a commit refused with its transaction left open is not modelled.
- Meta2DedupRun.Base.DedupAliases: saved space is unbounded where the source wraps at 64 bits; identifiers of headers are unique.
- Meta2Chunks.Base.DedupChunks: the views that number copies are not modelled; the answers of the base are arguments of which only the hash asked for is assumed.
- CrawlerWindow.StepKeeps: pauses, slow mode and the choice of an action service are not modelled; they change neither table nor counters.
- The delays and the deviation checked before a reassignment, the storage of the reassigned table in the META0 base, and the reload flags of its cache.
- Network clients, request dispatching, ASN.1 codecs, D-Bus, elections, the load balancer and the sqlite layer: plumbing, or code that is only called here.
- The conversion between the two versions of META2 bases (meta2v2/meta2_backend_dbconvert.c), and the rest of META2.
- The other services, clients and tools of the repository (rawx, rainx, gridd, cluster, client, polix, snmp and so on).
