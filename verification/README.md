# lokv in Dafny

lokv is an append-only log over a create-only key/value store. There is no mutable head:
the commit of revision R is an object of its own, created once, and carries a radix-16
frontier, a partition of the revisions before R into aligned blocks of 16^L records with a
hash chain through them. Appending is adding one in base 16: sixteen blocks of a level are
packed into one segment of the next. Readers may read a block either as its packed segment
or through the frontier of the commit at its end.

This project models that log, its append protocol under races and lost replies, its readers,
the projection built on it and the stores under it, and proves what they promise.

| file | part of lokv |
|---|---|
| `Radix`, `Machine` | base-16 arithmetic, and the same in int64 |
| `Order`, `Keys`, `Listing`, `StoreKeys`, `Roots` | bytewise key order, key texts, what a listing returns, loading a root |
| `Wire`, `Frontier` | commits, references, record hashes, the frontier validator |
| `Carry`, `Costs`, `Blocks` | appending to a frontier, and what it costs |
| `Segment` | packed segments: parsing, loading, packing |
| `History` | the log as a sequence of commits, and true references to it |
| `ReadPlan`, `PlanCost`, `Scan` | the cost plan, why it is the best one, and the readers |
| `ScanIntact`, `ScanCaller`, `ScanSound`, `ScanErrors`, `ScanReads` | scans of intact stores, what their caller decides, scans of failing and damaged stores, their errors, and the keys they fetch |
| `Protocol` | writers, a shared store and lost creates as a step system |
| `ProtocolSafe`, `ProtocolSteps`, `ProtocolRuns`, `ProtocolResults` | its invariant, each step, whole runs, what callers may rely on |
| `ProtocolRetries`, `ProtocolProgress`, `ProtocolCosts` | lost attempts and conflicts, that appends complete, what runs create |
| `StateSync`, `Register`, `RegisterRuns`, `RegisterProgress` | State, and the username registry of its example |
| `MemStore`, `DiskStore`, `CacheStore`, `Multipart`, `Frame` | the stores, multipart uploads, the Zstandard framing check |

## How to read it

One definition of a valid frontier (`Wire.FrontierOK`) and one of a record chain
(`Segment.Chained`) are shared by writers, readers and the validator. Loops of the Go code
are methods whose contracts tie them to a function; the theorems are about those functions.

Three hypotheses appear where they are needed and nowhere else:

- `Wire.ValidEnv`: both hash functions yield 32 bytes. SHA-256 is otherwise uninterpreted.
- `History.Collisionless`: the record hashes of one chain have no second preimage. It follows
  from injective hashing (`History.InjectiveIsCollisionless`) and is needed only for reading
  from stores whose objects may have been altered. `ScanSound.Reliable` asks for it or, instead,
  for undamaged objects, of which any may be missing or fail to be read. The append protocol
  needs no hypothesis on hashes beyond their length.
- `ScanIntact.Willing`: the caller is not cancelled and its callback accepts every record;
  used where a scan is claimed to finish.

In `Protocol`, a create whose caller sees an error goes into flight: it may take effect at any
later step or never. This covers a create that fails, one that succeeds and reports an error,
and one that lands after its error was handled. Any read may fail and any caller may be
cancelled at any point. The getter a scan reads through is an arbitrary function from keys to
outcomes. A scan fetches no key twice and depends on nothing else (`ScanReads.FetchesOnce`,
`ScanReads.ScanDepends`), so this is as general as a store that changes meanwhile.

`Scan` compares the two costs of a plan by an arbitrary function, so nothing depends on the
rounding of the float64 estimate. `ReadPlan.ByWeight` is that estimate over integers, and
`PlanCost` shows what comparing by it achieves.

In `StateSync.State.SyncTo` the scan runs first, with a callback that accepts a record exactly
when its batch would apply, and the batches delivered are applied afterwards. The two orders
agree because the scan stops at the first refused record (`StateSync.ScanStopsAtRefusal`).

`RegisterRuns` runs clients against the same `Protocol` states: their appends are its AppendTo
invocations and their catch-ups are scans of its store, any of whose reads may fail and which
may be stopped anywhere.

## Model

| member | source | states |
|---|---|---|
| `Radix.ShiftMaskIsDigit` | wire.go:323 | the digit `(n >> 4k) & 15` is the k-th hexadecimal digit of n (shift as halvings, mask bit by bit), so the per-level counts of a frontier are digits |
| `Radix.AlignedIsRemainder` | wire.go:290-291 | the block test `s % 16^k == 0` says that the k lowest hexadecimal digits of s are zero |
| `Radix.Increment` | objects.go:21-32 | adding one clears a full suffix of digits, bumps the digit above it and leaves all others: what the carry does to the level counts |
| `Machine.CheckRange` | wire.go:286-293 | the range test of a reference in int64: exact for every start, end and level up to 15, never overflows, and only levels up to 13 pass |
| `Keys.ParseRevisionInverse` | wire.go:64-99 | a string parses to a revision exactly when it is that revision's 16-digit text and the revision is in range |
| `Keys.ParseLogKeyInverse` | wire.go:106-127 | a key parses to a revision exactly when it is that revision's log key, for every prefix and every revision of the int64 range |
| `Keys.LogKeyOrder` | wire.go:106-108 | a later revision has the bytewise smaller key |
| `Keys.HexAt` | wire.go:64 | a number is written with the digits 0-9 and a-f, the digit of weight 16^k standing k places before the end |
| `Listing.HeadListed` | log.go:255-274 | when the keys under the log prefix are those of revisions 1..head, a one-key listing returns nothing for an empty log and otherwise precisely the key of the greatest committed revision, which parses back to it |
| `StoreKeys.KeyTextInjective` | wire.go:106-131 | no two keys that writers create have the same text, for any prefix |
| `StoreKeys.HexBytesAt` | wire.go:129-131 | each byte of a digest is written as its two hexadecimal digits, the high one first |
| `StoreKeys.UnderLogPrefix` | wire.go:103-131 | exactly the commits' keys lie under the log prefix, never a segment's |
| `StoreKeys.ListedHead` | log.go:255-277 | in any state of a run, the one-key listing of the texts in the store is empty exactly for an empty log, and otherwise its key parses to the head of the protocol's log |
| `Roots.HeadLoads` | log.go:255-277 | in any run, with its read any number of steps after its listing, loading the head gives nothing for a log that was empty and otherwise the commit of the greatest revision stored at the listing |
| `Roots.RevisionLoads` | log.go:289-304 | in any state of a run a revision loads exactly when it is committed; one that is not yet is not found, and one outside 1..MaxRevision is rejected |
| `Roots.HeadNeverNotFound` | log.go:270-277 | a key that was listed and is then missing makes the log corrupt, and only an empty listing makes it empty |
| `Wire.PreimageInjective` | wire.go:133-147 | two records with equal hash preimages have equal revision, commit ID, previous hash and batch |
| `Wire.PreimageLayout` | wire.go:133-147 | the hashed bytes, place by place: the text lokv-record-v1 and a zero byte, the revision in eight big-endian bytes, the commit ID, the previous hash, the length of the batch in eight big-endian bytes, and the batch |
| `Wire.ReferenceMeans` | wire.go:278-305 | a reference is accepted exactly when it covers 16^L revisions from a multiple of that many on, all in range, has three 32-byte hashes, and its key is the one these determine |
| `Wire.ValidateFrontier` | wire.go:307-341 | the validator accepts exactly the frontiers whose levels strictly increase with 1 to 15 references each, whose counts are the digits of R - 1, and whose references form one hash chain of adjacent aligned blocks from revision 1 and the zero hash to R and its previous hash |
| `Wire.RefsAreFlat` | scan.go:151-157 | the order in which a scan visits a canonical frontier is chronological: highest level first, references in stored order |
| `Frontier.FrontierCovers` | wire.go:317-339 | every revision before R lies in exactly one block of an accepted frontier |
| `Frontier.ShapeIsCanonical` | wire.go:307-341 | any two frontiers accepted for one revision have the same sequence of levels, starts and ends |
| `Frontier.SegmentInterior` | scan.go:202-215 | in the frontier of the commit at a segment's last revision, the part from the segment's start on is fifteen references of every smaller level, reaching exactly to the commit |
| `Frontier.FrontierSize` | wire.go:322-325 | an accepted frontier has one reference per unit of the hexadecimal digit sum of R - 1, at most 195, and none above level 13 |
| `Carry.CarryLevels` | objects.go:15-40 | copying a canonical frontier to the level array, pushing and packing in place and collecting the nonempty levels gives exactly the result of the carry function, or fails exactly when it does |
| `Carry.CarryCorrect` | objects.go:15-40 | carrying any frontier accepted for R past its head gives a frontier accepted for R + 1 ending in the head's record hash, and each created segment trades sixteen references for one |
| `Carry.CarryLevelBound` | objects.go:21-32 | the carry never goes beyond level 13, so it is never dropped off the 16-entry array |
| `Carry.CarryStop` | objects.go:22-25 | a level with room absorbs the carry and the array is then a frontier for the next revision |
| `Carry.CarryOn` | objects.go:26-32 | a full level packed into one segment of the next level keeps the chain and the partition |
| `Costs.Conservation` | objects.go:21-32 | before the commit of revision N + 1, with N commits carried, fifteen times the segments created plus the references in its frontier is N |
| `Costs.AppendCreates` | lokv_test.go:165-171 | the append of revision i + 1 creates as many segments as 16 divides i |
| `Costs.TotalCreations` | lokv_test.go:165-171 | N appends create N commits and the sum of floor((N-1)/16^L) segments, together fewer than 16N/15 |
| `Segment.ParseSegment` | segment.go:305-403 | a token stream is accepted exactly when it has each required field once, in any order, without case aliases, with the reference's values, and its records are valid, adjacent and run from the reference's first boundary hash to its last; the result is those records |
| `Segment.AcceptedEnvelope` | segment.go:305-403 | an envelope is accepted exactly when it has the fields of the canonical encoding of some records the reference claims, each once and in any order, beside other fields whose names resemble none of theirs in case |
| `Segment.DecodedRecords` | segment.go:271-292 | whatever bytes are accepted for a reference of level L hold exactly its 16^L records in order between its boundary hashes |
| `Segment.EncodedSegmentDecodes` | segment.go:133-155 | decoding inverts encoding for every record sequence that fits the reference |
| `Segment.LoadedRecords` | segment.go:85-124 | whatever the store returns, records that load are the ones the reference claims |
| `Segment.LoadedObject` | segment.go:271-292 | and they come from bytes with the digest the reference names, the cached root included |
| `Segment.PackSegment` | segment.go:157-247 | packing succeeds exactly for sixteen children that load and whose concatenated records chain over the combined range; it yields the reference and the bytes of that concatenation |
| `Segment.PackedSegment` | segment.go:157-247 | sixteen adjacent valid children of one level that load always pack: the reference is valid, aggregates the children, and its object decodes to their records in order |
| `History.PackTrue` | segment.go:241-246 | any two writers that pack the same block of the log obtain the identical reference and object |
| `History.LoadTrue` | segment.go:85-124 | loading a true reference from a store that holds its object gives the log's own records, with or without the cached root |
| `History.ChainEndsDetermine` | wire.go:133-147 | a chain of valid records ending in the hash of one record of a collision-free chain is that chain's part ending there, record by record |
| `History.CommitsAgree` | wire.go:343-370 | two objects that decode as commits with one record hash, if it has no second preimage, are at the same key and agree in format, revision, commit ID, predecessor and batch, and in the blocks of their frontiers |
| `ReadPlan.RangeReadPlan` | scan.go:187-220 | the planner in int64 computes the recursive plan and cost without overflow for every block of the revision range, for any comparison of the two costs |
| `PlanCost.PlanIsLightest` | scan.go:187-220 | among all ways to read a block the format allows, each block of which a suffix is wanted being read as its object or through the commit at its end and the fifteen blocks of every smaller level, the planned one has the least weight, and the block is split exactly when every lightest way splits it |
| `PlanCost.WeightPlus` | scan.go:167-177 | weights add up; a record weighs a batch and 64 bytes, a GET 64 KiB and a reference 384 bytes |
| `PlanCost.CatchUpExample` | scan.go:66-70 | catching up from revision 65,535 to 65,537 reads commit 65,536 alone instead of the segment of 65,536 records, for every batch size |
| `ReadPlan.CommitReadCostLoop` | scan.go:179-185 | the cost of a historical commit is one record, one GET and the digit sum of its revision minus one in references |
| `ReadPlan.PlanFits` | scan.go:187-220 | a plan for a block of n revisions counts at most n records, n GETs and 195 n references |
| `ReadPlan.RangesMean` | scan.go:15-42 | which revisions All, StartingAt and After ask for, and that the latter two are valid exactly for arguments from 1 and from 0 to MaxRevision |
| `Scan.RunScan` | scan.go:85-165 | the nested loops of a scan, with its early exits for cancellation, range and corruption, compute the scan function the results below are about |
| `Scan.ReadRangeParts` | scan.go:279-330 | reading a block as one object or recursively through its historical root; it ends on any store content because child levels decrease |
| `Scan.SelectInterior` | scan.go:297-318 | the frontier loop picks exactly the references from the segment's start on and checks each for level, adjacency and hash |
| `Scan.ReadRangeSpool` | scan.go:246-275 | records are passed on only after the collected chain has reached the reference's last revision and hash |
| `ScanIntact.InteriorShape` | scan.go:202-215 | what a split of a true segment reads: the suffix of its last commit's frontier, split at the segment's start |
| `ScanIntact.HistoricalIntact` | scan.go:293-322 | the historical root of a true segment on an intact store passes every check and gives that interior |
| `ScanIntact.PartsGood` | scan.go:279-330 | reading a true block yields the log's records through the block's end, and the records decoded, GETs made and references read are those the plan predicted |
| `ScanIntact.ScanDelivers` | scan.go:85-165 | on an intact store, every valid range of every root delivers exactly the records First..min(Last, head) once each in order, under any cost estimate |
| `ScanIntact.ScanIsRawWalk` | scan.go:85-165 | a scan delivers what fetching the commit of every single revision would |
| `ScanIntact.ScanResumes` | scan.go:22-42 | scanning everything equals scanning [1, k] followed by scanning after k |
| `ScanIntact.FullScanGets` | lokv_test.go:208-214 | a full scan makes as many GETs as the hexadecimal digit sum of head - 1 |
| `ScanIntact.MillionGets` | scan.go:57-60 | a full scan of at most a million records makes at most 74 GETs besides the one for the root |
| `ScanIntact.RootNeedsNoGet` | scan.go:63-65 | a scan of the root's own revision delivers it without any I/O |
| `ScanCaller.CallerDecides` | scan.go:85-165 | from any store, a scan that a patient caller would get through delivers to any other caller the same records up to where it is first cancelled or refuses one, and ends with that error |
| `ScanCaller.ScanExactly` | scan.go:85-165 | on an intact store the records and the error of a scan are determined: the cancellation, the rejected range, or the requested records up to the caller's first stop |
| `ScanCaller.NothingRead` | scan.go:44-49 | an empty or rejected range, an empty log and a range past the root cost no I/O |
| `ScanErrors.ScanRejects` | scan.go:92-94 | whatever the store holds, a scan not cancelled at once is rejected exactly when its range is invalid, with nothing delivered or read |
| `ScanErrors.ScanNeverNotFound` | log.go:215-228 | whatever the store holds, a scan never ends with a bare not-found error: an object that its root leads to and that is missing makes the log corrupt |
| `ScanErrors.ScanDeliversChain` | wire.go:250-276 | whatever the store holds and however a scan ends, what it has delivered are records of consecutive revisions from First on and none past Last or the root, each with a 16-byte ID, a canonical JSON array as its batch, the hash of exactly its contents, and the preceding record's hash, which for revision 1 is zero |
| `ScanSound.PartsValid` | wire.go:250-276 | every record read from any store content has a valid revision, identity, batch and record hash |
| `ScanSound.ReadRangeSound` | scan.go:226-244 | below a reference of the log no record comes out that is not the log's, whichever representation is read, if the store's objects are undamaged though reads may fail, or if the record hashes have no second preimage |
| `ScanSound.ScanNeverLies` | scan.go:85-165 | with an honest root, from a store with undamaged objects and failing reads or, given collision-free record hashes, from any store, what a scan has delivered is always a prefix of the requested records, and all of them when it returns without error |
| `ScanSound.ScanReachesRoot` | scan.go:105-134 | with a merely well-formed root, a scan through the head that returns without error has delivered one hash chain ending in the root's record, from the zero hash when it starts at revision 1 |
| `ScanSound.ScansAgree` | scan.go:105-134 | so two complete scans of one root, from any two stores and by any plans, agree wherever their ranges overlap |
| `ScanReads.FetchesOnce` | scan.go:279-330 | a scan fetches no key twice: blocks it reads are disjoint, and the children of a split end before the commit at the segment's end |
| `ScanReads.ScanDepends` | scan.go:85-165 | what a scan does depends on the store through the answers for those keys alone |
| `ProtocolSteps.EnterOK` | log.go:414-431 | from any root of the log an append starts a carry over an accepted frontier all of whose objects are stored |
| `ProtocolSteps.BuildOK` | log.go:432-453 | an accepted frontier of stored references always yields a commit that decodes and may be published as the base's successor |
| `ProtocolSteps.CarryStepOK` | objects.go:21-32 | each turn of the carry loop either builds a publishable commit or starts packing sixteen stored children |
| `ProtocolSteps.PackStepOK` | segment.go:175-220 | each child loaded during a pack continues the chain, whatever else happens in the store meanwhile; after the last one the segment is the true one |
| `ProtocolSteps.PackNeedsNoBase` | objects.go:54-58 | what a pack does is independent of what the store answers for the root it builds on |
| `ProtocolSteps.SegmentCheckedOK` | segment.go:249-266 | reading back a segment whose creation was not confirmed either finds it valid and carries on, or ends with the store's error, never with corruption |
| `ProtocolSteps.CommitCheckedOK` | log.go:461-481 | reading back the attempted revision finds the invocation's own commit (success), another's (conflict or retry) or nothing (the create error) |
| `ProtocolSafe.CommitLands` | log.go:455-458 | a publishable commit that takes effect, at once or late, leaves an honest gap-free log whose references can all be followed |
| `ProtocolRuns.EventKeeps` | log.go:353-482 | every step of any writer, including lost and late creates, keeps the invariant and leaves the log unchanged or one commit longer |
| `ProtocolRuns.RunKeeps` | log.go:353-482 | over any run there is at each state one log that the store holds, and earlier logs are prefixes of later ones |
| `ProtocolResults.HistoryOnlyGrows` | log.go:353-482 | the commits in the store are always exactly revisions 1..head of an honest, fully readable log in which each commit names its predecessor's key and record hash, the head lookup finds its length, and published history is a prefix of every later history |
| `ProtocolResults.LogUnique` | log.go:353-482 | the store determines that log, so the logs these results return for one state are the same |
| `ProtocolResults.AtMostOnce` | log.go:361-373 | one invocation never has commits at two revisions, over all its retries and however late its creates land |
| `ProtocolResults.SuccessIsCommitted` | log.go:397-412 | a reported success is a commit at the reported revision with the invocation's batch; for AppendTo it is the successor of the base |
| `ProtocolResults.ConflictIsFinal` | log.go:455-481 | after a reported conflict the invocation has no commit in the log, now or in any later state |
| `ProtocolRetries.AttemptsCounted` | log.go:361-373 | an append with n retries loses at most n + 1 attempts and reports a conflict exactly when it has lost them all; the log has grown by at least one commit for each, past the head at the call, and a success lies beyond them. AppendTo has one attempt, counted from its base |
| `ProtocolRetries.StaleBaseNever` | log.go:376-412 | an AppendTo whose base is no longer the head when it is called has no commit in any later state |
| `ProtocolProgress.AppendCompletes` | log.go:353-482 | from any state of any run, an append that is about to list or stands on the current head comes to its end in its own steps alone: its batch is committed as the revision after the head, unless the log is full or the caller's codec refuses the batch |
| `ProtocolResults.WritersNeverSeeCorruption` | log.go:414-482 | no check a writer makes on objects of the protocol fails: appends end only in success, conflict, exhaustion, a store error or the caller's codec error |
| `ProtocolResults.ReadersAgree` | scan.go:85-165 | a scan of any root published in a state of a run, each of whose Gets happens in that or any later state, delivers exactly that root's requested records |
| `ProtocolResults.ReadersNeverMisled` | scan.go:85-165 | when some of those Gets fail besides, or the reader is stopped at any point, it has got a prefix of them |
| `ProtocolCosts.StepsAreCarry` | objects.go:21-32 | each turn of a writer's carry is a turn of the carry function: it stops with the same levels and packs and carries on the same children |
| `ProtocolCosts.ObjectsInRun` | objects.go:21-32 | in every state of every run, however many writers raced or failed, the segments stored are those of all whole blocks before the head and at most those through it, floor((N-1)/16^L) and floor(N/16^L) summed, and all objects together are at most 16N/15 |
| `Blocks.AllBlocksCount` | objects.go:21-32 | the whole blocks among the first n records number the sum of floor(n/16^L) |
| `StateSync.State.SyncTo` | state.go:126-157 | usable or poisoned, the State always is the fold of exactly the batches through its revision, over stores whose reads fail and, given collision-free record hashes, over damaged ones; success means the snapshot's revision; a stale snapshot or a poisoned State changes nothing. On an intact store an uncancelled call succeeds exactly when all batches through the snapshot are acceptable and otherwise poisons the State, also when there is nothing new, and a call is rejected for its range exactly when the snapshot is older than a usable State |
| `StateSync.State.Sync` | state.go:101-113 | as SyncTo through the loaded head, returning it exactly on success; an error of loading it changes nothing |
| `StateSync.State.ApplyBatches` | state.go:140-150 | the scan's callback: whole batches in order, stopping for good at the first refused item, after which the scan delivers nothing |
| `StateSync.LoadState` | state.go:53-62 | a new State at the head, or as far as it got together with the error; on an intact store an uncancelled load succeeds exactly when all batches are acceptable |
| `StateSync.ScanStopsAtRefusal` | scan.go:124-126 | whatever happens during a scan, its callback is never called again after it has refused a record |
| `StateSync.NextBatches` | state.go:139 | a scan after the applied revision delivers the immediately following batches, none skipped or repeated |
| `StateSync.HoldsGrows` | state.go:101-113 | later commits do not change what a State holds |
| `Register.UserIndex.Add` | example_state_test.go:31-55 | the in-place index update is the function the replay results are about |
| `Register.ReplayProper` | example_state_test.go:31-55 | replaying registrations from the empty index succeeds exactly when names are nonempty and distinct and IDs are 1..n in order, and then the index lists exactly them |
| `Register.ListsInverse` | example_state_test.go:22-27 | such an index has mutually inverse ByName and ByID |
| `Register.DecisionProper` | example_state_test.go:89-96 | a name absent from an up-to-date index with the next ID is a proper next registration |
| `RegisterRuns.NamesAndIdsUnique` | example_state_test.go:79-112 | for any number of clients whose reads may fail, in any interleaving with each other and with the append protocol, at every point the log's registrations have distinct names and IDs 1..n in order, and replaying them succeeds |
| `RegisterRuns.DecidesByTheLog` | example_state_test.go:84-97 | in every system, a client that has caught up starts no append exactly when the log through its position has the name or MaxRevision registrations; otherwise it appends the name with the next ID to the root of that position |
| `RegisterRuns.ClientsConsistent` | example_state_test.go:79-112 | no client's State is ever poisoned, and its maps are mutually inverse and list exactly a prefix of the log |
| `RegisterRuns.SuccessRegisters` | example_state_test.go:97-111 | once a client's append has succeeded, in that and every later system its name has its ID in the log and no other registration has either |
| `RegisterProgress.FreeNameRegisters` | example_state_test.go:79-112 | in any system of any play, an idle or a new client that goes on alone registers any name no stored commit has, with the ID after the head |
| `RegisterProgress.LoserRegisters` | example_state_test.go:98-102 | a client whose append lost the race tries again and registers its name under a later ID if that is still free |
| `RegisterProgress.SuccessObserved` | example_state_test.go:106-111 | after its append succeeded, a catch-up without faults puts the client's own name and ID into its index |
| `Listing.ListingUnique` | memstore/memstore.go:29-44 | a listing is determined by the stored keys, the prefix and the limit, so stores that meet the description agree |
| `Listing.ContentMeans` | memstore/memstore.go:63-73 | an object stores exactly the first Size bytes of its source, if all of them can be read |
| `MemStore.Search` | memstore/memstore.go:38 | binary search finds the first key not below the wanted one |
| `MemStore.Store.List` | memstore/memstore.go:29-44 | returns exactly the first limit stored keys with the prefix in bytewise order; a limit below one is an error |
| `MemStore.Store.Create` | memstore/memstore.go:59-94 | an invalid size, a failed or short read or a cancelled context stores nothing; otherwise creates or reports the existing key, never replacing it, and keeps the slice sorted, duplicate-free and equal to the map's keys |
| `DiskStore.BuildPath` | diskstore/diskstore.go:64-73 | the path loop cuts the hexadecimal key into chunks of 128 |
| `DiskStore.PathInjective` | diskstore/diskstore.go:64-73 | no two keys share a path, for keys of any length including the empty one |
| `DiskStore.EncodeOrder` | diskstore/diskstore.go:64-66 | the encoding preserves the bytewise order of keys |
| `DiskStore.EntriesOrdered` | diskstore/diskstore.go:93-131 | entries of a directory in name order lead to keys in key order, the value file first and chunk boundaries included |
| `DiskStore.PrunedEmpty` | diskstore/diskstore.go:113-116 | a subtree skipped because its encoding and the wanted prefix do not overlap has no match |
| `DiskStore.Disk.Walk` | diskstore/diskstore.go:89-131 | the recursive walk adds exactly the first matching keys of its subtree, up to the limit |
| `DiskStore.Disk.List` | diskstore/diskstore.go:79-134 | returns exactly the first limit stored keys with the prefix in bytewise order, whatever empty directories and temporary files lie about |
| `DiskStore.Disk.Create` | diskstore/diskstore.go:168-235 | stores the whole value or reports the existing key; a bad value or a fault before the link stores nothing, an error after it leaves the complete value, and the store always still lists correctly |
| `CacheStore.Store.Create` | cachestore/cachestore.go:131-143 | origin first, never replacing; after any origin error, also one behind which the object was stored, the cache is unchanged, and after success the fill adds exactly these bytes or nothing |
| `CacheStore.Store.Get` | cachestore/cachestore.go:109-125 | a hit opens a stream of the cache's copy, also when the origin fails; a miss or a failed lookup one of the origin's object, which has all of it still to deliver and an empty spool exactly when there is a scratch file; either can only deliver the origin's bytes |
| `CacheStore.CacheReader.Read` | cachestore/cachestore.go:205-211 | the stream of a hit delivers the origin's bytes in order, passes its errors on, and at its end has delivered all of them |
| `CacheStore.FillReader.Read` | cachestore/cachestore.go:163-184 | under partial reads, read errors, cancellation and scratch failures a live spool equals all bytes delivered, it is dropped exactly on an error, and end of stream means the whole object was delivered |
| `CacheStore.FillReader.Close` | cachestore/cachestore.go:186-197 | the cache gains the origin's bytes exactly when the read was complete, the spool is live, the close clean and the key free, and stays a part of the origin |
| `CacheStore.Fetch` | log.go:230-240 | a whole read through the caching store, in pieces of any size: it yields the origin's object or an error, and succeeds if no read fails; an object that was not cached is cached afterwards when there is a scratch file and nothing fails on the way, and no other object ever is |
| `CacheStore.CompleteSpool` | cachestore/cachestore.go:193-195 | a complete spool holds exactly the origin's object |
| `CacheStore.SpoolingStable` | cachestore/cachestore.go:163-197 | what other users of the stores do between calls does not disturb a reader |
| `Multipart.PartSize` | s3store/multipart.go:30-35 | for every size S3 can hold, the part size is the least that is at least 5 MiB and the configured one and covers the size in 10,000 parts, and at most 5 GiB, computed in int64 without overflow; larger sizes are refused |
| `Multipart.PartsTile` | s3store/multipart.go:116-117 | parts in order concatenate to the object |
| `Multipart.EveryPartOnce` | s3store/multipart.go:105-142 | the allocated number of parts covers the object, and under any schedule of the strided workers, once all are done without a failure, each part has been uploaded exactly once and together they are the object |
| `Multipart.FailureStops` | s3store/multipart.go:105-142 | once a part has failed, no worker uploads another |
| `Frame.SingleFrame` | segment.go:407-456 | the block walk decides, with its position never past the end, whether the walk ends where the body does |
| `Frame.AcceptsOneFrame` | segment.go:407-456 | it accepts exactly the bodies whose bytes after the header are one or more data blocks, only the final one marked last, and the checksum if announced (sections 3.1.1 and 3.1.1.2 of RFC 8878) |
| `Frame.AcceptedPrefixFree` | segment.go:407-456 | no accepted body extends another with the same header |

## Left out

- JSON text, UTF-8, required-field reflection and error wrapping: commits and projections are datatypes and a segment is a sequence of name/value fields; a numeric field with the wrong JSON type is a value that matches nothing.
- Machine.CheckRange: revisions arrive as integers already in range; the hexadecimal text is in `Keys`.
- Segment.ParseSegment: case folding covers the letters of the five field names (with the long s and the Kelvin sign), not all of Unicode.
- Segment.PackSegment: the four concurrent child loads of a group are one load after another; their order does not affect the result or what is created.
- Compression is the identity, so a segment's stored bytes and its decompressed token stream are one body; the framing check is modelled separately in `Frame`, after header decoding, without block-size limits the Go code does not test either.
- Commit IDs are assumed distinct between invocations; generating them is not modelled. Marshalling a batch is: a prepared event is a nonempty canonical JSON array.
- MaxEventBytes, empty-batch and nil-argument errors, which end an append before any I/O.
- Scratch files, descriptors and temporary directories: spools are sequences and disk failures are errors that may occur at any step.
- Context cancellation as a mechanism: it is an error that may occur at each point where it is checked.
- ScanIntact.ScanDelivers: assumes a caller that is not cancelled and accepts every record; every other caller is ScanCaller.ScanExactly.
- ReadPlan.RangeReadPlan: the float64 weight is an arbitrary comparison of the two costs; PlanCost.PlanIsLightest compares by the same weight over integers.
- ProtocolProgress.AppendCompletes: claimed for an append that goes on alone; among others it may lose all its attempts, as ProtocolRetries.AttemptsCounted counts.
- Verify, Head and the accessors of snapshots and records, which call what is modelled and discard or repackage its result.
- Several logs sharing one store under different prefixes: one namespace is modelled; `Keys` and `Listing` hold for any prefix.
- DiskStore.Disk.Create: the link is one atomic create-if-absent; hard-link semantics and races between processes inside one create are not modelled, and neither are cancellation and I/O errors while listing.
- CacheStore.FillReader.Read: the origin's body is assumed to report end of stream only at its end, as its contract requires.
- Eviction, error-callback reporting and configuration checks of the cache store.
- S3 requests, status mapping, retries with backoff, upload abort and listing pagination; Multipart.EveryPartOnce covers one attempt.
- ID exhaustion in the register loop is a rejected call; request-ID deduplication across restarts is the application's and not part of lokv.
