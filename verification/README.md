# OpenLake, modelled and proved in Dafny

OpenLake is an erasure-coded object store with a KV slot cache beside it. This
project models the parts of it whose correctness is not local to one function,
and proves what they are for, over all inputs, all interleavings and all runs:

- **Data path** (`ErasureCode`, `StripeLayout`, `StripeWrite`, `EcRead`,
  `RangedGet`, `GetObject`). A put cuts a chunked source into padded stripes and
  writes D data and P parity shards; a get skips parts, seeks to a stripe, refills
  from sources that may die and over-deliver, decodes, skips and takes. End to end
  a ranged, degraded, multipart read of the files a put wrote is a slice of what
  was sent, and it succeeds exactly when, for every stripe it needs, D disks still
  deliver their files that far.
- **KV slot pool and one-sided protocol** (`SlotPoolSpec`, `SlotDirectory`,
  `SlotPool`, `KvProtocol`, `KvShard`, `KvPlan`, `KvBatch`). The array-linked allocator refines
  a recency list of slots and keys. Above it, clients write slots remotely and
  validate reads by a header, under any interleaving of their steps; batches are
  sharded over nodes, checked against registered memory and laid out as operations
  on remote memory, and a put followed by a get gives the bytes back.
- **Distributed lock** (`LockTable`, `LockRun`, `LockExclusion`). Majority votes with
  leases, refreshes, late releases and sweeps as steps over a clock; who can be
  kept out, and exactly when.
- **Metadata** (`NewestFirst`, `Uuid`, `XlMeta`, `PlainCodec`, `VersionMerge`). The
  xl.meta codec with per-version inline payloads, a serializer that meets its
  assumption, and merging a version into a list.
- **Promotion** (`Promotion`, `DiskLife`, `PromoteAll`). The file steps that promote
  a version on one disk and their undo, the whole life of an object's directory,
  and the fan-out over N disks with rollback below quorum.
- **Votes and merges** (`Consensus`, `ReadOutcome`, `Listing`, `SetListing`). Read consensus over
  unordered maps, and the key-ordered merges behind listings.
- **Bootstrap** (`Format`, `FormatRun`). One deployment id, whatever crashes.

`dafny verify dfyconfig.toml` checks all of it.

## How it is modelled

- Objects whose methods update them are classes with those fields, and each
  method is tied to a specification on values: `SlotPool`, `LockServer`,
  `EcReadStream`, `MultiPartEcStream`, `SkipTakeStream`, `FileSink`, `DiskDir`.
  Loops are loops. Concurrent protocols are state machines: `Enabled` says when a
  step may happen, `Apply` what it does, and theorems quantify over all runs.
- Reed-Solomon is any code in which every D of the D+P shards determine the data;
  the XOR code shows that this can be met. The serializer of xl.meta bodies is any
  pair of functions of which the reader inverts the writer; `PlainCodec` is one.
  Hashes and checksums are functions; the decode-contract hash is taken to be
  injective on the contract fields, which its undelimited byte stream only is for
  ids of fixed length.
- Time is a natural number, one clock for all. Hash maps are walked in any order.
- A file step, a header transfer and a lock-server call are single steps. What
  may fail is marked as such (`healthy`, `reachable`, `heard`); everything else
  succeeds. What the disks deliver is a function of the files on them (`Disks`).
- A put that is cut short between two file steps leaves the directory as one of
  the endings of a put does: before the commit as `Failed`, after it as `Stayed`
  or `TakenBack`. `PromoteAll.PutInLife` proves it, so the lives in `DiskLife` are
  also lives with crashes.
- Integers are unbounded except where a width decides something: the 64-bit sum
  of strip lengths, saturating addresses, the 32-bit length and checksum of
  xl.meta, the u8 parity of empty objects, the NIL link.

## What the code does, where its comments say otherwise

- `rename_data` compares ids as strings, so a put with the empty id that the
  comment on `FileInfo::version_id` gives for unversioned objects would not
  replace the stored null version (`VersionMerge.EmptyIdDuplicates`).
- Undo of a put under a new id removes the whole object directory, not only the
  new version (`DiskLife.UndoLosesHistory`); with the stated exact condition
  (`Promotion.UndoRestoresIff`) it restores the list.
- A delete ignores the failure to remove the backup, after which a rollback can
  bring the deleted version back (`DiskLife.StaleBackupReturns`); puts can be taken
  back exactly while no such backup is there (`DiskLife.RestoresIffBeside`).
- A delete moves the data away before it removes the xl.meta that lists it, so one
  that stops half-way leaves a version without bytes
  (`DiskLife.TornDeleteLosesBytes`), exactly when some listed version has a data
  directory (`DiskLife.TornDeleteSafeIff`).
- An unmarked guard is not proof of exclusion: refreshes that get no answer are
  neutral (`LockExclusion.UnmarkedGuardsCoexist`). What excludes is a majority of
  live entries (`LockExclusion.ExcludesIff`).
- Listing a set asks each disk for one key more than the page. A disk with as many
  stale keys can then hide a key that a quorum holds (`SetListing.StaleKeysHide`),
  and `SetListing.SetPageIff` says exactly when it does not.

## Model

| member | source | states |
|---|---|---|
| `ErasureCode.EncodeStripe` | crates/openlake_storage/src/ec.rs:73-126 | accepts exactly the non-empty stripes that divide into D shards of even width; the result is the D slices followed by the P parity shards |
| `ErasureCode.DecodeStripe` | crates/openlake_storage/src/ec.rs:141-224 | refuses a wrong slot count or unit; with all D originals present returns them as they are, whatever their widths; otherwise names the first shard of the wrong width, refuses fewer than D shards, and else succeeds; any D shards of a codeword give back its stripe |
| `ErasureCode.ConcatCut` | crates/openlake_storage/src/ec.rs:73-126 | the D slices of a stripe, put together, are the stripe |
| `ErasureCode.XorCodeRestores` | crates/openlake_storage/src/ec.rs:55-66 | the XOR code with one parity shard meets the any-D-of-D+P assumption for every D, so the assumption is consistent |
| `StripeLayout.NumStripesIsCeiling` | crates/openlake_storage/src/engine.rs:962 | the stripe count is the rounded-up quotient, and at least one |
| `StripeLayout.ShardFileLength` | crates/openlake_storage/src/engine.rs:962-967 | every shard file of a part has exactly stripes * unit bytes, which is what its sink was opened for |
| `StripeLayout.SeekStripes` | crates/openlake_storage/src/engine.rs:2064-2072 | past s stripes, a shard file is the shard file of the payload past s stripes |
| `StripeWrite.FileSink.Finish` | crates/openlake_io/src/local_fs.rs:585-594 | the length check passes iff exactly the announced number of bytes was written |
| `StripeWrite.FillStripe` | crates/openlake_storage/src/engine.rs:2732-2763 | fills a stripe with exactly the wanted source bytes, whatever the chunking, keeps the over-read rest and zeroes the tail; fails iff the source has too few bytes, naming how many it had |
| `StripeWrite.EncodeAndWriteStripes` | crates/openlake_storage/src/engine.rs:2718-2805 | for every size and chunking the sinks hold exactly the D+P shard files of the first `size` source bytes, which are also the bytes hashed; it fails iff the source is short or a write fails |
| `StripeWrite.PutPart` | crates/openlake_storage/src/engine.rs:959-1000 | opening the sinks for stripes * unit bytes, writing and finishing: the length check never fails, and with healthy sinks the put succeeds iff the source has `size` bytes |
| `EcRead.PullShard` | crates/openlake_storage/src/engine.rs:1930-1986 | takes exactly one shard of the bytes a source still has, kept over-read bytes first, and keeps the rest; declares the source dead iff they are fewer than a shard |
| `EcRead.EcReadStream.Refill` | crates/openlake_storage/src/engine.rs:1923-2030 | decodes the next stripe to the next stripe of the payload, and succeeds iff at least D sources still have a shard's worth of bytes |
| `EcRead.EcReadStream.Read` | crates/openlake_storage/src/engine.rs:2211-2239 | serves the next bytes of the part and nothing else; with bytes pending it fails iff the next stripe has fewer than D live sources |
| `EcRead.ReadableIffLive` | crates/openlake_storage/src/engine.rs:1923-2030 | counting readable bytes is the same as asking that every stripe up to them is live when its turn comes |
| `EcRead.LiveReaching` | crates/openlake_storage/src/engine.rs:1923-2030 | the sources that are live for stripe k are those that deliver (k + 1) * unit bytes in all |
| `RangedGet.Resolve` | crates/openlake_storage/src/engine.rs:62-85 | the window is exactly the set of requested positions inside the object; none means no requested position exists |
| `RangedGet.FindStart` | crates/openlake_storage/src/engine.rs:1214-1223 | the part that contains an offset, and the offset inside it |
| `RangedGet.MultiPartEcStream.Read` | crates/openlake_storage/src/engine.rs:2143-2203 | the next bytes of the object across part boundaries; fails iff bytes are pending and none can be read, or a part without bytes does not open |
| `RangedGet.SkipTakeStream.Read` | crates/openlake_io/src/stream.rs:195-223 | delivers the window and nothing else, over any framing of the inner stream; an error means that some byte up to the end of the window cannot be read |
| `RangedGet.DrainWindow` | crates/openlake_io/src/stream.rs:178-223 | draining gives exactly the window, and fails iff some byte up to its end cannot be read |
| `RangedGet.ReadableIffNeededLive` | crates/openlake_storage/src/engine.rs:2051-2114 | a prefix of the parts is readable iff every part it touches opens on D backends and every stripe it touches is live |
| `GetObject.ShardRangeInFile` | crates/openlake_storage/src/engine.rs:2064-2072 | the byte range the read side asks of each shard file lies inside the file |
| `GetObject.StreamIsSuffix` | crates/openlake_storage/src/engine.rs:1214-1240 | the bytes behind the opened stream are the object from the start of the sought stripe on |
| `GetObject.NeededIsDelivered` | crates/openlake_storage/src/engine.rs:2051-2114 | the stripes a read needs are live iff, part by part, D streams deliver the bytes up to each of them |
| `GetObject.HealthyDelivers` | crates/openlake_storage/src/engine.rs:1206-1252 | backends of which D deliver their whole files are all that any read needs, wherever it starts and ends |
| `GetObject.GetWindow` | crates/openlake_storage/src/engine.rs:1206-1252 | a satisfiable window of a stored object is read as exactly that slice of the payload, and the read succeeds iff, for each stripe from the one it starts in to its end, D backends deliver the bytes of their shard files up to that stripe; so it does whenever D backends deliver their whole files |
| `GetObject.GetWhole` | crates/openlake_storage/src/engine.rs:1206-1252 | a read without a range gives the whole payload, and succeeds iff all parts open on D backends and D of them deliver every stripe |
| `GetObject.Get` | crates/openlake_storage/src/engine.rs:1104-1252 | with any range: unsatisfiable ranges are recognised exactly; inline objects give the requested bytes; a coded object is read from the stripe that holds the first requested byte, gives exactly the requested bytes, and fails iff for some stripe from there to the end of the window fewer than D backends deliver that far; with D backends that deliver their whole files it never fails |
| `GetObject.PutParts` | crates/openlake_storage/src/engine.rs:959-1000 | every part's files are the shard files of the bytes its own source sent; with healthy sinks the put succeeds iff every source has its announced bytes |
| `GetObject.PutThenGet` | crates/openlake_storage/src/engine.rs:934-1252 | a multipart put from any chunked sources, then a get of any range from whatever the disks still deliver of the very files that were written: exactly the requested bytes of what was sent, or an error iff some stripe that has to be read is delivered by fewer than D of them, which is not so while D disks deliver whole files |
| `SlotPoolSpec.RunInv` | crates/openlake_io/src/kv.rs:26-146 | over every run, free, pending and committed slots partition 0..n without duplicates, and keys and committed slots correspond one to one |
| `SlotPoolSpec.RunByRecency` | crates/openlake_io/src/kv.rs:137-151 | over every run from a fresh pool the committed slots are listed in the order of their last commit or lookup |
| `SlotPoolSpec.ReserveGuarantees` | crates/openlake_io/src/kv.rs:41-54 | free slots first; evictions only when free and expired slots cannot cover the request, as few as possible and least recently used first; a short result means every slot is reserved; no slot is handed out twice |
| `SlotPoolSpec.ReservedNotReissued` | crates/openlake_io/src/kv.rs:41-54 | over every run a reserved slot is not handed out again, and keeps its deadline, until commit, release, expiry or clear ends the reservation |
| `SlotPoolSpec.CommitInv` | crates/openlake_io/src/kv.rs:56-73 | commit keeps the partition, also when it takes a key over from another slot |
| `SlotPoolSpec.ReleaseInv` | crates/openlake_io/src/kv.rs:81-89 | release keeps the partition |
| `SlotPoolSpec.ReclaimInv` | crates/openlake_io/src/kv.rs:125-135 | reclaim keeps the partition, in whatever order the map is walked |
| `SlotPoolSpec.TakeManyTakes` | crates/openlake_io/src/kv.rs:45-53 | the reserve loop takes free slots in queue order and then committed slots from the least recently used on, and leaves the rest as they were |
| `SlotPool.SlotPool.constructor` | crates/openlake_io/src/kv.rs:27-39 | a fresh pool |
| `SlotPool.SlotPool.LruAttachTail` | crates/openlake_io/src/kv.rs:153-162 | the links enumerate the old list followed by the slot, in both directions |
| `SlotPool.SlotPool.LruDetach` | crates/openlake_io/src/kv.rs:164-181 | the links enumerate the old list without the slot; a slot that is not linked is left alone |
| `SlotPool.SlotPool.Touch` | crates/openlake_io/src/kv.rs:148-151 | moves a slot to the most recently used end |
| `SlotPool.SlotPool.Lookup` | crates/openlake_io/src/kv.rs:75-79 | the array-and-map state stays valid and refines the lookup on values |
| `SlotPool.SlotPool.Commit` | crates/openlake_io/src/kv.rs:56-73 | the array-and-map state stays valid and refines the commit on values, whose effect `SlotDirectory.CommitBinds` states |
| `SlotPool.SlotPool.Release` | crates/openlake_io/src/kv.rs:81-89 | the array-and-map state stays valid and refines the release on values |
| `SlotPool.SlotPool.Clear` | crates/openlake_io/src/kv.rs:91-100 | the pool is as new |
| `SlotPool.SlotPool.ReclaimExpired` | crates/openlake_io/src/kv.rs:125-135 | frees exactly the expired reservations |
| `SlotPool.SlotPool.EvictOne` | crates/openlake_io/src/kv.rs:137-146 | takes the head of the list with its bindings, if there is one |
| `SlotPool.SlotPool.Reserve` | crates/openlake_io/src/kv.rs:41-54 | the array-and-map state stays valid and refines the reserve on values |
| `SlotPool.SplitExpired` | crates/openlake_io/src/kv.rs:125-135 | keeps the live reservations and queues the others, each once |
| `SlotDirectory.LookupFinds` | crates/openlake_io/src/kv.rs:75-79 | a lookup answers the slot the key is committed in, and changes nothing but the order of use |
| `SlotDirectory.CommitBinds` | crates/openlake_io/src/kv.rs:56-73 | succeeds iff the slot is reserved or already holds the key; then the key is found in this slot only, every other key where it was, and a slot the key held before is free |
| `SlotDirectory.ReleaseFrees` | crates/openlake_io/src/kv.rs:81-89 | forgets the slot's key and frees the slot iff it was committed or reserved, and nothing else changes |
| `SlotDirectory.ClearFrees` | crates/openlake_io/src/kv.rs:91-100 | every key is forgotten and every slot is free |
| `SlotDirectory.ReclaimFrees` | crates/openlake_io/src/kv.rs:125-135 | a reservation ends, and its slot is free, iff its deadline is not ahead; nothing else changes |
| `SlotDirectory.ReserveReserves` | crates/openlake_io/src/kv.rs:41-54 | each slot handed out is reserved until its own clock plus the lifetime, no key is lost but those of the slots handed out, and another reservation ends iff its deadline is not ahead and the free slots do not cover the request |
| `SlotDirectory.FoundUntilUnbound` | crates/openlake_io/src/kv.rs:41-100 | over every run a committed key is found in its slot until a call takes the slot or the key from it, and no longer |
| `KvProtocol.ReadValidation` | crates/openlake_kv_client/src/protocol.rs:601-615 | over every interleaving: if the header a get read is its key and no put of that key has written its header into the slot since the lookup, every byte read within the length of the put that had committed the key is that put's byte |
| `KvProtocol.CheckIsExact` | crates/openlake_kv_client/src/protocol.rs:750-756 | for a get that was not overtaken the header check passes iff the slot still holds the put it was looked up for |
| `KvProtocol.StepKeeps` | crates/openlake_kv_client/src/protocol.rs:562-663 | every step of every put and get keeps the invariant behind read validation |
| `KvProtocol.WriteHeaderKeeps` | crates/openlake_kv_client/src/protocol.rs:601-609 | a header write makes gets of other keys fail their check before any payload byte changes |
| `KvProtocol.WriteByteKeeps` | crates/openlake_kv_client/src/protocol.rs:610-614 | a payload write touches no slot a get may still trust |
| `KvProtocol.CommitKeeps` | crates/openlake_kv_client/src/protocol.rs:633-650 | a commit lists only a slot that holds its whole payload |
| `KvProtocol.ReserveKeeps` | crates/openlake_kv_client/src/protocol.rs:571-597 | reserved slots are held by no other live put |
| `KvProtocol.LookupKeeps` | crates/openlake_kv_client/src/protocol.rs:707-723 | a lookup finds a slot that holds the put that committed the key |
| `KvProtocol.OvertakenMeans` | crates/openlake_kv_client/src/protocol.rs:601-609 | a get is overtaken only by a later header write of its own key into its own slot |
| `KvProtocol.OvertakenGetMixes` | crates/openlake_kv_client/src/protocol.rs:724-756 | a run in which such a put makes the check pass on bytes that no put wrote together |
| `KvShard.Owners` | crates/openlake_kv_client/src/client.rs:49-59 | index i is in group g iff the hash of key i, modulo the number of nodes, is g; refuses iff there is no node |
| `KvShard.GroupMembers` | crates/openlake_kv_client/src/client.rs:55-57 | the groups partition the batch: an index is in the group its key's hash names and in no other |
| `KvShard.Sharded` | crates/openlake_kv_client/src/client.rs:61-112 | succeeds iff every asked node answers with one result per key, puts each result at its key's index, and otherwise reports the first refusal, else the first dead thread, else the first bad answer |
| `KvShard.ShardedPointwise` | crates/openlake_kv_client/src/client.rs:61-112 | when nodes answer their keys one by one the batch succeeds, and each result is what the node its key hashes to answers to that key and its own scatter list |
| `KvPlan.ContainsIsInside` | crates/openlake_io/src/rdma/rdma_buf.rs:100-102 | the saturating containment test is containment for every region that ends below the top of the address space |
| `KvPlan.Seek` | crates/openlake_kv_client/src/protocol.rs:515-523 | the cursor search finds a region that contains the strip, and fails iff none does |
| `KvPlan.ResolvePlan` | crates/openlake_kv_client/src/protocol.rs:503-526 | accepts exactly the lists with an admissible total whose strips have admissible lengths and lie in a region; otherwise names the first thing wrong |
| `KvPlan.ResolvePlans` | crates/openlake_kv_client/src/protocol.rs:493-529 | a plan for every key, or the first key that cannot be resolved |
| `KvPlan.PlanFits` | crates/openlake_kv_client/src/protocol.rs:551-553 | an accepted payload of at most 2^32 strips fits its slot behind the header, although the total is summed in 64 bits |
| `KvPlan.BuildPutOps` | crates/openlake_kv_client/src/protocol.rs:599-615 | for each key the header operation, then one operation per strip at a running offset |
| `KvPlan.BuildGetOps` | crates/openlake_kv_client/src/protocol.rs:724-742 | for each key that was found one operation per strip, then the header operation |
| `KvPlan.CheckHeaders` | crates/openlake_kv_client/src/protocol.rs:750-756 | 0 for a found key whose header is the key, -1 for every other |
| `KvPlan.SlotsApart` | crates/openlake_kv_client/src/protocol.rs:602 | distinct slots do not overlap |
| `KvPlan.PutInSlots` | crates/openlake_kv_client/src/protocol.rs:601-615 | every operation of a put belongs to one of its keys and stays inside the slot of that key |
| `KvPlan.PutLands` | crates/openlake_kv_client/src/protocol.rs:599-615 | after a put every slot of the batch holds the key followed by the gathered payload, and every other slot is as it was |
| `KvPlan.GetReturns` | crates/openlake_kv_client/src/protocol.rs:724-742 | after a get the strips of each found key gather to the bytes behind its slot's header, and its staging entry is the header |
| `KvPlan.PutThenGet` | crates/openlake_kv_client/src/protocol.rs:599-742 | put, then get with another scattering: the header check passes and the gathered bytes are the first bytes of what was put |
| `KvBatch.PutPlansValid` | crates/openlake_kv_client/src/protocol.rs:551-615 | plans accepted by the check, over distinct slots of the slab, make a put whose operations stay inside local memory and the slots |
| `KvBatch.GetPlansValid` | crates/openlake_kv_client/src/protocol.rs:690-742 | plans accepted by the check, over strips that do not overlap, make a get whose reads stay inside both memories and do not overwrite each other |
| `KvBatch.PreparePut` | crates/openlake_kv_client/src/protocol.rs:551-615 | from scatter lists to the chain: refused with the first fault of the first key that has one, and otherwise the operations of a valid put of plans for just these lists |
| `KvBatch.PrepareGet` | crates/openlake_kv_client/src/protocol.rs:690-742 | the same for a get over the slots that were found, valid when the strips do not overlap |
| `LockTable.LockServer.TryAcquire` | crates/openlake_server/src/lock_server.rs:53-69 | grants iff there is no entry or it was stamped `validity` ago or earlier; nothing else changes |
| `LockTable.LockServer.TryRefresh` | crates/openlake_server/src/lock_server.rs:72-81 | stamps the entry iff it is the uid's; no other entry changes |
| `LockTable.LockServer.DoRelease` | crates/openlake_server/src/lock_server.rs:84-89 | removes the entry iff it is the uid's; no other entry changes |
| `LockTable.LockServer.Sweep` | crates/openlake_server/src/lock_server.rs:92-99 | an entry stays, as it is, iff it was stamped less than `validity` ago; the count is of those that went |
| `LockRun.MutualExclusion` | crates/openlake_storage/src/dsync.rs:97-157 | over every run two unreleased guards of one resource never both have a quorum of stamps younger than the validity, under any interleaving of votes, refreshes, late releases and sweeps |
| `LockRun.HolderExclusion` | crates/openlake_storage/src/dsync.rs:97-157 | the same in terms of what holders know: the start of their last round with a quorum of yeses |
| `LockRun.FreshStampHolds` | crates/openlake_server/src/lock_server.rs:53-99 | while its stamp is younger than the validity a peer's table names the unreleased guard |
| `LockRun.StepKeeps` | crates/openlake_storage/src/dsync.rs:97-276 | every step keeps the stamp invariant |
| `LockRun.LossDetected` | crates/openlake_storage/src/dsync.rs:231-276 | a guard whose uid a quorum of peers did not know throughout a fully answered refresh round is marked lost |
| `LockRun.UnmarkedMeansHeld` | crates/openlake_storage/src/dsync.rs:231-276 | a fully answered round that leaves the guard unmarked had a quorum of peers that named the uid when they answered |
| `LockRun.LostMeansUnknown` | crates/openlake_storage/src/dsync.rs:231-276 | a guard is marked lost only if half of the peers, at least, answered at a moment of the round at which their table did not name it |
| `LockRun.TallyVotes` | crates/openlake_storage/src/dsync.rs:115-121 | the peers that granted, and held iff they are more than half |
| `LockRun.TallyRefreshes` | crates/openlake_storage/src/dsync.rs:252-258 | how many peers did not know the uid; the lock is lost iff they are half of the peers at least |
| `LockExclusion.ExcludesIff` | crates/openlake_storage/src/dsync.rs:65-157 | in every reachable state a client that begins now can come to hold a guard's resource, before time passes and without the guard acting, iff a quorum of peers has no live entry of the guard; being unmarked does not matter |
| `LockExclusion.ProvenExcludes` | crates/openlake_storage/src/dsync.rs:231-276 | a guard whose vote or last confirmed round began less than `validity` ago keeps all such clients out |
| `LockExclusion.UnmarkedGuardsCoexist` | crates/openlake_storage/src/dsync.rs:214-219 | a run in which a refresh round that gets no answer leaves the guard unmarked, and another client then acquires the resource |
| `NewestFirst.SortSorted` | crates/openlake_io/src/xl_meta.rs:432 | newest first |
| `NewestFirst.SortPermutes` | crates/openlake_io/src/xl_meta.rs:432 | a permutation |
| `NewestFirst.SortStable` | crates/openlake_io/src/xl_meta.rs:432 | equal times keep their order |
| `NewestFirst.SortUnique` | crates/openlake_io/src/xl_meta.rs:432 | newest first and stable determine the result |
| `Uuid.ParseFormat` | crates/openlake_io/src/xl_meta.rs:786-835 | every id is read back from either of its spellings |
| `Uuid.ParseIff` | crates/openlake_io/src/xl_meta.rs:786-804 | a string names an id iff it is empty, null, or without its dashes 16 pairs of hexadecimal digits in either case, of which the first may be a plus |
| `Uuid.VersionIdSurvives` | crates/openlake_io/src/xl_meta.rs:786-815 | an accepted version id comes back as it was iff it is the null id or a canonical lower-case uuid that is not zero |
| `Uuid.DataDirSurvives` | crates/openlake_io/src/xl_meta.rs:786-825 | an accepted data directory comes back as it was iff it is empty or a canonical lower-case uuid that is not zero |
| `XlMeta.LayOut` | crates/openlake_io/src/xl_meta.rs:282-299 | running offsets: the tail is the payloads in order, and every non-empty payload's place in it is recorded |
| `XlMeta.EncodeVersions` | crates/openlake_io/src/xl_meta.rs:269-345 | accepts exactly non-empty lists of valid versions whose ids parse, and writes the framed records and the payloads |
| `XlMeta.DecodeAll` | crates/openlake_io/src/xl_meta.rs:374-476 | what decoding any byte string yields, with the kind of every error; success means a sound frame, in which the four bytes after the checksum mark are the digest of the body, and versions that are sane: with a time, inline bytes that are all of the object, empty delete markers, numbered parts and a code that exists |
| `XlMeta.FrameIff` | crates/openlake_io/src/xl_meta.rs:374-421 | a byte string is taken apart into a body and a tail iff magic, versions and marks are in their places, the length is the body's and the checksum is the digest of exactly the body's bytes |
| `XlMeta.AcceptedBoth` | crates/openlake_io/src/xl_meta.rs:514-669 | what the encode validator accepts, the decode validator accepts |
| `XlMeta.UnframeHead` | crates/openlake_io/src/xl_meta.rs:326-340 | the framing, length and checksum of a body below 2^32 bytes are read back |
| `XlMeta.RecordRestores` | crates/openlake_io/src/xl_meta.rs:440-476 | each record names its own version's bytes in the tail |
| `XlMeta.RoundTrip` | crates/openlake_io/src/xl_meta.rs:269-476 | decoding what was encoded gives the stable newest-first order of the versions, each with its own inline bytes |
| `PlainCodec.PlainBodyInvertible` | crates/openlake_io/src/xl_meta.rs:282-345 | a serializer of version lists whose reader inverts its writer, so that what the round trip asks of the codec can be met |
| `XlMeta.CanonicalRestored` | crates/openlake_io/src/xl_meta.rs:786-835 | with canonical ids a version comes back with the same ids and payload |
| `VersionMerge.Merge` | crates/openlake_io/src/local_fs.rs:1093-1106 | replace or add by id, then newest first |
| `VersionMerge.MergeKeepsHistory` | crates/openlake_io/src/local_fs.rs:1066-1108 | decode, merge, encode, decode: the versions read are exactly the new one and every other one as it was, payload included, newest first |
| `VersionMerge.NewListDecoded` | crates/openlake_io/src/local_fs.rs:1066-1108 | the list that promotion keeps as live is what decoding the written xl.meta gives |
| `VersionMerge.MergedIdsUnique` | crates/openlake_io/src/local_fs.rs:1092-1102 | ids stay unique iff the new id is spelled as it is read back or that spelling is not taken |
| `VersionMerge.EmptyIdDuplicates` | crates/openlake_io/src/local_fs.rs:1092-1102 | an empty id does not replace the null version it names |
| `Promotion.DiskDir.RenameData` | crates/openlake_io/src/local_fs.rs:1048-1184 | promotes: the merged list is live, the old list is the backup iff it had the id, the data is in place, and the directory handed back is that of the first version of this id, if it has another one; or fails with the live list as it was, and on a healthy disk with everything as it was; the trace records every file step, and after each of them every live version has its bytes |
| `Promotion.DiskDir.Undo` | crates/openlake_io/src/local_fs.rs:985-1023 | the backup is live again, or without one the object directory is gone; the trace records every file step, and after each of them every live version has its bytes, if the backup's have |
| `Promotion.DiskDir.CleanStale` | crates/openlake_storage/src/engine.rs:2943-2954 | purging a directory no live version names is recorded and keeps every live version's bytes |
| `Promotion.DiskDir.Delete` | crates/openlake_io/src/local_fs.rs:354-390 | the data directories of the listed versions go first, then the live file, then the backup if that works; every file step is recorded; on a healthy disk all of it goes, and each live version has its bytes after every step iff none has a data directory |
| `Promotion.UndoRestoresIff` | crates/openlake_io/src/local_fs.rs:985-1023 | undoing a promotion restores the live list iff the list had a version of the same id or the backup already was the live list |
| `DiskLife.NullRun` | crates/openlake_io/src/local_fs.rs:354-390 | over every life of fresh null-version puts, each of which may fail, stay or be taken back and may leave its purge undone, and of deletes that finish or find only inline versions: at most the null version is listed, it has its bytes, and a backup lies beside a live file |
| `DiskLife.NullReady` | crates/openlake_io/src/local_fs.rs:985-1184 | so in every state of every such life the next put finds all it needs to be safe at each step and to be taken back |
| `DiskLife.TidyRun` | crates/openlake_io/src/local_fs.rs:354-1184 | over every such life on a disk without failures, with puts taken back at will, the data directories in place are exactly the live version's |
| `DiskLife.DeleteInLife` | crates/openlake_io/src/local_fs.rs:354-390 | a delete, also one cut short at any recorded step, continues the life; it keeps the setting iff it finds nothing, finishes, as it does on a healthy disk, or stops with only inline versions listed |
| `DiskLife.RestoresIffBeside` | crates/openlake_io/src/local_fs.rs:375-376 | every put of the null version can be taken back iff no backup lies without a live file |
| `Promotion.NullVersionedRestores` | crates/openlake_io/src/local_fs.rs:985-1023 | in a bucket that was never version-enabled an undo restores the live list |
| `Promotion.PromotedUndoReady` | crates/openlake_io/src/local_fs.rs:1005-1022 | right after a promotion the backup can be restored without losing bytes |
| `Promotion.ReplacedUnlisted` | crates/openlake_storage/src/engine.rs:2943-2954 | the data directory handed back for purging is named by no live version |
| `Promotion.ReplacedToPurge` | crates/openlake_io/src/local_fs.rs:1087-1091 | the directory to purge is that of the first listed version with the put's id, unless there is none or it is the put's own |
| `PromoteAll.PromoteVersions` | crates/openlake_storage/src/engine.rs:2871-2959 | succeeds iff a quorum of disks promoted; on each disk the put ends as failed, staying or taken back; below quorum every disk whose undo worked, as it does on a healthy disk, has its old list iff it is restorable; with a quorum of all disks success is the new list everywhere, and a rolled-back put of a null version is the old list everywhere; what was replaced is purged; every file step is recorded, and safe on disks that were ready |
| `PromoteAll.PutInLife` | crates/openlake_storage/src/engine.rs:2871-2959 | in a bucket never version-enabled, after any life of the disks: every file step on every disk is recorded, after each of them every live version has its bytes and any other call can follow; the put is the new version everywhere or, taken back, the version that was there; a healthy disk that had no stray data directory has none afterwards |
| `DiskLife.UndoLosesHistory` | crates/openlake_io/src/local_fs.rs:1005-1009 | a life in a version-enabled bucket: a put, then a put under a new id that is taken back, and no version is left |
| `DiskLife.StaleBackupReturns` | crates/openlake_io/src/local_fs.rs:375-376 | a life in which a delete leaves its backup behind, and a later put that is taken back returns the version that was deleted |
| `DiskLife.TornDeleteSafeIff` | crates/openlake_io/src/local_fs.rs:354-375 | a delete that stops before it removes the xl.meta loses no listed version's bytes, wherever it stops, iff no listed version has a data directory |
| `DiskLife.TornDeleteLosesBytes` | crates/openlake_io/src/local_fs.rs:368-375 | a life in which a delete that stops half-way leaves a version listed without its bytes |
| `Consensus.Leader` | crates/openlake_storage/src/engine.rs:1667-1687 | a value with the most votes, whatever the order of the map |
| `Consensus.CommonParity` | crates/openlake_storage/src/engine.rs:1765-1791 | a parity that reaches its own quorum with the most votes, or none does |
| `Consensus.ReadWithConsensus` | crates/openlake_storage/src/engine.rs:1532-1654 | returns one of the outcomes that some order of the maps gives, in the order error, parity, etag, contract |
| `Consensus.OneParity` | crates/openlake_storage/src/engine.rs:1765-1791 | if every valid record is coded over the whole set, at most one parity reaches its quorum |
| `Consensus.Deterministic` | crates/openlake_storage/src/engine.rs:1580-1653 | under a parity below half the set a returned record is the only outcome, whatever the order of the maps |
| `Consensus.ReadAfterWrite` | crates/openlake_storage/src/engine.rs:1532-1654 | while all but `faults` disks hold a record of the same contract, the read returns that contract iff no error tag reaches half the set; the vote-level form of `ReadOutcome.ReadAfterWrite` |
| `Consensus.EmptyReadAfterWrite` | crates/openlake_storage/src/engine.rs:1765-1813 | so empty objects and delete markers with an etag are read back through any minority of faults in sets of up to 511 disks, beyond which the u8 parity wraps |
| `Consensus.EvenSetsRead` | crates/openlake_storage/src/engine.rs:1569-1574 | in a set of even size the faults alone cannot stop the read |
| `Consensus.OnlyTagged` | crates/openlake_storage/src/engine.rs:1796-1813 | a record without an etag, such as a delete marker, is never returned |
| `Consensus.TieReturnsEither` | crates/openlake_storage/src/engine.rs:1796-1813 | with parity at half the set two records can tie and either may be returned |
| `ReadOutcome.DominantIff` | crates/openlake_storage/src/engine.rs:1569-1574 | an error is passed on iff some counted error is reported by at least half the set, and it is one that most disks report |
| `ReadOutcome.ContractIs` | crates/openlake_storage/src/engine.rs:1842-1861 | two records have the same contract iff they agree on version, time, etag, kind and the numbers and sizes of the parts, and, when they have bytes, on the whole code: blocks, block size and distribution |
| `ReadOutcome.ReturnedRecord` | crates/openlake_storage/src/engine.rs:1580-1653 | a returned record is the first copy of the record that most disks hold, among those of the etag most disks carry, each on at least n - p disks, p being the parity that most disks stand for |
| `ReadOutcome.NothingReturned` | crates/openlake_storage/src/engine.rs:1580-1653 | otherwise no parity is stood for by enough disks, no etag is carried by n - p, or no record of a top etag is held by n - p, as the error says |
| `ReadOutcome.ReadAfterWrite` | crates/openlake_storage/src/engine.rs:1532-1654 | while all but a minority of `faults` disks hold a record, no more than its parity, a read returns it iff no counted error is reported by half the set, and else that error |
| `Listing.LessTotal` | crates/openlake_storage/src/engine.rs:2390 | the key order is total |
| `Listing.LessIff` | crates/openlake_storage/src/engine.rs:2390 | one key is before another iff it ends, or has the smaller character, where the two first differ |
| `Listing.MergeAcrossSets` | crates/openlake_storage/src/engine.rs:2445-2482 | for sorted streams: strictly sorted, one entry for every key of any stream, the newest, from the first stream among equally new ones |
| `Listing.NewestIs` | crates/openlake_storage/src/engine.rs:2462-2475 | the chosen entry is newest, and no earlier stream has one as new |
| `Listing.MergeUnique` | crates/openlake_storage/src/engine.rs:2445-2482 | those properties determine the merge |
| `Listing.PageOfMerge` | crates/openlake_storage/src/engine.rs:1423-1440 | cutting every stream to c entries, merging and cutting to c gives the first c entries of the full merge |
| `SetListing.VoteFileInfo` | crates/openlake_storage/src/engine.rs:2421-2442 | the first copy of a record that most disks agree on, a quorum at least and no delete marker; or none, because no record has a quorum or a most agreed one is a delete marker |
| `SetListing.MergeWithinSet` | crates/openlake_storage/src/engine.rs:2379-2419 | sorted; every entry is the first copy of the record that most disks agree on under its key, and every key left out is one for which the vote shows none |
| `SetListing.ListedIff` | crates/openlake_storage/src/engine.rs:2379-2442 | when two quorums exceed the streams, or no delete marker of the key has a quorum, the key is listed iff a quorum of disks agree on a record of it that is not a delete marker |
| `SetListing.EntryShown` | crates/openlake_storage/src/engine.rs:2421-2445 | each entry of a listing shows the first copy of a record on which at least a quorum of disks, and as many as on any other, agree in etag, time, version, size and kind |
| `SetListing.AgreedIsShown` | crates/openlake_storage/src/engine.rs:2379-2445 | when two quorums exceed the streams, the record that a quorum of disks agree on is what the listing shows under its key |
| `SetListing.TieEitherWay` | crates/openlake_storage/src/engine.rs:2421-2442 | otherwise a record and a delete marker can tie, and the key may be listed or withheld |
| `SetListing.SetPageIff` | crates/openlake_storage/src/engine.rs:1445-1484 | when each disk is asked for its first c keys, and the vote on every key has one result (two quorums exceed the streams, or no delete marker has a quorum), the first c keys listed are those of the whole listing iff each of these is held, in agreement and with fewer than c keys before it, by a quorum of the disks |
| `SetListing.SetPageWithoutStale` | crates/openlake_storage/src/engine.rs:1445-1484 | under the same condition on the votes, which is so when every key on every disk is listed |
| `SetListing.StaleKeysHide` | crates/openlake_storage/src/engine.rs:1412-1484 | three disks, one offline, pages of any number of keys: one more stale key than that on one of the others hides a key that both hold, and the page is empty |
| `Format.VoteMajority` | crates/openlake_storage/src/format.rs:152-170 | the id that more than half of the formatted disks carry, if there is one |
| `Format.Poll` | crates/openlake_storage/src/format.rs:54-97 | what one round of reads leads to: mint, boot, refuse or wait, the refusals in their order |
| `Format.OneOutcome` | crates/openlake_storage/src/format.rs:54-97 | and no round of reads leads to two outcomes |
| `Format.DecidesIff` | crates/openlake_storage/src/format.rs:54-97 | in sets of disks: mint iff the seed reads all as empty; wait iff no more than half are formatted; refuse for an empty disk of its own iff more than half are; boot only on an id that more than half of the formatted disks carry |
| `Format.WriteAllDisks` | crates/openlake_storage/src/format.rs:119-150 | disk by disk from the node's own first; it stops at the first disk that fails, which is not a healthy one |
| `FormatRun.OneDeploymentId` | crates/openlake_storage/src/format.rs:34-150 | over every run with crashes, restarts, unreachable disks and late writes there is one id that all formatted disks carry and all booted nodes returned, and no node is refused for a disagreement |
| `FormatRun.MintedEverywhere` | crates/openlake_storage/src/format.rs:64-150 | over every run a minting seed comes up only when every disk of the cluster carries the id it minted, and all of them carry it ever after |
| `FormatRun.DecisionIff` | crates/openlake_storage/src/format.rs:54-97 | over every run a node boots iff it read more than half of the disks as formatted and none of its own as empty, refuses iff one of them was empty, mints iff it is the seed and all were, and else polls again |
| `FormatRun.BootedOnMost` | crates/openlake_storage/src/format.rs:78-97 | a node boots only on an id that more than half of the cluster's disks carry, then and ever after |
| `FormatRun.CanComeUp` | crates/openlake_storage/src/format.rs:34-150 | every fresh cluster, whatever its nodes, disks and orders, has a run after which all disks carry the id the seed drew and all nodes are up on it |
| `FormatRun.StepKeeps` | crates/openlake_storage/src/format.rs:34-150 | every step keeps what the seed's first disk says true of all disks, writes and nodes |
| `FormatRun.LocalWritten` | crates/openlake_storage/src/format.rs:127-136 | the first local write names the id and the others repeat it |
| `FormatRun.ArriveKeeps` | crates/openlake_storage/src/format.rs:137-148 | a late write brings the id that is already there, to another disk |
| `FormatRun.NoDisagreement` | crates/openlake_storage/src/format.rs:80-97 | when all formatted disks agree the poll cannot end in a disagreement |

## Left out

- HTTP, TLS, authentication, configuration, metrics, the command line and the RDMA, shared-memory and CUDA plumbing; only the order of the chain operations is kept.
- The internals of Reed-Solomon, blake3, md5, xxh64 and msgpack, which are libraries.
- `walk_dir`, whose order depends on directory names; the merges start from strictly sorted streams.
- The shared-memory client, whose get checks the header before it copies.
- Failures after the commit rename, such as the directory fsync, and torn backup writes; file steps are atomic.
- Keys nested under other keys, whose object directory an undo would remove with their parent's.
- Multipart upload sessions before their completion, bucket metadata, and routing of keys to sets.
- `shard_size`, `jitter`, `zip_scatters`, `validate` and the set arithmetic of `cluster.rs`: each is a formula or a check of its own, on which none of the results here depends; the unit, the shard lists and the disks of a set are parameters.
- KvProtocol.ReadValidation: a get that asks for more bytes than were put also returns older bytes of the slot, so the claim stops at the length of the put; a header is transferred in one step, because a header torn between two other keys could pass the check.
- KvPlan.ResolvePlan: a build with overflow checks panics where the 64-bit total wraps; the model wraps.
- Consensus.CommonParity: a parity above the set size never reaches its quorum, as with wrapping subtraction; a build with overflow checks panics there.
- Uuid.VersionIdSurvives: a string with characters beyond ASCII is an error here, where the slicing of the original may also panic.
- XlMeta.DecodeAll: errors are kinds, without the texts of their messages.
- Promotion.DiskDir.Delete: the empty directories it removes above the object's are not part of the model.
- VersionMerge.NewListDecoded: an xl.meta body of 2^32 bytes or more, whose length field wraps, is not covered; promotion takes every list it may write to be read back.
- PromoteAll.PutInLife: a delete between the puts that stops while it lists a version with a data directory, or that leaves its backup, ends the lives it speaks of, because after it the claim is false.
- LockExclusion.ExcludesIff: about clients that begin now; an attempt whose votes are older than the guard may still complete.
- SetListing.SetPageIff: about keys; of two records with one signature the page may show the other disk's. Where a record and a delete marker tie, the whole listing is not determined either (`SetListing.TieEitherWay`).
- LockRun.MutualExclusion: a guard that was marked lost counts as released, because its releases are on their way.
