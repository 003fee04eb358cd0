# layerlens, verified model

layerlens pulls container images, keeps one index per layer in a bounded on-disk cache, squashes layers into filesystem
trees and shows the difference of two trees page by page. These modules model the parts with the most state and the
hardest promises, and prove what those parts promise:

- **The cache store.** `CacheTables` is the byte budget: reservation, eviction of the least recently used unpinned image,
  refusal. `CacheStore` is the store and its transactions as classes that change their fields, proved against it.
  `CacheDisk` is what the start-up sweep makes of an arbitrary disk. `CacheProtocol` splits all operations at every
  hold of the mutex, every digest-lock operation and every file operation; `CacheInvariants` proves what every interleaving
  keeps, `CacheDirs` and `CacheCrash` what every crash leaves of layer directories and records, `CachePins` when a pin
  survives a restart, `CacheBudget` when the byte cap holds, and `CacheTheorems` states the results over runs. `CacheSteps` says what one step can change, and `CacheAlone`
  that the steps of one operation, uninterrupted, do what its method in `CacheStore` does. `CacheRuns` has the steps from
  which `CacheGaps` builds the concrete runs on which the code falls short.
- **Layers and trees.** `Entries` and `Changeset` are the field projection and the hashed byte stream with its decoder.
  `Indexer` is the bookkeeping while a tar is read. `Paths`, `Filesystem` and `Squash` are names, the path-map
  specification of a layer, and the mutable node tree that refines it. `Diff`, `DiffTheorems`, `DiffTotals` and `DiffRows`
  compare two trees; `SharedLayers` joins digest, squash and diff.
- **Serving.** `Paging`, `Utf8` and `Embedding` are cursors, pages and embedded children; `ComparisonCache` and
  `SingleFlight` the LRU of comparisons and every interleaving of requests to it; `Trailers` the client's flat list.
- **Pulls.** `PullTable` is admission, retention and one pull's state as classes; `PullRuns` every interleaving of them.

`Options`, `Sums` and `ByteStrings` hold what the others share. Go strings are byte sequences. Digests are numbers: 64
lower-case hexadecimal characters compare as the number they write. Parameters stand for what is outside: the hash
function, the size a file turns out to have, whether a file operation fails, how an assembly or a pull ends.

Where comments and code disagree the model follows the code:

- The comment on `Abort` (`internal/cachestore/store.go:769-774`) says that layers of an aborted ingest become evictable;
  the evictor never visits a layer no image names (`CacheGaps.OrphanStarves`; `CacheTables.RefusalExact` has the exact
  condition with such layers counted in).
- `Touch` and `UpgradeProvenance` rename the record after letting go of the lock, so an eviction in between leaves a record
  without its layers (`CacheGaps.RewriteAfterEviction`); and `renameSynced` can report an error after the rename took effect,
  so `Commit` can give back the bytes of a record that stays (`CacheGaps.RenamedYetFailed`).
  `CacheTheorems.NoCrashLosesARecord` has the exact condition under which every record is complete at every crash point;
  `CacheCrash.Orderly` is a sufficient one, on who lands which record.
- `writeRecord` adds to the accounting without testing the cap (`CacheGaps.TouchPassesCap`); no other step takes the total
  past it (`CacheBudget.StepKeepsCap`).
- Pinning is called monotonic (`internal/cachestore/store.go:802-805`), but a stale copy of the record can land last, and
  then the pin is gone after a restart (`CacheGaps.PinUndone`). `CachePins.PinsSurvive` has the exact condition.
- The probe in `overBudget` is called unreachable in practice when it is granted (`internal/cachestore/store.go:652-653`);
  `CacheGaps.ProbeGranted` is a run, and `CacheTables.ProbeIsRefused` the exact condition.
- `Commit` renames the record before it retakes the lock, so evicting an older record of the same id in between removes the
  new file (`CacheGaps.InstallAfterEviction`); `CacheTheorems.RestartKeepsImages` has the exact condition.
- `segments` is described as giving non-empty components, but an inner double slash gives an empty one
  (`Paths.EmptySegmentIff`). `Paths` has the three ways the code reads a name, and `Paths.CleanNames` where they agree.
- `record` overwrites the key of a live pull (`PullRuns.TwoLivePulls`), and sets its state in a second step that does not
  test `terminal` (`PullRuns.CancelledThenDone`).
- Cursors pass through JSON, which replaces bytes that are not UTF-8: a page can skip rows (`Paging.InvalidNameLosesARow`),
  or the same page can come back for ever (`Paging.InvalidNameRepeats`). `Paging.WalkIsAllRows` has the exact condition.
  The client also tells rows apart by such names (`Embedding.InvalidSiblingDropped`, `Embedding.DedupKeepsDistinct`).

## Model

| member | source | states |
|---|---|---|
| CacheTables.RefusalExact | internal/cachestore/lru.go:20-51 | For every state of the tables, and with no failing file removal, a reservation of n > 0 bytes is granted if and only if own + n is within the cap less the pinned bytes and n fits beside what no sequence of evictions can reclaim. |
| CacheTables.RefusalExactAlone | internal/cachestore/lru.go:20-51 | With one open transaction, no outstanding reservation, every layer named by an image or written by the transaction, and every declared layer written by it or named by a pinned image, the first test alone decides: granted if and only if own + n is at most the cap less the pinned bytes. |
| CacheTables.ReserveEvictsShortestPrefix | internal/cachestore/lru.go:20-51 | Refused by the first test, a reservation changes nothing. Past it, the evictions made are the fewest after which n fits; it fails only if nothing more can be evicted; a granted one leaves the accounted total within the cap. |
| CacheTables.MakeRoomShortest | internal/cachestore/lru.go:36-45 | The evicting loop stops at the first point where n fits (with any smaller number of evictions it would not) or when nothing can be evicted. |
| CacheTables.EvictsOldest | internal/cachestore/lru.go:119-160 | Any number k of evictions takes exactly k images, all unpinned, and each was last used before every unpinned survivor, or at the same time and has the smaller id. |
| CacheTables.VictimIsOldest | internal/cachestore/lru.go:120-133 | The first image in the eviction order is the unpinned one with the smallest time of last use, and among those the smallest id. |
| CacheTables.EvictsKeep | internal/cachestore/lru.go:119-211 | Evictions keep pinned images and their bytes, every layer still named by an image or declared in flight, the sizes of surviving layers, and the difference between accounted and retained bytes. |
| CacheTables.ReserveKeeps | internal/cachestore/lru.go:20-51 | A granted reservation leaves the total within the cap. Granted or not, it keeps every image and every open transaction intact and changes the accounting by exactly what it grants and what it frees. |
| CacheTables.DropLayersExact | internal/cachestore/lru.go:150-211 | Dropping the layers of a victim removes exactly those that nothing refers to and whose removal does not fail. |
| CacheTables.OrphanIsNeverReclaimed | internal/cachestore/store.go:769-775 | A concrete state in which a reservation passes the first test, nothing is pinned or in flight, and it is still refused: a layer that no image names is never visited by the evictor, against the comment on Abort. |
| CacheTables.ProbeIsRefused | internal/cachestore/store.go:641-656 | The ceiling is read in one lock hold and the probe for one byte more is made in another: when the ceiling left any room, the first test refuses the probe if and only if no fewer bytes are pinned by then, and what the first test refuses evicts nothing. |
| CacheTables.OverCeiling | internal/cachestore/lru.go:62-73 | Whatever the faults, a request over the ceiling is refused with nothing evicted. |
| CacheTables.CeilingIsTight | internal/cachestore/lru.go:62-73 | The ceiling is the largest amount that the first test lets through, or zero if it lets nothing through. |
| CacheTables.NothingIsFree | internal/cachestore/lru.go:20-51 | Reserving nothing is granted whatever the tables, and changes nothing. |
| CacheDisk.SweepRestoresInvariants | internal/cachestore/store.go:192-260 | From any disk at all, the rebuilt tables are intact, account for exactly the retained bytes, and every record left on the disk has all its layers. |
| CacheDisk.SweepIdempotent | internal/cachestore/store.go:192-260 | A second sweep changes neither the disk nor the tables. |
| CacheDisk.SweepKeepsExactly | internal/cachestore/store.go:238-301 | A record survives the sweep if and only if it is readable and every layer it names is complete on disk. |
| CacheDisk.SweptLayersAre | internal/cachestore/store.go:205-236 | A directory becomes a layer if and only if it has an index and a schema 1 document naming its own digest; its size counts every file in it. |
| CacheDisk.SweptImagesAre | internal/cachestore/store.go:238-257 | A file becomes an image if and only if it is a schema 1 record of its own id and each of its layers is a layer; layers, pin and time of last use are the record's, the size that of the file. |
| CacheDisk.SweepKeepsAll | internal/cachestore/store.go:238-260 | The sweep discards no record if and only if every record is readable and has all its layers. |
| CacheStore.SweepLayers | internal/cachestore/store.go:205-236 | The loop keeps exactly the readable layer directories, fills the table with their sizes, and totals them. |
| CacheStore.SweepImages | internal/cachestore/store.go:238-257 | The loop keeps exactly the readable records whose layers are known, fills the table, and totals their bytes. |
| CacheStore.Store.constructor | internal/cachestore/store.go:192-203 | After opening, the tables are those the sweep yields from the disk. |
| CacheStore.Store.PinnedBytesLocked | internal/cachestore/lru.go:90-109 | The loops count each pinned record and each layer of a pinned image once. |
| CacheStore.Store.LayerReferencedLocked | internal/cachestore/lru.go:165-179 | True if and only if an open transaction declared the layer or an image names it. |
| CacheStore.Store.FindVictim | internal/cachestore/lru.go:120-133 | The scan finds the unpinned image with the smallest time of last use, ties broken by the smaller id, or reports that all images are pinned. |
| CacheStore.Store.DropLayerLocked | internal/cachestore/lru.go:185-211 | The new tables are those of DropLayer; a failing removal leaves the layer accounted for. |
| CacheStore.Store.EvictLRULocked | internal/cachestore/lru.go:119-160 | It succeeds if and only if an unpinned image can be removed; then the image with the smallest time of last use, ties broken by id, is gone with its unreferenced layers, and otherwise nothing changes. |
| CacheStore.Store.ReserveFor | internal/cachestore/lru.go:20-51 | Verdict and new tables are those of the budget rule that the lemmas of CacheTables are about; a grant is added to what the transaction owns. |
| CacheStore.Store.ReserveCeiling | internal/cachestore/lru.go:62-73 | The ceiling is the cap less the pinned bytes less what the transaction owns, and never negative. |
| CacheStore.Store.Release | internal/cachestore/lru.go:76-86 | A positive number of bytes is returned to the accounting and to the transaction. |
| CacheStore.Store.Begin | internal/cachestore/store.go:472-488 | A new transaction is in flight, with no layers; the tables do not change. |
| CacheStore.Store.UseLayer | internal/cachestore/store.go:515-527 | The layer is declared if and only if it is in the table. |
| CacheStore.Store.PutLayer | internal/cachestore/store.go:537-631 | The whole new state for each outcome: already present, stored, refused, broken by a failing write (the reservation is given back), or finished; the accounting stays exact and no image or open transaction loses a layer. |
| CacheStore.Store.Commit | internal/cachestore/store.go:710-769 | The whole new state for each outcome: a record naming an undeclared layer is rejected, a refused one changes only what was evicted, a failed rename gives the bytes back, and success puts the record just as given in place of an older one, whose bytes leave the accounting, and ends the transaction. |
| CacheStore.Store.InstallRecord | internal/cachestore/store.go:760-767 | Under the last lock hold the record enters the table just as given, in place of one of the same id, whose bytes leave the accounting; no other image and no layer changes, and the transaction stops holding its layers. |
| CacheInvariants.StepKeeps | internal/cachestore/store.go:515-767 | Every lock hold, file operation and digest-lock operation keeps: images and open transactions have their layers, the accounting is exact, each transaction owns what it wrote plus what it has outstanding, and digest locks exclude. |
| CacheInvariants.RunsKeep | internal/cachestore/store.go:515-767 | The same over every run. |
| CacheDirs.OneWriter | internal/cachestore/store.go:663-683 | No two transactions are past the check for one digest at the same time. |
| CacheDirs.StepKeepsDirs | internal/cachestore/store.go:515-912 | Every step of every operation keeps: each layer of the table is complete on disk with its accounted size, other layer directories hold only what a writer put there, and each writer's directory is as far as the writer. |
| CacheCrash.StepKeepsComplete | internal/cachestore/store.go:515-912 | From any state in which every record on disk is readable with all its layers, a step keeps that if and only if it is safe: a rewrite that lands has all its layers complete on disk, and a layer directory that is dropped is named by no record on disk. |
| CacheCrash.RunsKeepComplete | internal/cachestore/store.go:515-912 | Every record on disk is complete in every state of a run, if and only if every step of the run is safe. |
| CacheCrash.StepKeepsRoots | internal/cachestore/store.go:710-767 | Records, images, commits and rewrites keep naming the layers their image ids determine, if and only if the step does not start a commit that names others. |
| CacheCrash.StepKeepsBacked | internal/cachestore/store.go:710-912 | Every record on disk stays that of an image in the table or of a commit about to install it, if and only if the step lands no other, by a rename that takes effect and reports an error or by a rewrite. |
| CacheCrash.StepKeepsDisk | internal/cachestore/store.go:515-912 | The three ties of disk to tables (directories, named layers, owners of records) are kept by a step if and only if it is orderly: its commit is rooted and the record it lands is owned. |
| CacheCrash.OrderlyIsSafe | internal/cachestore/store.go:515-912 | While those ties hold, an orderly step is safe. |
| CacheCrash.RunsKeepDisk | internal/cachestore/store.go:515-911 | The ties hold in every state of a run if and only if every step of the run is orderly, and then every step is safe. |
| CacheCrash.CrashPoint | internal/cachestore/store.go:689-767 | In every state with that tie a crash leaves each record with all its layers. |
| CacheTheorems.EveryInterleaving | internal/cachestore/store.go:515-912 | From any disk and for every interleaving of transactions, evictions, touches and upgrades: every image has all its layers, every layer declared by an open transaction is in the table, accounted is exactly layers plus records plus outstanding reservations, and the digest-lock table has an entry exactly while someone holds or waits, at most one holding. |
| CacheTheorems.CommitNamesPresentLayers | internal/cachestore/store.go:710-769 | In every run, a record being committed names only layers in the table, from the membership check to the install. |
| CacheTheorems.DuplicateBranchUnreachable | internal/cachestore/store.go:612-628 | In every run, a writer about to install a layer never finds it installed, so the duplicate branch is never taken, and no other writer is past the check for that digest. |
| CacheTheorems.NoCrashLosesARecord | internal/cachestore/store.go:689-767 | From any disk at all, every record on disk is complete at every crash point of a run if and only if every step of the run is safe, as orderly runs from genuine records are; at a crash point the next start discards no record if and only if they are complete, and always finds every layer of the table again with its size. |
| CacheTheorems.RecordedUnlessEvictedBetween | internal/cachestore/store.go:755-766 | A step keeps every image of the table recorded on disk, if and only if it is not the install of a record whose file an eviction removed after the rename. |
| CacheTheorems.RunsKeepRecords | internal/cachestore/store.go:755-766 | Every image of the table has its record on disk in every state of a run if and only if no install of the run finds its record gone. |
| CacheTheorems.RestartKeepsImages | internal/cachestore/store.go:192-260 | From any disk and for every run: images stay recorded throughout if and only if no install finds its record gone; a restart finds every image of the table again with the same layers if and only if each has a readable record that names them; and where the first records are genuine and commits are rooted, if and only if each has its record on disk. |
| CacheTheorems.MutexShields | internal/cachestore/lru.go:27-49 | While a reservation holds the mutex, no step of any other transaction or rewrite changes the tables, the mutex or the reserving transaction. |
| CacheTheorems.ReserveStepsAre | internal/cachestore/lru.go:27-49 | Whatever others do in between and whichever file removals fail, the file-by-file steps of a reservation, from taking the mutex to letting go of it, end in the tables and the verdict of the budget rule. |
| CacheTheorems.ReserveCanEnd | internal/cachestore/lru.go:36-45 | From every point of a reservation, and for any failing removals, some sequence of its own steps ends it. |
| CacheTheorems.RefusalExactInRuns | internal/cachestore/lru.go:20-51 | In every run, and whatever steps come between its own, the only open transaction is refused if and only if what it owns and asks for exceeds the cap less the pinned bytes, and a refusal changes no table. |
| CacheSteps.ImageChanges | internal/cachestore/store.go:760-912 | In any step of any operation an image enters the table only by the install of a commit, exactly as given, and leaves it only as the unpinned image used longest ago when a reservation does not fit; otherwise a due touch sets its time, an upgrade can add a pin, a landed rewrite sets its size, and nothing else changes. |
| CacheSteps.LayerChanges | internal/cachestore/store.go:515-632 | In any step a layer enters the table only when its writer installs it, with the bytes reserved for it, keeps its size, and leaves it only as the next layer of the last victim while no image names it and no open transaction declared it. |
| CacheAlone.PutLayerAlone | internal/cachestore/store.go:537-631 | From any state with a free mutex, an idle transaction and nobody at the lock of the layer, the steps of PutLayer taken without interruption do what the call does in one go, for every choice of failing removals and renames: present, refused, given back, or in the table, declared, charged, and read back from the disk with the reserved size. |
| CacheAlone.CommitAlone | internal/cachestore/store.go:710-769 | So do the steps of Commit: refused, given back, or the image in the table just as given, read back from the disk as it is, and the transaction over. |
| CacheAlone.TouchAlone | internal/cachestore/store.go:859-886 | A due touch with nothing in between leaves the new time and size in the table and on disk, and the accounting adjusted by the change of size. |
| CacheAlone.UpgradeAlone | internal/cachestore/store.go:812-856 | An upgrade with nothing in between keeps a pin, or adds it when asked to, in the table and on disk. |
| CacheAlone.UseAlone | internal/cachestore/store.go:515-527 | A layer is declared if and only if it is in the table; by a finished transaction too, but then it is not protected. |
| CacheAlone.AbortAlone | internal/cachestore/store.go:775-789 | An aborted transaction is over, its layers are no longer declared, and nothing else changes: what it wrote stays in the table and accounted for. |
| CacheAlone.PutFailsStaging | internal/cachestore/store.go:537-631 | A PutLayer whose staged write fails leaves the whole state as it was. |
| CacheAlone.CommitFailsStaging | internal/cachestore/store.go:710-769 | A Commit whose staged write fails leaves the whole state as it was. |
| CacheAlone.StagedWithinCeiling | internal/cachestore/lru.go:62-73 | Nothing larger than the ceiling, as it was when it was read, is ever staged in full. |
| CacheAlone.LayerBack | internal/cachestore/store.go:600-632 | The three renames of a layer leave a directory that is read back as that layer with the size of its two files, and change nothing else on disk. |
| CacheAlone.RecordBack | internal/cachestore/store.go:890-912 | The rename of a record leaves a file that is read back as the image it was written from, and changes nothing else on disk. |
| CacheBudget.StepKeepsCap | internal/cachestore/store.go:890-911 | From any state at all, a step takes the accounted total past both the cap and what it was, if and only if it accounts for a rewritten record of an image in the table whose growth passes the cap. |
| CacheBudget.RunsKeepCap | internal/cachestore/store.go:515-911 | A run that starts within the cap is within it in every state, if and only if none of its steps is such an accounting. |
| CacheGaps.RewriteAfterEviction | internal/cachestore/store.go:859-911 | A concrete run in which Touch lets go of the lock, the image and its layer are evicted, and the rewrite then puts back a record whose layers are gone. |
| CacheGaps.RenamedYetFailed | internal/cachestore/store.go:968-987 | A concrete run in which the rename of a record takes effect and reports an error, so that Commit gives its bytes back, and a later eviction takes the layers of the record left behind. |
| CacheGaps.InstallAfterEviction | internal/cachestore/store.go:755-766 | A concrete run in which the record of a recommitted image is renamed, evicting the older image removes the new file, and the install finds its record gone. |
| CacheGaps.TouchPassesCap | internal/cachestore/store.go:890-911 | A concrete run in which a touched record, rewritten larger, takes the accounted total past the cap. |
| CachePins.StepKeepsPins | internal/cachestore/store.go:710-912 | A step keeps every pinned image recorded as pinned on disk, if and only if it is none of: an upgrade that pins over an unpinned record, a rewrite or the record of a recommit that lands unpinned over a pinned image, and the install of a pinned image whose record on disk is not pinned. |
| CachePins.PinsSurvive | internal/cachestore/store.go:192-260 | From any disk: every pinned image has a pinned record in every state of a run, if and only if no step of the run is one of those; and in a state whose records are complete, a restart finds every pinned image pinned if and only if each has a pinned record. |
| CacheGaps.PinUndone | internal/cachestore/store.go:800-886 | A concrete run in which a Touch copies a record unpinned, an upgrade pins the image and lands, and the stale copy lands over it: pinned in memory, unpinned after a restart. |
| CacheGaps.OrphanStarves | internal/cachestore/store.go:769-775 | A concrete disk with one layer that no image names: the store opens on it, a lone transaction asks for bytes that the cap less the pinned bytes allows, and it is refused however the reservation goes. |
| CacheGaps.ProbeGranted | internal/cachestore/store.go:641-656 | A concrete run in which the probe is granted: a pinned record is rewritten smaller between the ceiling and the reservation. |
| Entries.SameFields | internal/analyze/fields.go:96-111 | Two projections compare equal if and only if all fields agree, extended attributes included. |
| Entries.FieldsAgree | internal/analyze/fields.go:34-92 | Two projections are equal if and only if kind, the low twelve bits of the mode, uid, gid, both names, link target, device numbers and attributes are equal and, unless it is a directory, size and content hash. |
| Entries.FieldsKept | internal/analyze/fields.go:34-69 | What each projected field holds: the entry's own value, the mode cut to twelve bits, and for a directory no size and no content hash. |
| Entries.RankIsPlace | internal/domain/entry.go:8-23 | The kinds are numbered in the order file, directory, symlink, hardlink, device, fifo, whiteout, opaque. |
| Entries.SameXattrs | internal/analyze/fields.go:113-123 | The loop over one map, after comparing sizes, decides equality of the two. |
| ByteStrings.SortedKeys | internal/analyze/fields.go:141-145 | Keys collected in any map order and then sorted are the one ascending sequence of the keys. |
| ByteStrings.LessIff | internal/analyze/changeset.go:64-70 | The string order puts a proper prefix first, and otherwise the string with the lower byte where the two first differ. |
| Changeset.Hash.WriteUint | internal/analyze/changeset.go:100-104 | Eight bytes, most significant first, are appended to the hashed stream. |
| Changeset.Hash.WriteInt | internal/analyze/changeset.go:106-108 | A signed value is appended as its two's complement. |
| Changeset.Hash.WriteStr | internal/analyze/changeset.go:95-98 | The length and then the bytes are appended. |
| Changeset.Hash.WriteFields | internal/analyze/fields.go:128-154 | Appends exactly the field stream of one entry, in field order, with the attributes sorted by key and counted. |
| Changeset.ChangesetDigest | internal/analyze/changeset.go:55-81 | The loops hash the stream of version, entry count and the projected rows of the entries sorted by path and kind; `TwoEntryStream` and `StreamsEqualIff` say what that stream is. |
| Changeset.UintBack | internal/analyze/changeset.go:100-104 | Eight bytes read back are the value written, with what follows untouched. |
| Changeset.IntBack | internal/analyze/changeset.go:106-108 | The same for every 64-bit signed value. |
| Changeset.StrBack | internal/analyze/changeset.go:95-98 | The same for every string, whatever bytes follow it. |
| Changeset.XattrsBack | internal/analyze/fields.go:141-150 | The attribute map is read back whole. |
| Changeset.RowBack | internal/analyze/fields.go:128-154 | All fields of an entry are read back, so no combination of values reads as another. |
| Changeset.StreamBack | internal/analyze/changeset.go:55-93 | The whole hashed stream has a decoder that recovers the version and the sorted rows with nothing left over. |
| Changeset.SortAscends | internal/analyze/changeset.go:56-69 | Entries with distinct (path, kind) sort strictly ascending. |
| Changeset.StreamsEqualIff | internal/analyze/changeset.go:36-93 | Two streams of one version are equal if and only if each entry of either changeset has an entry of the same path in the other that holds the same: every field but the modification time, a directory without size and content hash. |
| Changeset.TwoEntryStream | internal/analyze/changeset.go:55-108 | The stream of two concrete entries, byte by byte: version, count, entries sorted, field order, big-endian words, length prefixes, the twelve mode bits, a negative id, sorted attributes, and a directory without size and hash. |
| Changeset.OrderIndependent | internal/analyze/changeset.go:36-42 | For distinct (path, kind) the stream is the same for every order of the entries. |
| Indexer.IndexState.ReserveEntry | internal/analyze/indexer.go:239-247 | A new slot is admitted if and only if there is no cap or the distinct slots of everything accepted so far are fewer than the cap. |
| Indexer.SlotsCounted | internal/analyze/indexer.go:239-247 | The sizes of the two maps add up to the number of distinct slots of what was accepted, objects by path and markers by path and kind. |
| Indexer.IndexState.Put | internal/analyze/indexer.go:279-293 | Refused if and only if no accepted object has the path and the cap is reached, and then nothing changes; otherwise the entry replaces the one of its path, and contentBytes stays the sum of the file sizes that stand. |
| Indexer.IndexState.PutMarker | internal/analyze/indexer.go:266-275 | The same for markers, which never displace an object. |
| Indexer.IndexState.Add | internal/analyze/indexer.go:295-378 | A member is passed over, or recorded as the one entry that `ClassifyIs` says, or an error that records nothing: too many entries if and only if it needs a new slot over the cap, before the body is read; unreadable if and only if it fits and is a file whose body cannot be read. |
| Indexer.ClassifyIs | internal/analyze/indexer.go:295-462 | The full case split for a member with a clean name d/base: .wh..wh..opq gives an opaque marker for d, any other .wh..wh. name nothing, .wh.name a whiteout of d/name unless name is empty or dots, and any other name with a supported type an object there, whose header fields, size, content hash, link and device numbers are given from the member; PAX metadata, the root and unsafe names give nothing. |
| Indexer.IndexLayer | internal/analyze/indexer.go:149-212 | A layer is indexed if and only if every file body can be read and its members fill at most as many distinct slots as the cap (zero for two million, negative for none), whatever their order and repetitions; the index is then exactly the entries that `ClassifyIs` gives for the members and no later one replaces, strictly ascending by path and kind. |
| Indexer.IndexState.Finish | internal/analyze/indexer.go:380-411 | The index is strictly ascending by path and kind and holds exactly the entries not replaced later in the tar; contentBytes is the sum of the file sizes that stand. |
| Indexer.StandsIs | internal/analyze/indexer.go:266-293 | The two maps hold exactly the accepted entries whose slot no later entry took: last in tar wins, objects and markers apart. |
| Indexer.StandsIff | internal/analyze/indexer.go:266-293 | An accepted entry stands if and only if no later one has its path and is an object like it or a marker of its kind. |
| Indexer.AimOf | internal/analyze/indexer.go:311-345 | For a clean name, an object aims at its own node, an opaque marker at its directory, and a whiteout at a sibling, never at the directory or above. |
| Indexer.StandingObjects | internal/analyze/indexer.go:279-293 | Standing objects of clean names never share a node. |
| Paths.CleanNames | internal/analyze/squash.go:213-219 | For clean rooted names, splitting, trimming, path.Split and the join-and-split of whiteout parents all name the same node. |
| Paths.EmptySegmentIff | internal/analyze/squash.go:213-219 | A name has an empty component if and only if a double slash is left once its outer slashes are trimmed. |
| Filesystem.PutsCommuteIff | internal/analyze/squash.go:126-154 | Two objects can be put in either order with the same result if and only if equal paths have equal objects and neither is a non-directory above the other. |
| Filesystem.UpsertsOverlay | internal/analyze/squash.go:116-122 | For compatible entries the fold of upserts is one formula: objects where they say, parents kept or made implicit, everything else of the lower tree unless a non-directory object covers it. |
| Filesystem.AnyOrder | internal/analyze/squash.go:84-123 | For changesets with at most one object per path and no non-directory object above another object, every order of the entries, markers included, gives the same tree. |
| Filesystem.LayersProper | internal/analyze/squash.go:35-41 | Any stack of layers gives a tree: whatever is above a path is a directory, and no marker is a file. |
| Filesystem.LastLayerShows | internal/analyze/squash.go:35-41 | Over what all older layers give: at an object of the newest layer there is that object with its metadata; above one, the older directory unless a marker removed it, else an invented one; anywhere else exactly what was there before, unless a marker removed it or an object that is not a directory lies above. |
| Filesystem.CompatibleIff | internal/analyze/squash.go:119-153 | Entries are compatible if and only if two objects for one path agree in everything and whatever has an object below it is a directory. |
| Squash.ViewProper | internal/analyze/squash.go:126-177 | A linked node tree flattens to a path map in which only directories have anything below them. |
| Squash.Squasher.constructor | internal/analyze/squash.go:63-70 | The new tree is the one implicit root. |
| Squash.Squasher.Lookup | internal/analyze/squash.go:182-195 | The walk finds the node at the path, or null when there is none. |
| Squash.Squasher.ChildDir | internal/analyze/squash.go:162-175 | A missing or non-directory child becomes a fresh implicit directory and what it shadowed is gone; a directory is kept. |
| Squash.Squasher.EnsureDirs | internal/analyze/squash.go:160-177 | The whole chain of directories exists afterwards; existing directories and everything else are unchanged. |
| Squash.Squasher.UpsertEntry | internal/analyze/squash.go:126-154 | The tree flattens to the path map with the entry put: a restated directory keeps its children and turns explicit, anything else drops what was below; unnamed entries are ignored. |
| Squash.Squasher.Land | internal/analyze/squash.go:126-154 | Under its parent, a directory that meets a directory keeps the children it finds; anything else starts without any, and what was at its path and below is gone. |
| Squash.Squasher.RemoveSubtree | internal/analyze/squash.go:200-210 | The named node goes with all below it; the root is refused; an absent path is a no-op. |
| Squash.Squasher.ApplyOpaque | internal/analyze/squash.go:85-98 | The first pass leaves exactly what is not strictly below an opaque marker's path. |
| Squash.Squasher.ApplyWhiteouts | internal/analyze/squash.go:100-111 | The second pass leaves exactly what no whiteout names or has above it. |
| Squash.Squasher.UpsertObjects | internal/analyze/squash.go:113-122 | The third pass is the fold of upserts, markers skipped. |
| Squash.Squasher.Apply | internal/analyze/squash.go:84-123 | The three in-place passes refine the path-map specification, and the tree stays linked and shaped: each child filed under its name, child maps on directories only, no marker as a node. |
| Squash.SquashLayers | internal/analyze/squash.go:35-41 | Layers applied oldest first to the empty root flatten to the path map of the whole stack; over the stack of all but the newest layer, the newest, if its entries are compatible, shows as `LastLayerShows` says. |
| ByteStrings.SortedUnion | internal/analyze/diff.go:220-232 | The names of either map, sorted, once each. |
| Diff.FillAgg | internal/analyze/diff.go:157-202 | The accumulating steps compute the row's own contribution plus the sum over its children; `DiffTotals.DiffChange` and `DiffTotal` say what that comes to in every column. |
| Diff.SortInOrder | internal/analyze/sort.go:28-36 | Rows of distinct names sort directories first and then by name. |
| Diff.SortForgetsOrder | internal/analyze/sort.go:28-36 | The order in which rows were collected never shows in the sorted result. |
| Diff.MarkedSubtree | internal/analyze/diff.go:105-124 | Visiting children in any map order builds the one one-sided subtree. |
| Diff.Diff | internal/analyze/diff.go:20-81 | The recursion with its loops builds the specified comparison, for either side missing too. |
| DiffTheorems.UnchangedIff | internal/analyze/diff.go:20-101 | The top row of a comparison of two trees is Unchanged if and only if the trees have the same paths and at each the same kind and, unless it is a directory that one side only implies, the same metadata: every field but the modification time, size and content hash except for directories; otherwise it is Modified. |
| Diff.DiffersIff | internal/analyze/fields.go:71-101 | Two nodes differ if and only if their kinds do, or neither is an implied directory and some field but the modification time does, size and content hash of a directory aside. |
| Diff.SideKept | internal/analyze/diff.go:84-142 | What a row keeps of a side is the node's own metadata, size and content hash included. |
| DiffTheorems.FilterRows | internal/server/handlers_diff.go:221-232 | Without the filter all rows, with it exactly the rows not unchanged, in order. |
| DiffTheorems.ChangedRowsReached | internal/server/handlers_diff.go:221-232 | Applied level by level, the changed filter reaches a row if and only if it is changed; an unchanged row has only unchanged rows below it. |
| DiffRows.FindNode | internal/server/handlers_diff.go:248-270 | The walk by names returns the row at the path, or none. |
| DiffRows.WalkPath | internal/server/handlers_diff.go:248-270 | A path spelt out as usual, with however many slashes in front, is split into exactly its names, so the walk leads to the row at it. |
| DiffRows.EveryPathHasItsRow | internal/analyze/diff.go:20-80 | There is a row for exactly the paths that either tree has above a directory-or-not clash, each with both sides' metadata as that side has it, Added or Removed exactly when the other side has nothing there. |
| DiffRows.RowIsComparison | internal/analyze/diff.go:20-124 | The row found at any path is the comparison of the two subtrees there, or the one-sided subtree of the side that has one, or none. |
| DiffRows.EveryRowUnchangedIff | internal/analyze/diff.go:20-101 | At every path that has a row, the row is Unchanged if and only if the two whole trees agree at that path and at every path below it. |
| DiffRows.EveryRowTotals | internal/analyze/diff.go:143-202 | At every path that has a row, the byte and file columns of each side are the sums over what that side's own tree, without what is below a directory-or-not clash, has at and below the path. |
| DiffRows.EveryRowChanges | internal/analyze/diff.go:143-202 | At every path that has a row, each of the seven change columns is the sum of what changed between the two subtrees there. |
| DiffTotals.MarkTotal | internal/analyze/diff.go:105-124 | A one-sided subtree counts whole for its side and nothing for the other. |
| DiffTotals.DiffTotal | internal/analyze/diff.go:143-202 | For any two trees, the bytes and file counts of a side in the top row are the sums over the regular files of that side's own tree, without what is below a directory-or-not clash. |
| DiffTotals.MarkChange | internal/analyze/diff.go:173-202 | The subtree of one side is booked whole: its file bytes and files as removed or as added, and nothing in any other change column. |
| DiffTotals.DiffChange | internal/analyze/diff.go:143-202 | Each change column of a comparison is a sum over both trees: removed and added columns over the files only one tree has, modified columns over the common paths that disagree, with each side's file size and one per path that is a file on either side. |
| DiffTotals.EveryRowBalances | internal/analyze/diff.go:143-216 | At every row, each side is its removed or added, its modified and the same unchanged bytes; so right minus left is added plus modified right less removed and modified left; and a directory row's totals are the sum of its children's. |
| DiffTotals.ClampNeverFires | web/src/compare/fs/treeAdapter.ts:428-440 | With sizes that are not negative, the neutral segment of the size bar is never cut off at zero, and the four segments make up the total. |
| DiffTotals.EveryLevelInOrder | internal/analyze/sort.go:24-36 | At every level of a comparison the rows that are directories come first (the right side decides, the left where there is no right side), each group is in ascending order of names, and no name occurs twice. |
| SharedLayers.SquashedIsTidy | internal/server/comparison.go:159-178 | What squashing any layers gives meets what comparing requires. |
| SharedLayers.UnchangedThroughout | internal/analyze/diff.go:20-80 | If the top row is unchanged then so is every row, with equal totals on both sides and no change counted. |
| SharedLayers.SameRowsUnchanged | internal/analyze/squash.go:84-154 | Two changesets with the same rows, applied to one base, give trees whose comparison is Unchanged. |
| SharedLayers.SharedMeansUnchanged | internal/analyze/changeset.go:32-47 | If two indexes hash the same bytes, then over any base their trees compare Unchanged at every row with equal totals: the could-be-shared verdict is sound. |
| Utf8.SurvivesIff | internal/server/pagination.go:61-69 | A name passes through JSON unchanged if and only if it is valid UTF-8. |
| Utf8.ValidIff | internal/server/pagination.go:61-69 | The valid strings are exactly the sequences of UTF-8 encodings of Unicode scalar values, surrogates excluded (section 3 of RFC 3629). |
| Paging.CursorBackIff | internal/server/pagination.go:61-95 | A row's cursor decodes to the place right after the row if and only if its name is valid UTF-8. |
| Paging.OtherQueryRefused | internal/server/pagination.go:73-95 | A cursor of one query is refused by every other. |
| Paging.PageStart | internal/server/pagination.go:118-130 | The binary search returns the number of rows not after the cursor. |
| Paging.NotAfterIsPrefix | internal/server/pagination.go:118-130 | In sorted rows those are the first ones. |
| Paging.ResumeAtNext | internal/server/pagination.go:118-130 | Resuming after a row continues with the next. |
| Paging.ResumeWithoutRow | internal/server/pagination.go:112-117 | If the cursor's row has gone, resuming still continues with exactly the rows after it. |
| Paging.ResumesRightIff | internal/server/pagination.go:61-131 | Between two sorted rows, the page after a row's cursor starts with the next row if and only if the name as JSON brings it back is not before the row's name and is before the next name of the same section. |
| Paging.WalkIsAllRows | internal/server/handlers_diff.go:144-164 | Following the cursors from the first page comes to an end having shown every row once and in order, if and only if that holds at every page boundary; for any names and every limit of at least one. |
| Paging.ValidKeepsPlace | internal/server/pagination.go:61-95 | It holds wherever the name is valid UTF-8. |
| Paging.PagesOfDirectory | internal/server/handlers_diff.go:144-164 | The same exact condition for every directory of every comparison and both filters; directories with valid names always meet it. |
| Paging.InvalidNameLosesARow | internal/server/pagination.go:61-69 | In a directory to which two files have been added, with names that are not valid UTF-8, the second page starts past the second row and no page shows it. |
| Paging.InvalidNameRepeats | internal/server/pagination.go:61-69 | In another such directory the second page is the first page with the same cursor, and no number of pages comes to an end. |
| Paging.MaxSiblingBytes | internal/server/handlers_diff.go:237-245 | The largest total over all rows of the directory, attained by one of them, or zero. |
| Paging.TreePage | internal/server/handlers_diff.go:136-165 | A bad cursor is refused; otherwise rows, total, largest size and next cursor are those of the page of the filtered rows. |
| Embedding.TreeRowOf | internal/server/handlers_diff.go:173-216 | At depth 2 a row embeds exactly the least of the page limit, fifty, its number of children and the remaining budget, and the budget drops by as many; at depth 1 it embeds none and the budget stays. |
| Embedding.PageRows | internal/server/handlers_diff.go:155-161 | At either depth, one budget is spent over the rows from left to right. |
| Embedding.BudgetKept | internal/server/handlers_diff.go:173-216 | The response never embeds more rows than the budget; each row counts all its children, gets a prefix of them as long as the least of the page limit, fifty, their number and what earlier rows left of the budget, and is marked truncated if and only if the depth is 2 and that is not all; once a row is cut short, later rows get none. |
| Embedding.SeedPage | web/src/compare/fs/treeAdapter.ts:176-195 | None exactly when children were left out or there are none; otherwise the embedded rows with the child count, their largest size and no next cursor. |
| Embedding.SeedIsServersPage | web/src/compare/fs/treeAdapter.ts:176-195 | A row seeds a page if and only if it shows children and all of them were embedded; the seed then is the one page, with its total and largest size, that the server would send for that directory. |
| Embedding.MergePages | web/src/compare/fs/treeAdapter.ts:136-165 | The loops keep each row once, where its name, as JSON brought it to the client, is first seen. |
| Embedding.DedupKeepsDistinct | web/src/compare/fs/treeAdapter.ts:136-165 | Merging keeps all rows if and only if no two names come through JSON as one. |
| Embedding.ValidSeenApart | web/src/compare/fs/treeAdapter.ts:136-165 | Distinct names that are valid UTF-8 stay distinct. |
| Embedding.InvalidSiblingDropped | web/src/compare/fs/treeAdapter.ts:136-165 | In a directory to which two files have been added whose names differ in a byte that is not UTF-8, the client keeps one row. |
| Embedding.DedupTwice | web/src/compare/fs/treeAdapter.ts:136-165 | A page loaded again changes nothing. |
| Trailers.InterleaveTrailers | web/src/compare/fs/treeAdapter.ts:342-387 | The loops over items and stack produce the stack rendering followed by the root's trailer. |
| Trailers.RestRenders | web/src/compare/fs/treeAdapter.ts:342-387 | With any shallower directories open and any items to follow that are no deeper, a flattened forest renders as the recursion does and leaves the stack as it was. |
| Trailers.InterleavedIsRendered | web/src/compare/fs/treeAdapter.ts:342-387 | On the preorder of any tree the stack equals the recursion: items in order, each open directory's trailer once, right after its last descendant. |
| ComparisonCache.Cache.LookupLocked | internal/server/comparison.go:125-135 | The found entry moves to the front, the others keep their order; a miss changes nothing. |
| ComparisonCache.Cache.InsertLocked | internal/server/comparison.go:137-150 | A new entry goes to the front and the tail beyond the capacity is dropped; an existing key is only promoted. |
| SingleFlight.HitIsMostRecent | internal/server/comparison.go:125-135 | After a hit the entries are still the most recently used keys, as many as fit. |
| SingleFlight.InsertIsMostRecent | internal/server/comparison.go:137-150 | The same after an insertion. |
| SingleFlight.StepKeeps | internal/server/comparison.go:73-121 | Every step of every call keeps: in-flight keys are exactly those being assembled, none is cached, waiters wait for a call of their key, answers carry their key. |
| SingleFlight.OneAssemblyPerKey | internal/server/comparison.go:73-121 | In every interleaving at most one assembly of a key runs, and never of a cached key. |
| SingleFlight.BoundedAndRecent | internal/server/comparison.go:73-150 | In every interleaving the keys are distinct, at most capacity, disjoint from those in flight, and the first of the full recency order of hits and insertions. |
| SingleFlight.AnswersMatch | internal/server/comparison.go:73-121 | Every value returned for a key carries that key. |
| SingleFlight.InsertionIsNew | internal/server/comparison.go:137-150 | The insertion always finds its key absent. |
| SingleFlight.WaiterGetsLeadersAnswer | internal/server/comparison.go:82-96 | A waiter that does not give up returns what the call it waited for returned. |
| SingleFlight.LeaderReturnsItsResult | internal/server/comparison.go:73-122 | In every run a call whose assembly returned returns what it came to, comparison or error, and every comparison cached or returned is one that an assembly of the run returned. |
| SingleFlight.RequestIs | internal/server/comparison.go:73-122 | In every run a request for a cached key returns that entry at once; else it waits for exactly the call that is assembling the key, if there is one; else it assembles it. |
| SingleFlight.NoneStuck | internal/server/comparison.go:73-122 | In every run a request that has not returned can take a step, or waits for one that can. |
| PullTable.FirstVerdictStands | internal/ingest/manager.go:702-826 | Over any sequence of phases, cancellations, finishes and image reports, the first cancellation or finish decides the state and failure of a pull for good; until then it is live in the phase last reported, and its image is always the last one reported. |
| PullTable.RaceIff | internal/ingest/manager.go:778-818 | A cancellation and the end of the run give one result in either order, if and only if the pull is terminal already or the run ends cancelled anyway. |
| PullTable.SoundKeptIff | internal/ingest/manager.go:702-826 | An event keeps a pull's fields in agreement if and only if it is not a good finish of a live pull without an image. |
| PullTable.EvictsOldest | internal/ingest/manager.go:493-515 | Exactly the oldest terminal pulls go, as many as the table is over the cap, and the survivors keep their order. |
| PullTable.EvictLeaves | internal/ingest/manager.go:493-515 | Afterwards the table is within the cap or all pulls in it are live; no live pull has gone. |
| PullTable.Manager.EvictLocked | internal/ingest/manager.go:493-515 | The nested loops terminate in that table; an evicted pull's key entry goes unless a newer pull has taken it. |
| PullTable.Manager.NewPullLocked | internal/ingest/manager.go:455-470 | A new live pull is last in the order and takes its key. |
| PullTable.Manager.AdmitPull | internal/ingest/manager.go:417-431 | One lock hold joins the live pull the key names if there is one; else refuses if and only if there is a limit and as many slots are taken; else takes a slot. Joining and refusing change nothing. |
| PullTable.Manager.ReleaseSlot | internal/ingest/manager.go:434-443 | One slot is returned and the retention cap applied. |
| PullTable.Manager.Record | internal/ingest/manager.go:339-351 | A finished pull enters the table without a slot. |
| PullRuns.StepKeeps | internal/ingest/manager.go:339-515 | Every step of every pull, cancellation and submission keeps the slot count, the table and the consistency of each pull. |
| PullRuns.SlotsExact | internal/ingest/manager.go:417-443 | In every run inFlight counts exactly the pulls admitted and not released, never exceeds a positive limit, and is positive whenever a slot is returned. |
| PullRuns.RefusedIff | internal/ingest/manager.go:417-431 | In every run a submission joins the live pull its key names, and otherwise is refused if and only if there is a limit and exactly as many pulls hold a slot; where no record took the key of a live pull, it joins if and only if the key has a live pull. |
| PullRuns.OutcomeIsFirstVerdict | internal/ingest/manager.go:702-826 | In every run the first cancellation or finish decides a submitted pull for good; until then it is live in the phase last reported; its image is the last one reported. |
| PullRuns.TableStep | internal/ingest/manager.go:493-515 | What each step does to the table: a new pull goes last and takes its key, then, as at every release, the oldest terminal pulls go, as many as are over sixty-four, and with them the keys that still name them. |
| PullRuns.TableConsistent | internal/ingest/manager.go:455-515 | In every run the order is duplicate-free and lists known pulls, every key names a pull of that key in the table, no live pull is missing, done implies an image id, failed holds if and only if a failure is set, and a failed pull has no image id. |
| PullRuns.FrozenIff | internal/ingest/manager.go:780-825 | A terminal pull keeps its state and failure through a step, if and only if the step is not the second half of recording that pull. |
| PullRuns.CancelledThenDone | internal/ingest/manager.go:339-351 | That exception happens: cancelled between the two halves, a recorded pull ends up done. |
| PullRuns.RecordKeepsIff | internal/ingest/manager.go:339-343 | Recording a key keeps every live pull reachable by its key if and only if the key has no live pull. |
| PullRuns.OneLivePull | internal/ingest/manager.go:339-431 | Each key has at most one live pull in every state of a run, if and only if no record of the run takes a key that has a live pull; and then it is the one a resubmission joins. |
| PullRuns.TwoLivePulls | internal/ingest/manager.go:339-343 | With a record in between, one key gets two live pulls. |

## Left out

- CacheTheorems.RestartKeepsImages: speaks of the layers of each image; whether it is pinned is `CachePins.PinsSurvive`, and its time of last use only follows step by step (`CacheAlone.RecordBack`, `CacheDisk.SweptImagesAre`).
- CacheTheorems.RefusalExactInRuns: assumes that no file removal fails; with failing removals `CacheTables.ReserveEvictsShortestPrefix` still holds.
- CacheStore.Store.PutLayer: one uninterrupted call; the digest lock and all interleavings are steps of `CacheProtocol`.
- CacheStore.Store.Commit: one uninterrupted call, as above; the record's other fields are not modelled.
- Changeset.StreamBack: assumes that strings and maps are shorter than 2^63, as Go's int makes them.
- DiffTotals.DiffTotal: totals are unbounded integers; the code's 64-bit sums would wrap (so too `DiffRows.EveryRowTotals`).
- Paging.WalkIsAllRows: base64 and the JSON structure of a cursor are taken to round-trip, and the rows not to change between requests.
- PullTable.Manager.EvictLocked: reads which pulls are terminal once; in the code a pull can turn terminal while the loops run.
- PullRuns.FrozenIff: only state and failure are frozen; the image id and the progress fields of a terminal pull can still change, as in the code.
- SingleFlight.BoundedAndRecent: assumes that an assembly returns, with a comparison of the key asked for or an error.
- Squash.Squasher.Apply: a nil child map reads as the empty one; that the new node of a restated directory shares the map object of the node it replaces is not modelled, since the old node is unreachable.
- Reservations without a transaction (`reserve` with nil), which the store itself never makes.
- Two rewrites of one record whose staging writes overlap: they share a staging file name, and in the model a rewrite stages and renames its file in one step.
- File contents, fsync, permissions, the directory lock, staging directories, and the reading side of the store (`LayerIndex`, `Images`).
- The texts of errors and warnings, the cap on warnings, and `classifyPullFailure` beyond a code.
- Tar, gzip, zstd and JSON parsing, path sanitizing (the indexer takes sanitized names and targets), attribute filtering, digest checks of a layer, and SHA-256 itself.
- Byte-progress counters, timeouts and the clock beyond an ordered time stamp.
- The DTO copies, the path status and totals of a page, parameter parsing, and the cursor's query fingerprint beyond being a string.
- The client's filters, expansion and geometry apart from paging, trailers and the byte split of the size bar.
- Network, daemon and archive adapters, HTTP routing, the command line, and the React components.
