# nbdkit in Dafny

nbdkit is a server for NBD, the Network Block Device protocol: a client negotiates an
export with it and then reads, writes, zeroes, trims and queries a virtual disk that a
plugin provides through a chain of filters. This project models the parts of the server
whose correctness is least obvious from the code, and proves what they are for.

| file | what it models |
|---|---|
| `Common`, `Wire` | machine limits, big-endian fields, byte streams |
| `ZeroBuffer`, `Sparse`, `SparseHistory` | the sparse array allocator: a two-level page table that behaves as a flat byte array |
| `Extents`, `ExtentQuery`, `BlockStatus` | extent lists, the two functions that stitch and align them, and the block status reply of a sparse array |
| `Bitmap`, `Crc32` | the packed bitmap and the table-driven CRC-32 |
| `Capabilities`, `Requests`, `Errors`, `Calls`, `ZeroEmulation` | cached capabilities of a filter chain, request validation, errors on their way back, what reaches the plugin, emulation of zeroing |
| `Lifecycle`, `Locks` | open, prepare, finalize and close over a filter chain; thread models and locks |
| `Status`, `Replies`, `Transmission` | connection status, requests and replies on the wire, the workers of a connection |
| `Options`, `Handshake`, `Client` | option payloads, the newstyle negotiation, and what the client learns from it |

Everything that updates state in place is a class with methods (`SparseArray`,
`ExtentList`, `Bitmap`, `Backends`, `Disk`, `Server`, `Connection`, `Negotiation`), and
its loops are loops with invariants. What happens concurrently (`Locks`,
`Transmission`) is a transition system, and its theorems are about every run of it.
Callbacks of plugins and filters, the operating system and the TLS library answer
arbitrarily: a script or plan of their answers is a parameter, so that a theorem for all
scripts is one for all behaviours, and a contract can say which answers lead to success.

## The main results

* **Sparse array.** Any sequence of writes, fills, zeroes and blits leaves the bytes of a
  flat, zero-initialised array to which the same was done; it fails exactly if an allocation
  does, and then leaves a prefix of one operation (`SparseHistory.Replay`). A pass under the
  shared lock changes no page or directory, and after a zero no touched page is left mapped but
  all zero.
* **Extents.** After any sequence of accepted `nbdkit_add_extent` calls, the list is the
  canonical encoding of what was reported and covers exactly those bytes of the range, unless
  it is full. What `nbdkit_extents_full` returns is the canonical run-length encoding of the
  types below, which is unique; `nbdkit_extents_aligned` returns an aligned cover whose
  extents have exactly the type bits that all their bytes share. For a sparse array, every
  byte of a block that is flagged as a hole or as zero reads as zero.
* **Transmission.** In every interleaving of workers, requests leave the wire one header
  and one payload at a time, none behind a disconnect; each is executed and answered at most
  once; the output is a sequence of whole replies, each with its own cookie, from which the client
  reads how the request ended and, if it was executed, what the backend answered; and once the
  client has disconnected and the connection is not dead, every request it sent is answered.
  While a worker is busy, some worker can always go on.
* **Negotiation.** For every byte stream of a client: no context is open at the head of the
  option loop, base:allocation implies structured replies and in the end the right export,
  nothing reaches the backend before TLS if TLS is required, and the loop runs at most 320032
  times. It completes with the export that the last option on the wire names, and the client
  can tell from the replies what was negotiated. After a switch to TLS the outcome, the reply
  codes and all replies other than errors are independent of what came before; the text of
  errors is so exactly under a condition.
* **Locks.** Two threads can be inside two locking calls at once exactly if the thread
  model permits it, and no reachable state is a deadlock.
* **Requests.** A request is accepted exactly if the chain is able to do what it asks for and
  its flags and size are in order. What then reaches the plugin, through filters and emulation,
  is of the kind asked for and covers exactly the range, and with FUA it is durable in the end
  (`Calls.RequestIsServed`). A request that validation accepts meets all assertions of the calls that it
  triggers, in every layer, on entry and about the errors that come back, exactly if fast
  zeroing is asked for only where advertised and the plugin does not end an ordinary zero with
  "not supported".

## Where the code falls short of its promise

Each of these is proved with an instance and with the exact condition.

* `nbdkit_add_extent` checks that extents follow each other, but not after an extent that
  ends beyond `INT64_MAX` without wrapping: then some further call is accepted and breaks the
  list, exactly if the list is not empty and not full (`Extents.NextTracksIffHonest`,
  `Extents.OverlongCallUnchecked`, `Extents.OverlongCallSpoils`).
* An extent whose end wraps around 2^64 is not clipped: it takes the list as far as it should
  exactly if it starts beyond the range, or the list is full, or the range is empty (`Extents.WrappingCallIsWrong`,
  `Extents.WrappingCallSpoils`).
* The assertion in `extents_to_block_descriptors` fails exactly if the first extent is
  longer than `UINT32_MAX`, the count is that, and more than one extent is wanted. For a sparse
  array this means that 4 GiB from the offset on have one type and lie in the pages asked for
  (`BlockStatus.ToBlockDescriptors`, `BlockStatus.FirstIsLong`, `BlockStatus.LargestCountFails`).
* `bitmap_set_blk` does not cut its value to the width of a block
  (`Bitmap.ReadsBackIffFits`, `Bitmap.KeepsOthersIff`, `Bitmap.OversizeSpoilsNeighbour`).
* `validate_request` does not look whether fast zeroing was advertised
  (`Requests.AcceptedMeetsAsserts`, `Requests.FastZeroUnchecked`, `Requests.FastZeroTrips`).
* `backend_zero` asserts that an ordinary zero never fails with "not supported", but a plugin
  can answer that to a write or flush that stands in for it (`Errors.ExitsHoldIff`,
  `Errors.UnsupportedZeroTrips`).
* An error reply carries the text of the last error logged, and switching to TLS does not clear
  it: with tls=on a message about what was sent in the clear can go out under TLS. With
  tls=require nothing is logged before TLS (`Handshake.TlsForgetsThePast`,
  `Handshake.OldErrorShows`, `Handshake.RequiredTlsForgetsAll`).
* The write fallback of `plugin_zero` writes every chunk at the same offset
  (`ZeroEmulation.FallbackCompleteIff`, `ZeroEmulation.FallbackFallsShort`).
* A `NBD_OPT_SET_META_CONTEXT` that is refused may leave base:allocation selected
  (`Handshake.RefusedSetMeta`, `Handshake.RefusedSetMetaSelects`).

## Model

| member | source | states |
|---|---|---|
| `ZeroBuffer.IsZero` | common/include/iszero.h:48-61 | checking 16 bytes and then comparing the buffer with itself shifted by 16 decides whether every byte is zero |
| `ZeroBuffer.ShiftedCopyIsZero` | common/include/iszero.h:57-58 | a buffer is all zero exactly if it starts with 16 zeroes and equals its own shift by 16 |
| `Sparse.CompareL1Offsets` | common/allocators/sparse.c:180-188 | the comparison is negative below, zero on, and positive above the 128 MiB that a directory entry covers |
| `Sparse.AlignedCoversPages` | common/allocators/sparse.c:264-271 | for an aligned entry, covering a byte is covering its page, and the slot of the page is the byte distance divided by the page size |
| `Sparse.EntryOf` | common/allocators/sparse.c:252-254 | the linear scan that search is compared with: it finds a covering entry if there is one |
| `Sparse.OneEntryCovers` | common/allocators/sparse.c:190-227 | in an ordered directory no page is covered by two entries |
| `Sparse.SearchL1` | common/allocators/sparse.c:252-254 | binary search finds exactly what the linear scan finds |
| `Sparse.InsertL1Entry` | common/allocators/sparse.c:193-227 | the position found keeps the directory aligned, sorted and without overlap, so the assertion against a duplicate holds |
| `Sparse.InsertionOrdered` | common/allocators/sparse.c:198-222 | inserting an entry between those below and above it keeps the order |
| `Sparse.InsertedEntryOf` | common/allocators/sparse.c:193-227 | after an insertion every page that had an entry still has the same one |
| `Sparse.L1Base` | common/allocators/sparse.c:296 | a new entry starts at the multiple of 128 MiB that covers the offset |
| `Sparse.BaseCovers` | common/allocators/sparse.c:287-306 | the entry made for an offset that none covers is aligned, covers it and overlaps none, so the search is repeated at most once |
| `Sparse.SparseArray.constructor` | common/allocators/sparse.c:577-596 | a new array is valid and reads as zero everywhere |
| `Sparse.SparseArray.PageHome` | common/allocators/sparse.c:264-285 | a mapped page is a whole page and is reachable from one slot only |
| `Sparse.SparseArray.Lookup` | common/allocators/sparse.c:240-289 | finds the page of an offset without changing anything, and how much of it is left |
| `Sparse.SparseArray.LookupCreate` | common/allocators/sparse.c:240-307 | maps the page if need be, after at most two searches, and changes no byte; a page already mapped is returned as it is; otherwise one allocation is needed, or three if the directory is missing, and null is returned exactly if one of them fails |
| `Sparse.SparseArray.AddDirectory` | common/allocators/sparse.c:287-306 | adding a directory changes no byte and no page, and afterwards exactly the pages of that directory have an entry as well; it fails exactly if one of two allocations does |
| `Sparse.SparseArray.InsertDirectory` | common/allocators/sparse.c:193-227 | linking an empty directory keeps validity, every page and every byte |
| `Sparse.SparseArray.LinkPage` | common/allocators/sparse.c:272-280 | linking a new zero page changes no byte and no other page |
| `Sparse.SparseArray.CreatePage` | common/allocators/sparse.c:272-280 | a page that was not found is created exactly if its allocation succeeds, and no byte changes |
| `Sparse.SparseArray.PageChanged` | common/allocators/sparse.c:361-363 | storing into a mapped page changes exactly those bytes of the flat array |
| `Sparse.SparseArray.Store` | common/allocators/sparse.c:361-363 | a copy into a page is a patch of the flat array |
| `Sparse.SparseArray.FreePage` | common/allocators/sparse.c:455-456 | freeing a page makes exactly its bytes zero and leaves the other pages mapped |
| `Sparse.SparseArray.ReadPage` | common/allocators/sparse.c:321-334 | one round copies the bytes of the flat array, an unmapped page as zeroes, and advances |
| `Sparse.SparseArray.Read` | common/allocators/sparse.c:309-337 | the buffer holds exactly the bytes of the range, and the rest of it is untouched |
| `Sparse.SparseArray.WritePage` | common/allocators/sparse.c:348-368 | one round writes a prefix; under the exclusive lock it fails exactly if an allocation does, and without it creates nothing and asks to restart exactly if the page is missing |
| `Sparse.SparseArray.DoWrite` | common/allocators/sparse.c:341-371 | a prefix of the buffer is written, all of it exactly on success; the exclusive pass reaches the first page that cannot be had and fails exactly if an allocation does; the shared pass allocates nothing, changes no page or directory and stops at the first page that is not mapped |
| `Sparse.SparseArray.Write` | common/allocators/sparse.c:373-393 | a speculative pass and its exclusive restart together write exactly the buffer, or, exactly if an allocation fails, a proper prefix of it, at least as long as the first pass wrote: up to the first page that cannot be had, counted from the page table before either pass |
| `Sparse.ReachMapped` | common/allocators/sparse.c:341-371 | over mapped pages a write needs no memory to get to its end |
| `Sparse.SparseArray.Fill` | common/allocators/sparse.c:398-426 | exactly the range is filled, or, exactly if an allocation fails, a proper prefix of it, up to the first page that cannot be had; a fill with zero leaves no touched page mapped but all zero |
| `Sparse.SparseArray.FreeIfZero` | common/allocators/sparse.c:447-457 | a page left all zero is freed under the exclusive lock, and otherwise a restart is asked for; no byte changes |
| `Sparse.SparseArray.StillUseful` | common/allocators/sparse.c:428-465 | pages already dealt with stay mapped only if they hold a non-zero byte |
| `Sparse.SparseArray.ZeroPage` | common/allocators/sparse.c:436-462 | one round zeroes its part of the page and never fails; a whole page is zeroed only from its first byte on, as the assertion demands |
| `Sparse.SparseArray.ZeroRound` | common/allocators/sparse.c:436-462 | a round ends with its page or with the count, and leaves the page unmapped or useful |
| `Sparse.SparseArray.DoZero` | common/allocators/sparse.c:428-465 | a prefix is zeroed and nothing else; under the shared lock nothing is freed; when done, no touched page is mapped but all zero |
| `Sparse.SparseArray.Zero` | common/allocators/sparse.c:467-486 | exactly the range is zeroed, always with success, and no touched page is left mapped but all zero |
| `Sparse.SparseArray.ReadInto` | common/allocators/sparse.c:512-516 | reading the source straight into a page changes exactly those bytes |
| `Sparse.SparseArray.BlitPage` | common/allocators/sparse.c:504-530 | one round copies a prefix from the source, which does not change, up to the end of the page, and does not leave that page mapped but all zero; it copies nothing exactly if an allocation fails |
| `Sparse.SparseArray.BlitRound` | common/allocators/sparse.c:504-530 | earlier pages stay unmapped or hold some data across the round |
| `Sparse.SparseArray.Blit` | common/allocators/sparse.c:488-533 | exactly the range is copied from the other array, or, exactly if an allocation fails, a proper prefix of it; on success no touched page is left mapped but all zero |
| `SparseHistory.Apply` | common/allocators/sparse.c:339-533 | each operation, or the prefix of it that happened, has the effect that it has on a flat array, and fails exactly if an allocation does |
| `SparseHistory.Replay` | common/allocators/sparse.c:240-533 | after any history every byte is the one that the last operation covering it put there, and zero if none did; a history fails exactly if an allocation does, and then ends with a proper prefix of the failed operation |
| `Extents.CanonicalUnique` | server/extents.c:142-211 | there is only one run list that starts at a point, is contiguous, has no empty run, merges equal neighbours and describes given types |
| `Extents.CoalesceCanonical` | server/extents.c:198-210 | appending a run or extending the last one keeps the list canonical |
| `Extents.AddContinues` | server/extents.c:142-211 | a call changes the list exactly if it is accepted and reaches beyond it, and then by the part that is new, clipped to the end |
| `Extents.AcceptedIff` | server/extents.c:150-196 | a call is accepted exactly if it goes on where the last one ended and the first extent does not leave out the front of the range |
| `Extents.RunAcceptedIff` | server/extents.c:142-211 | a run of calls is accepted as a whole exactly if the calls adjoin and start at or before the range, or behind it, or are all empty |
| `Extents.AddKeepsGood` | server/extents.c:142-211 | a call keeps the list canonical for the types reported so far, and afterwards the next offset is where the call ended |
| `Extents.AddedRunIsCanonical` | server/extents.c:142-211 | after any sequence of successful calls the list is the canonical encoding of the added types: a byte of the range is in it if it was reported and only then, unless the list has the maximal number of extents |
| `Extents.NextTracksIffHonest` | server/extents.c:148-156 | the next offset remembers where a call ended exactly if the call ended at or before `INT64_MAX` |
| `Extents.OverlongIsClipped` | server/extents.c:162-196 | a call that ends beyond `INT64_MAX`, but does not wrap, adds the same runs as the call cut off at the end of the range |
| `Extents.OverlongKeepsRuns` | server/extents.c:142-211 | the runs after such a call are still canonical |
| `Extents.OverlongState` | server/extents.c:148-156 | after such a call, if accepted, the next offset is negative, which disables the check of contiguity |
| `Extents.UncheckedOverlap` | server/extents.c:148-156 | with the check disabled, and a list that is neither empty nor full, an overlapping extent is accepted and the list is no longer contiguous |
| `Extents.OverlongCallUnchecked` | server/extents.c:142-211 | after an accepted call that ends beyond `INT64_MAX`, but does not wrap, some further call breaks the list exactly if it is neither empty nor full |
| `Extents.OverlongCallSpoils` | server/extents.c:142-211 | a first call of 2^63 bytes is accepted, and then one for the first byte again, which overlaps |
| `Extents.WrappingCallIsWrong` | server/extents.c:156-210 | an accepted call whose end wraps around 2^64 takes the list as far as it should exactly if it starts beyond the range, or the list is full, or the range is empty; otherwise a list that is not empty ends beyond the range, or before its old end if the length of its last extent wraps too |
| `Extents.WrappingCallSpoils` | server/extents.c:156-210 | with five of ten bytes reported, a call of the largest length takes one byte away again, or adds an extent far beyond the end |
| `ExtentQuery.NewExtents` | server/extents.c:74-106 | a list is created exactly if its range is valid, and starts empty |
| `ExtentQuery.ExtentList.AddExtent` | server/extents.c:142-211 | the in-place operation has the effect and the result of the function that the lemmas are about |
| `ExtentQuery.ExtentList.AppendOrExtend` | server/extents.c:198-210 | either the last extent grows or a new one is appended, as in the function |
| `ExtentQuery.Layer.Extents` | server/extents.c:321-326 | any answer that reports types truthfully and non-empty gives a canonical list; otherwise the failure is passed on |
| `ExtentQuery.UptoStep` | server/extents.c:328-336 | adding the next run of an answer never fails and continues the result, as the assertions demand |
| `ExtentQuery.Stitch` | server/extents.c:328-339 | copying one partial answer moves the offset forward and keeps the result canonical up to it |
| `ExtentQuery.ExtentsFull` | server/extents.c:300-349 | however the layer below splits its answers, the result is the canonical encoding of its types on the range, cut only at the maximal number of extents; it is null exactly if the layer fails |
| `ExtentQuery.FirstCutToAlign` | server/extents.c:286-289 | cutting a long first extent to the alignment gives an aligned cover |
| `ExtentQuery.TruncatedIsAligned` | server/extents.c:229-238 | cutting the list at the first misaligned extent gives an aligned cover |
| `ExtentQuery.MergeRuns` | server/extents.c:251-280 | merging two extents under the intersection of their types claims no bit that a byte of either lacks |
| `ExtentQuery.MergeHead` | server/extents.c:275-283 | merging the short extent with the answer that follows keeps the list contiguous and truthful |
| `ExtentQuery.Requery` | server/extents.c:257-284 | the query for the bytes after a short extent stays inside the export and makes the first extent strictly longer |
| `ExtentQuery.MergeFront` | server/extents.c:250-285 | repeating it ends with a first extent at least as long as the alignment, whose type is the intersection of the types of that many bytes |
| `ExtentQuery.AlignExtents` | server/extents.c:228-294 | the scan for the first misaligned extent, which cuts or merges there and leaves an aligned answer alone |
| `ExtentQuery.CutReaches` | server/extents.c:232-238 | cutting a misaligned extent ends at its end rounded down from the offset |
| `ExtentQuery.ExtentsAligned` | server/extents.c:213-294 | the result is non-empty, contiguous from the offset, has lengths that are multiples of the alignment, and each extent has exactly the type bits that the layer below reports for all its bytes; it reaches the first misaligned boundary of the answer of that layer, rounded down, or one unit of alignment if that is more; it fails exactly if that layer does |
| `BlockStatus.TypesAreSound` | common/allocators/sparse.c:552-563 | a byte whose reported type has the hole or zero flag reads as zero, and a hole is always flagged zero |
| `BlockStatus.ClassifyPage` | common/allocators/sparse.c:549-563 | the type found for the rest of a page holds for all bytes of it |
| `BlockStatus.ReportRound` | common/allocators/sparse.c:564-571 | reporting one page never fails and extends the coverage |
| `BlockStatus.SparseExtents` | common/allocators/sparse.c:535-575 | the reported extents are canonical for the page types, start at the offset and cover exactly the rest of the pages that hold the range, unless the list is full |
| `BlockStatus.ToBlockDescriptors` | server/protocol.c:451-528 | the assertion holds exactly under a condition on the first extent and the count; then one block is cut to the count, or several follow the extents |
| `BlockStatus.StartsMatch` | server/protocol.c:485-513 | block j starts where extent j starts, and no block starts beyond the count |
| `BlockStatus.FirstIsLong` | server/protocol.c:496-511 | the first extent of a query is longer than 2^32-1 exactly if 4 GiB from the offset on have one type and lie in the pages asked for |
| `BlockStatus.LargestCountFails` | server/protocol.c:496-511 | a new array of 4 GiB, queried for 2^32-1 bytes from its start, fails the assertion |
| `BlockStatus.BlocksCover` | server/protocol.c:485-513 | the blocks reach the end of the queried range |
| `BlockStatus.OneIsTyped` | server/protocol.c:473-484 | with REQ_ONE there is one non-empty block, no longer than the count, whose flags are the types of all its bytes |
| `BlockStatus.ManyAreTyped` | server/protocol.c:485-513 | the blocks follow each other from the offset, all but the last sum to at most the count, and each has the flags of its bytes |
| `BlockStatus.Reply` | server/protocol.c:451-528 | the reply made from extents has these properties whenever it can be made |
| `BlockStatus.FlaggedReadsZero` | server/protocol.c:482-498 | every byte covered by a block with a flag reads as zero in the sparse array |
| `BlockStatus.FlaggedBlocks` | server/protocol.c:482-498 | likewise for all blocks of a reply |
| `BlockStatus.QueryExtents` | common/allocators/sparse.c:535-575 | the extents follow each other from the offset, have the page types, and reach the end of the range unless the list is full |
| `BlockStatus.SparseBlockStatus` | server/protocol.c:451-528 | from page table to block descriptors, for every range inside the export: the assertion holds exactly under a condition on the request and the pages, and then the reply has the types of the pages, and every byte of a flagged block reads as zero |
| `Bitmap.ReadsBackIffFits` | common/bitmap/bitmap.h:151-163 | a value reads back exactly if it fits in the bits of a block |
| `Bitmap.KeepsOthersIff` | common/bitmap/bitmap.h:151-163 | the other blocks are left alone, whatever they hold, exactly if no bit of the value lands outside the field |
| `Bitmap.OversizeSpoilsNeighbour` | common/bitmap/bitmap.h:151-163 | storing 3 in a block of one bit changes the next block |
| `Bitmap.BytesFor` | common/bitmap/bitmap.c:54-60 | the number of bytes covers every offset below the size, and is the least that does |
| `Bitmap.Bitmap.constructor` | common/bitmap/bitmap.h:67-86 | a new bitmap has the given width and no blocks |
| `Bitmap.Bitmap.GetBlk` | common/bitmap/bitmap.h:120-139 | the value of the block, or the default beyond the end |
| `Bitmap.Bitmap.SetBlk` | common/bitmap/bitmap.h:151-163 | the value is stored in its block exactly if it fits; blocks of other bytes never change, and those of the same byte do not if no bit lands outside the field |
| `Bitmap.Bitmap.Resize` | common/bitmap/bitmap.c:46-81 | old blocks keep their values, new ones are zero, and every offset below the new size has a block; it succeeds exactly if the size is addressable and the memory, if any is needed, is there, and a failure changes nothing |
| `Bitmap.Bitmap.Scan` | common/bitmap/bitmap.c:89-93 | the block-by-block scan stops at the first non-zero block or at a byte boundary |
| `Bitmap.Bitmap.NextNonZero` | common/bitmap/bitmap.c:97-104 | the byte-wise scan skips only blocks that are zero |
| `Bitmap.Bitmap.SomeBlock` | common/bitmap/bitmap.c:106-114 | a non-zero byte holds a non-zero block, so the abort is never reached |
| `Bitmap.Bitmap.Find` | common/bitmap/bitmap.c:106-114 | the scan of the non-zero byte stops at its first non-zero block |
| `Bitmap.Bitmap.Next` | common/bitmap/bitmap.c:83-115 | the least non-zero block from the given one on, or -1 if there is none |
| `Crc32.EntryIsShift8` | common/gpt/efi-crc32.c:63-116 | every entry of the table is eight steps of the bit-at-a-time division |
| `Crc32.TableStep` | common/gpt/efi-crc32.c:128-132 | one table lookup does what eight single-bit steps do |
| `Crc32.TableRemainder` | common/gpt/efi-crc32.c:120-134 | the loop over a buffer computes the bit-at-a-time remainder |
| `Crc32.EfiCrc32` | common/gpt/efi-crc32.c:136-140 | for every buffer the result is the CRC-32 of section 8 of RFC 1952 |
| `Capabilities.EffectiveRange` | server/backend.c:462-634 | an answer that respects the prerequisites stays in the range of its capability |
| `Capabilities.EffectiveIs` | server/backend.c:462-634 | without write there is no trim, zero, fast zero or FUA, without zero no fast zero, and otherwise the answer is that of the plugin |
| `Capabilities.Backends.GetSize` | server/backend.c:419-432 | the size of the plugin, cached in every layer on the way |
| `Capabilities.Backends.Can` | server/backend.c:462-634 | through any number of filters the answer is that of the plugin after its prerequisites, and is cached in each layer that was asked |
| `Capabilities.Backends.Ask` | server/protocol-handshake.c:100-170 | asking in the order of the handshake leaves everything asked so far cached |
| `Capabilities.Backends.AskWriting` | server/protocol-handshake.c:100-132 | the flags for writing, zeroing, trimming and FUA are exactly those of the effective capabilities, and it succeeds exactly if no answer to these five is an error |
| `Capabilities.Backends.AskMiddle` | server/protocol-handshake.c:133-150 | likewise for flush, rotational and multi-conn, which also needs parallel connections |
| `Capabilities.Backends.AskRest` | server/protocol-handshake.c:152-165 | likewise for cache, and extents is asked |
| `Capabilities.Backends.AdvertisedIs` | server/protocol-handshake.c:100-170 | each flag in terms of what the plugin answers: nothing that changes the disk is advertised unless it can be written |
| `Capabilities.Backends.CommonOpen` | server/protocol-handshake.c:74-173 | it succeeds exactly if the size and every effective capability can be had; then each is cached in every layer that it reaches, and the flags advertise exactly the effective capabilities |
| `Requests.RangeNeverWraps` | server/backend.c:386-392 | since the size is at most `INT64_MAX`, the 64-bit range check is the one on whole numbers |
| `Requests.LayerKnows` | server/backend.c:419-634 | after the handshake each layer has cached what the plugin was asked, and the size |
| `Requests.AssertsIffAble` | server/backend.c:636-868 | a layer meets the assertions at the head of a data call exactly if the chain as a whole is able to do it |
| `Requests.AbleInEveryLayer` | server/backend.c:636-868 | a call meets the assertions on entry in all layers below it, through emulated chunks too, exactly if the chain is able to do it |
| `Requests.AbleInChunks` | server/backend.c:758-868 | every chunk of an emulated zero or cache meets the assertions of the call that it makes |
| `Requests.ValidatedIsAble` | server/protocol.c:51-301 | an accepted request is one the chain is able to do exactly if it asks for fast zeroing only where advertised |
| `Requests.AcceptedIffAble` | server/protocol.c:51-214 | a request is accepted exactly if the chain is able to do it, fast or not, its flags belong to the command, reads and writes are at most 64 MiB, and DF and block status were negotiated |
| `Requests.RefusedBecause` | server/protocol.c:51-214 | EROFS exactly for a command that modifies a read-only export, ENOSPC exactly for a write or zero outside a writable one, ENOMEM exactly for a read or write that is only too large |
| `Requests.OpenedByHandshake` | server/protocol-handshake.c:74-173 | after the handshake the flags and the size are those that these results are about |
| `Requests.AcceptedMeetsAsserts` | server/protocol.c:51-301 | an accepted request meets all assertions on entry, in all layers, exactly under that condition |
| `Requests.FastZeroUnchecked` | server/protocol.c:51-226 | validation does not depend on the fast zero flag of a write-zeroes request |
| `Requests.FastZeroTrips` | server/protocol.c:51-226 | a filter over a plugin that zeroes natively but not fast, opened as the handshake does: a fast zero is accepted and breaks an assertion |
| `Errors.WritesFail` | server/plugins.c:799-810 | the fallback of a zero ends with the error of the first write that fails |
| `Errors.PluginErrors` | server/plugins.c:640-648 | a plugin call that fails always has an error number |
| `Errors.ZeroTripsIff` | server/plugins.c:751-818 | an ordinary zero ends with "not supported" exactly if the flush after it, or a write or the flush that stands in for it, is the first to fail and says so |
| `Errors.PassedUp` | server/backend.c:636-868 | the error of the plugin comes back unchanged through every layer, and each layer makes the same assertion about it |
| `Errors.ChunksHoldOnExit` | server/backend.c:776-790 | emulated zeroes and caches never trip an assertion about an error |
| `Errors.ExitsHoldIff` | server/backend.c:636-868 | the assertions about errors hold in all layers exactly if it is not an ordinary zero, done natively, that ends with "not supported" |
| `Errors.AcceptedMeetsAllAsserts` | server/backend.c:636-868 | an accepted request meets the assertions on entry and about errors exactly if it asks for fast zeroing only where advertised and no ordinary zero ends that way |
| `Errors.UnsupportedWriteTrips` | server/plugins.c:783-810 | it does if both .zero and the .pwrite after it say "not supported" |
| `Errors.UnsupportedZeroTrips` | server/backend.c:794-798 | an opened chain and an accepted zero request for which just that assertion fails |
| `Calls.WriteOrTrimMade` | server/plugins.c:688-749 | a write or trim is one callback with its offset and count, followed by a flush exactly if FUA is asked for and not native and the callback passed; the error is that of the first of them that fails |
| `Calls.PluginMade` | server/plugins.c:650-830 | every call starts with its own callback; with FUA success means that all stores carry it or a flush came last, and without nothing is flushed |
| `Calls.ChunksAreServed` | server/backend.c:758-868 | the chunks of an emulated zero or cache adjoin, cover the range if all pass, are at most 64 MiB, and have FUA on all or on the last |
| `Calls.CallIsServed` | server/backend.c:636-868 | a call reaches the plugin once and unchanged, or as those chunks, or not at all where the server answers for it |
| `Calls.RequestIsServed` | server/protocol.c:216-301 | the calls of an accepted request at the plugin are of the kind of its command or its emulation, store only if it modifies, adjoin from its offset and on success cover exactly its range; FUA, trimming, fast zeroing and one extent only are asked for exactly if the request does, and with FUA all is durable in the end |
| `ZeroEmulation.ChunksTile` | server/backend.c:776-790 | the emulated writes cover the range in order, without gap or overlap, each non-empty and at most 64 MiB |
| `ZeroEmulation.Disk.Pwrite` | server/plugins.c:670-719 | a write stores a prefix at its offset; it succeeds exactly if the write and, where FUA is not native, the flush do, and then with FUA it is durable |
| `ZeroEmulation.Disk.EmulatedZero` | server/backend.c:758-800 | it succeeds exactly if fast zeroing is not asked for and all writes and flushes of the chunks pass; success zeroes exactly the range through exactly those chunks, failure a prefix that ends within the last write made, and with FUA the whole range is durable |
| `ZeroEmulation.Disk.FallbackZero` | server/plugins.c:795-818 | it succeeds exactly if all its writes, which go to one offset, and the flush pass; success zeroes only the first 64 MiB of the range, and failure a prefix of them |
| `ZeroEmulation.FallbackCompleteIff` | server/plugins.c:799-810 | that is the whole range exactly if the count is at most 64 MiB or the rest was zero before |
| `ZeroEmulation.FallbackFallsShort` | server/plugins.c:799-810 | a range of 64 MiB and one byte is left with a byte that is not zero |
| `Lifecycle.Server.Open` | server/backend.c:238-307 | a failed open leaves open exactly what was open before; it succeeds exactly if the context can be made and .open passes, and then opens a chain of contexts that ends exactly where a filter skips its backend or the backend fails; earlier calls stay on record |
| `Lifecycle.ReachesPlugin` | server/backend.c:238-307 | the chain reaches the plugin exactly if every layer opens and no filter skips its backend |
| `Lifecycle.Server.Close` | server/backend.c:368-384 | every context of the chain is closed exactly once, outermost first |
| `Lifecycle.Server.Prepare` | server/backend.c:310-336 | innermost first, nothing twice; the prepared contexts are always an inner end of the chain, up to the first that fails, and all of it exactly on success |
| `Lifecycle.Server.Finalize` | server/backend.c:338-366 | called on exactly the prepared contexts, outermost first, up to the first that fails or failed before; only that one is marked |
| `Lifecycle.Server.Connection` | server/connections.c:188-254 | over a whole connection the calls recorded before are followed by those of the opens, then prepares, then finalizes of a fully prepared chain up to the first that fails, then closes, after which nothing is left open; which of them are made follows from what the callbacks answer |
| `Locks.EffectiveModelIsLeast` | server/filters.c:64-81 | the model of a chain is the least that any part of it allows, and the server exits exactly if some callback fails |
| `Locks.StepKeepsSound` | server/locks.c:77-139 | no step makes two threads hold conflicting locks |
| `Locks.RunIsSound` | server/locks.c:77-139 | no reachable state has two threads holding conflicting locks |
| `Locks.InsideIsCompatible` | server/locks.c:77-139 | two threads inside locking calls hold compatible sets of locks |
| `Locks.PermittedIsCompatible` | server/locks.c:77-139 | calls that the thread model permits together need no common lock |
| `Locks.CompatibleIsPermitted` | server/locks.c:77-139 | calls that it does not permit together always meet at a lock |
| `Locks.ModelIsExact` | server/locks.c:77-139 | some reachable state has two threads inside two calls exactly if the model permits it: one request in all, one for each connection, one connection, none during unload |
| `Locks.WantedInOrder` | server/internal.h:288-294 | calls nested in the documented order take locks of rising rank |
| `Locks.NoDeadlock` | server/internal.h:288-294 | in no reachable state does a set of threads wait in a circle |
| `Status.Connection.SetStatus` | server/connections.c:86-112 | the status only falls; the caller is told to shut down exactly when it falls to dead |
| `Status.Connection.SetAll` | server/connections.c:86-112 | over any sequence of calls exactly the first that asks for dead is told to shut down, and the workers are woken at most once |
| `Wire.FieldRoundTrip` | common/protocol/nbd-protocol.h:188-195 | a big-endian field gives back the number put in exactly if that number fits |
| `Replies.SimpleIsReply` | server/protocol.c:371-401 | a simple reply has the cookie of its request and the length that its reader expects |
| `Replies.StructuredIsReply` | server/protocol.c:403-445 | a structured reply has the cookie of its request and the length that its header announces |
| `Replies.PiecesAreReply` | server/protocol.c:371-617 | for every command and outcome the pieces sent make up exactly one whole reply |
| `Replies.DecodesSimple` | server/protocol.c:371-401 | a client reads from a simple reply the error, or the data, that were put in |
| `Replies.DecodesStructured` | server/protocol.c:403-618 | a client reads from a structured reply the type and the payload that were put in |
| `Replies.PiecesDecode` | server/protocol.c:371-618 | for every command and both styles, what a client reads from the pieces is exactly the error, or the offset and data, or the context and block descriptors, that the server has to say |
| `Transmission.OthersKeep` | server/protocol.c:621-761 | a step of one worker spoils nothing that another one relies on |
| `Transmission.OneFramed` | server/protocol.c:646-713 | taking a request with its payload off the wire leaves exactly the requests that follow it |
| `Transmission.WorkerKeepsInv` | server/protocol.c:621-761 | every step of a worker keeps the framing, the record of executions and replies, and the output |
| `Transmission.OutsideKeepsInv` | server/connections.c:119-140 | so do a disconnect asked for by the plugin and a quit of the server |
| `Transmission.RunKeepsInv` | server/protocol.c:621-761 | every reachable state satisfies the invariant |
| `Transmission.EndsBecause` | server/protocol.c:635-713 | a worker kills the connection exactly if it could not receive a request or payload or gives up on a reply, and notes that the client is done exactly at the end of the wire or at a disconnect |
| `Transmission.SomeWorkerCanGoOn` | server/protocol.c:621-761 | as long as a worker is busy some worker can take a step: one that waits for the read or write lock waits for a worker that does not wait, and the step loses input only if the wire ends inside a request or a refused payload is too large to skip |
| `Transmission.RequestsAdjoin` | server/protocol.c:635-713 | the requests on the wire follow each other, each one header and one payload long |
| `Transmission.TransmissionIsSafe` | server/protocol.c:621-761 | in every run: framing of the input, at most one execution and one whole reply per request with its own cookie, which the client reads as the error of the refusal or as what the backend answered, and as a success only if the request was executed; nothing behind a disconnect, and no request left unanswered unless the connection is dead |
| `Options.CheckedIsValid` | server/protocol-handshake-newstyle.c:350-365 | a string is accepted exactly if it is short enough, inside the payload and free of NUL |
| `Options.GoRoundTrip` | server/protocol-handshake-newstyle.c:579-626 | an INFO or GO payload is accepted with a name and information requests exactly if it is their encoding |
| `Options.ParsedQueriesEncode` | server/protocol-handshake-newstyle.c:889-935 | the queries accepted stand encoded in the payload, and they are all exactly if none is malformed |
| `Options.QueriesRoundTrip` | server/protocol-handshake-newstyle.c:889-935 | a list of queries is accepted exactly if the payload starts with its encoding |
| `Handshake.OptionRoundTrip` | server/protocol-handshake-newstyle.c:402-429 | an option is taken off the wire with the code, length and payload that were put there, and leaves what follows |
| `Handshake.AnswerQueries` | server/protocol-handshake-newstyle.c:889-935 | the loop answers exactly the well-formed queries, selects base:allocation exactly if it is among them, and logs the error of the first bad one |
| `Handshake.FinishIsSound` | server/protocol-handshake-newstyle.c:309-343 | opening an export drops a meta context that was set for another name |
| `Handshake.InfoOrGoIsSound` | server/protocol-handshake-newstyle.c:576-751 | a failed GO and every INFO close what they opened, and a successful GO leaves an export open, which OpensAsNamed ties to the name sent |
| `Handshake.OptionIsSound` | server/protocol-handshake-newstyle.c:399-964 | every option keeps what holds at the head of the loop: no open context, base:allocation only with structured replies, no backend call before required TLS |
| `Handshake.OptionIsAnswered` | server/protocol-handshake-newstyle.c:399-964 | for a fixed newstyle client an option that does not end the handshake is consumed whole and gets partial replies and then exactly one ACK or error |
| `Handshake.NegotiationIsSound` | server/protocol-handshake-newstyle.c:384-975 | for every input a completed negotiation has one open export, base:allocation only for that name and with structured replies, and TLS if required |
| `Handshake.OpensAsNamed` | server/protocol-handshake-newstyle.c:576-660 | for every INFO and GO the backend is asked to open the export that the payload names |
| `Handshake.OptionSelects` | server/protocol-handshake-newstyle.c:461-751 | only EXPORT_NAME and GO end the negotiation, with the export that they name open and its size and flags announced |
| `Handshake.ExportIsAsNamed` | server/protocol-handshake-newstyle.c:384-975 | for every input a completed negotiation has read exactly up to the end of an EXPORT_NAME or GO that encodes the name of the last export opened, and its last replies carry the size and flags of that one |
| `Handshake.NegotiationIsFramed` | server/protocol-handshake-newstyle.c:384-975 | round k deals with option k on the wire, and all but the last give it one complete answer |
| `Handshake.RoundsAreBounded` | server/protocol-handshake-newstyle.c:105-160 | the loop runs at most 32 times and, since exports are listed once, at most 32 times more for each of at most 10000 exports |
| `Handshake.AlikeOption` | server/protocol-handshake-newstyle.c:399-964 | connections that differ only in stale export flags cannot be told apart by an option |
| `Handshake.OptionIsVoiced` | server/protocol-handshake-newstyle.c:55-103 | an earlier error shows in an option only as the text of its error replies, and only if the option logs none itself |
| `Handshake.AkinRuns` | server/protocol-handshake-newstyle.c:384-975 | two negotiations that differ only in the last error go the same way with the same codes; their replies are equal exactly if the texts are, or no error is sent before another is logged |
| `Handshake.TlsForgetsThePast` | server/protocol-handshake-newstyle.c:523-574 | after STARTTLS the outcome, the codes and the other replies do not depend on the options sent before, but for the remaining budget and whether exports were listed; the text of errors depends on them exactly if the last errors differ and an error is sent before another is logged |
| `Handshake.OldErrorShows` | server/protocol-handshake-newstyle.c:358-362 | with tls=on, after a GO for a name with a NUL byte and STARTTLS, the error reply to a LIST with a payload carries the message about that name |
| `Handshake.RequiredTlsForgetsAll` | server/protocol-handshake-newstyle.c:441-458 | with tls=require any options before STARTTLS leave the state as it was, the last error included, but for the budget |
| `Handshake.RefusedSetMeta` | server/protocol-handshake-newstyle.c:794-941 | a SET_META_CONTEXT ends in an error exactly if a query is malformed, and selects base:allocation exactly if a query before that asked for it |
| `Handshake.RefusedSetMetaSelects` | server/protocol-handshake-newstyle.c:794-941 | a request whose second query is missing is refused and yet selects base:allocation |
| `Client.OptionIsLearned` | server/protocol-handshake-newstyle.c:399-964 | the replies to an option tell the client whether it changed TLS, structured replies or the selected context |
| `Client.ClientKnows` | server/protocol-handshake-newstyle.c:384-975 | at the end of a negotiation the client knows from the replies alone what the server has recorded, the context only unless its last attempt to select one was refused |
| `Client.InfoTells` | server/protocol-handshake-newstyle.c:660-740 | an acknowledged INFO or GO tells the size and flags, and of name, description and block size exactly what was asked for and is to be had |
| `Client.ListTells` | server/protocol-handshake-newstyle.c:105-160 | an acknowledged LIST names every export once and in order |
| `Handshake.Negotiation.Negotiate` | server/protocol-handshake-newstyle.c:384-975 | the loop computes the negotiation that the lemmas are about, with the same replies, consumed input and state; it ends sound, within the bound, and if it completes with the export that the client named |

## Modelling notes

* Integers are unbounded; `AddU64` and `AsInt64` write out the 64-bit wrap-around where the
  source can reach it.
* Rounding with a mask of a power of two is written with `%`, and the results hold for every
  positive alignment.
* A file offset plus a count is at most `INT64_MAX` in the allocator, as the server's range
  check guarantees.
* No path of `sparse_array_zero` fails, and `Sparse.SparseArray.Zero` says so.
* The last context on a chain need not be the plugin: a filter may skip opening its backend.
* In `Transmission` the bytes that the client will ever send are given, and a receive may fail
  at any point; the verdict of validation is arbitrary except for the size limit of reads and
  writes, and `Requests` is about the verdict itself.
* In `Errors` a callback fails with any error number, and a callback that a plugin lacks is one
  that fails with the number that the server then uses.
* In `Handshake` the last error is that of the thread, which may have logged one before the
  negotiation; what the backend logs during an option is arbitrary, and a successful switch to
  TLS logs nothing. The cache of default export names is filled arbitrarily, but
  each entry only once until it is wiped.

## Left out

- Sparse.SparseArray.Write: two threads in the shared and the exclusive pass at the same time are not interleaved; the passes are those of one thread.
- Sparse.SparseArray.AddDirectory: every insertion into the L1 vector asks for memory, also where the vector still has room.
- Sparse.SparseArray.Blit: the source is another sparse array with a disjoint page table, not one of the other allocators.
- ExtentQuery.ExtentList.AddExtent: an allocation failure, after which the next offset has already advanced, is not modelled.
- Handshake.Negotiation.Negotiate: sends succeed, allocations succeed, and a TLS upgrade succeeds or fails at once; failed caching of a default export name is not modelled.
- Transmission.TransmissionIsSafe: sends succeed, as after a failed one a later reply could follow a partial one.
- Replies.PiecesAreReply: the mapping from system error numbers to protocol error codes is not modelled; an error is the code sent.
- Errors.AcceptedMeetsAllAsserts: filters pass calls through, and a plugin does not set a negative error number, which would break an assertion in server/protocol.c:723.
- Calls.RequestIsServed: the bytes that a read returns or a write carries are not followed through the layers, only their range.
- Client.ListTells: a listed export is its place in the list of the backend, not its name and description.
- Locks.NoDeadlock: waiting for a worker thread to end and waiting for the network are not lock operations.
- Clients without fixed newstyle in the framing results: the server does not read the payload of an option that it refuses to them.
- The oldstyle handshake, and export flags as bit positions.
- The zstd and malloc allocators, and the regions and partitioning code.
- TLS records, and the timeout thread that sets the status of a connection directly.
- Sockets, signals, forking, logging, configuration and the loading of plugins.
- Replacement functions, Windows branches and the language plugins.
