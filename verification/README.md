# A replicated order book and its handoff rings, proved

This project models the replicated limit-order book of `smr-collections`, its snapshot
codec and capture protocol, the lock-free rings that hand tokens between threads, the
workload driver and digest around the book, and the two journal codecs, and proves what
they promise.

The book comes in layers.

* `BookSpec` is the book as a value: the order pool, the two price ladders, the free list
  threaded through the pool, the id index, and for every operation the exact state it
  leaves. `BookInvariant` names the slots of every queue and of the free list (`View`) and
  says what a well-formed book is (`Inv`): doubly linked queues with matching links, level
  counts and totals, cached best prices, a free list of marked slots, every allocated slot
  in exactly one place, an index that is exactly the live orders. `InsertKeeps`,
  `DepartKeeps` and `BookRuns` prove it over every operation and every run.
* `BookAccess` takes every operation apart into single memory accesses, in the order the
  copy-on-write book makes them.
* `PriceTime` forgets slots: one first-in-first-out queue of orders per level, and the
  obvious operations on queues. The slot-level book refines them. `BookEffects` says in plain
  numbers what each operation does to the book and to the queues.
* `FlatLadder`, `RustBook` and `GoBook` are the imperative flat books: arrays updated in
  place, a hash map or the open-addressing table of `IdMap` for the index. Each method
  computes the function of `BookSpec`; a panic of the source is a `false` result that
  leaves the book alone.
* `CowChunks` and `CowBook` are the chunked copy-on-write book. Chunks are heap objects
  shared by reference between the live tables and every captured root; the only guard on
  an in-place write is `born < gen`. `CowProtocol` is the same protocol at the grain of
  single memory accesses, with a reader between any two of them.
* `Wire`, `SbeFlyweight`, `SnapshotCodec`, `SnapshotWriter`, `SnapshotEncode`,
  `SnapshotRoundTrip`, `SnapshotRestore` and `SnapshotRestoreCow` are the snapshot image: its bytes (`Image`), the
  encoder that writes them through the generated flyweight, what any bytes decode to
  (`Decode`), the restores that do it, and the round trips. The layout is that of the Go
  flyweight (FIX Simple Binary Encoding 1.0, section 3).
  `SnapshotLayout` says which offset of an image shows which field and which images are
  refused, `SnapshotElements` what any accepted image restores to.
* `LiveCapture` and `StopTheWorld` put the writer and the serializer together: the encoder
  is stepped read by read between the single accesses of the writer's operations.
* `DigestSpec`, `DigestBook` and `DigestLayout` are the canonical digest, `Churn` the workload driver,
  `Handshake` the busy flag and channel of live capture, and `Mpsc`, `MpscProgress`, `MpscCalls`
  and `Spsc` the rings, as interleavings of atomic steps.
* `JournalSpec`, `JournalFlyweight` and `JournalStruct` are the two journal codecs,
  `JournalLayout` the bytes of a frame, `JournalWider` frames of a newer schema.

Rings and handshake are sequentially consistent interleavings with unbounded counters. Hash
function, checksum and random stream are arbitrary functions. Where the code and its own
comments disagree the code is followed: the driver's comment speaks of ids 1, 3, 5, …, but
`prebuild` issues consecutive ids, so only freshness is claimed.

Domain of the book, as its callers keep it: an inserted id is nonzero and not live, its
price lies on the ladder. An unknown id, or an insert into a full pool, panics in the
source and is modelled. Snapshots and digests are fixed width, so there every stored field,
level totals included, is in the range of its machine type.

## Model

| member | source | states |
|---|---|---|
| BookInvariant.EmptyInv | rust/smr-collections/common/src/book.rs:83-109 | a new book has the configured ladder and pool, holds nothing, and satisfies the whole representation invariant |
| BookSpec.ScanDown | rust/smr-collections/common/src/book.rs:252-257 | the rescan returns the highest occupied level of the prefix, or -1 when none is |
| BookSpec.ScanUp | rust/smr-collections/common/src/book.rs:265-271 | the rescan returns the lowest occupied level from a tick up, or -1 when none is |
| InsertKeeps.InsertInv | rust/smr-collections/common/src/book.rs:125-157 | insert keeps the full invariant, the new slot last in its queue |
| DepartKeeps.UpdateInv | rust/smr-collections/common/src/book.rs:159-169 | a partial fill keeps the full invariant and every queue |
| DepartKeeps.LeftInv | rust/smr-collections/common/src/book.rs:276-309 | a departure keeps the full invariant: the slot leaves its queue, heads the free list, the best is repaired |
| BookRuns.LegalIff | rust/smr-collections/common/src/book.rs:125-309 | in a well-formed book an operation is defined exactly when its caller keeps the domain and it does not panic |
| BookRuns.ApplyInv | rust/smr-collections/common/src/book.rs:125-309 | every operation keeps the full invariant |
| BookRuns.RunInv | rust/smr-collections/common/src/book.rs:125-309 | so does every run; slots never handed out stay blank, the configuration stays |
| BookRuns.ReachableKeeps | rust/smr-collections/common/src/book.rs:83-309 | every book reachable from the empty one is well formed, with the pool and ladder it was configured with |
| BookRuns.ViewUnique | rust/smr-collections/common/src/book.rs:12-34 | the stored links determine the queues and the free list: no book can be read two ways |
| BookRuns.InvCounted | rust/smr-collections/common/src/book.rs:188-218 | live orders plus free slots are exactly the allocated slots |
| BookRuns.ApplyCounted | rust/smr-collections/common/src/book.rs:188-218 | an operation raises the high-water mark exactly to the live count when that exceeds it |
| BookRuns.AllocExact | rust/smr-collections/common/src/book.rs:188-203 | allocation fails if and only if as many orders rest as the pool has slots; otherwise it hands out the head of the free list, or bumps |
| BookRuns.FreedFirst | rust/smr-collections/common/src/book.rs:188-218 | the slot of a departed order is the very next one handed out |
| BookRuns.HwmIsPeak | rust/smr-collections/common/src/book.rs:188-218 | along any run the high-water mark is the larger of its start and the peak number of live orders |
| BookRuns.HwmFromEmpty | rust/smr-collections/common/src/book.rs:188-218 | from an empty book it is exactly the peak number of live orders |
| BookAccess.AccessesAre | rust/smr-collections/common/src/cowbook.rs:232-389 | the single accesses of an operation, made one after the other in the order of the source, are possible and lead to the state of the operation |
| BookAccess.RunAccessesAre | rust/smr-collections/common/src/cowbook.rs:232-389 | so do the accesses of a whole run |
| PriceTime.InsertRefines | rust/smr-collections/common/src/book.rs:125-157 | insert appends the order to the back of one queue and touches no other |
| PriceTime.UpdateRefines | rust/smr-collections/common/src/book.rs:159-169 | update fills one order in place, capped at what remains; no queue order changes |
| PriceTime.LeftRefines | rust/smr-collections/common/src/book.rs:276-309 | a departure removes exactly the named order from the queues |
| PriceTime.ApplyRefines | rust/smr-collections/common/src/book.rs:125-309 | every slot-level operation is the reference operation on per-level queues |
| PriceTime.RunRefines | rust/smr-collections/common/src/book.rs:125-309 | every run of the slot-level book is the same run of the queues |
| PriceTime.CachesAgree | rust/smr-collections/common/src/book.rs:125-274 | level counts, level totals and cached best prices are those of the queues |
| PriceTime.ServeWithin | rust/smr-collections/common/src/book.rs:159-169 | one operation on the queues fills no order past its quantity or below zero |
| PriceTime.RunWithin | rust/smr-collections/common/src/book.rs:125-169 | over every run from an empty book no resting order is ever filled past its quantity or below zero |
| PriceTime.DropKeepsOrder | rust/smr-collections/common/src/book.rs:222-309 | a departure keeps the relative order of everyone else on the level |
| BookEffects.UpdateSays | rust/smr-collections/common/src/book.rs:159-169 | a partial fill adds the fill quantity while the order has that much left and completes it otherwise; its level loses exactly what it gained; every other record, level and scalar stays |
| BookEffects.InsertSays | rust/smr-collections/common/src/book.rs:125-157 | a new order is unfilled and last on its level, which gains its quantity; it takes the freed slot or the next unused one; the best price moves only for the better |
| BookEffects.DepartSays | rust/smr-collections/common/src/book.rs:205-309 | a departing order's level loses what the order had left; its record is freed, completed by a fill and as it was by a cancel, at the head of the free list; other records change only in their links |
| BookEffects.ServeInsertSays | rust/smr-collections/common/src/book.rs:125-157 | the same of the queues: one unfilled order more at the back of one queue |
| BookEffects.ServeUpdateSays | rust/smr-collections/common/src/book.rs:159-169 | the same of the queues: the named order is filled by the fill quantity or to its quantity, every other order is as it was |
| BookEffects.ServeDepartSays | rust/smr-collections/common/src/book.rs:276-309 | the same of the queues: exactly the orders with other ids stay |
| BookEffects.TickSays | rust/smr-collections/common/src/book.rs:112-114 | the level whose band of one tick holds the price; less than a tick below the ladder is level 0, lower prices wrap around 32 bits |
| FlatLadder.Ladder.constructor | rust/smr-collections/common/src/book.rs:83-109 | fresh arrays holding the empty book |
| FlatLadder.Ladder.AllocSlot | rust/smr-collections/common/src/book.rs:189-203 | pops the free list, else bumps, else reports exhaustion; the new state is the allocator's |
| FlatLadder.Ladder.Place | rust/smr-collections/common/src/book.rs:127-156 | the in-place writes of insert yield the specified state, links and best included |
| FlatLadder.Ladder.FillPart | rust/smr-collections/common/src/book.rs:159-169 | the in-place writes of update yield the specified state |
| FlatLadder.Ladder.FreeSlot | rust/smr-collections/common/src/book.rs:205-218 | marks the record, chains it to the old head and heads the free list |
| FlatLadder.Ladder.Unlink | rust/smr-collections/common/src/book.rs:222-242 | both neighbours and the level ends bypass the slot; the level is debited |
| FlatLadder.Ladder.RepairBest | rust/smr-collections/common/src/book.rs:247-274 | the rescan loops, entered only when the best level emptied, find the extreme occupied level |
| FlatLadder.Ladder.Withdraw | rust/smr-collections/common/src/book.rs:276-292 | the in-place writes of cancel yield the specified state |
| FlatLadder.Ladder.Complete | rust/smr-collections/common/src/book.rs:294-309 | the in-place writes of fill yield the specified state |
| RustBook.Book.constructor | rust/smr-collections/common/src/book.rs:83-109 | a valid, empty book |
| RustBook.Book.Insert | rust/smr-collections/common/src/book.rs:125-157 | the new state, or a panic exactly when the pool is exhausted; the invariant holds after |
| RustBook.Book.Update | rust/smr-collections/common/src/book.rs:159-169 | the new state, or a panic exactly when the id is unknown |
| RustBook.Book.Cancel | rust/smr-collections/common/src/book.rs:276-292 | the new state, or a panic exactly when the id is unknown |
| RustBook.Book.Fill | rust/smr-collections/common/src/book.rs:294-309 | the new state, or a panic exactly when the id is unknown |
| IdMap.TableSize | go/internal/smrcoll/book.go:33-40 | the smallest power of two at least twice the capacity |
| IdMap.GapIsMasked | go/internal/smrcoll/book.go:86-96 | the masked wrapping difference is the distance around the ring |
| IdMap.Table.constructor | go/internal/smrcoll/book.go:33-40 | an empty table of at least twice the capacity |
| IdMap.Table.Probe | go/internal/smrcoll/book.go:43-46 | the probe loop ends, at the key's cell or at an empty cell that proves its absence |
| IdMap.Table.Put | go/internal/smrcoll/book.go:42-49 | refines a map update for every hash function while one cell stays empty |
| IdMap.Table.Get | go/internal/smrcoll/book.go:51-65 | the mapped value, or NIL for an absent key or key 0 |
| IdMap.Table.Del | go/internal/smrcoll/book.go:72-98 | refines map removal; every surviving key stays reachable |
| IdMap.Table.ShiftBack | go/internal/smrcoll/book.go:80-97 | the backward-shift loop ends and restores every probe path, wrap-around included |
| IdMap.Table.Pull | go/internal/smrcoll/book.go:91-96 | moving an entry into the hole opens no other gap than its old cell |
| GoBook.Placing | go/internal/smrcoll/book.go:134-157 | whenever a slot can be allocated the id table can take one more key |
| GoBook.Book.constructor | go/internal/smrcoll/book.go:111-124 | a valid, empty book over an empty table |
| GoBook.Book.Insert | go/internal/smrcoll/book.go:134-157 | the same new state as the Rust book, the id table tracking the index |
| GoBook.Book.Find | go/internal/smrcoll/book.go:159-160 | an unknown id yields a slot past the pool, a live one its own |
| GoBook.Book.Update | go/internal/smrcoll/book.go:158-168 | the same new state as the Rust book |
| GoBook.Book.Cancel | go/internal/smrcoll/book.go:264-273 | the same new state as the Rust book, the id deleted from the table |
| GoBook.Book.Fill | go/internal/smrcoll/book.go:278-289 | the same new state as the Rust book, the id deleted from the table |
| CowChunks.NewTable | rust/smr-collections/common/src/cowbook.rs:85-132 | chunks of the given size, distinct objects of one generation, showing the initial items |
| CowChunks.Own | rust/smr-collections/common/src/cowbook.rs:155-163 | after the epoch test the cell's chunk is of the current generation and shows the same items; it was replaced only if it was older, and no other cell changed |
| CowChunks.Write | rust/smr-collections/common/src/cowbook.rs:190-193 | an in-place write through an owned chunk updates exactly one item of the flat sequence |
| CowChunks.Freeze | rust/smr-collections/common/src/cowbook.rs:393-410 | once the generation moves on, every chunk of a table is frozen and none is the writer's |
| CowBook.Root.OrderAt | rust/smr-collections/common/src/cowbook.rs:50-52 | reads the order as it was at the capture |
| CowBook.Root.LevelAt | rust/smr-collections/common/src/cowbook.rs:55-62 | reads the level as it was at the capture |
| CowBook.CowBook.constructor | rust/smr-collections/common/src/cowbook.rs:85-132 | a valid, empty book of generation 1 with no roots |
| CowBook.CowBook.OrderChunkUnique | rust/smr-collections/common/src/cowbook.rs:175-190 | an order chunk of the current generation is in one live cell and no root; whatever a root holds is older |
| CowBook.CowBook.BidChunkUnique | rust/smr-collections/common/src/cowbook.rs:196-229 | the same for bid chunks, across both lanes |
| CowBook.CowBook.AskChunkUnique | rust/smr-collections/common/src/cowbook.rs:196-229 | the same for ask chunks, across both lanes |
| CowBook.CowBook.OwnApart | rust/smr-collections/common/src/cowbook.rs:175-190 | no chunk the epoch test lets the writer write is held by a root |
| CowBook.CowBook.PutOrder | rust/smr-collections/common/src/cowbook.rs:155-193 | copy if older, then write: exactly one record of the flat pool changes |
| CowBook.CowBook.PutLevel | rust/smr-collections/common/src/cowbook.rs:196-229 | copy if older, then write: exactly one level of the flat ladder changes |
| CowBook.CowBook.Insert | rust/smr-collections/common/src/cowbook.rs:232-264 | the flat book's new state; every captured root still shows its own |
| CowBook.CowBook.Update | rust/smr-collections/common/src/cowbook.rs:267-277 | the flat book's new state; every captured root still shows its own |
| CowBook.CowBook.Cancel | rust/smr-collections/common/src/cowbook.rs:358-371 | the flat book's new state; every captured root still shows its own |
| CowBook.CowBook.Fill | rust/smr-collections/common/src/cowbook.rs:374-389 | the flat book's new state; every captured root still shows its own |
| CowBook.CowBook.Capture | rust/smr-collections/common/src/cowbook.rs:393-410 | a fresh root sharing the live chunks and showing the current book; the writer owns no chunk afterwards, the book is unchanged |
| CowProtocol.StepKeeps | rust/smr-collections/common/src/cowbook.rs:154-229 | each single access keeps the epochs, acts on the live table as if nothing were shared, and shows through no root |
| CowProtocol.RunKeeps | go/internal/smrcoll/cowbook.go:122-145 | so does every run of accesses and captures |
| CowProtocol.OwnedIsUnshared | rust/smr-collections/common/src/cowbook.rs:175-190 | a live chunk of the current generation is in no root |
| CowProtocol.ReadsAreStopped | rust/smr-collections/common/src/cowsnap.rs:261-309 | a reader interleaved anywhere among the writer's accesses sees what it would have seen with the world stopped |
| Wire.LERoundTrip | go/internal/smrcoll/booksnap/Utils.go:133-189 | reading back a little-endian integer of any width gives it back |
| Wire.SignedRoundTrip | go/internal/smrcoll/booksnap/Utils.go:165-197 | two's complement of any width gives back every value in range |
| Wire.TwosComplement | go/internal/smrcoll/booksnap/Utils.go:165-171 | read as an unsigned integer, the bytes of a negative number in range are the number plus 256 to the field width |
| Wire.SLEShows | go/internal/smrcoll/booksnap/Utils.go:157-171 | byte i of a field is its number shifted right by 8 i bits, cut to eight bits, negative numbers included |
| Wire.GetSShows | go/internal/smrcoll/booksnap/Utils.go:152-171 | the number read from any bytes is in range and is the one those bytes show |
| SbeFlyweight.Flyweight.Grow | go/internal/smrcoll/snapshot.go:106-113 | a buffer of exactly the size asked for, old or new |
| SbeFlyweight.Flyweight.Store | go/internal/smrcoll/booksnap/Utils.go:138-189 | the low bytes of the value, least significant first, nothing before them changed |
| SbeFlyweight.Flyweight.StartGroup | go/internal/smrcoll/booksnap/BookSnapshot.go:594-616 | the count truncated to 16 bits; refused above 65534 |
| SbeFlyweight.Flyweight.Next | go/internal/smrcoll/booksnap/BookSnapshot.go:649-661 | one element claimed, or a panic past the count or the buffer |
| SnapshotWriter.StartMessage | go/internal/smrcoll/snapshot.go:80-83 | frame header and root block |
| SnapshotWriter.AddLevel | go/internal/smrcoll/snapshot.go:92-94 | claims an element and writes exactly one level block |
| SnapshotWriter.AddOrder | go/internal/smrcoll/snapshot.go:100-102 | claims an element and writes exactly one order block |
| SnapshotWriter.Seal | go/internal/smrcoll/snapshot.go:116-120 | appends the checksum of everything written |
| SnapshotEncode.EncodedLengthExact | go/internal/smrcoll/snapshot.go:51-64 | the computed length is the length of the image |
| SnapshotEncode.Encoder.Begin | go/internal/smrcoll/snapshot.go:78-86 | the buffer is sized and the levels group opened, or the group count does not fit |
| SnapshotEncode.Encoder.AddLevel | go/internal/smrcoll/snapshot.go:86-95 | an occupied level is written, an empty one skipped; a panic only if a count does not fit |
| SnapshotEncode.Encoder.AddOrder | go/internal/smrcoll/snapshot.go:97-103 | the next slot is written; a panic only if a count does not fit |
| SnapshotEncode.Encoder.End | go/internal/smrcoll/snapshot.go:104-120 | the last byte of the buffer is the last byte of the trailer |
| SnapshotEncode.Encode | go/internal/smrcoll/snapshot.go:68-105 | the buffer is exactly the image, or a panic exactly when a group count exceeds 65534 |
| SnapshotEncode.StepRoot | go/internal/smrcoll/cowsnapshot.go:12-47 | one read of the root advances the encoder and keeps its invariant |
| SnapshotEncode.EncodeRoot | go/internal/smrcoll/cowsnapshot.go:12-47 | the image of the captured book, or a panic exactly when a group count exceeds 65534 |
| SnapshotLayout.ImageShows | go/internal/smrcoll/snapshot.go:68-105 | the image of any book shows header, scalars, occupied levels (bids before asks, ascending) and slots, every field at the offset of the schema, then the checksum, and nothing besides |
| SnapshotLayout.EmptyMarks | go/internal/smrcoll/snapshot.go:81-84 | the best price of an empty side and an empty free list go out as four bytes 255 |
| SnapshotLayout.DecodeScreened | go/internal/smrcoll/snapshot.go:124-162 | which bytes are refused, and as what, said of the bytes: too short, wrong trailer, wrong version, wrong capacity, in that order |
| LiveCapture.RootsAreChunks | rust/smr-collections/common/src/cowbook.rs:31-46 | nothing a root holds belongs to the serializer |
| LiveCapture.Touch | rust/smr-collections/common/src/cowbook.rs:154-229 | a single access of the writer changes the live book as if nothing were shared and leaves every captured root as it was, in the middle of an operation too |
| LiveCapture.ReadStep | rust/smr-collections/common/src/cowsnap.rs:261-309 | a serializer step leaves the live book and every root alone |
| LiveCapture.WriteStep | rust/smr-collections/common/src/cowsnap.rs:261-309 | a single access of the writer leaves the serialization alone |
| LiveCapture.CaptureAndServe | rust/smr-collections/common/src/cowsnap.rs:261-309 | under every interleaving of the root reads with the single accesses of later operations the bytes are the image at the capture, the book ends valid where the operations take it, and no chunk that existed at the capture is written again |
| StopTheWorld.Replay | rust/smr-collections/common/src/cowbook.rs:460-510 | operations mixed with captures leave the state of the operations alone, earlier roots intact |
| StopTheWorld.Lockstep | rust/smr-collections/common/src/cowbook.rs:231-389 | the two books carry the same state after any operations and captures |
| StopTheWorld.Stopped | rust/smr-collections/common/src/snapshot.rs:25-87 | the stop-the-world bytes are the image of the replayed flat book |
| StopTheWorld.Live | rust/smr-collections/common/src/cowsnap.rs:261-309 | the live bytes are the image of the book replayed to the capture point |
| StopTheWorld.LiveEqualsStopped | rust/smr-collections/common/src/cowsnap.rs:261-309 | for every history, capture point and interleaving of root reads with single later accesses the two are the same bytes |
| SnapshotRoundTrip.RebuiltIndex | go/internal/smrcoll/book.go:179-186 | the index rebuilt from the pool is the one the book carried |
| SnapshotRoundTrip.RestoreImage | rust/smr-collections/common/src/snapshot.rs:90-162 | decoding the image gives back every field: empty levels, untouched slots, free list and index included |
| SnapshotRoundTrip.ReplayAgrees | rust/smr-collections/common/src/churn.rs:275-303 | the restored book accepts every later run the original accepts, and both re-encode to the same bytes |
| SnapshotRoundTrip.ImageInjective | rust/smr-collections/common/src/snapshot.rs:219-235 | two books with the same image are the same book |
| SnapshotElements.RestoreSays | go/internal/smrcoll/snapshot.go:163-180 | of any accepted image: each level and slot holds what the last element naming it shows, or its initial value, the groups placed by the sizes the image announces; the index is that of the restored pool |
| SnapshotElements.TakeSays | go/internal/smrcoll/booksnap/BookSnapshot.go:702-967 | an element is there as long as its announced size ends before the trailer, and is read field by field at the offsets of the schema; any side byte but 1 is a bid |
| SnapshotRestore.RestoreLevels | go/internal/smrcoll/snapshot.go:163-172 | the group loop stores what decoding names, or panics where it does |
| SnapshotRestore.RestoreOrders | go/internal/smrcoll/snapshot.go:173-179 | the group loop stores what decoding names, or panics where it does |
| SnapshotRestore.RebuildIndex | go/internal/smrcoll/book.go:179-186 | a fresh table with room for the pool, mapping exactly the live slots |
| SnapshotRestore.Restore | go/internal/smrcoll/snapshot.go:124-182 | for every byte sequence, the book or the error that decoding names; short, corrupted, outdated or misfit images are refused as such, and a returned book had a good trailer, version and capacity and carries the scalars the bytes show |
| SnapshotRestore.RestoreReachable | rust/smr-collections/common/src/snapshot.rs:292-312 | the image of a reachable book restores to a valid book with the same state |
| SnapshotRestoreCow.RestoreLevels | go/internal/smrcoll/cowsnapshot.go:69-76 | the group loop stores what decoding names through the chunk tables, or panics where it does |
| SnapshotRestoreCow.RestoreOrders | go/internal/smrcoll/cowsnapshot.go:77-83 | the group loop stores what decoding names through the chunk tables, or panics where it does |
| SnapshotRestoreCow.RebuildIndex | go/internal/smrcoll/cowbook.go:302-309 | the index over the chunked pool is exactly the live slots |
| SnapshotRestoreCow.RestoreCow | go/internal/smrcoll/cowsnapshot.go:51-86 | for every byte sequence, the copy-on-write book or the error that decoding names, refused on the same grounds as for the flat book |
| SnapshotRestoreCow.RestoreCowReachable | rust/smr-collections/common/src/cowsnap.rs:245-259 | the image of a reachable book restores to a valid copy-on-write book with the same state |
| Mpsc.StartGood | rust/handoff-compare/src/mpsc.rs:28-62 | a new ring satisfies the invariant |
| Mpsc.StepKeeps | rust/handoff-compare/src/mpsc.rs:75-135 | every atomic step of every producer and of the consumer keeps the invariant |
| Mpsc.RunKeeps | rust/handoff-compare/src/mpsc.rs:75-135 | so does every interleaving |
| Mpsc.ExactlyOnceInOrder | rust/handoff-compare/src/mpsc.rs:7-10 | what was drained is always exactly the fill values of sequences 0, 1, 2, … in order: no loss, no duplicate |
| Mpsc.NoOverwrite | rust/handoff-compare/src/mpsc.rs:98-103 | a store never hits a slot whose published token is unconsumed |
| MpscProgress.Progress | rust/handoff-compare/src/mpsc.rs:82-135 | while a claimed sequence is undelivered some step that is not a spin is enabled and decreases a measure |
| MpscProgress.CanDeliverAll | rust/handoff-compare/src/mpsc.rs:82-135 | from every reachable state such steps alone deliver everything claimed |
| MpscProgress.DrainBounded | rust/handoff-compare/src/mpsc.rs:117-135 | one drain hands out at most `cap` tokens, whatever its `max` |
| MpscCalls.DrainTakesPublished | rust/handoff-compare/src/mpsc.rs:117-135 | from every reachable ring an undisturbed drain returns, hands out exactly the next k tokens and stores the head behind them, where all k are published and k is `max` or the next is not |
| MpscCalls.DrainHandsOut | rust/handoff-compare/src/mpsc.rs:117-135 | whatever steps a drain takes undisturbed, wherever it stands, this is what it has handed out when it returns |
| MpscCalls.ScanEndsWhenDry | rust/handoff-compare/src/mpsc.rs:120-127 | under every interleaving a drain's scan ends only at `max` tokens or at an unpublished next sequence |
| MpscCalls.PublishFills | rust/handoff-compare/src/mpsc.rs:75-105 | where the ring has room an undisturbed batch_publish returns, having claimed and published exactly the next sequences, each slot showing its fill value under its round |
| MpscCalls.PublishWaits | rust/handoff-compare/src/mpsc.rs:85-97 | where it has none the producer waits: nothing is stored or published, only its cached head may change |
| Spsc.StepKeeps | rust/handoff-compare/src/spsc.rs:65-157 | every atomic step of producer and consumer keeps the invariant |
| Spsc.BoundedFifo | rust/thread-handoff/ring/src/spsc.rs:76-130 | popped tokens are a prefix of pushed ones, occupancy never exceeds `cap`, cached indices never pass the real ones |
| Spsc.PushTest | go/cmd/thread-handoff-ring/spsc.go:47-60 | testing for a full ring by equality is the burst test for one token |
| Spsc.NeverBothStuck | go/cmd/thread-handoff-ring/spsc.go:47-78 | a producer and a consumer inside an operation are never both stuck |
| Spsc.BurstIsPushes | rust/handoff-compare/src/spsc.rs:84-104 | wherever the ring has room, seen or not, a burst and the same pushes end in the same state: a stale cached head is reloaded by the burst and by exactly one push; the tail moves past the burst and its slots hold its tokens |
| Spsc.BurstWaits | rust/handoff-compare/src/spsc.rs:93-101 | where it has none, whatever the producer does it still waits and has stored and published nothing |
| Spsc.DrainIsPops | rust/handoff-compare/src/spsc.rs:143-157 | for every `max` and however stale the cached tail, a drain takes the least of `max` and what is visible and ends where as many pops end; one that finds nothing leaves all but the cached tail alone |
| Spsc.DrainTakes | rust/handoff-compare/src/spsc.rs:143-157 | a drain hands out the next `max` pushed tokens, or all it sees when that is less: up to the cached tail, or up to the real one when the cached one shows none |
| Churn.SwapRemoves | go/internal/smrcoll/churn.go:81-84 | swap-remove takes out exactly one id and keeps the rest distinct |
| Churn.LadderPrice | rust/smr-collections/common/src/book.rs:335-344 | a generated price maps back to the level it was drawn for |
| Churn.Churn.InsertOp | rust/smr-collections/common/src/churn.rs:64-80 | a fresh id, a price on the ladder, a positive quantity, for every random stream; level and side are those of the first draw, the quantity that of the second |
| Churn.Churn.NextOp | rust/smr-collections/common/src/churn.rs:84-98 | even indices insert, odd ones depart; the first draw picks the victim, the second fill or cancel; the victim is a live id and is swap-removed |
| Churn.Prebuild | rust/smr-collections/common/src/churn.rs:101-106 | exactly `steady` orders rest, the driver's ids are theirs, nothing panics; the book ends where the generated inserts take it |
| Churn.Advance | rust/smr-collections/common/src/churn.rs:84-119 | the book takes exactly the op that the next two draws give; the driver's ids stay the resting ones and the count balanced |
| Churn.Drive | rust/smr-collections/common/src/churn.rs:64-119 | for every stream, `steady + 1` slots suffice, two draws make an op, the book is the run of the generated ops from the empty one; the live count stays within one of `steady` |
| DigestSpec.SortedUnique | rust/smr-collections/common/src/digest.rs:49-52 | the list sorted by id is determined by the orders in it |
| DigestSpec.DigestIffContents | rust/smr-collections/common/src/digest.rs:1-4 | equal digests exactly when the queues are equal |
| DigestBook.LiveListed | rust/smr-collections/common/src/digest.rs:26-32 | the collected orders, sorted, are exactly the resting ones by ascending id |
| DigestBook.BestsShow | rust/smr-collections/common/src/digest.rs:33-34 | the best prices shown are those of the queues |
| DigestBook.Sort | rust/smr-collections/common/src/digest.rs:49-49 | the same orders, ascending by id |
| DigestBook.Walk | rust/smr-collections/common/src/digest.rs:42-45 | the link walk ends and yields the level's ids front to back |
| DigestBook.DigestFlat | rust/smr-collections/common/src/digest.rs:24-54 | the digest of the flat book's queues |
| DigestBook.DigestRoot | rust/smr-collections/common/src/digest.rs:56-87 | the digest of the queues at the capture |
| DigestBook.InRangeFits | rust/smr-collections/common/src/digest.rs:6-22 | a book whose stored fields are in the ranges of their machine types has queues every field of which the digest shows in full |
| DigestBook.SameDigestIffSameQueues | rust/smr-collections/common/src/digest.rs:131-180 | whatever the slots and free lists, two books on one ladder digest alike exactly when every level queues the same orders |
| DigestLayout.DigestShows | rust/smr-collections/common/src/digest.rs:33-35 | the digest of a book shows best bid, best ask and number of orders at offsets 0, 4 and 8, and is as long as its levels and orders make it |
| DigestLayout.DigestShowsLevel | rust/smr-collections/common/src/digest.rs:9-14 | every occupied level is shown behind those before it: side, tick, total, count, ids front to back |
| DigestLayout.DigestShowsOrder | rust/smr-collections/common/src/digest.rs:16-22 | every resting order is shown behind the levels: id, price, quantity, filled, side |
| DigestLayout.LevsListed | rust/smr-collections/common/src/digest.rs:36-48 | the levels shown are exactly the occupied ones, bids before asks, ascending |
| Handshake.StepKeeps | rust/smr-collections/live_mvcc_churn/src/main.rs:33-127 | every step of writer and serializer keeps the invariant |
| Handshake.OneInFlight | rust/smr-collections/live_mvcc_churn/src/main.rs:87-99 | under every schedule at most one root is in flight, and a send always finds the channel empty |
| Handshake.TriggersAre | rust/smr-collections/live_mvcc_churn/src/main.rs:82-84 | the number of trigger iterations in closed form |
| Handshake.SamplesAndSkips | rust/smr-collections/live_mvcc_churn/src/main.rs:33-127 | after the join the samples are captures 0, 1, 2, … in order, and without the warm one they and the skips are the triggers |
| Handshake.Decides | rust/smr-collections/live_mvcc_churn/src/main.rs:83-93 | under every schedule a trigger decided with a root in flight is skipped, one decided with none is not, and nothing else counts as a skip |
| Handshake.CapturesWhenIdle | rust/smr-collections/live_mvcc_churn/src/main.rs:83-93 | a trigger decided with nothing in flight has sent exactly one more capture, and skipped none, when its iteration ends; the writer never waits on the way |
| Handshake.SkippedIffBusy | rust/smr-collections/live_mvcc_churn/src/main.rs:83-93 | under every schedule the skips are exactly the triggers that found a root in flight; after the join every other one is a sample |
| Handshake.IdleSamplesAll | rust/smr-collections/live_mvcc_churn/src/main.rs:83-93 | with the serializer idle at every trigger nothing is skipped and every trigger is sampled |
| Handshake.NoDeadlock | rust/smr-collections/live_mvcc_churn/src/main.rs:33-127 | under every schedule, until the join one of the two can move |
| Handshake.RunBounded | rust/smr-collections/live_mvcc_churn/src/main.rs:33-127 | every schedule is finite, with a bound in the number of iterations; so every maximal one joins |
| JournalSpec.FrontOf | go/internal/serjournal/journalsbestruct/JournalRecord.go:35-76 | header and group dimensions of a frame read back |
| JournalSpec.RootOf | go/internal/serjournal/journalsbestruct/JournalRecord.go:35-76 | the root block of a frame reads back |
| JournalSpec.EntryReads | go/internal/serjournal/journalsbestruct/JournalRecord.go:233-262 | every entry of a frame reads back at its place: fixed fields, text length, text |
| JournalLayout.FrameShows | go/internal/serjournal/sbe.go:31-59 | the frame of any record shows template, schema and version, every root field and every entry, a flag as byte 1 or 0, at the offsets of the schema, and nothing besides |
| JournalFlyweight.PutText | go/internal/serjournal/journalsbe/JournalRecord.go:1134-1146 | length and text at the shared position, which moves past them, or a panic exactly when they do not fit |
| JournalFlyweight.PutEntry | go/internal/serjournal/sbe.go:45-57 | exactly one entry is appended, or a panic past the count or the buffer |
| JournalFlyweight.Encode | go/internal/serjournal/sbe.go:31-59 | the frame, or a panic exactly when it has more than 65534 entries or does not fit |
| JournalFlyweight.Decode | go/internal/serjournal/sbe.go:62-90 | for every byte sequence, the record it decodes to, or a panic exactly where a read leaves the buffer |
| JournalFlyweight.DecodesFrame | go/internal/serjournal/sbe.go:62-90 | every field of a frame comes back, each text cut to the 64 KiB scratch buffer |
| JournalWider.FlyweightSkips | go/internal/serjournal/journalsbe/JournalRecord.go:617-703 | a frame whose blocks carry more bytes than this schema knows still gives back every field: the flyweight steps by the announced block lengths |
| JournalStruct.SliceWriter.Write | go/internal/serjournal/sbe_struct.go:18-25 | copies what fits and reports exactly whether all did |
| JournalStruct.Encode | go/internal/serjournal/sbe_struct.go:63-73 | the buffer ends up with as much of the frame as fits |
| JournalStruct.EncodersAgree | go/internal/serjournal/sbe_struct.go:63-73 | whenever the flyweight encoder does not panic the two write the same bytes |
| JournalStruct.Decode | go/internal/serjournal/journalsbestruct/JournalRecord.go:84-165 | for every byte sequence, the record it decodes to, or an error exactly where a read passes the end |
| JournalStruct.DecodesFrame | go/internal/serjournal/journalsbestruct/JournalRecord.go:84-165 | every field of a frame comes back, texts whole |
| JournalWider.StructSkips | go/internal/serjournal/journalsbestruct/JournalRecord.go:146-148 | the struct decoder steps over such bytes when the frame says that its version is newer |
| JournalStruct.CrossDecode | go/internal/serjournal/sbe_struct.go:76-104 | each decoder on the other's output: the struct one recovers the record, the flyweight one exactly when every text fits its scratch buffer |

## Left out

- JournalStruct.Decode: of bytes that end too soon it states that decoding ends in an error; the source drops that error and folds the record as far as it was filled.
- JournalFlyweight.Encode: command texts are shorter than 2^32 bytes, the width of their length field.
- SnapshotRestore.Restore: follows the Go restore, which rebuilds the index after the orders; the Rust one indexes while it reads, and the two differ only on images no book encodes to.
- SnapshotRestore.RebuildIndex: equality of the rebuilt table with the original is as a map; the cells may be laid out differently.
- SnapshotRoundTrip.RestoreImage: asks that every field is in the range of its machine type and that both group counts are at most 65534; the codec's integers are fixed width, the book's are unbounded.
- GoBook.Book.Insert: the table object is fixed at construction; the source replaces it only while restoring.
- Reads and writes of single fields inside one order or level record: an access is one whole record.
- JournalWider.StructSkips: says nothing of a frame with longer blocks whose version is not newer; the struct decoder then reads the extra bytes as the next field.
- Encoder panics leave the reused buffer with a partial image; nothing is stated about it.
- Inserts whose price is off the ladder, whose id is 0 or already live: outside the domain of the source.
- Reference counts, pointer provenance, cache-line padding, weak memory orderings and 64-bit counter wrap-around.
- CRC-32C, Fibonacci hashing and the random generator: uninterpreted functions.
- The checksum folded by the journal decoders: the fields it folds are returned instead, in the same order.
- Range checks and generated metadata accessors, which the codecs do not call here.
- Sockets, files, process spawning, environment parsing, timing and memory samples, result lines.
- The `ultima_*` cells and the Rust `booksnap` crate: their source is not part of this model; the Go flyweight's layout stands for both.
- Protobuf, FlatBuffers, bincode and Bebop codecs: their readers and writers are in libraries.
- Spin, condition-variable and backoff ping-pongs: no state shared beyond one flag.
