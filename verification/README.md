# A model of the in-memory store

The program is a memcached-like server. Its store keeps items in chunks that a slab allocator cuts from pages; a chained
hash index, one LRU list for each size class and the allocator's free lists are all threaded through the same item
nodes, which are reference counted and carry a CAS id. Threads reach the store under bucket locks, `cache_lock` and
`slabs_lock`. This project models that store, the two protocols around it (handing a socket to a worker, sending a
reply), and proves what they keep.

## Layers

1. **The map.** `CacheSpec.dfy` says what the store means: a map from key to value, expiry, CAS id and flags, the atomic
   events on it, and the reply table of `do_store_item`. `CacheRuns.dfy` proves what holds over every run of events: CAS
   ids never return, expired items stay unseen, appended payloads follow each other.
2. **The heap.** `Items.dfy`, `SlabClasses.dfy`, `Slab.dfy`, `HashTable.dfy`, `LruQueues.dfy` and `LruList.dfy` are the
   classes of `slab.h` and `slab.cpp` with their fields and pointers. `LruList.Valid()` ties them together; every
   operation keeps it, and its contract gives the new map as a function of the old one. `Pictures.dfy` holds the value
   side of those proofs. `Structure.dfy` states what validity means for one chunk, one class and the map.
   `Commands.dfy` is the connection's part of set, delete and get. `Session.dfy` is the event loop of the one worker
   that `memcached.cpp` configures, over any number of connections: a store is two events, the command line and the
   arrival of its value, others may be served in between, and a client may hang up. `Snapshots.dfy` records, between
   events, what an allocation would meet (free chunks, memory, and who holds each linked item since when), so that
   every refusal and every eviction of a session is accounted for. `SessionRuns.dfy` shows that every such session
   follows a run of the map, states what clients can rely on over whole sessions, and starts one where the program
   starts.
3. **The threads.** `Interleaving*.dfy` is a step model of any number of threads over the three ranks of locks, with the
   trylock of the eviction scan. It proves the lock discipline for chains, list ends, list nodes, counters and free
   lists, the one data race there is on these and that it decides nothing, deadlock freedom, termination, and that every
   interleaving refines a run of the map with one atomic decision per store.
4. **Smaller parts.** `Hash.dfy` (hash, bucket, lock index), `Bytes.dfy` (the copies of append and prepend),
   `HandOff.dfy` (queue and notify pipe), `Reply.dfy` (short writes), and `AsWritten.dfy`.

On the heap, ghost fields of an item count the references still held (`handles`) and those a client forgot (`leaks`; the
get command never gives its reference back). An item that has been handed out but is not filled in, or whose flag byte
claims to be linked or slabbed, is outside `ready`, the set of items the store accounts for.

## Where the code is repaired

The main theorems are about the code with these lines repaired. Each literal version is kept, with an input on which it
goes wrong and the exact condition under which it does what is meant.

- `hash_delete` clears a whole bucket when the key is at its head (`HashDeleteAsWritten`, slab.cpp:331-334).
- `item_unlink_q` never moves head and tail (`ItemUnlinkQAsWritten`, slab.cpp:410-417).
- `do_item_remove` compares the count before the decrement with 0, so nothing is ever freed (`RemoveAsWritten`, slab.cpp:433).
- `do_item_alloc` takes an item that one client holds and passes over one nobody holds, and a dangling `if` leaves `it`
  null (`PickAsWritten` beside `PickFor`, slab.cpp:607 and 632-635).
- `do_item_alloc` never writes the class of the new item, so all items are on list 0 (`EvictionIsDead`, slab.cpp:625-655).
  Repaired, it stamps the class and hands the client one reference, which the client gives back after the store.
- A CAS of an absent key follows a null pointer (`DecideAsWritten`, slab.cpp:693-696). Repaired, it replies NOT_FOUND.

Kept as they are, because they are part of what a client sees: the client's flags share a byte with the store's own
bits, so that some stores are answered STORED and leave the key unbound (`StoredIsBoundIff`); append and prepend
compare the CAS id unconditionally, so that without an id they never store (`PlainAppendNeverStores`); `noreply` does
not suppress a reply; the get command leaks its reference; an expiry can wrap to "never" (`ExpiryKeptIff`).

Also kept: tail repair frees an item nobody has linked or bumped for three hours even if a client still holds it; in the
model that client's reference is void from then on. And `item_free` compares the item with the heads and tails of the
lists without `cache_lock`; that is a data race with a link or unlink in another thread (`RaceIff`, `TheRaceIsReached`),
but an item that is not linked is never an end of a list, before or after that step (`CheckIgnoresTheRace`).

And two ways to lose a chunk for good are kept and stated exactly: a connection that closes while its store waits for
the value, and a store whose flag byte is dirty (`ServeOne`); a page of 2^31 bytes or more can never be had, its length
being an `int` (`DoSlabsNewslab`).

Assumed from outside the store: the clock does not go back, and the connection passes values with their line end.
Whether realloc, malloc, a try_lock or a write succeeds is a parameter.

## Model

| member | source | states |
|---|---|---|
| CacheSpec.ReplyTable | memcached/slab.cpp:667-773 | which of the four replies every command gives for every key, clock and id, each as an if-and-only-if |
| CacheSpec.StoredEffect | memcached/slab.cpp:696-760 | STORED binds the key to the right blob under an id above all others and moves no other key |
| CacheSpec.RefusedStoreEffect | memcached/slab.cpp:678-715 | any other reply changes nothing but lazy expiry of the key itself |
| CacheSpec.LiveEffect | memcached/slab.cpp:552-559 | a lookup unbinds its key exactly when the key's expiry has passed |
| CacheSpec.BindEffect | memcached/slab.cpp:454-475 | a link takes a fresh id, and a dirty flag byte leaves the key unbound |
| CacheSpec.ApplySound | memcached/slab.h:48-51 | every event keeps ids distinct, nonzero and below the counter |
| CacheSpec.StoredButAbsent | memcached/conn.cpp:626 | with client flags 1 the reply is STORED and the key is absent |
| CacheSpec.StoredIsBoundIff | memcached/slab.cpp:455 | STORED leaves the key bound exactly when bits 0 and 2 of the flags are clear or the command joins |
| CacheSpec.PlainAppendNeverStores | memcached/slab.cpp:711-714 | an append or prepend that sends no id is never stored |
| CacheSpec.JoinTrims | memcached/slab.cpp:735-746 | joining two blobs joins their payloads |
| CacheRuns.RunSound | memcached/slab.h:48-51 | over every run ids stay sound and the counter never goes back |
| CacheRuns.CasIdNeverReturns | memcached/slab.cpp:454-490 | a binding is still there, id and value, exactly when nothing has taken effect on the key since it was read |
| CacheRuns.CasStoresIffUndisturbed | memcached/slab.cpp:690-706 | a cas is STORED exactly when no store, delete, eviction or expiry of the key took effect since the read |
| CacheRuns.RacingCasStoresOnce | memcached/slab.cpp:690-706 | of two cas stores with the same id at most one is STORED |
| CacheRuns.ExptimeKept | memcached/slab.cpp:659-665 | only a touch or a store changes the expiry of a bound key |
| CacheRuns.ExpiredStaysUnseen | memcached/slab.cpp:552-559 | once the clock has reached an item's expiry no lookup sees it again, and a lookup takes it out |
| CacheRuns.JoinedPayload | memcached/slab.cpp:710-748 | after any number of appends and prepends the payload is all payloads in order |
| SlabClasses.BuildClasses | memcached/slab.cpp:54-93 | the table of classes: each size the last times 6/5, aligned; as many chunks a page as fit; it ends where the code ends it, with fewer than POWER_LARGEST classes |
| SlabClasses.SizesRise | memcached/slab.cpp:66-83 | sizes rise strictly from each class to every later one |
| SlabClasses.LoopStops | memcached/slab.cpp:66 | the loop of the constructor ends by size, long before POWER_LARGEST |
| SlabClasses.SlabsClsid | memcached/slab.cpp:95-105 | the least class that fits, 0 exactly for 0 bytes or too many, and the bound on what an inner class wastes |
| Slabs.Slab.constructor | memcached/slab.cpp:54-90 | before its last line, for every item size the unsigned arithmetic does not wrap: the table of classes, valid, owning no memory |
| Slabs.Slab.SlabsPreallocate | memcached/slab.cpp:107-119 | one page for each class but the last, up to maxslabs, whatever the limit |
| Slabs.Slab.DoSlabsAlloc | memcached/slab.cpp:130-158 | takes the head of the free list, after a new page if the list is empty; null exactly when there is neither; every other class is untouched |
| Slabs.Slab.PopFree | memcached/slab.cpp:141-156 | the chunk leaves the free list, is charged, and was not handed out before |
| Slabs.Slab.GrowSlabList | memcached/slab.cpp:160-173 | the page list doubles from 16 exactly when it is full and realloc succeeds |
| Slabs.Slab.DoSlabsNewslab | memcached/slab.cpp:175-195 | succeeds exactly when the limit allows it, realloc and malloc succeed, and the length of the page fits an int; mem_malloced never shrinks, and past the limit a class that owns a page never grows |
| Slabs.Slab.AddPage | memcached/slab.cpp:186-194 | one page of new chunks in front of the free list, and mem_malloced grows by its bytes |
| Slabs.Slab.SplitPage | memcached/slab.cpp:210-217 | the chunks of the page are pushed one by one, the last in front |
| Slabs.Slab.DoSlabsFree | memcached/slab.cpp:226-245 | an idle chunk goes to the head of its class; one with a class set, or a bad class, is refused |
| Slabs.Slab.SlabsFree | memcached/slab.cpp:219-223 | a handed-out chunk returns once and its charge is taken off |
| Slabs.Slab.SlabsAdjustMemRequested | memcached/slab.cpp:248-253 | in-place reuse moves the charge from the old size to the new one |
| Slabs.RowJoins | memcached/slab.cpp:210-217 | free and handed-out chunks stay exactly the slots of the pages when a page is added |
| Slabs.ChunkTaken | memcached/slab.cpp:141-150 | and when a chunk is taken |
| Slabs.ChunkReturned | memcached/slab.cpp:231-241 | and when one comes back |
| Slabs.PageShape | memcached/slab.cpp:178-193 | a new page keeps the accounting, and the limit is passed by no more than first pages |
| Slabs.PageAdded | memcached/slab.cpp:191-192 | mem_malloced stays the sum over all pages |
| Slabs.ListSizeDoubles | memcached/slab.cpp:162-170 | the page list has 0 or 16 times a power of two entries |
| HashIndex.HashTable.constructor | memcached/slab.cpp:255-274 | an empty index |
| HashIndex.HashTable.HashFind | memcached/slab.cpp:291-307 | returns the one item with the key, or null exactly when there is none |
| HashIndex.HashTable.HashInsert | memcached/slab.cpp:309-318 | the item is at the head of its bucket; other buckets are untouched |
| HashIndex.HashTable.HashDelete | memcached/slab.cpp:320-345 | takes out the one node with the key, keeps the order of the others, and counts it |
| HashIndex.HashTable.CutNode | memcached/slab.cpp:336-343 | the pointer to the pointer: the predecessor or the bucket leads past the node |
| HashIndex.HashTable.HashDeleteAsWritten | memcached/slab.cpp:320-345 | what the literal code leaves of chain and count |
| HashIndex.DeleteAsWrittenLosesAKey | memcached/slab.cpp:331-334 | an index with two keys in one bucket: deleting the one at the head loses the other and leaves the count at 2 |
| HashIndex.DeleteAsWrittenIsRightIff | memcached/slab.cpp:320-345 | the literal code is right exactly when the key is not at the head |
| Hashing.OneByteMatters | memcached/slab.cpp:276-289 | two keys of one length that differ in exactly one byte never have the same hash |
| Hashing.LockIsBucket | memcached/slab.cpp:347-362 | the lock index is the bucket index, and two keys share a lock exactly when they share a bucket |
| Hashing.HashLock | memcached/slab.cpp:347-362 | the lock an operation takes for its key is that of the bucket its key hashes to |
| Hashing.NewStore | memcached/slab.cpp:54-119 | the store as the program starts it: valid and empty, and unless a page could not be had, one page for each class but the last |
| Lru.LruQueues.ItemLinkQ | memcached/slab.cpp:377-399 | the item becomes head of its list; heads, tails, sizes and the order by time are kept |
| Lru.LruQueues.ItemUnlinkQ | memcached/slab.cpp:401-425 | one node leaves, its neighbours join, heads and tails follow |
| Lru.LruQueues.ItemUnlinkQAsWritten | memcached/slab.cpp:410-417 | the literal ends are right exactly for a node strictly inside its list |
| Lru.UnlinkAsWrittenKeepsTheEnds | memcached/slab.cpp:410-417 | a list of one item: after the literal unlink, head and tail still lead to the item that has left |
| Lru.SkippedIsLinked | memcached/slab.cpp:418-422 | a list whose neighbours skip a node is mutually inverse without it |
| Lru.DropSorted | memcached/slab.cpp:401-425 | unlinking keeps the list sorted by time |
| ItemStore.LruList.constructor | memcached/slab.cpp:368-375 | an empty store is valid |
| ItemStore.LruList.Preallocate | memcached/slab.cpp:107-119 | the pages of the start keep the empty store valid |
| ItemStore.LruList.UnlinkedIsNoEnd | memcached/slab.cpp:819-828 | an item that is not linked is head or tail of no list |
| ItemStore.LruList.ItemFree | memcached/slab.cpp:819-833 | the chunk goes back exactly when the item is not linked and nobody refers to it: the comparison with heads and tails never decides |
| ItemStore.LruList.DoItemRemove | memcached/slab.cpp:428-436 | one reference less, and the chunk goes back exactly when it was the last |
| ItemStore.LruList.Detach | memcached/slab.cpp:439-450 | flag, chain and list are left together |
| ItemStore.LruList.DoItemUnlink | memcached/slab.cpp:439-452 | a linked item leaves index and list and loses the link's reference; another is left alone |
| ItemStore.LruList.DoItemLink | memcached/slab.cpp:454-475 | a clean item enters index and list under the next id and the present time; a dirty one is refused |
| ItemStore.LruList.DoItemUpdate | memcached/slab.cpp:477-490 | an item not bumped for a minute moves to the head and keeps its id; another stays |
| ItemStore.LruList.DoItemReplace | memcached/slab.cpp:492-497 | the map is bound to the new item, and other items are untouched |
| ItemStore.LruList.DoItemGet | memcached/slab.cpp:509-570 | lazy expiry on the map, one reference more on the item found, null exactly when the key is unbound afterwards |
| ItemStore.LruList.Serve | memcached/slab.cpp:552-565 | the found item is served or, past its expiry, taken out |
| ItemStore.LruList.DoItemTouch | memcached/slab.cpp:659-665 | a lookup that overwrites the expiry in the map |
| ItemStore.LruList.FromSlab | memcached/slab.cpp:625-655 | a new item of the class asked for, in nobody's structures, with one reference; null exactly when the class can serve nothing |
| ItemStore.LruList.Recycle | memcached/slab.cpp:618-641 | an evicted chunk is charged anew and handed over without visiting the free list |
| ItemStore.LruList.RepairTail | memcached/slab.cpp:609-612 | an item nobody has used for three hours is unlinked and freed, whoever still holds it |
| ItemStore.LruList.SkipHeld | memcached/slab.cpp:607-616 | a held item keeps its count, or is repaired exactly when it is aged |
| ItemStore.LruList.Choose | memcached/slab.cpp:618-642 | reuse exactly if expired, or if the slab has nothing and eviction is allowed; else a chunk, or null exactly if there is none |
| ItemStore.LruList.TryItem | memcached/slab.cpp:607-650 | the scan stops exactly at an item only its link refers to |
| ItemStore.LruList.ScanTurn | memcached/slab.cpp:590-651 | one turn: the next node is valid although this one may be gone, placeholders cost no try, a locked bucket is passed over |
| ItemStore.LruList.ScanTail | memcached/slab.cpp:584-651 | the scan stops at the oldest item it gets hold of that nobody holds, or after five charged items, or at the head; what it takes out is exactly that item, if it is reused, and the older ones it got hold of that were held and aged; an item counts as got hold of if the lock of its bucket was free at the very try it was charged for; no chunk but the result is newly handed out; memory only grows |
| ItemStore.LruList.DoItemAlloc | memcached/slab.cpp:572-656 | an unlinked item of the least class that fits, with one reference; null only if that class has no chunk and can have no page; at most five items are taken out, all linked items of that class whose bucket lock was free at some try, each held and aged but for the one returned, which nobody held and which had expired or, with evict_to_free, was wanted for lack of a chunk; at most one chunk is newly handed out |
| Pictures.LockWasFree | memcached/slab.cpp:590-605 | an item the scan gets hold of had its lock free at one of five tries |
| ItemStore.LruList.Fill | memcached/conn.cpp:621-629 | filling in an item makes it ready, unless its flag byte is dirty |
| ItemStore.LruList.AllocApart | memcached/slab.cpp:717-725 | an append's allocation cannot reclaim the item it extends, nor the one offered; its chunk is of the least class that fits; the keys lost are those of the at most five items taken out, each with its reason; it fails only if the class can serve nothing |
| ItemStore.LruList.JoinItem | memcached/slab.cpp:717-747 | the joined item: old key and expiry, no flags, both blobs, in a chunk that holds them; its allocation takes out at most five items, each with its reason, and fails only if the class can serve nothing |
| ItemStore.LruList.PutOffered | memcached/slab.cpp:751-760 | the last branch binds the key to the offered item |
| ItemStore.LruList.StoreCas | memcached/slab.cpp:690-706 | the CAS branch answers and acts as the table says |
| ItemStore.LruList.ResolveStore | memcached/slab.cpp:678-761 | every branch answers and acts as the table says; only a join may be refused for want of a chunk, and only if there is none, and only a join takes items out, at most five, each with its reason; who has the key afterwards and since when |
| ItemStore.LruList.DoStoreItem | memcached/slab.cpp:667-773 | reply and map are those of the reply table less evicted keys; only a join takes items out: at most five, linked, of the class it needs, each due for tail repair but for one, and it fails for room only if there is none; every reference taken is given back; every item but those, and the offered items of other clients, are untouched; the key's own item is linked just now if the reply is STORED, else as it was |
| ItemStore.LruList.Release | memcached/slab.cpp:809-817 | giving back a reference frees the item exactly when it was the last, and the map does not notice |
| Pictures.ItemsKept | memcached/slab.cpp:377-507 | an operation on one item keeps every other item in order |
| Pictures.AllGivenBack | memcached/slab.cpp:763-766 | lookup, join and the final releases balance for every item |
| Pictures.RepliedBy | memcached/slab.cpp:667-773 | eviction before the decision and after it come to the same map |
| Structure.WhereIs | memcached/slab.cpp:226-507 | a chunk is on one free list or handed out; if it is linked it is on one chain, that of its key, and one LRU list, that of its class, and else on none; the bit ITEM_LINKED of a filled item says which (that of an offered item with a dirty flag byte says nothing) |
| Structure.CountersAreTrue | memcached/slab.cpp:130-425 | hashitems, list sizes, sl_curr, slabs and requested are the true counts; free plus handed out is slabs times perslab |
| Structure.ChunkAddress | memcached/slab.cpp:210-217 | every chunk is at exactly one page and slot |
| Structure.RequestedIsTheItems | memcached/slab.cpp:26-29 | with all items filled in, requested is the sum of item_total over the chunks handed out |
| Structure.ItemsFit | memcached/slab.cpp:572-582 | no chunk handed out is charged more than it holds, and every filled item fits into its chunk |
| Structure.WriteJoined | memcached/slab.cpp:717-747 | the bytes of a joined item are copied into the rest of its chunk without passing its end |
| Structure.MemoryIsBounded | memcached/slab.cpp:175-195 | mem_malloced is the sum of all pages and passes a nonzero limit by at most one page a class |
| Structure.ReferencesAreCounted | memcached/slab.cpp:428-475 | refcount is the link plus what is held plus what is leaked |
| Structure.QueuesAreSorted | memcached/slab.cpp:377-425 | LRU lists are sorted by time, acyclic and mutually inverse |
| Structure.MapIsSound | memcached/slab.h:48-51 | the map of a valid store has distinct, nonzero ids |
| Commands.ExpiryMeaning | memcached/conn.cpp:23-33 | when an item with the expiry a client sent is gone |
| Commands.ExpiryCanBeLost | memcached/conn.cpp:31 | near the 32-bit wrap a nonzero expiry becomes "never" |
| Commands.ExpiryKeptIff | memcached/conn.cpp:23-33 | exactly when that happens |
| Commands.OfferItem | memcached/conn.cpp:605-629 | the item is what the client sent, in a chunk that holds it, or there was no room and a set takes the old binding away; the items taken out, at most five, each with its reason; whoever waits or holds is untouched, and no other key looks different |
| Commands.StoreOffered | memcached/conn.cpp:739-793 | the line sent is that of the reply table, the client's reference is given back, and clients that wait are untouched; a stored item is left with its link as the only reference; the offered chunk stays handed out to nobody exactly when its flag byte was dirty |
| Commands.Abandon | memcached/conn.cpp:717-725 | a connection closed while it waits: its chunk stays handed out, its reference is counted as leaked, and nobody else notices |
| Commands.LineTells | memcached/conn.cpp:739-793 | the line tells whether the value was stored and nothing else |
| Commands.DeleteKey | memcached/conn.cpp:465-489 | the key is unbound; the answer says whether it could be seen |
| Commands.GetValue | memcached/conn.cpp:491-551 | returns the entry and the flag byte that is sent, exactly if the key can be seen; the reference stays counted as leaked |
| Commands.FlagsNeverComeBack | memcached/conn.cpp:531 | no client gets back the flags it stored: the byte sent holds ITEM_LINKED and ITEM_FETCHED |
| Snapshots.FactsAgree | memcached/slab.cpp:572-656 | what an allocation may take out and whether it is sure to succeed can be read off a snapshot: the linked items' class, references, expiry and last bump, the free lists, the pages and the page lists |
| Snapshots.FreeStays | memcached/slab.cpp:130-158 | a chunk leaves a free list only to be handed out, so an operation that hands out one chunk shortens one list by one |
| Snapshots.EnsuesHere | memcached/slab.cpp:572-656 | from one event to the next: no item of another key looks different, memory only grows, and only the free list of the class asked for may lose a chunk |
| Sessions.Serve | memcached/conn.cpp:140-246 | the event loop over any number of connections: every event gets the answer of the table, other connections being served between the two halves of a store; only waiting connections hold references; each event takes out no more than its allocation may and lacks room only if the class has none, both read off the snapshot before it, the first of which is that of the store at the start; memory only grows; a chunk that nobody will ask for again never comes back, and each connection closed while it waited leaves one more |
| Sessions.ServeOne | memcached/conn.cpp:140-246 | one event; the chunk of a connection that stops waiting stays handed out for good exactly when the connection was closed or the flag byte of its item was dirty |
| SessionRuns.HandledIsRun | memcached/slab.cpp:667-773 | every event is a run of expiry and evictions, and one atomic decision of the store the connection owes if its value arrived |
| SessionRuns.SessionIsRun | memcached/conn.cpp:140-246 | every session on the heap follows a run of the map through the states between its events; the events of the run between two of them come from the request, none is a touch, and every value stored has its line end |
| SessionRuns.StillOwed | memcached/conn.cpp:706-793 | a connection that waits for a value waits for the same until it arrives, whatever others do |
| SessionRuns.CasStoredIffEntryStands | memcached/slab.cpp:690-706 | a cas that sends the id a get returned is answered STORED exactly when the key is still bound to that entry and seen when the value arrives, whatever other connections did in between |
| SessionRuns.ExpiredIsNeverServed | memcached/slab.cpp:552-559 | two gets that return the same id return the same entry, and none does so once the clock has reached its expiry |
| SessionRuns.JoinsAddUp | memcached/slab.cpp:710-748 | while only appends and prepends answered STORED give a bound key new ids, its payload is all prepended payloads, the payload at the start, and all appended payloads, in order |
| SessionRuns.NotRefusedWhileChunksLast | memcached/slab.cpp:130-158 | a store is not refused for memory as long as the class of its item had more free chunks than events have asked for since |
| SessionRuns.StaysWhileSpared | memcached/slab.cpp:584-651 | an entry stays as it is through all events that nothing entitles to take it out: those on other keys while it is unread, unexpired and not wanted for lack of a chunk, or read and used within three hours |
| SessionRuns.StoredStays | memcached/slab.cpp:454-490 | an entry answered STORED and linked is still there after any events of which none is on its key, comes after its expiry, or must evict for lack of a chunk |
| SessionRuns.RunFromStart | memcached/memcached.cpp:22-57 | from the start of the program: the map is sound at every point and ids only rise; if the first pages together, or any one of them, exceed the limit, no class but the last ever owns more than one page |
| Interleaving.StartPlanSafe | memcached/slab.cpp:775-876 | the code of every operation takes its locks in rank order, changes only what it holds, and returns holding none |
| Interleaving.StorePlanSafe | memcached/slab.cpp:667-773 | so does every branch of a store |
| Interleaving.ProbePlanSafe | memcached/slab.cpp:604-650 | so does the scan once it holds a trylock |
| InterleavingTheorems.StepRefines | memcached/slab.cpp:439-876 | every step of every thread keeps the invariant and is one event of the map or none |
| InterleavingTheorems.InitInv | memcached/slab.cpp:255-274 | the initial system satisfies the invariant |
| InterleavingTheorems.BeginKeeps | memcached/slab.cpp:775-876 | starting an operation keeps the invariant |
| InterleavingTheorems.NeverStuck | memcached/slab.cpp:347-366 | while some thread is unfinished some thread can step, for any number of threads |
| InterleavingTheorems.DoneHoldsNothing | memcached/slab.cpp:775-876 | an operation that returns has released every lock |
| InterleavingTheorems.AccessIsGuardedIff | memcached/slab.cpp:291-833 | an access to a chain, list end, list node, counter or free list is made without the lock that guards it exactly when it is item_free's comparison made without cache_lock |
| InterleavingTheorems.RaceIff | memcached/slab.cpp:377-425 | two threads race on a chain, list end, list node, counter or free list exactly when one is at item_free's comparison and the other, under cache_lock, is about to change an end of that list; the fields inside an item are not among these |
| InterleavingTheorems.CheckIgnoresTheRace | memcached/slab.cpp:819-828 | the comparison finds no end, before and after any step of any other thread |
| InterleavingTheorems.CheckAlwaysPasses | memcached/slab.cpp:819-832 | so the chunk always goes back |
| InterleavingTheorems.OwnBucketIsSafe | memcached/slab.cpp:600-605 | no scan can take an item out of a bucket another operation, or its own, holds |
| InterleavingTheorems.StepShrinks | memcached/slab.cpp:590-651 | every step brings its operation nearer to its end; how far a scan can walk is a parameter here (that it stops after five charged items or at the head is `ScanTail`) |
| InterleavingTheorems.EveryScheduleFinishes | memcached/slab.cpp:439-876 | every schedule is finite, bounded by the work of its operations, of which the reach of a scan is a parameter |
| InterleavingTheorems.Quiet | memcached/slab.cpp:347-366 | when all are done no lock is held and nothing is hidden |
| InterleavingRuns.ReachableInv | memcached/slab.cpp:439-876 | the invariant holds in every reachable state |
| InterleavingRuns.ExecutionRefinesRun | memcached/slab.cpp:439-876 | every interleaved execution is a run of the map |
| InterleavingRuns.ReplyIsDecidedAtomically | memcached/slab.cpp:667-773 | a store's reply is the one of the table on the map at one step of it |
| InterleavingRuns.SettledStaysSettled | memcached/slab.cpp:667-773 | once decided the reply stays |
| InterleavingRuns.FindSeesAtomicStore | memcached/slab.cpp:291-307 | a lookup sees the map, never a half-done replace |
| InterleavingRuns.InterleavedCas | memcached/slab.cpp:690-706 | over all interleavings a cas is STORED exactly when nothing took effect on its key since the read |
| InterleavingRuns.TheRaceIsReached | memcached/slab.cpp:819-828 | an execution of two threads that ends in the race |
| Bytes.CopyJoined | memcached/slab.cpp:731-746 | into a chunk that holds the joined item (which `Structure.WriteJoined` shows of every joined item), both copies stay inside the new item and give the joined blob |
| Bytes.Overlaid | memcached/slab.cpp:736-745 | the second copy overwrites the line end of the first and nothing else |
| HandOff.ThreadsafeQueue.Push | memcached/threadsafe_queue.h:40-44 | appends |
| HandOff.ThreadsafeQueue.WaitAndPop | memcached/threadsafe_queue.h:46-51 | one look under the mutex: the front, or exactly on an empty queue none, and the wait goes on |
| HandOff.ThreadsafeQueue.TryPop | memcached/threadsafe_queue.h:61-68 | takes the front, or reports exactly an empty queue |
| HandOff.QueueIsFifo | memcached/threadsafe_queue.h:40-68 | over any sequence of operations what came out plus what is inside is what went in, in order |
| HandOff.BooksBalance | memcached/conn.cpp:255-271 | over any interleaving the queue is as long as the bytes in the pipe, the steps in flight and the failed writes |
| HandOff.PopNeverWaits | memcached/thread.cpp:58-68 | a worker that has read a byte finds an item |
| HandOff.DeliveredInOrder | memcached/thread.cpp:58-68 | sockets are delivered in the order accepted, none twice |
| HandOff.AFailedWriteStrands | memcached/conn.cpp:268-270 | a failed write to the pipe leaves its socket behind |
| HandOff.StrandedAreTheFailedWrites | memcached/conn.cpp:268-270 | all are delivered exactly when no write failed |
| HandOff.HandOffProgress | memcached/thread.cpp:58-68 | while something is in flight some step is enabled, and every step but an accept brings the end closer |
| Reply.Conn.OutString | memcached/conn.cpp:119-138 | the line, or the complaint exactly if it does not fit, becomes the reply; all of it will go out exactly when no bytes are still counted as written, else its end is cut off; noreply changes nothing |
| Reply.Conn.WriteActivateRead | memcached/conn.cpp:802-846 | whatever the short writes, the socket takes the next bytes of the reply; done exactly when all are out, with offsets at zero; an overrun exactly when more bytes are counted as written than the reply has |
| Reply.DriveWrites | memcached/conn.cpp:212-226 | over any number of write events, for any state of the buffer, the wire carries a prefix of the reply, all of it exactly when the connection goes on |
| AsWritten.RemoveAsWrittenNeverFrees | memcached/slab.cpp:433 | as written no chunk ever goes back |
| AsWritten.RemoveIsRightIff | memcached/slab.cpp:428-436 | right exactly when the reference is not the last or the item is linked |
| AsWritten.PickGoesWrong | memcached/slab.cpp:607-642 | an unheld item is passed over, a held one taken or a null pointer followed |
| AsWritten.PickIsRightIff | memcached/slab.cpp:607-642 | right exactly when the count is neither 1 nor 2, and exactly when it faults |
| AsWritten.CasOfAbsentCrashes | memcached/slab.cpp:693-696 | a CAS of an absent key follows a null pointer |
| AsWritten.DecideIsRightIff | memcached/slab.cpp:678-761 | the literal branches give the table's reply exactly when it is not a CAS of an absent key |
| AsWritten.EvictionIsDead | memcached/slab.cpp:377-399 | over every run all items are on list 0, every list the scan looks at is empty, and no chunk comes back to its free list |
| AsWritten.StampedIsFound | memcached/slab.cpp:377-399 | with the class written, a linked item is where the scan looks and a freed chunk comes back |

## Left out

- Sockets, libev watchers, pipes as system calls, `main` and logging: only their outcomes appear, as parameters.
- Request framing (`try_read_tcp`, `try_read_command`, `conn_shake`): the buffer positions follow no coherent contract.
- Tokenising with regular expressions, number parsing in `tool.cpp`, and the text of the get reply: requests arrive parsed.
- The key length limit of 250 bytes and negative value lengths: refused by the connection before the store is reached.
- `Stats`, `killing`, `mem_avail` and `command_three_para`: unused.
- The one pipe shared by several workers, and the choice of a worker: one worker, as `memcached.cpp` sets it.
- The floating-point factor: the rational 6/5, with the product cut to an integer.
- Raw addresses: a chunk is an object with class, page and slot; `sizeof(base_item)` is 56.
- The 64-bit wrap of the CAS counter and the 32-bit wrap of reference counts: unbounded, except in `AsWritten`.
- `item_link`, `item_unlink`, `item_update`, `item_remove`, `item_get`, `item_touch`, `store_item`: the locks they take are in the step model, their bodies on the heap.
- One clock reading for each operation, where the code reads the clock at each use.
- The heap operations are atomic and sequential; interleaving is the subject of the step model, whose data is the map and not the pointers.
- Several operations at once on the bytes of one value, such as a get that copies while a store replaces: the value of an item is one field.
- ItemStore.LruList.Recycle: the charge is adjusted after the unlink, where the code adjusts it before; both happen under `cache_lock`.
- ItemStore.LruList.Fill: the connection writes the header fields before the value arrives; the model writes all of them at once.
- ItemStore.LruList.JoinItem: the joined value is assigned as one value; that the copies produce it is `Bytes.CopyJoined`.
- ItemStore.LruList.DoStoreItem: requires stored values to have at least their two-byte line end, which the connection always appends; shorter ones would make `nbytes` negative.
- HandOff.ThreadsafeQueue.WaitAndPop: one look at the queue; the waiting itself is the guard of `Pop` in the step model.
- Reply.Conn.WriteActivateRead: what `write` does with the negative length it is passed after a shorter second line; the model only says exactly when that happens.
- Sessions.Serve: the value of a store is known when its item is offered, where the code reads it into the item as it arrives; nothing looks at it in between.
- Slabs.Slab.constructor: requires that neither the first chunk size nor the alignment of the largest one wraps 32 bits.
- Fields inside an item in the step model: `get_command` reads the flag byte (conn.cpp:531), the value and the id with no lock, while other threads may write them under a bucket lock.
- Reference counts in the step model: a dropped reference may be the last at any moment at which the item is not linked; the counts themselves are proved on the heap.
- InterleavingTheorems.StepShrinks: how far a scan walks is fixed when its operation starts, where the code walks until five charged items or the head; that it does so is `ScanTail`, on the heap.
- InterleavingTheorems.EveryScheduleFinishes: the bound contains that same reach.
- AsWritten.EvictionIsDead: the run is over the class numbers, link bits and list sizes of items, on which alone the unwritten class acts; the nodes of the lists are on the heap, in the repaired code.
- Hashing.LockIsBucket: masking with 2^power - 1 is written as the remainder by 2^power.
