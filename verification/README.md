# Verified models of libsxe

Dafny models of seven parts of libsxe, with proofs of what they promise. `dafny verify dfyconfig.toml` checks all of it.

| part | files | main results |
|---|---|---|
| sxe-cdb, an append-only hash table with sorted counters | `Cdb*.dfy` | the table finds exactly what was put, over all splits; uids stay valid; puts and increments in any order give every key its exact value and count; a walk reports every counter of a list once, in order; the memory grows by no more than the records and their pages |
| sxe-list, sxe-pool, sxe-hash | `SxeList.dfy`, `PoolWalk.dfy`, `SxePool.dfy`, `SxeHash.dfy`, `SxeHashDict.dfy` | when a walk under interleaved moves is complete; the hash answers as a dictionary without buckets |
| jitson, JSON in flat tokens | `Json*.dfy`, `Jitson*.dfy` | a value is parsed exactly when a text of the grammar stands for it; parser and builder lay out the same values; indexing in place changes no value; what is printed is strict JSON and parsed as the same value |
| sxe-ring-buffer | `RingModel.dfy`, `RingBuffer.dfy` | a reader reads a contiguous run of the stream until an overrun is reported, and one is reported exactly when the writer has passed it |
| sxe-thread-memory | `ThreadMemory.dfy` | no tracker is lost, duplicated or freed twice under any interleaving; a collection frees exactly the trackers of threads reported missing |
| lookup3 | `Lookup3.dfy`, `Lookup3Known.dfy` | all alignment paths compute one hash; a published hash |
| SHA-1 | `Sha1Spec.dfy`, `Sha1.dfy`, `Sha1Known.dfy` | streaming gives the digest of FIPS 180-1, sections 4 and 7, for any division of the message; a published digest |

`Bytes.dfy` and `Seqs.dfy` hold bytes, little-endian integers and sequences without repetition.

Objects that the C code updates in place are classes (`CdbInstance.Instance`, `SxeList.Lists`, `SxePool.PoolArray`,
`SxePool.PoolWalker`, `SxeHash.Hash`, `SxeHashDict.HashDict`, `RingBuffer.Buffer`, `Sha1.Context`, `JitsonStack.Stack`,
`Jitson.Jitson`). Their methods have the loops and branches of the C functions and are proved against functions on
values; the theorems over whole runs are about those values. `Ok`, `IndexOk` and `StoreOk` together are the invariant of a cdb instance: `Ok` says
that each counts list is a doubly linked list of nodes with strictly ascending counts, that each node owns a nonempty
doubly linked chain of keys which point back to it, that every counter is on one chain, that the first free nodes on the
free list are distinct and unused, and that free nodes, used nodes and node zero are all nodes. `IsAt` says that a JSON value lies in tokens, indexed or not.
`JsonGrammar` says what JSON texts mean without a parser: trees of spaces, spelled characters and parts of numbers.

## What the code does that may surprise

- A pool walk can miss elements when one that it has given is inserted again (`PoolWalk.TouchedWalkMisses`). A step loses
  an insertion just when the element that it goes on from has been (`PoolWalk.PassesNothingIff`), and then for good
  (`PoolWalk.MissedForGood`); a walk loses none if and only if no step does that (`PoolWalk.GivesAllIff`), and is then
  complete (`PoolWalk.WalkIsComplete`).
- Setting a key twice in an sxe-hash does not replace its value: the first one is found until it is removed, and then the
  second (`SxeHashDict.GetAfterSet`, `SxeHashDict.GetAfterRemove`).
- Printing an object that has a name twice puts the last member with it first, so that after parsing the text the other
  one is found (`JsonOrder.RepeatedNameFlips`). `JsonOrder.PrintedLookup` says for every name which member is found:
  the value is the same just when the first and the last member with the name are printed alike
  (`JsonOrder.LookupKeptIff`), so with distinct names it always is (`JsonOrder.DistinctLookup`).
- A ring buffer's writer may fill the block it was given before it reports it, and readers cannot see that yet. The bytes
  they hold are safe exactly when the overrun check for that many more bytes would pass (`RingModel.BlockSafeIff`,
  `RingModel.ReadWhileFilledIff`). `RingModel.FilledBlockIsRead` is a run in which a reader reads a wrong byte.
- A ring buffer reports an overrun to a reader that has lost nothing, when it has read all of an iteration that was ended
  early and the writer is past its place again (`RingModel.OverRunLoses` says exactly when, `RingModel.OverrunTooSoon` is
  a run in which it happens). Any other overrun that is reported has lost the byte that the reader would read next.
- The check of a walk position in sxe-cdb warns that the value is not a counter, but lets it pass. It refuses a stored
  record only when the node is above the number of nodes, or when the value has the size of a counter's and names another
  node (`CdbWalk.RefusedIff`). So keys that are no counters are accepted, and so is the first node that is out of range
  (`CdbWalk.NonCounterAccepted`).
- The parser takes more than the strict JSON that the comment on its flags names (sxe-jitson-source.c:39): leading zeros,
  control characters in strings, and vertical tabs and form feeds as white space. `JsonGrammar` is the grammar it takes.
- `sophos_sha1` takes the digest of any given message, but cuts its length to 32 bits (`Sha1.DigestInOne`).

## Model

| member | source | states |
|---|---|---|
| `CdbHkv.HeaderFormIsRecovered` | lib-sxe-cdb/sxe-cdb.c:348-354 | For every nonempty key and every permitted length the chosen header has 1, 3, 5 or 8 bytes, and its first byte says which: no header form is mistaken for another. |
| `CdbHkv.StoreIsRecAt` | lib-sxe-cdb/sxe-cdb.c:398-402 | Storing puts the record at its position and touches no byte outside it. |
| `CdbHkv.UnpackStored` | lib-sxe-cdb/sxe-cdb.c:422-430 | Unpacking a stored record gives back the header length and exactly the key and the value, lengths and bytes. |
| `CdbHkv.HeaderIsShortest` | lib-sxe-cdb/sxe-cdb.c:348-354 | The header chosen is the shortest that can be unpacked to these lengths. |
| `CdbStore.AppendOk` | lib-sxe-cdb/sxe-cdb.c:398-410 | A record appended at the end of the used memory leaves all earlier records whole; records never overlap and cover the used memory. |
| `CdbStore.WriteValOk` | lib-sxe-cdb/sxe-cdb.c:714-722 | Overwriting part of one value in place changes that record and no other record, key or length. |
| `CdbIndex.Prepare` | lib-sxe-cdb/sxe-cdb.c:85-102 | The two words of a hash that select rows are always different, whatever the hash function gives. |
| `CdbIndex.SplitIsEven` | lib-sxe-cdb/sxe-cdb.c:265-333 | A split deals the indexes of a sheet out alternately: both sheets together keep them all, and the old one keeps at most one more. |
| `CdbIndex.SplitOk` | lib-sxe-cdb/sxe-cdb.c:265-333 | After a split every key is still in the sheet that its hash selects, on the row and cell where it was, and every used cell belongs to a key that selects it. |
| `CdbIndex.PutOk` | lib-sxe-cdb/sxe-cdb.c:386-410 | A new key in a free cell of one of its two rows keeps the whole index, and no other key moves. |
| `CdbInstance.Instance.constructor` | lib-sxe-cdb/sxe-cdb.c:105-150 | A new instance is empty and valid, with its 8192 indexes dealt out over the sheets that the expected number of keys asks for. |
| `CdbInstance.Instance.Find` | lib-sxe-cdb/sxe-cdb.c:444-513 | The two rows of the key's sheet hold the key just when any record has it; the cell found is the cell of that record. |
| `CdbInstance.ScanRows` | lib-sxe-cdb/sxe-cdb.c:358-384 | The used cells of both rows are counted, and a free cell of each is found if there is one. |
| `CdbInstance.Instance.SplitSheet` | lib-sxe-cdb/sxe-cdb.c:265-333 | The loops of a split compute the split of the index table and of the cells, and keep the table. |
| `CdbInstance.Instance.Place` | lib-sxe-cdb/sxe-cdb.c:358-396 | The split and retry loop ends: it finds a free cell on the less used of the key's rows, or has no sheet left while both rows are full. |
| `CdbInstance.Instance.PutVal` | lib-sxe-cdb/sxe-cdb.c:336-419 | A put adds exactly its record, on the emptier row, and returns the uid of its cell, or changes no record. The memory grows only when the record does not fit, by whole pages: at least one page more than the record and less than two. A put fails only past a maximum that was set, for lengths no header fits, with full rows and no sheet left, or when record and two pages would pass 4 GB. |
| `CdbInstance.GrowthIs` | lib-sxe-cdb/sxe-cdb.c:386-396 | The memory grows by whole pages, by at least one page and less than two pages more than the record wants. |
| `CdbLookup.GetHkvRaw` | lib-sxe-cdb/sxe-cdb.c:488-513 | The raw lookup returns the record of the key, and nothing just when the key is absent. |
| `CdbLookup.Get` | lib-sxe-cdb/sxe-cdb.c:488-513 | The value read back is the value stored, none when the key is absent. |
| `CdbLookup.GetUid` | lib-sxe-cdb/sxe-cdb.c:516-545 | The uid of a key is that of the cell it is in, and the uid for none just when the key is absent. |
| `CdbLookup.GetUidHkvRaw` | lib-sxe-cdb/sxe-cdb.c:548-564 | Looking up the uid of a key gives the record of that key; any other uid gives some record or none. |
| `CdbLookup.UidResolves` | lib-sxe-cdb/sxe-cdb.h:103-108 | The sheet, row and cell that a uid names hold the position of the key's record. |
| `CdbLookup.UidsDiffer` | lib-sxe-cdb/sxe-cdb.h:103-108 | Two stored keys have different uids. |
| `CdbLookup.PutAll` | lib-sxe-cdb/sxe-cdb.c:336-419 | After any sequence of puts and the splits they cause, every key put successfully has its value and the uid that its put returned, every other key is as before, and the memory has grown by less than 8 bytes and two pages more than each key and value stored. Every put that failed was refused for one of the causes of a single put, which still holds. |
| `CdbCounts.BumpOk` | lib-sxe-cdb/sxe-cdb.c:748-756 | Counting a lone climbing node up in place keeps the lists strictly ascending and changes the count of this key only. |
| `CdbCounts.UnchainOk` | lib-sxe-cdb/sxe-cdb.c:758-778 | Taking a key out of a longer chain keeps the chains doubly linked and every other key's count. |
| `CdbCounts.DropOk` | lib-sxe-cdb/sxe-cdb.c:780-791 | Freeing a node that lost its last key, in front of another node, keeps the lists, the chains, the free list with `free + used + 1 == size`, and every other key's count. |
| `CdbCounts.PushKeyOk` | lib-sxe-cdb/sxe-cdb.c:708-723 | A key put first on the chain of a node has that node's count; nothing else changes. |
| `CdbCounts.AddNodeOk` | lib-sxe-cdb/sxe-cdb.c:679-707 | A node taken off the free list and linked in at its place keeps the list strictly ascending; its key has the new count and the others keep theirs. |
| `CdbCounts.GrowOk` | lib-sxe-cdb/sxe-cdb.c:621-633 | Growing the node array by a page adds distinct unused nodes to the free list, keeps `free + used + 1 == size`, and changes no list, chain or count. |
| `CdbCounts.LoneOrNot` | lib-sxe-cdb/sxe-cdb.c:748-791 | A key is alone on its node just when the node points to it and it has no next key; otherwise the node keeps a first key when it leaves. |
| `CdbInstance.Instance.FreeCountPush` | lib-sxe-cdb/sxe-cdb.c:601-614 | The pushed range of nodes is at the front of the free list, lowest first, and the free count goes up by its length. |
| `CdbInstance.Instance.FreeCountPop` | lib-sxe-cdb/sxe-cdb.c:617-643 | Pops the first free node, after growing the array by a page when there is none. |
| `CdbInstance.NodesFillPages` | lib-sxe-cdb/sxe-cdb.c:621-633 | The nodes of 18 bytes fill the pages of 4096 up to less than one more node. |
| `CdbInstance.Instance.DropCount` | lib-sxe-cdb/sxe-cdb.c:780-791 | Freeing a node is only reached with a next node: the branch asserted to be impossible is never taken. |
| `CdbInstance.Instance.Leave` | lib-sxe-cdb/sxe-cdb.c:758-791 | A key that cannot be counted up in place leaves its chain; when its node goes with it, the next node has exactly the next count. |
| `CdbInstance.Instance.IncOld` | lib-sxe-cdb/sxe-cdb.c:727-836 | Counting a counter up keeps the whole structure, raises its count by one, and keeps the count and list of every other key. |
| `CdbInstance.Instance.IncNew` | lib-sxe-cdb/sxe-cdb.c:675-723 | Counting a key for the first time gives it the count one on the list asked for and keeps the whole structure. |
| `CdbInstance.Instance.Inc` | lib-sxe-cdb/sxe-cdb.c:652-844 | Returns the new count of the key, or 0 and changes no record or count; a counter always succeeds, a key with a value always fails, and a new key fails only where its record could not be put; no other key's value, count, list or place changes. |
| `CdbRuns.IncAll` | lib-sxe-cdb/sxe-cdb.c:652-844 | Over any run of increments, each successful one returns exactly how often its key has been counted, and 0 is returned only for keys with a value or without a place; keys not in the run are untouched and all uids stay. |
| `CdbMixed.DoAll` | lib-sxe-cdb/sxe-cdb.c:336-844 | Over any mix of puts and increments, every key ends with the value, count and list that the operations on it that did not fail make; each put's key is found at the uid it returned, and uids never change. An operation fails only for a key with a value or for one of the causes of a single put, and the memory grows by less than the sizes of the new records, each with two pages. |
| `CdbMixed.FailsOnlyFull` | lib-sxe-cdb/sxe-cdb.c:336-419 | When the lengths leave room for all of a run under 4 GB and there is no maximum, an operation fails only for a key with a value, or with both rows of its key full and no sheet left. |
| `CdbWalk.CounterPos` | lib-sxe-cdb/sxe-cdb.c:847-894 | For a counter, the check of a walk position fails just when the counter does not use the node given. |
| `CdbWalk.RefusedIff` | lib-sxe-cdb/sxe-cdb.c:847-894 | For any stored record, the check refuses a position just when the node is above the number of nodes, or the value has the size of a counter's and names another node. |
| `CdbWalk.NonCounterAccepted` | lib-sxe-cdb/sxe-cdb.c:847-894 | So a stored key that is no counter is accepted with any node in range, and with the first one out of range. |
| `CdbWalk.Walk` | lib-sxe-cdb/sxe-cdb.c:897-952 | A step gives the key at the position with its count and the position after it, along the chain and then to the next node in the direction; it ends at the end of the list and refuses a position that fails the check. |
| `CdbWalk.WalkIsSorted` | lib-sxe-cdb/sxe-cdb.c:897-952 | The order of a walk has no key twice and its counts never fall for lo2hi and never rise for hi2lo. |
| `CdbWalk.WalkIsComplete` | lib-sxe-cdb/sxe-cdb.c:897-952 | The order of a walk has exactly the keys of its counts list. |
| `CdbWalk.WalkAll` | lib-sxe-cdb/sxe-cdb.c:897-952 | Repeated steps from the start end, and report every key of the list once with its true count, in the order of the direction. |
| `SxeList.InsertRing` | lib-sxe-list/sxe-list.c:60-92 | Linking an object in between two neighbours inserts it at that place of the circular list. |
| `SxeList.RemoveRing` | lib-sxe-list/sxe-list.c:98-120 | Linking past an object removes it from its place of the circular list. |
| `SxeList.Lists.Push` | lib-sxe-list/sxe-list.c:60-73 | A pushed object is at the tail of its list; no other list changes. |
| `SxeList.Lists.Unshift` | lib-sxe-list/sxe-list.c:79-92 | An unshifted object is at the head of its list; no other list changes. |
| `SxeList.Lists.Remove` | lib-sxe-list/sxe-list.c:98-120 | A removed object is gone from its list and the others keep their order; no other list changes. |
| `SxeList.Lists.Pop` | lib-sxe-list/sxe-list.c:126-145 | Takes the tail off a list, none just when the list is empty. |
| `SxeList.Lists.Shift` | lib-sxe-list/sxe-list.c:151-170 | Takes the head off a list, none just when the list is empty. |
| `SxeList.Lists.PeekHead` | lib-sxe-list/sxe-list.c:176-203 | The head of a list, none when it is empty. |
| `SxeList.Lists.PeekTail` | lib-sxe-list/sxe-list.c:209-236 | The tail of a list, none when it is empty. |
| `SxeList.ListWalker.Step` | lib-sxe-list/sxe-list-walker.c:95-109 | From place k of a list, or the sentinel, to place k + 1; the way back leads to place k. |
| `SxeList.ListWalker.Back` | lib-sxe-list/sxe-list-walker.c:50-64 | Goes back to the node before, once only. |
| `PoolWalk.MoveOk` | lib-sxe-pool/sxe-pool.c:387-424 | Any move of any element keeps the queues a partition of the elements that agrees with their states, each sorted by insertion count. |
| `PoolWalk.StepGoesUp` | lib-sxe-pool/sxe-pool-walker.c:67-135 | However elements moved since the last step, the next element given was inserted strictly later than the last one. |
| `PoolWalk.StepCatches` | lib-sxe-pool/sxe-pool-walker.c:67-135 | A step that goes on from an element not inserted since gives an element not given before, and everything in the state inserted before it has been given. |
| `PoolWalk.PassedIff` | lib-sxe-pool/sxe-pool-walker.c:67-135 | A step passes an element inserted since the last one given just when the element that it goes on from was not inserted before that element. |
| `PoolWalk.PassesNothingIff` | lib-sxe-pool/sxe-pool-walker.c:67-135 | So a step loses an insertion for good just when its anchor (the node, or the element before it when the node has left the state) was inserted again. |
| `PoolWalk.WalkRises` | lib-sxe-pool/sxe-pool-walker.c:67-135 | Under any interleaving of moves and steps the elements come with strictly rising insertion counts. |
| `PoolWalk.GivesAllIff` | lib-sxe-pool/sxe-pool-walker.c:67-135 | A walk under any interleaving loses no insertion if and only if none of its steps goes on from an element inserted again. |
| `PoolWalk.MissedForGood` | lib-sxe-pool/sxe-pool-walker.c:67-135 | What a step loses is not given by anything that follows. |
| `PoolWalk.WalkIsComplete` | lib-sxe-pool/sxe-pool-walker.c:67-135 | If no step goes on from an element inserted again, a walk that ends has given every insertion then in the state, each once. |
| `PoolWalk.WalkWithoutReentry` | lib-sxe-pool/sxe-pool-walker.c:67-135 | In particular, if no element already given re-enters the state, every element then in it has been given once. |
| `PoolWalk.TouchedWalkMisses` | lib-sxe-pool/sxe-pool-walker.c:67-135 | Otherwise it can fail: touching the element just given makes the walk end with another element never given. |
| `SxePool.PoolArray.constructor` | lib-sxe-pool/sxe-pool.c:126-193 | A new pool has all elements in state 0 in the order of their pushes, numbered as they were pushed. |
| `SxePool.PoolArray.SetIndexedElementStateUnlocked` | lib-sxe-pool/sxe-pool.c:387-424 | Moves the element to the tail of the new state's queue with a fresh count, or changes nothing when it is not in the old state. |
| `SxePool.PoolArray.SetIndexedElementState` | lib-sxe-pool/sxe-pool.c:430-455 | Moves an element between two states. |
| `SxePool.PoolArray.TryToSetIndexedElementState` | lib-sxe-pool/sxe-pool.c:470-504 | Moves an element that is in the state given, and says which state it is in. |
| `SxePool.PoolArray.SetOldestElementState` | lib-sxe-pool/sxe-pool.c:512-547 | Moves the element of a state inserted first, none just when the state has none. |
| `SxePool.PoolArray.TouchIndexedElement` | lib-sxe-pool/sxe-pool.c:553-576 | Moves an element to the tail of its own queue with a fresh count. |
| `SxePool.PoolArray.GetOldestElementIndex` | lib-sxe-pool/sxe-pool.c:582-609 | The element of a state inserted first. |
| `SxePool.PoolWalker.Step` | lib-sxe-pool/sxe-pool-walker.c:67-135 | The step over linked nodes, with its recovery over the back pointer or by a search, is the step that the walk theorems are about. |
| `SxePool.PoolWalker.Search` | lib-sxe-pool/sxe-pool-walker.c:96-116 | The search from the head finds the first element whose count is not below the last one seen. |
| `SxeHash.EntryIs` | lib-sxe-hash/sxe-hash.c:147-167 | A key has an entry just when some element in the table has the key, and it is the one added first. |
| `SxeHash.AddEntry` | lib-sxe-hash/sxe-hash.c:176-189 | Adding an element changes the entry of its own key only, and only when that had none. |
| `SxeHash.DropEntry` | lib-sxe-hash/sxe-hash.c:192-199 | Removing an element leaves every entry that is not this element, and its own key leads to the next oldest element with the key, or to none. |
| `SxeHash.KeyEntry` | lib-sxe-hash/sxe-hash.c:122-136 | Writing the key of an element outside the table changes no entry. |
| `SxeHash.Hash.Take` | lib-sxe-hash/sxe-hash.c:122-136 | Gives the element that has been free for longest, none just when no free element is left; the table does not change. |
| `SxeHash.Hash.Add` | lib-sxe-hash/sxe-hash.c:176-189 | The key of the element leads to it unless it led to an earlier one; no other key changes. |
| `SxeHash.Hash.Give` | lib-sxe-hash/sxe-hash.c:192-199 | The element is free again; its key leads to the next oldest element with the key, or to none, and no other key changes. |
| `SxeHash.Hash.Look` | lib-sxe-hash/sxe-hash.c:147-167 | Finds the entry of the key, by a walk over its bucket. |
| `SxeHashDict.GetAfterSet` | lib-sxe-hash/sxe-hash-classic.c:47-100 | A key that is set is found with its value, unless it was set before: then the earlier value is still found. Other keys are as before. |
| `SxeHashDict.GetAfterRemove` | lib-sxe-hash/sxe-hash-classic.c:102-128 | Removing a key uncovers the value set next with it, and leaves all other keys as they are. |
| `SxeHashDict.LookIs` | lib-sxe-hash/sxe-hash.c:147-167 | What the walk over a bucket finds is the first pair with the key in the order of setting, whatever shares the bucket. |
| `SxeHashDict.HashDict.Set` | lib-sxe-hash/sxe-hash-classic.c:47-70 | Take, write and add together append a pair to the dictionary at the element that was free for longest. |
| `SxeHashDict.HashDict.Remove` | lib-sxe-hash/sxe-hash-classic.c:102-128 | Look and give together take the first pair with the key out of the dictionary and queue its element as free. |
| `SxeHashDict.FullIff` | lib-sxe-hash/sxe-hash-classic.c:58-60 | Over any run every element is free or in use, so that setting fails just when as many pairs are set as there are elements. |
| `SxeHashDict.Serve` | lib-sxe-hash/sxe-hash-classic.c:35-128 | Whatever the hash function, a new hash answers any run of sets, gets and removes as a dictionary without buckets does. |
| `RingModel.AddOk` | lib-sxe-ring-buffer/sxe-ring-buffer.c:55-95 | Adding bytes appends them to the written stream, in one piece or wrapped, and keeps what the ring holds of it. |
| `RingModel.WrapOk` | lib-sxe-ring-buffer/sxe-ring-buffer.c:137-144 | A forced wrap loses no byte that readers can still reach without an overrun. |
| `RingModel.NextBlockOk` | lib-sxe-ring-buffer/sxe-ring-buffer.c:215-249 | Finding the next block leaves a reader at the same byte of the stream; the block goes up to the writer or to the end of the iteration the reader is in, and is empty just when the reader has read all of the stream. |
| `RingModel.BlockIs` | lib-sxe-ring-buffer/sxe-ring-buffer.c:215-249 | The bytes of a block that was not overrun or disturbed are the next bytes of the stream. |
| `RingModel.ConsumeOk` | lib-sxe-ring-buffer/sxe-ring-buffer.c:253-279 | Consuming bytes moves the reader on by as many bytes of the stream and takes them off its block. |
| `RingModel.OverRunIff` | lib-sxe-ring-buffer/sxe-ring-buffer.c:191-211 | An overrun is reported to a reader one iteration behind exactly when the writer has passed its place in the stream, to one on the current iteration never, and to one further behind always. |
| `RingModel.HeldIsThere` | lib-sxe-ring-buffer/sxe-ring-buffer.c:55-95 | A byte of the stream that counts as held is in the ring, at its place. |
| `RingModel.NotHeldIsOverwritten` | lib-sxe-ring-buffer/sxe-ring-buffer.c:55-95 | A byte of the last iteration that does not has a later byte of the stream at its place. |
| `RingModel.OverRunLoses` | lib-sxe-ring-buffer/sxe-ring-buffer.c:191-211 | What a reported overrun means: the byte the reader would read next is no longer held, or the reader had read all of an iteration that was ended early, and then nothing it has still to read is lost. |
| `RingModel.BlockSafeIff` | lib-sxe-ring-buffer/sxe-ring-buffer.c:191-211 | A block that a reader holds is safe from bytes the writer fills in before it reports them exactly when an overrun check for that many more bytes would pass. |
| `RingModel.ReadWhileFilledIff` | lib-sxe-ring-buffer/sxe-ring-buffer.c:191-249 | In any state of a run, a reader that reads its block while the writer fills places it has not reported reads bytes of the stream, whatever is filled in, exactly when that check passes. |
| `RingModel.FilledBlockIsRead` | lib-sxe-ring-buffer/sxe-ring-buffer.c:191-249 | It happens: a run of write, next block and fill in which the reader then reads a byte that is not the stream's, and no overrun is reported. |
| `RingModel.StepOk` | lib-sxe-ring-buffer/sxe-ring-buffer.c:55-279 | Every event of the writer or the reader keeps the ring, the reader and what was read in step with the stream. |
| `RingModel.ReadsTheStream` | lib-sxe-ring-buffer/sxe-ring-buffer.c:55-279 | For any interleaving of adds, block writes, forced wraps and reads, what was read up to an overrun is the run of the written stream from the join point on. |
| `RingModel.OverrunIffPassed` | lib-sxe-ring-buffer/sxe-ring-buffer.c:55-279 | Over any run, an overrun has been reported exactly when at some read or block search the writer had passed the reader's place or was two iterations ahead. |
| `RingModel.OverrunTooSoon` | lib-sxe-ring-buffer/sxe-ring-buffer.c:191-211 | It happens that an overrun is reported and nothing was lost: a run in which the reader has read all of an iteration that was ended early, and every byte it has still to read is in the ring. |
| `RingBuffer.Buffer.Add` | lib-sxe-ring-buffer/sxe-ring-buffer.c:55-95 | The copies into the array and the pointer updates are the step on the ring's value. |
| `RingBuffer.Buffer.WroteBlock` | lib-sxe-ring-buffer/sxe-ring-buffer.c:111-133 | Reporting a written block advances the ring, wrapping at the end of the array. |
| `RingBuffer.Buffer.ForceRingWrap` | lib-sxe-ring-buffer/sxe-ring-buffer.c:137-144 | The writer goes back to the start and the end of the iteration is where it was. |
| `RingBuffer.Buffer.NextWritableBlockSize` | lib-sxe-ring-buffer/sxe-ring-buffer.c:147-157 | The block has at least the size wanted, with a wrap just when the rest of the array is too short. |
| `RingBuffer.Context.CheckOverRun` | lib-sxe-ring-buffer/sxe-ring-buffer.c:191-211 | Reports an overrun exactly when the writer has passed the reader's place or is two iterations ahead, and then puts the reader where the writer is. |
| `RingBuffer.Context.NextBlock` | lib-sxe-ring-buffer/sxe-ring-buffer.c:215-249 | Reports an overrun just then; otherwise the block found holds the next bytes of the stream, up to the writer or the end of the iteration, and is empty just at the end of the stream. |
| `RingBuffer.Context.Consumed` | lib-sxe-ring-buffer/sxe-ring-buffer.c:253-279 | Reports an overrun just then; otherwise the bytes noted were the next bytes of the stream and the reader stands after them. |
| `ThreadMemory.StepOk` | lib-sxe-thread/sxe-thread-memory.c:43-168 | Every read, compare-and-swap and relinking step of any thread keeps the lists acyclic and every tracker in one place. |
| `ThreadMemory.NextIsAllocated` | lib-sxe-thread/sxe-thread-memory.c:43-168 | The step that comes next in a thread never reads, writes or frees a tracker that has been freed. |
| `ThreadMemory.RunKeeps` | lib-sxe-thread/sxe-thread-memory.c:43-168 | So does every run of such steps, with any number of threads. |
| `ThreadMemory.NothingFreedIsUsed` | lib-sxe-thread/sxe-thread-memory.c:43-168 | Nor does any step after any run in which each step was one that comes next in its thread. |
| `ThreadMemory.PushedIsOnceSomewhere` | lib-sxe-thread/sxe-thread-memory.c:43-168 | After any run each pushed tracker is in exactly one place of the shared or the private lists, or freed once, and not both. |
| `ThreadMemory.OnlyTheDeadAreFreed` | lib-sxe-thread/sxe-thread-memory.c:98-168 | After any run only trackers of dead threads were freed, or the collecting thread's own under ALL. |
| `ThreadMemory.CollectionReturnsKeepers` | lib-sxe-thread/sxe-thread-memory.c:157-164 | The swap that ends a collection puts everything kept back in front of what was pushed meanwhile. |
| `ThreadMemory.CollectionInRun` | lib-sxe-thread/sxe-thread-memory.c:98-168 | In any run, once a collection has ended: every tracker that it took off the shared list and that was reported missing, or is the main thread's under ALL, has been freed and is gone; every other one is on the shared list again and not freed; and the count returned is the number of those. |
| `ThreadMemory.PushedInFront` | lib-sxe-thread/sxe-thread-memory.c:55-60 | A push that finds the head unchanged puts its tracker in front of all that are on the shared list; one that finds it changed changes no list and tries again. |
| `ThreadMemory.UndisturbedPush` | lib-sxe-thread/sxe-thread-memory.c:55-60 | A read of the head and a push with no step of another thread in between put the tracker at the front. |
| `Sha1Spec.Sha1Short` | lib-sha1/sha1.c:402-438 | A message whose last block has room for the length is padded to one block. |
| `Sha1Spec.Sha1Long` | lib-sha1/sha1.c:402-438 | One without that room is padded to two blocks. |
| `Sha1Known.DigestOfAbc` | lib-sha1/sha1.c:295-376 | The digest of "abc" is the one published in appendix A of FIPS 180-1, all 80 words and rounds of it. |
| `Sha1.ShiftsRotate` | lib-sha1/sha1.c:295-376 | The circular shift macro is the rotation of section 3 of FIPS 180-1. |
| `Sha1.Context.Update` | lib-sha1/sha1.c:178-221 | The message grows by the data; -1 for no data, -2 for a context that is finished or corrupted; corrupted exactly when the length passes 64 bits. |
| `Sha1.Context.ProcessMessageBlock` | lib-sha1/sha1.c:295-376 | The message schedule and the four loops of rounds are the block computation of section 7 of FIPS 180-1. |
| `Sha1.Context.PadMessage` | lib-sha1/sha1.c:402-438 | After padding the digest is that of FIPS 180-1 for the whole message. |
| `Sha1.Context.Final` | lib-sha1/sha1.c:119-152 | Gives the digest of the message, the same each time, or -1 for a corrupted context. |
| `Sha1.EncodeReadBack` | lib-sha1/sha1.c:119-152 | The bytes of a digest, joined by words as the message is, are the digest's words again. |
| `Sha1.DigestOfChunks` | lib-sha1/sha1.c:80-221 | For every division of a message into nonempty chunks, init, updates and two finals give the digest of the whole message twice. |
| `Sha1.DigestInOne` | lib-sha1/sha1.c:243-270 | The digest in one call is that of the bytes a 32-bit length leaves of the message, none when it leaves none. |
| `Lookup3.MixIsReversible` | lib-lookup3/lookup3.c:87-95 | The mixing step is reversible: no two states mix to the same one. |
| `Lookup3.WordsLastIs` | lib-lookup3/lookup3.c:291-308 | The last one to twelve bytes read by masked aligned words add what the key's bytes add, whatever follows the key in memory. |
| `Lookup3.CutIsMasked` | lib-lookup3/lookup3.c:291-308 | Cutting a word to its first one to three bytes is the bitwise and with the mask of the source. |
| `Lookup3.HalvesLastIs` | lib-lookup3/lookup3.c:349-391 | The same by half words. |
| `Lookup3.BytesLastIs` | lib-lookup3/lookup3.c:403-419 | The same byte by byte, in little-endian and in big-endian order. |
| `Lookup3.HashLittle` | lib-lookup3/lookup3.c:255-424 | All three alignment paths compute one hash of the key's bytes. |
| `Lookup3.HashLittle2` | lib-lookup3/lookup3.c:437-611 | Two hashes of the key; with a secondary seed of 0 the primary one is that of `hashlittle`. |
| `Lookup3.HashBig` | lib-lookup3/lookup3.c:619-741 | The word path of a big-endian machine and the byte path compute one hash of the key's bytes. |
| `Lookup3.HashWord` | lib-lookup3/lookup3.c:146-179 | The hash of words is the `hashlittle` hash of their little-endian bytes. |
| `Lookup3.SameWherever` | lib-lookup3/lookup3.c:255-424 | Equal keys hash alike at any two addresses in any two memories. |
| `Lookup3Known.HashOfFourScore` | lib-lookup3/test/test-lookup3.c:384-391 | The hash of "Four score and seven years ago" with the seed 0 is the published 0x17770551, with 0xce7226e6 as the secondary one. |
| `Lookup3Known.HashOfNothing` | lib-lookup3/test/test-lookup3.c:378-383 | The hash of an empty key is 0xdeadbeef and the seed. |
| `Lookup3Known.FirstMix` | lib-lookup3/lookup3.c:87-95 | What `mix` makes of the first block of that key, line by line. |
| `Lookup3Known.LastFinal` | lib-lookup3/lookup3.c:122-131 | What `final` makes of its last block, line by line. |
| `JsonGrammar.EscapeIff` | lib-sxe-jitson/sxe-jitson-stack.c:235-310 | What is read after a backslash is exactly one of the eight letters, for the character that a literal table gives it, or a `u` and four hexadecimal digits in either case, for the character with that number. |
| `JsonGrammar.SpelledString` | lib-sxe-jitson/sxe-jitson-stack.c:213-334 | However each character of a string is spelled (itself, an escape with a letter, an escape with digits), reading the spelling gives the string and consumes all of it. |
| `JsonGrammar.StringIff` | lib-sxe-jitson/sxe-jitson-stack.c:213-334 | A string is read from a text exactly when the text spells it in one of these ways. |
| `JsonGrammar.StringRefusedIff` | lib-sxe-jitson/sxe-jitson-stack.c:213-334 | Which error a string gives: EINVAL exactly when the text ends after characters that are spelled, EILSEQ exactly when a backslash with no escape comes after them. |
| `JsonGrammar.NumeralParsed` | lib-sxe-jitson/sxe-jitson-source.c:161-224 | An optional minus, digits, an optional fraction and an optional exponent that do not go on are read as one number: an unsigned integer, at most the largest one, when there is nothing but digits. |
| `JsonGrammar.NumberSpelled` | lib-sxe-jitson/sxe-jitson-source.c:161-224 | And every number that is read is written so. |
| `JsonGrammar.SyntaxParsed` | lib-sxe-jitson/sxe-jitson-stack.c:384-539 | A text written by the grammar, with any white space around its values, names, commas and colons, is parsed as what it stands for, wherever it stands. |
| `JsonGrammar.ValueIff` | lib-sxe-jitson/sxe-jitson-stack.c:384-539 | A value is parsed from a position exactly when, after white space, a text of the grammar stands there that means this value and does not go on. |
| `JsonGrammar.NoValue` | lib-sxe-jitson/sxe-jitson-stack.c:504-539 | White space and then the end of the text give ENODATA, and white space and then a character that no value starts with give EINVAL. |
| `JsonPrint.DigitsRead` | lib-sxe-jitson/sxe-jitson-type.c:177-180 | The decimal digits printed for a number have its value. |
| `JsonPrint.DigitsShortest` | lib-sxe-jitson/sxe-jitson-type.c:177-180 | No digits with the same value are fewer than those printed, and no others are as few. |
| `JsonPrint.NoLeadingZero` | lib-sxe-jitson/sxe-jitson-type.c:177-180 | Zero is printed as one digit, and every other number starts with a digit that is no zero. |
| `JsonPrint.DigitsKnown` | lib-sxe-jitson/sxe-jitson-type.c:177-180 | For example, 0 and 1907 are printed as they are written here. |
| `JsonPrint.TwentyDigits` | lib-sxe-jitson/sxe-jitson-type.c:177-180 | An unsigned integer of 64 bits is printed with twenty digits at most. |
| `JsonPrint.TextIsStrict` | lib-sxe-jitson/sxe-jitson-type.c:122-524 | The text of a value is a strict JSON text of that value: no leading zeros, control characters escaped, no spaces; brackets, commas, colons and quotes where the grammar has them. |
| `JsonPrint.StringParsed` | lib-sxe-jitson/sxe-jitson-type.c:259-291 | The printed characters of any byte string are parsed as that string, control characters, quotes, backslashes and NUL included. |
| `JsonPrint.TextParsed` | lib-sxe-jitson/sxe-jitson-type.c:122-524 | The text of a value is parsed as that value wherever it stands and whatever follows it, unless a word or number would go on there. |
| `JsonPrint.TextRoundTrip` | lib-sxe-jitson/sxe-jitson-type.c:122-524 | Parsing the text of a value gives the value and consumes all of the text. |
| `JsonOrder.OrderIsPermutation` | lib-sxe-jitson/sxe-jitson-type.c:495-524 | Printing bucket by bucket prints every member exactly once. |
| `JsonOrder.ReorderedIsSame` | lib-sxe-jitson/sxe-jitson-type.c:495-524 | What is printed is the same value but for the order of the members of objects. |
| `JsonOrder.PrintRoundTrip` | lib-sxe-jitson/sxe-jitson-type.c:122-524 | Print then parse gives the same value up to the order of members, consuming exactly the printed text. |
| `JsonOrder.PrintedLookup` | lib-sxe-jitson/sxe-jitson.c:170-231 | After print and parse a name is found just when it was there, but it leads to the first of the members that had it, where it led to the last. |
| `JsonOrder.DistinctLookup` | lib-sxe-jitson/sxe-jitson.c:170-231 | With distinct names every lookup finds the same member after print and parse. |
| `JsonOrder.LookupKeptIff` | lib-sxe-jitson/sxe-jitson.c:170-231 | For any object, a lookup gives the same value after print and parse just when the first and the last member with the name are printed with equal values. |
| `JsonOrder.RepeatedNameFlips` | lib-sxe-jitson/sxe-jitson.c:170-231 | For example, with a name used twice for different numbers, print and parse change the value found. |
| `JitsonSource.Source.GetNonspace` | lib-sxe-jitson/sxe-jitson-source.c:100-106 | Skips white space and gets the first other character; the terminating NUL may be got, and nothing after it. |
| `JitsonSource.Source.GetIdentifier` | lib-sxe-jitson/sxe-jitson-source.c:119-129 | Stops at the first character that is no letter, digit, underscore or dot. |
| `JitsonSource.Source.GetNumber` | lib-sxe-jitson/sxe-jitson-source.c:161-224 | Accepts exactly the numbers of the grammar, and says an unsigned integer just when there is no sign, fraction or exponent. |
| `JitsonChars.ReadingGoesOn` | lib-sxe-jitson/sxe-jitson-stack.c:313-320 | A character appended, with a token more exactly at the edge of one, leaves room for the string and its NUL in as many tokens as its size says. |
| `JitsonStack.Stack.Expand` | lib-sxe-jitson/sxe-jitson-stack.c:174-205 | Makes room for the tokens asked for and keeps the others; the maximum grows by less than one increment too much. |
| `JitsonStack.Stack.GetEscape` | lib-sxe-jitson/sxe-jitson-stack.c:235-310 | Gives the character that an escape of the grammar spells, exactly when there is one, or reports an illegal sequence. |
| `JitsonStack.Stack.LoadString` | lib-sxe-jitson/sxe-jitson-stack.c:213-334 | Whatever spelling of a string the text has, that string is on top of the stack afterwards, in as many tokens as its size, and the spelling is consumed; otherwise the stack is as it was, with the error. |
| `JitsonStack.Stack.LoadArray` | lib-sxe-jitson/sxe-jitson-stack.c:440-462 | Leaves the array that was parsed on top of the stack, with its count and its size, or the stack as it was with the error. |
| `JitsonStack.Stack.LoadObject` | lib-sxe-jitson/sxe-jitson-stack.c:407-438 | The same for an object and its members. |
| `JitsonStack.Stack.LoadJson` | lib-sxe-jitson/sxe-jitson-stack.c:384-539 | Whatever text of a value stands there, one value is on top of the stack that decodes to what the text means, in exactly the tokens of its size, over untouched tokens; if there is none the stack is as it was, with the right error. |
| `JitsonStack.Stack.ParseJson` | lib-sxe-jitson/sxe-jitson-stack.c:549-559 | The same from the start of a text, with the number of characters consumed. |
| `JitsonStack.Stack.New` | lib-sxe-jitson/sxe-jitson.c:54-67 | A parsed text in tokens of its own, or the error; the stack is empty again. |
| `JitsonFrames.StackTakes` | lib-sxe-jitson/sxe-jitson-stack.c:562-579 | A value on top of the collections under construction becomes the last element or member of the innermost one, and the others are as they were. |
| `JitsonFrames.InnerCloses` | lib-sxe-jitson/sxe-jitson-stack.c:889-901 | Closing an inner collection makes it the last value of the one around it, which is open again. |
| `JitsonStack.Stack.PushString` | lib-sxe-jitson/sxe-jitson-stack.c:621-667 | The copied string takes the same tokens as one that was loaded. |
| `JitsonStack.Stack.AddString` | lib-sxe-jitson/sxe-jitson-stack.c:702-719 | Adds the string to the innermost collection, and changes nothing below the outermost one. |
| `JitsonStack.Stack.AddMemberName` | lib-sxe-jitson/sxe-jitson-stack.c:679-690 | Names the next member of the innermost object. |
| `JitsonStack.Stack.AddUint` | lib-sxe-jitson/sxe-jitson-stack.c:789-798 | Adds the number to the innermost collection. |
| `JitsonStack.Stack.AddBool` | lib-sxe-jitson/sxe-jitson-stack.c:749-758 | Adds the truth value to the innermost collection. |
| `JitsonStack.Stack.AddNull` | lib-sxe-jitson/sxe-jitson-stack.c:729-738 | Adds a null to the innermost collection. |
| `JitsonStack.Stack.OpenCollection` | lib-sxe-jitson/sxe-jitson-stack.c:589-607 | Opens a collection inside the innermost one, or as the first one. |
| `JitsonStack.Stack.CloseCollection` | lib-sxe-jitson/sxe-jitson-stack.c:889-901 | Completes the innermost collection; the outermost one is then a value on top of the stack with the layout that loading gives. |
| `JitsonCalls.CallsBuild` | lib-sxe-jitson/sxe-jitson-stack.c:562-719 | For every value there are calls that satisfy all the assertions and build that value, in as many tokens as its size. |
| `JitsonStack.Stack.Build` | lib-sxe-jitson/sxe-jitson-stack.c:589-901 | Those calls leave that value on the stack in the layout that loading gives. |
| `JitsonIndex.SizeAtIs` | lib-sxe-jitson/sxe-jitson-type.c:208-307 | The size computed from the tokens of a value is the number of tokens it takes, whether collections in it were indexed or not. |
| `JitsonTokens.StringSizeIsLeast` | lib-sxe-jitson/sxe-jitson-type.c:208-236 | The tokens of a string are the fewest that have room for its characters and a NUL. |
| `JitsonIndex.NameIs` | lib-sxe-jitson/sxe-jitson-type.c:208-236 | The length, size and characters of a name are right although its length field may hold a link. |
| `JitsonIndex.LinkStep` | lib-sxe-jitson/sxe-jitson.c:208-217 | Overwriting the length of one name with a link leaves every member's name and value as they are. |
| `Jitson.Jitson.IndexObject` | lib-sxe-jitson/sxe-jitson.c:187-221 | Indexing replaces the size by an index and name lengths by links; the object is the same value of the same size, and nothing outside it changes. |
| `Jitson.Jitson.GetMember` | lib-sxe-jitson/sxe-jitson.c:170-231 | Gives the value of the last member with the name, none just when there is none; indexing on the way changes no value. |
| `Jitson.Jitson.GetElement` | lib-sxe-jitson/sxe-jitson.c:242-281 | Gives the element at the index, none just when it is out of range; indexing on the way changes no value. |
| `JitsonPrint.BuildString` | lib-sxe-jitson/sxe-jitson-type.c:259-291 | The loop over runs of plain characters and escapes appends the text of the string. |
| `JitsonPrint.BuildArray` | lib-sxe-jitson/sxe-jitson-type.c:375-392 | Appends the text of the elements in order; the array is still the same value. |
| `JitsonPrint.BuildObject` | lib-sxe-jitson/sxe-jitson-type.c:495-524 | Appends the text of the members bucket by bucket along the links; the object is still the same value. |
| `JitsonPrint.BuildJson` | lib-sxe-jitson/sxe-jitson-type.c:672-675 | Appends the text of any value, which is a strict text of it (`TextIsStrict`); all indexing on the way leaves the value and everything outside it as they were. |
| `JitsonPrint.ToJson` | lib-sxe-jitson/sxe-jitson.c:374-384 | The text printed from tokens is a strict JSON text of the same value up to the order of members; parsing gives that value and consumes the text. |

## Left out

- sxe-cdb ensembles (locks, swap, reboot), the copies to thread-local buffers, statistics, and the hash itself: it is any function from a key to three words.
- sxe-cdb memory mapping and its failure: growth extends an array with zeros.
- CdbInstance.Instance.PutVal: keys are new and nonempty lengths sum below 4 GB less two pages, as its callers must see to.
- CdbInstance.Instance.Inc: a key is always counted on one list, counts stay below 2^48, the 32-bit size of the node array does not wrap, and no value put by hand has the size of a counter and names an existing node.
- CdbRuns.IncAll: the same conditions on every key of the run; a key that is stored as no counter returns 0.
- CdbMixed.DoAll: the same conditions on every operation of the run: no key is put after another operation on it, nor counted after it was put with a value of a counter's size.
- CdbWalk.WalkPosIsBad: the sums of the check do not wrap at 32 bits.
- CdbWalk.Walk: a position given by a caller is a counter's, with its node; what a step reads at another position that passes the check (`CdbWalk.RefusedIff` says which do) is not modelled.
- sxe-list: links are node numbers, not the relocatable pointers of the C code.
- sxe-pool: only the untimed option; no timeouts, callbacks, locks or names, and operations are atomic. Insertion counts do not wrap at 64 bits.
- sxe-hash: keys are byte strings and their hash is any function; locking and reconstruction of tables are not modelled.
- SxeHashDict.HashDict.Set: keys are given as bytes; the conversion from hexadecimal digits, and its failure, is left out.
- sxe-ring-buffer: joins with `replay_half`, and wrapping of the iteration counter.
- RingBuffer.Buffer.WroteBlock: the block is the one that the writer was given last, filled by no more bytes than it has.
- sxe-thread-memory is a state machine on values and no class: each read of the shared head and each compare-and-swap is a step of its own. Allocation failure, reallocation and the contents of the memory are left out; thread ids are not reused while a tracker of the dead thread is there.
- sha1: the calls that make functions fail for tests.
- lookup3: `hashword2`, the byte-wise variants for Valgrind, and reading past the last whole word of memory.
- jitson numbers other than unsigned integers are kept as their text; converting and printing them is the C library's. Hexadecimal numbers, constants, identifiers, references, strings by reference, duplicates and clones, registered types, freeing, failing allocations, 32-bit wrap of token counts, and the lock around indexing are left out.
- JitsonStack.Stack.LoadString: a `\u` escape stands for a character below 0x80; the test for room counts bytes of longer characters differently from the size function. `JsonParse` reports such an escape as `Wide`, and the loading methods require that there is none.
- jitson tokens: the union is modelled as tagged, so that reading it as something else than was written cannot be expressed; tokens above the count of a stack are not represented.
- Jitson.Jitson.GetMember: member names hold no NUL, because names are measured by their NUL; values may hold any bytes. The index is attached to its object when it is complete.
- JsonPrint.Text: says nothing useful for a number that is not an unsigned integer, and the theorems exclude it.
- JitsonStack.Stack.AddUint: the number fits 64 bits.
- JitsonStack.Stack.Build: `Perform`, `PerformAll` and `Build` make the calls of a client; the library has no function for that.
- murmurhash3, md5, xxhash, http, sockets, processes, event loops, logging and string helpers are not part of this model.
