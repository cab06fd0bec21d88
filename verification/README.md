# Verified models of the GeonServer tree

A Dafny 4.11 project that models three parts of the repository and proves what
they promise: the protobuf arena allocator, the protobuf descriptor index, and
the game's own packet protocol with the generated messages it carries.

- **Arena allocator.** `SizeClasses`, `ArenaLayout`, `ArenaMemory`,
  `ArenaSteps`, `ArenaRuns`, `ArenaHistories` and `SerialArena` describe one
  serial arena. Its blocks, cleanup nodes, free lists and table of lists are
  words in one memory; the class reads and writes those words, and ghost state
  says what they represent. Arrays may be given back to another serial arena
  than they came from, and the memory is shared: what others do to it happens
  between an arena's operations. `ArenaRelease` releases an arena whose bookkeeping
  lives in the blocks being released. `ArenaThreads` interleaves any number of
  threads over any number of arenas, one shared access a step. `ArenaString`
  is the tagged string pointer of generated messages.
- **Descriptor index.** `NameOrder`, `SymbolIndex`, `SimpleIndex`: the sorted
  map with its one-lookup search and the header's informal proof. The encoded
  variant is `SymbolCompare`, `EncodedIndex`, `EncodedRefinement`; databases
  put together are `MergedDatabase`.
- **Packets.** `Varint`, `VarintLoops`, `UnknownFields`, `MessageLoop` follow
  the Protocol Buffers Encoding specification, sections "Base 128 Varints",
  "Message Structure" and "Last One Wins"; `PlayerMessage`, `LoginMessage` and
  `ChatMessage` are the messages as values, `PlayerObject`, `LoginObject` and
  `ChatObject` the generated parse, serialize, size and merge code. `PacketIds`
  is the id assigner, `PacketFraming` header and dispatch table,
  `PacketStream` the reassembly of packets from received pieces,
  `PacketDelivery` the way from one side's message to the other side's handler,
  and `JobQueue` the queue that serializes a room's work.

Code that only computes is modelled by functions. Code that updates state is a
class whose methods are proved against functions on values, and the theorems
are lemmas about those functions. Memory allocators, the socket, the clock and
other processes' memory are parameters.

`PacketStream`, `JobQueue` and the packet size limit follow
`GeonServer/ServerCore/Session.cpp:237-267` and `:313-336`, `RecvBuffer.cpp`,
`SendBuffer.cpp:34-46` and `JobQueue.cpp:5-57`. Those files are kept in a code
page other than UTF-8, so the rows about them cite the entries of the
repository's own `Readme.md` that say what they are for.

## Where code and documentation part

The code is followed, and what it does instead is stated.

- The comment at `cached_blocks_` (arena_impl.h:418) says list i holds blocks of
  `8+2^(i+3)` bytes. The code rounds down when it files a block, so all but the
  smallest of those blocks are filed one list lower, and an array is found again
  by a request of its own size only if that size is a power of two
  (`SizeClasses.NaturalGrowthIsFiledBelow`, `SizeClasses.SameSizeReuse`).
- A later block's limit is not rounded down (arena.cc:176) while `CleanupList`
  rounds (arena.cc:195-196). Cleanups still run exactly and in reverse order
  unless such a block has a single node and a size that is no multiple of 8
  (`ArenaHistories.CleanupsAreExact`, `ArenaHistories.SingleNodeIsOverlooked`).
  The difference of the two node pointers is taken to round down, as an
  arithmetic shift does.
- `AddSymbol` steps past the first key without having looked at it when every
  key is beyond the new name, so it can accept a name that breaks the stated
  invariant (`SymbolIndex.NeighbourChecksAreExact`,
  `SymbolIndex.AcceptedKeepsAntichainIff`, `SymbolIndex.OverlookedExample`).
  The variant that does not step past it needs no condition
  (`SymbolIndex.SteadyChecksAreExact`).
- The 16-bit size field allows messages of up to 65531 bytes, and dispatching is
  proved for all of those. `MakeSendBuffer` sends only up to 5996, because the
  send buffer chunk it opens has 6000 bytes (`PacketFraming.MakeSendBuffer`).
  The size is a 16-bit number: for 65532 to 65535 bytes it wraps around to 0 to 3,
  and what is written does not fit the space opened for the packet.
- Re-encoding a parsed message can make it longer: an enum read from five bytes
  may take ten to write (`LoginMessage.ReencodingCanGrow`). Parsing again what a
  parsed S_LOGIN is written as therefore succeeds, with an equal message, if and
  only if no re-encoded player is longer than a length prefix may announce
  (`LoginMessage.ParseSerializeParse`); `LoginMessage.RereadingCanFail` is a
  login that parses and is written as one that does not.
- A packet that announces a size of 1 to 3 is dispatched by the id behind its
  end, and its handler is told that the message has less than no bytes
  (`PacketFraming.DispatchOf`).
- `TaggedStringPtr` documents fixed-size arena strings; `IsFixedSizeArena`
  answers false (arenastring.h:369) and nothing creates one, so no field ever
  carries that tag.

## Model

| member | source | states |
|---|---|---|
| SizeClasses.RequestIndex | GeonServer/Libraries/Include/google/protobuf/arena_impl.h:229-240 | the list a request looks in has room classes that cover the request: size <= 2^(index+4) |
| SizeClasses.ReturnIndex | GeonServer/Libraries/Include/google/protobuf/arena_impl.h:282-296 | an array is filed under the index with 2^(index+4) <= size < 2^(index+5) |
| SizeClasses.GrownTableFits | GeonServer/Libraries/Include/google/protobuf/arena_impl.h:297-313 | a returned array that has no list makes a table strictly longer than the old one and long enough to file another array of its size |
| SizeClasses.ServedBlocksAreLargeEnough | GeonServer/Libraries/Include/google/protobuf/arena_impl.h:229-245 | a request served from the list an array was filed under never exceeds that array |
| SizeClasses.RequestIs | GeonServer/Libraries/Include/google/protobuf/arena_impl.h:233-240 | a request looks in list i exactly for more than 2^(i+3) and at most 2^(i+4) bytes |
| SizeClasses.SameSizeReuse | GeonServer/Libraries/Include/google/protobuf/arena_impl.h:233-295 | an array can serve a request of exactly its own size if and only if the size is a power of two; otherwise the request looks one list higher |
| SizeClasses.NaturalGrowthIsFiledBelow | GeonServer/Libraries/Include/google/protobuf/arena_impl.h:411-419 | arrays of 8+2^k bytes are looked for in list k-3 and filed in list k-4, but for the smallest |
| ArenaLayout.AlignedFits | GeonServer/Libraries/Include/google/protobuf/arena.h:94-97 | aligning up inside align-8 spare bytes gives a multiple of align and never passes the spare bytes |
| ArenaLayout.PieceInBlock | GeonServer/Libraries/Include/google/protobuf/arena_impl.h:381-416 | every header, node and region and the arena object lies inside one block, nodes above and all else below that block's start, arrays of other serial arenas apart |
| ArenaLayout.PieceAbroad | GeonServer/Libraries/Include/google/protobuf/arena_impl.h:494-499 | an array of another serial arena meets none of this arena's blocks |
| ArenaLayout.PiecesApart | GeonServer/Libraries/Include/google/protobuf/arena_impl.h:381-416 | any two different pieces of an arena's memory are apart |
| ArenaLayout.PieceAligned | GeonServer/Libraries/Include/google/protobuf/arena_impl.h:401-405 | all pieces but cleanup nodes are 8-aligned |
| ArenaLayout.NodeAlignedIff | GeonServer/Libraries/Include/google/protobuf/arena.cc:174-176 | a cleanup node is 8-aligned if and only if its block is the first one or has a size that is a multiple of 8 |
| ArenaMemory.ChangeWithin | GeonServer/Libraries/Include/google/protobuf/arena_impl.h:381-428 | a change inside one piece alters no word of any other piece, but for arrays the arena has lent |
| ArenaMemory.ChangeElsewhere | GeonServer/Libraries/Include/google/protobuf/arena.cc:74-79 | a change in a block just granted alters no word of the arena |
| ArenaSteps.BumpedSound | GeonServer/Libraries/Include/google/protobuf/arena_impl.h:272-279 | bumping keeps layout, headers, nodes and free lists sound, and the address handed out belonged to no region |
| ArenaSteps.WithNodeSound | GeonServer/Libraries/Include/google/protobuf/arena_impl.h:345-355 | taking a cleanup node from the limit keeps everything sound |
| ArenaSteps.FilledSound | GeonServer/Libraries/Include/google/protobuf/arena_impl.h:358-363 | filling a node changes the latest node only; no object and no list is disturbed |
| ArenaSteps.GrownSound | GeonServer/Libraries/Include/google/protobuf/arena.cc:152-181 | a new block keeps the chain of headers, all nodes and lists; the sealed block's start is recorded in its header |
| ArenaSteps.HeadIsNullIff | GeonServer/Libraries/Include/google/protobuf/arena_impl.h:235-237 | a table word is null exactly when its list is empty, and otherwise is the list's first block |
| ArenaSteps.TakenSound | GeonServer/Libraries/Include/google/protobuf/arena_impl.h:235-244 | taking the first block of a list leaves the rest of the list linked; the block has the list's least size and becomes an object |
| ArenaSteps.GivenSound | GeonServer/Libraries/Include/google/protobuf/arena_impl.h:317-323 | putting an array in front of a list links it before the old first block and disturbs no other client's words |
| ArenaSteps.RetabledSound | GeonServer/Libraries/Include/google/protobuf/arena_impl.h:297-314 | an array made the table carries all old lists over, unchanged, and empty lists after them |
| ArenaSteps.ObjectStore | GeonServer/Libraries/Include/google/protobuf/arena_impl.h:272-279 | a client storing a whole word inside its own object disturbs no header, node, list, table or other object |
| ArenaSteps.AdoptedSound | GeonServer/Libraries/Include/google/protobuf/arena_impl.h:494-499 | an array of another serial arena can be taken over, wherever it lies outside this one's memory |
| ArenaSteps.PassedSound | GeonServer/Libraries/Include/google/protobuf/arena_impl.h:494-499 | an object can be lent to another serial arena and come home again |
| ArenaSteps.ElsewhereSound | GeonServer/Libraries/Include/google/protobuf/arena_impl.h:494-499 | what the rest of the process does to memory outside the arena's pieces, and to arrays it has lent, disturbs nothing of the arena and no client |
| ArenaSteps.SealedSound | GeonServer/Libraries/Include/google/protobuf/arena.cc:191-193 | recording the limit in the newest header keeps all else |
| ArenaRuns.AllocatedIsExclusive | GeonServer/Libraries/Include/google/protobuf/arena_impl.h:254-269 | after any allocation, from a list, from the block or from a new block, n bytes at the result belong to the caller and to no object before; every other object keeps its place and words |
| ArenaRuns.RegisteredIsExclusive | GeonServer/Libraries/Include/google/protobuf/arena.cc:137-143 | the same for an allocation with a cleanup node, node included |
| ArenaRuns.ReturnedSound | GeonServer/Libraries/Include/google/protobuf/arena_impl.h:282-324 | a returned array, be it an object of this arena, one it had lent or one of another serial arena, becomes free or the table, the lists then reach its size class, and all other objects keep place and words |
| ArenaHistories.StepSound | GeonServer/Libraries/Include/google/protobuf/arena_impl.h:204-363 | every operation callers may perform keeps the whole state sound |
| ArenaHistories.EveryRunKeepsApart | GeonServer/Libraries/Include/google/protobuf/arena_impl.h:204-363 | after any run from a new arena, arrays of other arenas and the rest of the process included, all pieces are pairwise apart, inside a block or, if they came from another arena, outside all of them, aligned, and ptr <= limit |
| ArenaHistories.ObjectsSurviveRuns | GeonServer/Libraries/Include/google/protobuf/arena_impl.h:254-363 | an object keeps its place and its words through any run in which its holder neither writes nor returns it, to this arena or another |
| ArenaHistories.StepWritesOnlyOwn | GeonServer/Libraries/Include/google/protobuf/arena_impl.h:204-363 | an arena and its clients write only words of pieces the arena has and has not lent |
| ArenaHistories.SiblingsDoNotDisturb | GeonServer/Libraries/Include/google/protobuf/arena_impl.h:494-499 | so a step of one serial arena is, to another in the same memory, something it allows for, while their pieces have no word in common |
| ArenaHistories.RunKeepsOrder | GeonServer/Libraries/Include/google/protobuf/arena.cc:152-181 | over any run and any number of block switches the pending nodes, visited newest block first, are the registered ones in reverse |
| ArenaHistories.StepBlocks | GeonServer/Libraries/Include/google/protobuf/arena.cc:152-181 | an operation adds at most one block, only when what it asks for does not fit, and leaves the size of every other |
| ArenaHistories.BlockSizesFollowPolicy | GeonServer/Libraries/Include/google/protobuf/arena.cc:56-73 | after any run each block but the first is at least twice the one before it or at least the policy's largest, holds what was asked for, and exceeds twice the last size or the policy's largest only for a request that demands it |
| ArenaHistories.NewArenaBlockSize | GeonServer/Libraries/Include/google/protobuf/arena.cc:65-71 | a thread's new arena begins with the policy's start size, or 104 bytes if that is more, and can be made in such a block |
| ArenaHistories.DefaultSizes | GeonServer/Libraries/Include/google/protobuf/arena_impl.h:106-110 | 256 bytes doubling to 8192 and staying there under the default policy, larger requests apart |
| ArenaHistories.ReturnedIsServed | GeonServer/Libraries/Include/google/protobuf/arena_impl.h:229-245 | an array that was filed is the next one handed out for an array of its class, without new memory and leaving the lists as they were; other classes are answered as before |
| ArenaHistories.ObjectsAreBumped | GeonServer/Libraries/Include/google/protobuf/arena_impl.h:254-269 | what is no array never comes from a list |
| ArenaHistories.LogIsShorter | GeonServer/Libraries/Include/google/protobuf/arena.cc:191-206 | what CleanupList runs equals what is pending if and only if no block is overlooked |
| ArenaHistories.CleanupsAreExact | GeonServer/Libraries/Include/google/protobuf/arena.cc:152-206 | for every run: each registered cleanup runs once and in reverse order if and only if no later block has both a size not a multiple of 8 and a single node |
| ArenaHistories.AlignedArenasRunEveryCleanup | GeonServer/Libraries/Include/google/protobuf/arena.cc:56-80 | a first block and a largest block size that are multiples of 8 suffice for all cleanups to run, for every run |
| ArenaHistories.AlignedArenasAlignEverything | GeonServer/Libraries/Include/google/protobuf/arena_impl.h:401-405 | and for every piece, cleanup nodes included, to be 8-aligned, after any run |
| ArenaHistories.SingleNodeIsOverlooked | GeonServer/Libraries/Include/google/protobuf/arena.cc:174-206 | a first block of 1001 bytes under the default policy: the only cleanup of the second block is never run |
| SerialArenas.SerialArena.constructor | GeonServer/Libraries/Include/google/protobuf/arena.cc:107-123 | a new arena lies in its own first block behind the header; all of the block counts as allocated |
| SerialArenas.SerialArena.AllocateFromExisting | GeonServer/Libraries/Include/google/protobuf/arena_impl.h:272-279 | returns the old ptr and moves it by n: the state after is the bump of the state before |
| SerialArenas.SerialArena.AllocateNewBlock | GeonServer/Libraries/Include/google/protobuf/arena.cc:152-181 | the state after is that with the sealed old block and the new one, of the size that ArenaHistories.BlockSizesFollowPolicy characterizes; space allocated grows by that size |
| SerialArenas.SerialArena.TryAllocateFromCachedBlock | GeonServer/Libraries/Include/google/protobuf/arena_impl.h:229-246 | null exactly when the size is below 16 or its list is missing or empty, and then nothing changes; otherwise the list's first block is taken |
| SerialArenas.SerialArena.AllocateAligned | GeonServer/Libraries/Include/google/protobuf/arena_impl.h:254-269 | list first for arrays, then the block, then a new block; result and new state are those of the specification |
| SerialArenas.SerialArena.MaybeAllocateAligned | GeonServer/Libraries/Include/google/protobuf/arena_impl.h:327-333 | succeeds exactly when n bytes fit and otherwise changes nothing |
| SerialArenas.SerialArena.AllocateAlignedWithCleanup | GeonServer/Libraries/Include/google/protobuf/arena_impl.h:335-355 | object and node come from the same block, with room for both ensured first |
| SerialArenas.SerialArena.AddCleanup | GeonServer/Libraries/Include/google/protobuf/arena_impl.h:358-363 | registers exactly one node with these contents |
| SerialArenas.SerialArena.AllocateInternal | GeonServer/Libraries/Include/google/protobuf/arena.h:592-612 | the object is aligned as asked and inside the region handed out, no more than the alignment needs is taken, and its destructor, if any, is registered for its final address |
| SerialArenas.SerialArena.ReturnArrayMemory | GeonServer/Libraries/Include/google/protobuf/arena_impl.h:282-324 | files the array or makes it the table, by the two loops of the source, whichever serial arena the array came from |
| SerialArenas.SerialArena.Lend | GeonServer/Libraries/Include/google/protobuf/arena_impl.h:494-499 | an array given back to another serial arena is no object of this one any more, and nothing else changes |
| SerialArenas.SerialArena.Resume | GeonServer/Libraries/Include/google/protobuf/arena_impl.h:494-499 | memory as the rest of the process left it meanwhile keeps the arena valid and all it represents |
| SerialArenas.SerialArena.FillTable | GeonServer/Libraries/Include/google/protobuf/arena_impl.h:303-305 | the copying and the filling loop produce the specified table words |
| SerialArenas.SerialArena.Store | GeonServer/Libraries/Include/google/protobuf/arena_impl.h:272-279 | a client's store of a word changes that word only and keeps the arena valid |
| SerialArenas.SerialArena.SpaceUsed | GeonServer/Libraries/Include/google/protobuf/arena.cc:183-189 | exactly the bytes bumped so far, over all blocks, without headers and the arena object |
| SerialArenas.SerialArena.CleanupList | GeonServer/Libraries/Include/google/protobuf/arena.cc:191-206 | the loops over headers and nodes in memory call exactly the specified log, in order |
| SerialArenas.SerialArena.RunBlock | GeonServer/Libraries/Include/google/protobuf/arena.cc:195-203 | one block's nodes are all run, latest first, unless the block is overlooked |
| ArenaRelease.FlattenListsOnce | GeonServer/Libraries/Include/google/protobuf/arena.cc:363-371 | the list of all blocks holds every block and none twice |
| ArenaRelease.ThreadSafeArena.Dealloc | GeonServer/Libraries/Include/google/protobuf/arena.cc:88-99 | a released block is no longer readable, is logged, and its size is counted |
| ArenaRelease.ThreadSafeArena.FreeSerial | GeonServer/Libraries/Include/google/protobuf/arena.cc:125-135 | releases all blocks of one arena but its oldest, in order, reading only live ones |
| ArenaRelease.ThreadSafeArena.Free | GeonServer/Libraries/Include/google/protobuf/arena.cc:363-371 | over the list of arenas every block is released once, in order, but the oldest of the last arena, which is returned; an arena object is read before its block goes |
| ArenaRelease.ThreadSafeArena.SpaceAllocated | GeonServer/Libraries/Include/google/protobuf/arena.cc:460-467 | the sum of the sizes of all blocks of all arenas |
| ArenaRelease.ThreadSafeArena.Destroy | GeonServer/Libraries/Include/google/protobuf/arena.cc:338-361 | releases every block once except an initial block of the user's, which survives; the space reported is what was allocated; the policy is read while its block lives |
| ArenaRelease.ThreadSafeArena.Reset | GeonServer/Libraries/Include/google/protobuf/arena.cc:373-409 | returns exactly the space that was allocated, releases as the destructor does, and starts over with the initial block, a new policy block, or nothing |
| ArenaRelease.ThreadSafeArena.InitializeFrom | GeonServer/Libraries/Include/google/protobuf/arena.cc:229-239 | a block too small is ignored; one that is large enough becomes the only arena and the user's |
| ArenaRelease.ThreadSafeArena.InitializeWithPolicy | GeonServer/Libraries/Include/google/protobuf/arena.cc:241-299 | the policy's block is the user's if large enough and otherwise a new one, and is the surviving block from then on |
| ArenaRelease.ThreadSafeArena.Join | GeonServer/Libraries/Include/google/protobuf/arena.cc:497-508 | a new thread's arena comes first in the list; the surviving block stays the same |
| ArenaRelease.ThreadSafeArena.Grow | GeonServer/Libraries/Include/google/protobuf/arena.cc:152-181 | a new block becomes the newest of its arena; the surviving block stays the same |
| ArenaThreads.MakeNewOk | GeonServer/Libraries/Include/google/protobuf/arena.cc:497-501 | making a serial arena leaves all lists as they are |
| ArenaThreads.SetNextOk | GeonServer/Libraries/Include/google/protobuf/arena.cc:504-506 | linking an unpushed serial arena to the head read leaves all lists as they are |
| ArenaThreads.PushOk | GeonServer/Libraries/Include/google/protobuf/arena.cc:503-508 | a compare-and-swap that succeeds puts the serial arena in front of the whole list and keeps owners different |
| ArenaThreads.PublishOk | GeonServer/Libraries/Include/google/protobuf/arena_impl.h:557-565 | the hint is always null or a member of the arena's list |
| ArenaThreads.VisitOk | GeonServer/Libraries/Include/google/protobuf/arena.cc:484-490 | a walk that meets its thread's own serial arena has found it in the list; one that does not has passed none of its own |
| ArenaThreads.AccessOk | GeonServer/Libraries/Include/google/protobuf/arena.cc:483-512 | every access of the fast path and the fallback keeps the lists, and what it hands on is the thread's own |
| ArenaThreads.GrowsKeepsPlace | GeonServer/Libraries/Include/google/protobuf/arena.cc:483-512 | whatever one thread does in the fallback, what another has established about the list stays true |
| ArenaThreads.DrawOk | GeonServer/Libraries/Include/google/protobuf/arena.cc:301-316 | an identifier drawn, from the thread's batch or a new one, was never drawn before |
| ArenaThreads.EndedInv | GeonServer/Libraries/Include/google/protobuf/arena_impl.h:596-607 | ending an arena nobody is inside keeps the invariant of all other arenas and all caches |
| ArenaThreads.StartedInv | GeonServer/Libraries/Include/google/protobuf/arena.cc:301-336 | starting an arena, with an initial block or without, keeps the invariant |
| ArenaThreads.ApplyInv | GeonServer/Libraries/Include/google/protobuf/arena.cc:301-336 | every step of every thread keeps the invariant: creation, reset and destruction as well as accesses |
| ArenaThreads.HandedOutIsExclusive | GeonServer/Libraries/Include/google/protobuf/arena_impl.h:567-592 | under any interleaving, failed compare-and-swaps included, a thread is handed a serial arena of this arena's list, its own, and no other thread has been handed the same |
| ArenaThreads.OneSerialArenaPerOwner | GeonServer/Libraries/Include/google/protobuf/arena.cc:483-508 | under any interleaving a list never has two serial arenas of one owner |
| ArenaThreads.IdsNeverRepeat | GeonServer/Libraries/Include/google/protobuf/arena.cc:301-328 | under any interleaving no identifier is drawn twice, across threads, arenas and resets |
| ArenaThreads.CacheMatchesOnlyItsArena | GeonServer/Libraries/Include/google/protobuf/arena_impl.h:581-592 | a cache that matches a live arena holds the thread's own serial arena of exactly that arena |
| ArenaThreads.EndingRetires | GeonServer/Libraries/Include/google/protobuf/arena.cc:301-316 | a reset or destruction leaves no live arena with the identifier the arena had |
| ArenaThreads.StaysRetired | GeonServer/Libraries/Include/google/protobuf/arena.cc:301-328 | an identifier drawn before that no live arena has is given to none by any step of any thread |
| ArenaThreads.StaleCacheMatchesNone | GeonServer/Libraries/Include/google/protobuf/arena_impl.h:581-592 | after a reset or destruction of an arena and any further run no live arena carries its old tag, so that a cache left by it matches none |
| ArenaThreads.MessageOwnedForLife | GeonServer/Libraries/Include/google/protobuf/arena.cc:319-321 | an arena is message-owned, from its creation on and through every reset of any run, if and only if it was created so |
| ArenaThreads.EndedFrees | GeonServer/Libraries/Include/google/protobuf/arena_impl.h:596-607 | with an arena exactly its own serial arenas go |
| ArenaThreads.CacheServes | GeonServer/Libraries/Include/google/protobuf/arena_impl.h:581-592 | whatever other threads do meanwhile, a thread that has a live arena in its cache enters it in one access, without touching the list |
| ArenaThreads.RememberFillsCache | GeonServer/Libraries/Include/google/protobuf/arena_impl.h:557-559 | the fallback leaves the arena in the thread's cache |
| ArenaThreads.InitialBlockFillsCache | GeonServer/Libraries/Include/google/protobuf/arena.cc:328-336 | so does making or resetting an arena with an initial block, whose serial arena is also the hint |
| ArenaThreads.HintServes | GeonServer/Libraries/Include/google/protobuf/arena_impl.h:564-579 | the hint is the serial arena published last, and its owner is handed it without a walk |
| ArenaThreads.BatchesOf256 | GeonServer/Libraries/Include/google/protobuf/arena.cc:307-318 | two threads drawing in turn get 0, 512 and 2 |
| ArenaThreads.CounterIsRarelyTouched | GeonServer/Libraries/Include/google/protobuf/arena.cc:307-318 | a thread goes to the shared counter once in 256 identifiers, which go up by 2 |
| ArenaThreads.ListsOnlyGrow | GeonServer/Libraries/Include/google/protobuf/arena.cc:503-508 | no step but a reset or destruction of the arena removes a serial arena; a push puts one in front |
| ArenaString.StringFields.constructor | GeonServer/Libraries/Include/google/protobuf/arenastring.h:391-393 | fields start unset at the shared default, which nobody owns |
| ArenaString.StringFields.Get | GeonServer/Libraries/Include/google/protobuf/arenastring.h:295-298 | reads the variable's value, the empty string if it was never set |
| ArenaString.StringFields.New | GeonServer/Libraries/Include/google/protobuf/arenastring.h:356-365 | a string made is the caller's, and no field and no other string changes |
| ArenaString.StringFields.InitAllocated | GeonServer/Libraries/Include/google/protobuf/arenastring.h:399-406 | an unset field takes over the caller's string, its own or the arena's from then on |
| ArenaString.StringFields.NewString | GeonServer/Libraries/Include/google/protobuf/arenastring.h:356-365 | the new string has one owner, the field or the arena by the arena argument; other fields and callers keep theirs |
| ArenaString.StringFields.Set | GeonServer/Libraries/Include/google/protobuf/arenastring.cc:119-143 | assigns this variable and no other, whichever way the field was tagged, and never writes the default |
| ArenaString.StringFields.Mutable | GeonServer/Libraries/Include/google/protobuf/arenastring.cc:145-184 | a pointer to the field's own string with the value it had; never to the default |
| ArenaString.StringFields.Assign | GeonServer/Libraries/Include/google/protobuf/arenastring.cc:119-143 | a store through that pointer assigns this variable and no other |
| ArenaString.StringFields.ClearToEmpty | GeonServer/Libraries/Include/google/protobuf/arenastring.cc:223-235 | a set variable becomes empty, an unset one stays unset |
| ArenaString.StringFields.Detach | GeonServer/Libraries/Include/google/protobuf/arenastring.cc:186-197 | the variable is unset, its string the caller's, or the arena's if there is one, and no string changes |
| ArenaString.StringFields.Delete | GeonServer/Libraries/Include/google/protobuf/arenastring.cc:219-221 | exactly one string of the caller's goes; every variable keeps its value |
| ArenaString.StringFields.Release | GeonServer/Libraries/Include/google/protobuf/arenastring.cc:186-197 | the caller gets a string of its own with the value, or null if unset, and the variable is unset |
| ArenaString.StringFields.SetAllocated | GeonServer/Libraries/Include/google/protobuf/arenastring.cc:199-217 | the caller's string becomes the field's or the arena's and the variable has its value; the old one is deleted; null unsets |
| ArenaString.StringFields.DestroyAndInit | GeonServer/Libraries/Include/google/protobuf/arenastring.cc:219-221 | deletes exactly the string this field owns on the heap |
| ArenaString.StringFields.DestroyAll | GeonServer/Libraries/Include/google/protobuf/arenastring.cc:219-221 | once all fields are destroyed, what lives is exactly what fields did not own, unchanged |
| NameOrder.BetweenIsEnclosed | GeonServer/Libraries/Include/google/protobuf/descriptor_database.h:219-268 | a valid name between a name and a dotted child of it is itself a dotted child: '.' sorts below all other legal characters |
| NameOrder.EnclosesAtMost | GeonServer/Libraries/Include/google/protobuf/descriptor_database.h:219-268 | a dotted parent sorts at or before its child |
| NameOrder.ValidCharsAre | GeonServer/Libraries/Include/google/protobuf/descriptor_database.cc:150-166 | the legal characters are exactly the letters, the digits, the dot and the underscore |
| SymbolIndex.EncloserIsFound | GeonServer/Libraries/Include/google/protobuf/descriptor_database.cc:168-183 | the key that encloses a name is the last key at most that name: steps (1) to (9) of the header |
| SymbolIndex.FindSymbolIsExact | GeonServer/Libraries/Include/google/protobuf/descriptor_database.cc:299-306 | for an antichain of valid keys and any search string: the value of the unique enclosing key, and nothing exactly when there is none |
| SymbolIndex.NestedKeysBreakLookup | GeonServer/Libraries/Include/google/protobuf/descriptor_database.h:219-268 | without the antichain the lookup misses a symbol |
| SymbolIndex.NeighbourChecksAreExact | GeonServer/Libraries/Include/google/protobuf/descriptor_database.cc:197-251 | the two neighbour checks accept exactly when there is no parent, child or equal key, or in the overlooked case |
| SymbolIndex.AcceptedKeepsAntichainIff | GeonServer/Libraries/Include/google/protobuf/descriptor_database.cc:197-251 | an accepted name keeps the antichain if and only if it was not the overlooked case |
| SymbolIndex.OverlookedExample | GeonServer/Libraries/Include/google/protobuf/descriptor_database.cc:197-251 | the smallest case in which the antichain is lost |
| SymbolIndex.SteadyChecksAreExact | GeonServer/Libraries/Include/google/protobuf/descriptor_database.cc:197-251 | the variant that does not step past the first key accepts exactly the names without conflict and always keeps the antichain |
| SortedVector.UpperBoundSplits | GeonServer/Libraries/Include/google/protobuf/descriptor_database.cc:168-183 | upper_bound splits the map into keys at most the name and keys beyond it |
| SortedVector.LowerBoundSplits | GeonServer/Libraries/Include/google/protobuf/descriptor_database.cc:855-864 | lower_bound splits the vector into keys before the name and the rest |
| SortedVector.MergeSorted | GeonServer/Libraries/Include/google/protobuf/descriptor_database.cc:805-812 | merging two sorted sides is sorted |
| SortedVector.SortedIsUnique | GeonServer/Libraries/Include/google/protobuf/descriptor_database.cc:805-820 | a sorted vector is determined by its members |
| SimpleIndex.FindIsExact | GeonServer/Libraries/Include/google/protobuf/descriptor_database.cc:293-313 | an exact-key lookup returns a value if and only if key and value are in the map |
| SimpleIndex.AllExtensionNumbersAreExact | GeonServer/Libraries/Include/google/protobuf/descriptor_database.cc:316-329 | exactly the non-negative numbers registered for the type, in increasing order |
| DescriptorFile.ItemsAreDeclared | GeonServer/Libraries/Include/google/protobuf/descriptor_database.cc:117-148 | what is registered is exactly what the file's messages, enums, extensions and services declare, extensions nested at any depth included |
| DescriptorFile.KeyOfExtendee | GeonServer/Libraries/Include/google/protobuf/descriptor_database.cc:268-277 | an extension is keyed by its extendee without the leading dot and its number |
| SimpleIndex.FileIsRegistered | GeonServer/Libraries/Include/google/protobuf/descriptor_database.cc:117-148 | whatever the outcome, nothing but what the file declares is registered, and nothing goes; if it is accepted, all of that is |
| SimpleIndex.ExtensionAcceptedIff | GeonServer/Libraries/Include/google/protobuf/descriptor_database.cc:268-290 | an extension is refused if and only if its type, named with a leading dot, already has one of this number |
| SimpleIndex.FileAcceptedIff | GeonServer/Libraries/Include/google/protobuf/descriptor_database.cc:117-290 | on a sound index a file is accepted, leaving it sound, if and only if its name is new, its symbols are valid, no two of them or of the index enclose one another, and no extension number is taken twice |
| SimpleIndex.AddedFileIsFound | GeonServer/Libraries/Include/google/protobuf/descriptor_database.cc:293-313 | an accepted file is found by its name, by the full name of everything it declares at its top level and, on a sound index, of everything below that, and by every extension it declares at any depth |
| SimpleIndex.DescriptorIndex.AddSymbol | GeonServer/Libraries/Include/google/protobuf/descriptor_database.cc:197-251 | keeps the index sound unless overlooked; a sound index refuses only on a conflict, an invalid name, and then is unchanged |
| SimpleIndex.DescriptorIndex.AddExtension | GeonServer/Libraries/Include/google/protobuf/descriptor_database.cc:268-290 | registers a fully qualified extendee's number once, refusing exactly one that is taken |
| SimpleIndex.DescriptorIndex.AddFile | GeonServer/Libraries/Include/google/protobuf/descriptor_database.cc:117-148 | adds the file's names in the source's order, stopping with what was added at the first refusal; stated over the file's own fields: nothing else is registered, and all of it if it is accepted |
| SimpleIndex.DescriptorIndex.AddNestedExtensions | GeonServer/Libraries/Include/google/protobuf/descriptor_database.cc:254-265 | adds the extensions of a message and of its nested messages, in order |
| SimpleIndex.DescriptorIndex.FindFile | GeonServer/Libraries/Include/google/protobuf/descriptor_database.cc:293-296 | the value stored under exactly this name, if any |
| SimpleIndex.DescriptorIndex.FindSymbol | GeonServer/Libraries/Include/google/protobuf/descriptor_database.cc:299-306 | on a sound index: the value of a key that encloses the name, and none exactly when no key does |
| SimpleIndex.DescriptorIndex.FindExtension | GeonServer/Libraries/Include/google/protobuf/descriptor_database.cc:309-313 | the value stored under exactly this type and number, if any |
| SimpleIndex.DescriptorIndex.FindAllExtensionNumbers | GeonServer/Libraries/Include/google/protobuf/descriptor_database.cc:316-329 | the scan loop yields the specified numbers |
| SymbolCompare.CompareIsNameOrder | GeonServer/Libraries/Include/google/protobuf/descriptor_database.cc:486-521 | the fast path on package and symbol decides exactly the order of the full dotted names, for entries and plain names |
| SymbolCompare.ProperIffOrdered | GeonServer/Libraries/Include/google/protobuf/descriptor_database.cc:486-521 | an entry is ordered correctly against all others if and only if its symbol is not empty or it has no package |
| SymbolCompare.EmptySymbolIsMisordered | GeonServer/Libraries/Include/google/protobuf/descriptor_database.cc:486-521 | an entry with a package and an empty symbol is misordered against its package |
| SymbolCompare.CompareIsStrictWeakOrder | GeonServer/Libraries/Include/google/protobuf/descriptor_database.cc:486-521 | a strict weak order whose equivalence is equality of dotted names |
| EncodedIndex.MergeEntriesIsMerge | GeonServer/Libraries/Include/google/protobuf/descriptor_database.cc:805-820 | merging entries by the comparator is merging by full names |
| EncodedIndex.MergeIsWhole | GeonServer/Libraries/Include/google/protobuf/descriptor_database.cc:805-820 | flattening yields the whole map, contents and order |
| EncodedIndex.CombinesInsert | GeonServer/Libraries/Include/google/protobuf/descriptor_database.cc:692-729 | inserting an absent key on the pending side is inserting it in the whole |
| EncodedIndex.EncodedFileIsRegistered | GeonServer/Libraries/Include/google/protobuf/descriptor_database.cc:625-662 | whatever the outcome, nothing but what the file declares is entered on the pending sides; if it is accepted, all of that is |
| EncodedIndex.DescriptorIndex.AddSymbol | GeonServer/Libraries/Include/google/protobuf/descriptor_database.cc:692-729 | checks both sides and inserts as specified; a refusal changes nothing |
| EncodedIndex.DescriptorIndex.AddExtension | GeonServer/Libraries/Include/google/protobuf/descriptor_database.cc:744-769 | registers a number unless either side has it |
| EncodedIndex.DescriptorIndex.AddFile | GeonServer/Libraries/Include/google/protobuf/descriptor_database.cc:625-662 | pushes the value first and then adds the file's items, stopping at the first refusal; stated over the file's own fields: nothing else is entered, and all of it if it is accepted |
| EncodedIndex.DescriptorIndex.Flatten | GeonServer/Libraries/Include/google/protobuf/descriptor_database.cc:814-820 | merges all pending sides into the flat ones |
| EncodedIndex.DescriptorIndex.FindSymbol | GeonServer/Libraries/Include/google/protobuf/descriptor_database.cc:772-787 | flattens and answers from the flat vector |
| EncodedIndex.DescriptorIndex.FindFile | GeonServer/Libraries/Include/google/protobuf/descriptor_database.cc:855-864 | flattens and finds the file added under exactly this name |
| EncodedIndex.DescriptorIndex.FindExtension | GeonServer/Libraries/Include/google/protobuf/descriptor_database.cc:790-802 | flattens and finds the file that registered exactly this type and number |
| EncodedIndex.DescriptorIndex.FindAllExtensionNumbers | GeonServer/Libraries/Include/google/protobuf/descriptor_database.cc:822-838 | flattens and scans the flat vector |
| EncodedRefinement.SymbolStep | GeonServer/Libraries/Include/google/protobuf/descriptor_database.cc:692-729 | a symbol without conflict is accepted by both indexes to the same effect |
| EncodedRefinement.FileAgrees | GeonServer/Libraries/Include/google/protobuf/descriptor_database.cc:625-662 | a file the encoded index accepts, its symbols apart, is accepted by the simple one to the same effect |
| EncodedRefinement.FileAgreesBack | GeonServer/Libraries/Include/google/protobuf/descriptor_database.cc:117-148 | and the other way round, for files with a valid package |
| EncodedRefinement.FlatIsWhole | GeonServer/Libraries/Include/google/protobuf/descriptor_database.cc:805-820 | after flattening each flat vector is the simple map itself |
| EncodedRefinement.FlatSymbolAgrees | GeonServer/Libraries/Include/google/protobuf/descriptor_database.cc:772-787 | a symbol lookup answers as the simple index does, for any string |
| EncodedRefinement.StepsAgree | GeonServer/Libraries/Include/google/protobuf/descriptor_database.cc:692-838 | every add and every lookup, by file, symbol, extension and extendee, has the same answer and keeps the two coupled |
| EncodedRefinement.EncodedFileIsFound | GeonServer/Libraries/Include/google/protobuf/descriptor_database.cc:772-864 | an accepted file is found by its name, by every name at or below what it declares, and by every extension it declares at any depth |
| EncodedRefinement.EncodedRefinesSimple | GeonServer/Libraries/Include/google/protobuf/descriptor_database.cc:625-864 | over any interleaving of successful adds and lookups that keeps symbols apart the two databases cannot be told apart |
| MergedDatabase.UnhiddenIsNamed | GeonServer/Libraries/Include/google/protobuf/descriptor_database.cc:964-1006 | a coherent source's answer that is not hidden is what its own name finds |
| MergedDatabase.InsertedIsUnion | GeonServer/Libraries/Include/google/protobuf/descriptor_database.cc:1008-1029 | the set insertion keeps the numbers sorted and without duplicates |
| MergedDatabase.MergedDescriptorDatabase.FindFileByName | GeonServer/Libraries/Include/google/protobuf/descriptor_database.cc:954-962 | the first source's answer |
| MergedDatabase.MergedDescriptorDatabase.FindFileContainingSymbol | GeonServer/Libraries/Include/google/protobuf/descriptor_database.cc:964-983 | the answer of the first source that has one, unless an earlier source has a file of that name; for coherent sources the file found is the one its own name finds |
| MergedDatabase.MergedDescriptorDatabase.FindFileContainingExtension | GeonServer/Libraries/Include/google/protobuf/descriptor_database.cc:985-1006 | the same by extension |
| MergedDatabase.MergedDescriptorDatabase.FindAllExtensionNumbers | GeonServer/Libraries/Include/google/protobuf/descriptor_database.cc:1008-1029 | the sorted duplicate-free union is appended to what the output held |
| Varint.DecodeEncode | GeonServer/Libraries/Include/google/protobuf/io/coded_stream.h:899-922 | decoding what was encoded gives the value and its length, whatever follows |
| Varint.EncodedDigits | GeonServer/Libraries/Include/google/protobuf/io/coded_stream.h:899-922 | seven bits a byte, the low ones first, a continuation bit on all bytes but the last, and no superfluous last byte |
| Varint.EncodedExample | GeonServer/Libraries/Include/google/protobuf/io/coded_stream.h:899-922 | 300 is 172 2 |
| Varint.ReadEncoded | GeonServer/Libraries/Include/google/protobuf/parse_context.h:722-726 | tags, sizes and 64-bit values in their ranges are read back |
| Varint.OverlongSize | GeonServer/Libraries/Include/google/protobuf/parse_context.h:705-715 | a size beyond INT_MAX less the slop is refused, however many bytes it takes |
| Varint.SizeLimit | GeonServer/Libraries/Include/google/protobuf/parse_context.cc:351-369 | INT_MAX less 16 is the greatest size that is read |
| Varint.TooManyBytes | GeonServer/Libraries/Include/google/protobuf/parse_context.cc:340-369 | tags and sizes end within five bytes and varints within ten, superfluous zeros included |
| Varint.ReadersLocal | GeonServer/Libraries/Include/google/protobuf/parse_context.h:537-577 | a reader that succeeds looks only at the bytes it consumes |
| Varint.VarintSizeIsExact | GeonServer/Libraries/Include/google/protobuf/io/coded_stream.h:1744-1752 | the multiplication and shift give exactly the encoded length of every 64-bit value |
| VarintLoops.ParseSlow | GeonServer/Libraries/Include/google/protobuf/parse_context.cc:327-338 | the loop with its running correction terms decodes the base 128 value |
| VarintLoops.VarintParse | GeonServer/Libraries/Include/google/protobuf/parse_context.h:537-552 | the unrolled reader equals the 64-bit specification |
| VarintLoops.TagParse | GeonServer/Libraries/Include/google/protobuf/parse_context.h:561-577 | the tag reader equals the 32-bit specification |
| VarintLoops.SizeParse | GeonServer/Libraries/Include/google/protobuf/parse_context.h:705-715 | the size reader accepts exactly sizes clear of INT_MAX |
| VarintLoops.SizeFallback | GeonServer/Libraries/Include/google/protobuf/parse_context.cc:351-369 | four bytes as they are, a fifth only below 8 |
| VarintLoops.UnsafeVarint | GeonServer/Libraries/Include/google/protobuf/io/coded_stream.h:899-922 | the loop writes exactly the encoding and nothing else of the array |
| UnknownFields.FieldRoundTrip | GeonServer/Libraries/Include/google/protobuf/unknown_field_set.cc:300-344 | parsing undoes writing for every storable field, nested groups included |
| UnknownFields.GroupRoundTrip | GeonServer/Libraries/Include/google/protobuf/parse_context.h:431-440 | a group is read up to its own end tag |
| UnknownFields.ForeignEnd | GeonServer/Libraries/Include/google/protobuf/parse_context.h:431-440 | a group is not ended by another number's end tag, a zero tag or the end of the input |
| UnknownFields.BytesOfEachKind | GeonServer/Libraries/Include/google/protobuf/unknown_field_set.cc:300-344 | the bytes of one field of each of the five kinds |
| UnknownFields.ParsedIsStorable | GeonServer/Libraries/Include/google/protobuf/parse_context.h:882-925 | what is read can be written back under the same tag |
| UnknownFields.FieldsSizeIsExact | GeonServer/Libraries/Include/google/protobuf/wire_format.cc:266-324 | the computed size of unknown fields is their encoded length |
| UnknownFields.ParseFieldLocal | GeonServer/Libraries/Include/google/protobuf/parse_context.h:882-925 | reading a field looks only at its own bytes |
| MessageLoop.RunAppend | GeonServer/Server/Struct.pb.cc:172-226 | parsing a concatenation is parsing the second part into what the first gave |
| MessageLoop.UnknownPartMerges | GeonServer/Server/Struct.pb.cc:208-219 | fields a message does not know are kept in order, whatever message and whatever follows |
| MessageLoop.FieldsAreRead | GeonServer/Libraries/Include/google/protobuf/parse_context.h:882-925 | a message read without knowledge of its fields yields the fields written, in order |
| PlayerMessage.EncodingMerges | GeonServer/Server/Struct.pb.cc:172-319 | parsing an encoding on top of any message is merging, whatever follows |
| PlayerMessage.RoundTrip | GeonServer/Server/Struct.pb.cc:172-263 | Parse undoes Serialize exactly for valid UTF-8 names |
| PlayerMessage.ConcatenationMerges | GeonServer/Server/Struct.pb.cc:172-319 | "Last One Wins": parsing a concatenation with an encoding is merging |
| PlayerMessage.SpelledOutDefaultDiffers | GeonServer/Server/Struct.pb.cc:301-319 | a default value spelled out on the wire resets the field, which merging would not |
| PlayerMessage.ParseSerializeParse | GeonServer/Server/Struct.pb.cc:172-263 | re-encoding a parsed message and parsing again loses nothing, unknown fields kept |
| PlayerMessage.ByteSizeIsExact | GeonServer/Server/Struct.pb.cc:265-292 | the size is the encoded length |
| PlayerMessage.WireForm | GeonServer/Server/Struct.pb.cc:228-263 | what is written are the set fields, once each, by increasing number, and then the unknown ones in order |
| PlayerMessage.PlayerBytes | GeonServer/Server/Struct.pb.cc:228-263 | the bytes of one player |
| PlayerMessage.NegativeEnumSize | GeonServer/Server/Struct.pb.cc:265-292 | a negative enum takes ten bytes |
| PlayerObject.PlayerMsg.InternalParse | GeonServer/Server/Struct.pb.cc:172-226 | the tag loop succeeds exactly when the specification does, with its message |
| PlayerObject.PlayerMsg.InternalSerialize | GeonServer/Server/Struct.pb.cc:228-263 | writes exactly the encoding into the array; read without knowledge of the message, the bytes written give the set fields in order and then the unknown ones |
| PlayerObject.PlayerMsg.ByteSizeLong | GeonServer/Server/Struct.pb.cc:265-292 | the length of the encoding |
| PlayerObject.PlayerMsg.MergeFrom | GeonServer/Server/Struct.pb.cc:301-319 | takes over what is not default and appends unknown fields |
| PlayerObject.PlayerMsg.Clear | GeonServer/Server/Struct.pb.cc:159-170 | the empty message |
| LoginMessage.EncodingMerges | GeonServer/Server/Protocol.pb.cc:308-429 | parsing an encoding on top of any S_LOGIN is merging, whatever follows |
| LoginMessage.RoundTrip | GeonServer/Server/Protocol.pb.cc:308-384 | Parse undoes Serialize for any number of players, exactly when all names are UTF-8 |
| LoginMessage.ConcatenationMerges | GeonServer/Server/Protocol.pb.cc:308-429 | "Last One Wins" with repeated players appended |
| LoginMessage.ParseSerializeParse | GeonServer/Server/Protocol.pb.cc:308-384 | re-encoding a parsed S_LOGIN and parsing again gives an equal message if and only if no re-encoded player is longer than a length prefix may announce |
| LoginMessage.ReencodingCanGrow | GeonServer/Server/Struct.pb.cc:265-292 | six bytes parse to a message that takes eleven to write |
| LoginMessage.RereadingCanFail | GeonServer/Server/Protocol.pb.cc:308-384 | a login within all limits whose re-encoding does not parse, for every name of one length |
| LoginMessage.ByteSizeIsExact | GeonServer/Server/Protocol.pb.cc:386-407 | the size is the encoded length, nested length prefixes included |
| LoginMessage.WireForm | GeonServer/Server/Protocol.pb.cc:358-384 | what is written are the flag, if set, as field 1, the players in their order as field 2, and then the unknown fields in order |
| LoginMessage.LoginBytes | GeonServer/Server/Protocol.pb.cc:358-384 | the bytes of one login |
| LoginMessage.AnyNumberSetsFlag | GeonServer/Server/Protocol.pb.cc:314-324 | every number but zero sets the flag |
| LoginObject.LoginMsg.ParsePlayers | GeonServer/Server/Protocol.pb.cc:326-338 | the batched inner loop has the outcome of re-entering the switch for each player and consumes at least a byte a pass |
| LoginObject.LoginMsg.InternalParse | GeonServer/Server/Protocol.pb.cc:308-356 | the generated parser equals the specification |
| LoginObject.LoginMsg.InternalSerialize | GeonServer/Server/Protocol.pb.cc:358-384 | writes exactly the encoding into the array; read without knowledge of the message, the bytes written give the set fields in order and then the unknown ones |
| LoginObject.LoginMsg.ByteSizeLong | GeonServer/Server/Protocol.pb.cc:386-407 | the length of the encoding |
| LoginObject.LoginMsg.MergeFrom | GeonServer/Server/Protocol.pb.cc:416-429 | appends players, takes over a set flag, appends unknown fields |
| ChatMessage.EncodingMerges | GeonServer/Server/Protocol.pb.cc:1091-1213 | parsing an encoding on top of any S_CHAT is merging, whatever follows |
| ChatMessage.RoundTrip | GeonServer/Server/Protocol.pb.cc:1091-1166 | Parse undoes Serialize exactly for valid UTF-8 text |
| ChatMessage.ConcatenationMerges | GeonServer/Server/Protocol.pb.cc:1091-1213 | "Last One Wins" |
| ChatMessage.ParseSerializeParse | GeonServer/Server/Protocol.pb.cc:1091-1166 | re-encoding and parsing again loses nothing |
| ChatMessage.ByteSizeIsExact | GeonServer/Server/Protocol.pb.cc:1168-1189 | the size is the encoded length |
| ChatMessage.WireForm | GeonServer/Server/Protocol.pb.cc:1138-1166 | what is written are the set fields, once each, by increasing number, and then the unknown ones in order |
| ChatMessage.ChatBytes | GeonServer/Server/Protocol.pb.cc:1138-1166 | the bytes of one chat message |
| ChatObject.ChatMsg.InternalParse | GeonServer/Server/Protocol.pb.cc:1091-1136 | the generated parser equals the specification |
| ChatObject.ChatMsg.InternalSerialize | GeonServer/Server/Protocol.pb.cc:1138-1166 | writes exactly the encoding into the array; read without knowledge of the message, the bytes written give the set fields in order and then the unknown ones |
| ChatObject.ChatMsg.ByteSizeLong | GeonServer/Server/Protocol.pb.cc:1168-1189 | the length of the encoding |
| ChatObject.ChatMsg.MergeFrom | GeonServer/Server/Protocol.pb.cc:1198-1213 | takes over what is not default |
| PacketIds.ProtoParser.ParseProto | GeonServer/Tools/PacketGenerator/ProtoParser.py:12-31 | the loop over lines continues the lists and the next id exactly as specified, for a first file or a later one, and stops at a message line without a name |
| PacketIds.ContinuedSplit | GeonServer/Tools/PacketGenerator/ProtoParser.py:12-31 | two files parsed one after the other are assigned as one |
| PacketIds.IdsAreConsecutive | GeonServer/Tools/PacketGenerator/ProtoParser.py:28-29 | ids are consecutive from the start id |
| PacketIds.TotalIsDealtOut | GeonServer/Tools/PacketGenerator/ProtoParser.py:20-28 | received packets are those of the total list whose names start with the receive prefix, sent ones the others, both in order |
| PacketIds.SwapKeepsIds | GeonServer/Tools/PacketGenerator/ProtoParser.py:12-31 | exchanging the prefixes changes no name, id or order of the total list |
| PacketIds.SwapExchangesLists | GeonServer/Tools/PacketGenerator/ProtoParser.py:20-26 | the two sides' lists are exchanged if and only if no packet's name starts with both prefixes |
| PacketIds.DistinctPrefixesNeverClash | GeonServer/Tools/PacketGenerator/ProtoParser.py:21-24 | which never happens when neither prefix starts with the other |
| PacketIds.OnlyMessageLinesMatter | GeonServer/Tools/PacketGenerator/ProtoParser.py:16-18 | what lies between the message lines of a proto file has no influence |
| PacketIds.MessageLineNames | GeonServer/Tools/PacketGenerator/ProtoParser.py:17-20 | a line that declares a message, whatever follows the name, yields that name in upper case |
| PacketIds.UpperAt | GeonServer/Tools/PacketGenerator/ProtoParser.py:20 | character by character: a small letter becomes the large one, everything else stays, and no small letter is left |
| PacketIds.CaseDoesNotMatter | GeonServer/Tools/PacketGenerator/ProtoParser.py:16-29 | files that differ only in the case of their messages' names get the same names, ids and lists |
| PacketIds.MixedCaseLine | GeonServer/Tools/PacketGenerator/ProtoParser.py:16-29 | the assignment of one line in mixed case, literally |
| PacketIds.ShippedIds | GeonServer/Server/ClientPacketHandler.h:7-15 | for the shipped protocol's message lines the assigner gives exactly the ids that the generated headers list |
| PacketFraming.FrameReads | GeonServer/Server/ClientPacketHandler.h:35-66 | size and id are read back from a frame, and the rest is the message |
| PacketFraming.FrameBytesAt | GeonServer/Server/ClientPacketHandler.h:55-69 | two bytes of size, two of id, each with the low one first, and then the message |
| PacketFraming.FrameBytes | GeonServer/Server/ClientPacketHandler.h:55-69 | the bytes of one C_CHAT packet |
| PacketFraming.GreatestId | GeonServer/Server/ClientPacketHandler.h:4 | only the id 65535 is outside the table |
| PacketFraming.MakeSendBuffer | GeonServer/Server/ClientPacketHandler.h:55-69 | a message is sent exactly when it has at most 5996 bytes, and is then the frame of message and id; memory is overrun exactly when the 16-bit size wraps to less than a header; else an assertion stops the process |
| PacketFraming.HandlersAreExact | GeonServer/Server/ClientPacketHandler.h:26-33 | each packet's id has its own handler |
| PacketFraming.OtherIdsAreInvalid | GeonServer/Server/ClientPacketHandler.h:28-29 | an id has the handler of invalid packets if and only if no received packet has it |
| PacketFraming.PacketHandler.constructor | GeonServer/Server/ClientPacketHandler.h:26-33 | the filling loop and the assignments leave the specified table |
| PacketFraming.PacketHandler.HandlePacket | GeonServer/Server/ClientPacketHandler.h:35-53 | a packet goes to the handler of its id with the bytes behind the header, or with less than none if it announced 1 to 3 bytes, or has an id past the table |
| PacketStream.ScanAppend | Readme.md:79-83 | scanning what has arrived and then the rest with what follows cuts the same packets as scanning the whole |
| PacketStream.RestIsShort | Readme.md:79-83 | what is left pending is less than one packet and holds none |
| PacketStream.PacketsAreCutOut | Readme.md:79-83 | a stream of packets is cut into exactly those packets with nothing left |
| PacketStream.RecvBuffer.OnWrite | Readme.md:60-65 | received bytes are appended to what is pending if there is room |
| PacketStream.RecvBuffer.OnRead | Readme.md:60-65 | consumed bytes leave the front of what is pending, if there are as many |
| PacketStream.RecvBuffer.Clean | Readme.md:60-65 | keeps what is pending, always leaves room for a full receive, and copies only between ranges that do not meet |
| PacketStream.PacketSession.OnRecv | Readme.md:79-83 | the loop handles exactly the packets of the buffer in order and reports what they took; it never ends exactly when it meets a size of 0 |
| PacketStream.PacketSession.ProcessRecv | Readme.md:60-83 | one receive handles the packets now complete and keeps the rest pending; an empty one or one without room changes nothing |
| PacketStream.PacketSession.ReceiveAll | Readme.md:60-83 | however a stream is cut into pieces, each up to the room there is, the packets handled are those of the bytes taken; pieces up to 65536 bytes are always taken |
| PacketDelivery.SentReachesItsHandler | GeonServer/DummyClient/ServerPacketHandler.h:26-69 | for every generation with ids below 65535 and every message up to 65531 bytes: what one side sends reaches, on the other, the handler of its own name with its own bytes |
| PacketDelivery.OthersAreInvalid | GeonServer/DummyClient/ServerPacketHandler.h:26-39 | every other id, those of the peer's own packets included, goes to the handler of invalid packets |
| PacketDelivery.LoginArrives | GeonServer/Server/ClientPacketHandler.h:26-69 | an S_LOGIN sent by the server is parsed at the client's handler to an equal message |
| PacketDelivery.ChatArrives | GeonServer/Server/ClientPacketHandler.h:26-69 | an S_CHAT likewise |
| PacketDelivery.ConversationArrives | Readme.md:79-83 | any sequence of packets, cut into pieces in any way, is dispatched once each, in order, to the right handlers with the right bytes |
| PacketDelivery.ReceiveConversation | Readme.md:60-83 | the receiving session handles exactly the packets sent, in order and with nothing pending, each going to its own handler, however the stream is cut; it never hangs on them |
| JobQueue.ApplyInv | Readme.md:179-190 | every step keeps: jobs counted are jobs waiting, popped or being pushed, and exactly one executor or announcement exists while there are any |
| JobQueue.JobsRunOneAtATimeInOrder | Readme.md:157-162 | under any interleaving at most one thread executes a queue, and jobs run once each in the order of pushing |
| JobQueue.NoJobIsForgotten | Readme.md:183-191 | when nobody is in Push or Execute and the queue is not announced, every job pushed has run |
| JobQueue.GivesWay | Readme.md:179-191 | who is out of time or may not execute announces the queue once and is free, and nothing that waits is touched |
| JobQueue.GoesOnOrEnds | Readme.md:179-191 | who has time left goes on with what came in meanwhile; the execution ends exactly when no job waits and none is being pushed |
| JobQueue.WorkIsTakenUp | Readme.md:183-191 | while jobs are counted and nobody is at work the queue is announced, and any free thread can take it up |

## Left out

- The serial arenas of a process are not put together in one state: each is stated against whatever the others may do, and `ArenaHistories.SiblingsDoNotDisturb` takes it as given that two arenas' pieces have no word in common.
- Messages with a field of more than 2 GB: length prefixes announce no more, so round trips are stated for the rest; the original's refusal to serialize a message of more than INT_MAX bytes is not modelled.
- The recursion limit of 100 of nested groups and messages.
- The input stream's buffers and their overlap: parsers read from one sequence of bytes and fail where the bytes end.
- UTF-8 checking: an arbitrary predicate on bytes, and the logging of its failures.
- Cached sizes of nested messages: computed again where the source reads them back.
- Players of an S_LOGIN are values of the list, not objects shared with it.
- The other generated messages (C_LOGIN, C_ENTER_GAME, C_CHAT, S_ENTER_GAME): special cases of those modelled.
- Encoded index values: positions in the list of added files, without the file bytes behind them; `FindNameOfFileContainingSymbol` and `DescriptorPoolDatabase` would add only wrappers.
- Encoded `AddFile` walks a flattened list of the file's items instead of five nested loops; the order is the source's.
- Names that are not ASCII in proto files: `upper` acts on ASCII letters.
- An allocation of 0 bytes returns an address and owns nothing; a table of free lists that has been replaced stays reserved and is never used again, as in the source.
- Cleanup functions and destructors are taken to leave the arena's own words alone while the list runs.
- Memory is made of 8-byte words at their addresses; accesses at other widths do not occur in the code modelled.
- Block sizes and identifiers do not wrap around at 64 bits, and allocators do not fail.
- `AllocationPolicy::IsDefault` and the choice between the two initializations made by it; both initializations are modelled.
- Space used of a whole multi-threaded arena, metrics collectors, address sanitizer branches and statistics.
- Memory orders weaker than sequential consistency, and threads that end and whose cache's address is used again.
- Strings with a default other than the empty one (`LazyString`), `InternalSwap` and donated strings.
- The send buffer chunks' sharing between packets, sockets, disconnection, sessions, rooms, timers and database access.
- The creation, reset and destruction of an arena are one step each in `ArenaThreads`: of what they access, other threads see only the identifier counter before they are done.
- An agent of `JobQueue` is one call of Push or Execute; a push made by a job that is running is an agent of its own, and the global queue is a count of this queue's entries in it.
- A job that clears its own queue, and queues pushed to while they are destroyed.
