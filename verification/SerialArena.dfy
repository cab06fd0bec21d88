// A serial arena as it runs: objects are bumped up from ptr and cleanup nodes
// down from limit in the newest of a list of blocks, and returned arrays are
// kept in free lists inside the arena's own memory.
module SerialArenas {
  import opened ArenaHistories
  import opened ArenaLayout
  import opened ArenaMemory
  import opened ArenaRuns
  import opened ArenaSteps
  import opened Arithmetic
  import opened Bits
  import opened SizeClasses

  function TotalSize(blocks: seq<Block>): int {
    if |blocks| == 0 then 0 else TotalSize(blocks[..|blocks| - 1]) + blocks[|blocks| - 1].size
  }

  lemma TotalSizeGrows(blocks: seq<Block>, b: Block)
    ensures TotalSize(blocks + [b]) == TotalSize(blocks) + b.size
  {
    assert (blocks + [b])[..|blocks|] == blocks;
  }

  lemma TotalSizeOfOne(b: Block)
    ensures TotalSize([b]) == b.size
  {
    TotalSizeGrows([], b);
    assert [] + [b] == [b];
  }

  lemma TotalSizeIgnoresStart(blocks: seq<Block>, start: int)
    requires |blocks| > 0
    ensures TotalSize(blocks[|blocks| - 1 := blocks[|blocks| - 1].(start := start)]) == TotalSize(blocks)
  {
    var last := |blocks| - 1;
    assert blocks[last := blocks[last].(start := start)][..last] == blocks[..last];
  }

  class SerialArena {
    // The memory of the process, of which the arena's blocks are a part.
    var mem: Memory
    var head: int
    var ptr: int
    var limit: int
    var cachedBlocks: int
    var cachedLength: nat
    var spaceUsed: int
    var spaceAllocated: int

    ghost var layout: Layout
    ghost var run: seq<seq<Node>>
    ghost var lists: seq<seq<int>>
    // Bytes bumped so far.
    ghost var bumped: int

    ghost function Now(): State
      reads this
    {
      State(mem, layout, run, lists, cachedBlocks)
    }

    // The fields agree with the layout.
    ghost predicate Tied()
      reads this
    {
      && |layout.blocks| > 0
      && ptr == layout.ptr && head == Newest(layout).base && limit == Newest(layout).start
      && cachedLength == |lists|
    }

    ghost predicate Accounted()
      reads this
    {
      && spaceAllocated == TotalSize(layout.blocks)
      && spaceUsed + (ptr - head - HEADER_SIZE) - ARENA_SIZE == bumped
    }

    ghost predicate Valid()
      reads this
    {
      Sound(Now()) && Tied() && Accounted()
    }

    // SerialArena::New
    constructor (m: Memory, base: int, size: int)
      requires FirstBlockAt(base, size)
      ensures Valid()
      ensures Now() == Initial(m, base, size)
      ensures spaceAllocated == size && bumped == 0
    {
      hide Sound, Masked, FirstBlockAt, TotalSize;
      mem := m[base := 0][base + 8 := size][base + 16 := 0];
      head := base;
      ptr := base + (HEADER_SIZE + ARENA_SIZE);
      limit := base + Masked(size);
      cachedBlocks, cachedLength := 0, 0;
      spaceUsed, spaceAllocated := 0, size;
      layout := Layout([FirstBlock(base, size)], base + HEADER_SIZE + ARENA_SIZE, map[]);
      run, lists, bumped := [[]], [], 0;
      new;
      TotalSizeOfOne(FirstBlock(base, size));
      assert Now() == Initial(m, base, size);
    }

    predicate HasSpace(n: int)
      reads this
    {
      n <= limit - ptr
    }

    method AllocateFromExisting(n: int) returns (ret: int)
      requires Valid() && 0 <= n <= Room(layout) && n % 8 == 0
      modifies this
      ensures Valid()
      ensures ret == old(ptr) && Now() == Bumped(old(Now()), n)
      ensures bumped == old(bumped) + n && spaceAllocated == old(spaceAllocated)
    {
      hide Sound;
      BumpedSound(Now(), n);
      ret := ptr;
      ptr := ptr + n;
      layout := Bump(layout, n);
      bumped := bumped + n;
    }

    method AllocateNewBlock(n: int, policy: Policy, at: int)
      requires Valid() && n >= 0
      requires Grantable(layout, at, BlockSize(policy, Newest(layout).size, n))
      modifies this
      ensures Valid()
      ensures Now() == Grown(old(Now()), at, old(BlockSize(policy, Newest(layout).size, n)))
      ensures spaceAllocated == old(spaceAllocated) + old(BlockSize(policy, Newest(layout).size, n))
      ensures bumped == old(bumped)
    {
      hide Sound, Grantable, BlockSize, Load, TotalSize, Masked;
      ghost var s := Now();
      ghost var newSize := BlockSize(policy, Newest(layout).size, n);
      SealedSound(s);
      NewestSize(Sealed(s));
      GrownSound(s, at, newSize);
      TotalSizeGrows(layout.blocks, LaterBlock(at, newSize));
      // The header of a block that is full records where its nodes start.
      mem := mem[head + 16 := limit];
      var used := ptr - (head + HEADER_SIZE);
      spaceUsed := spaceUsed + used;
      var size := BlockSize(policy, Load(mem, head + 8), n);
      assert size == newSize;
      spaceAllocated := spaceAllocated + size;
      mem := mem[at := head][at + 8 := size][at + 16 := 0];
      head := at;
      ptr := head + HEADER_SIZE;
      limit := head + size;
      layout := AddBlock(layout, at, size);
      run := run + [[]];
      assert Now() == Grown(s, at, newSize);
    }

    // Null is 0.
    method TryAllocateFromCachedBlock(size: int) returns (ret: int)
      requires Valid() && size >= 0
      modifies this
      ensures Valid()
      ensures FrontsOwned(old(Now()))
      ensures ret == 0 <==> !FromList(old(Now()), true, size)
      ensures ret == 0 ==> Now() == old(Now())
      ensures ret != 0 ==>
                Now() == Taken(old(Now()), RequestIndex(size)) && ret == old(lists)[RequestIndex(size)][0]
      ensures bumped == old(bumped) && spaceAllocated == old(spaceAllocated)
    {
      hide Sound, Load, FrontsOwned, Pow2, TotalSize;
      FrontsAreOwned(Now());
      if size < 16 {
        return 0;
      }
      // The list whose arrays are all large enough.
      var index := RequestIndex(size);
      if index >= cachedLength {
        return 0;
      }
      HeadIsNullIff(Now(), index);
      var cachedHead := Load(mem, cachedBlocks + 8 * index);
      if cachedHead == 0 {
        return 0;
      }
      FrontIsNotNull(Now(), index);
      TakenSound(Now(), index);
      ret := cachedHead;
      ghost var s := Now();
      mem := mem[cachedBlocks + 8 * index := Load(mem, cachedHead)];
      layout := Recast(layout, cachedHead, Object);
      lists := lists[index := lists[index][1..]];
      assert Now() == Taken(s, index);
    }

    // Room for n bytes in the newest block, in a new one if need be.
    method EnsureRoom(n: int, policy: Policy, at: int)
      requires Valid() && n >= 0 && MayGrow(Now(), n, policy, at)
      modifies this
      ensures Valid() && n <= Room(layout)
      ensures Now() == Fitted(old(Now()), n, policy, at)
      ensures bumped == old(bumped)
    {
      hide Sound, Accounted, Grantable, BlockSize;
      FittedSound(Now(), n, policy, at);
      if !HasSpace(n) {
        AllocateNewBlock(n, policy, at);
      }
    }

    method AllocateAligned(kArray: bool, n: int, policy: Policy, at: int) returns (ret: int)
      requires Valid() && n >= 0 && n % 8 == 0 && MayGrow(Now(), n, policy, at)
      modifies this
      ensures Valid()
      ensures FrontsOwned(old(Now()))
      ensures Now() == Allocated(old(Now()), kArray, n, policy, at)
      ensures ret == AllocatedAt(old(Now()), kArray, n, policy, at)
      ensures bumped == old(bumped) + if FromList(old(Now()), kArray, n) then 0 else n
    {
      hide Sound, Accounted, MayGrow, FrontsOwned, Fitted, Bumped, Taken;
      FrontsAreOwned(Now());
      if kArray {
        ret := TryAllocateFromCachedBlock(n);
        if ret != 0 {
          return;
        }
      }
      EnsureRoom(n, policy, at);
      ret := AllocateFromExisting(n);
    }

    method MaybeAllocateAligned(n: int) returns (ok: bool, out: int)
      requires Valid() && n >= 0 && n % 8 == 0
      modifies this
      ensures Valid()
      ensures ok <==> n <= Room(old(layout))
      ensures Now() == MaybeAllocated(old(Now()), n)
      ensures ok ==> out == old(ptr)
    {
      hide Sound, Accounted;
      if !HasSpace(n) {
        return false, 0;
      }
      out := AllocateFromExisting(n);
      ok := true;
    }

    // The address of an object of n bytes and that of a cleanup node, which
    // the caller fills.
    method AllocateAlignedWithCleanup(n: int, policy: Policy, at: int) returns (ret: int, node: int)
      requires Valid() && n >= 0 && n % 8 == 0 && MayGrow(Now(), n + CLEANUP_SIZE, policy, at)
      modifies this
      ensures Valid()
      ensures |old(layout).blocks| == |old(run)| > 0
      ensures Now() == WithCleanup(old(Now()), n, policy, at)
      ensures ret == Fitted(old(Now()), n + CLEANUP_SIZE, policy, at).layout.ptr
      ensures node == limit && |run| > 0 && |run[|run| - 1]| > 0
      ensures bumped == old(bumped) + n
    {
      hide Sound, WellFormed, HeadersHold, NodesHold, FreeHold, Grantable, Fitted, Accounted, WithNode;
      Shape(Now());
      EnsureRoom(n + CLEANUP_SIZE, policy, at);
      ret := AllocateFromExisting(n);
      node := AllocateNode();
    }

    method AllocateNode() returns (node: int)
      requires Valid() && CLEANUP_SIZE <= Room(layout)
      modifies this
      ensures Valid()
      ensures |old(layout).blocks| == |old(run)| > 0
      ensures Now() == WithNode(old(Now()))
      ensures node == limit && |run| > 0 && |run[|run| - 1]| > 0
      ensures bumped == old(bumped)
    {
      hide Sound, WellFormed, HeadersHold, NodesHold, FreeHold, NodeAt, TotalSize;
      Shape(Now());
      ghost var s := Now();
      ghost var s' := WithNode(s);
      WithNodeSound(s);
      TotalSizeIgnoresStart(layout.blocks, limit - CLEANUP_SIZE);
      limit := limit - CLEANUP_SIZE;
      layout := PushNode(layout);
      run := s'.run;
      node := limit;
      assert Now() == s';
    }

    // The caller's stores into the latest cleanup node.
    method FillCleanup(node: int, elem: int, cleanup: int)
      requires Valid() && node == limit && |run| > 0 && |run[|run| - 1]| > 0
      modifies this
      ensures Valid()
      ensures |old(layout).blocks| == |old(run)|
      ensures Now() == Filled(old(Now()), Node(elem, cleanup))
      ensures bumped == old(bumped)
    {
      hide Sound, WellFormed, HeadersHold, NodesHold, FreeHold, Load, NodeAt, TotalSize, ClientsKept;
      Shape(Now());
      ghost var s := Now();
      ghost var s' := Filled(s, Node(elem, cleanup));
      FilledSound(s, Node(elem, cleanup));
      mem := mem[node := elem];
      mem := mem[node + 8 := cleanup];
      run := s'.run;
      assert Now() == s';
    }

    method AddCleanup(elem: int, cleanup: int, policy: Policy, at: int)
      requires Valid() && MayGrow(Now(), CLEANUP_SIZE, policy, at)
      modifies this
      ensures Valid()
      ensures |old(layout).blocks| == |old(run)| > 0
      ensures Now() == Registered(old(Now()), 0, Node(elem, cleanup), policy, at)
      ensures bumped == old(bumped)
    {
      hide Sound, Accounted, MayGrow, WithCleanup, Filled, Fitted;
      var ret, node := AllocateAlignedWithCleanup(0, policy, at);
      FillCleanup(node, elem, cleanup);
    }

    // Arena::AllocateInternal; destructor 0 stands for none. The object has
    // size bytes at an address that is a multiple of align.
    method AllocateInternal(size: int, align: int, destructor: int, policy: Policy, at: int) returns (ret: int)
      requires Valid() && size >= 0 && align > 0
      requires align <= 8 ==> align in {1, 2, 4, 8}
      requires align > 8 ==> align % 8 == 0 && size % 8 == 0
      requires MayGrow(Now(), Padded(size, align) + if destructor == 0 then 0 else CLEANUP_SIZE, policy, at)
      modifies this
      ensures Valid()
      ensures FrontsOwned(old(Now())) && |old(layout).blocks| == |old(run)| > 0
      ensures Now() == if destructor == 0 then Allocated(old(Now()), false, Padded(size, align), policy, at)
                       else Registered(old(Now()), Padded(size, align), Node(ret, destructor), policy, at)
      ensures ret % align == 0
      ensures size > 0 ==> exists a :: a in layout.owned && layout.owned[a].role == Object &&
                                       a <= ret && ret + size <= a + layout.owned[a].size
      ensures bumped == old(bumped) + Padded(size, align)
      ensures align > 8 ==> bumped == old(bumped) + size + align - 8
      ensures align <= 8 ==> old(bumped) + size <= bumped < old(bumped) + size + 8
    {
      hide Sound, Accounted, MayGrow, Allocated, AllocatedAt, WithCleanup, Filled, Fitted, FrontsOwned, Padded, Placed;
      Shape(Now());
      FrontsAreOwned(Now());
      PaddedIsAligned(size, align);
      ghost var s := Now();
      var n := Padded(size, align);
      if destructor == 0 {
        var p := AllocateAligned(false, n, policy, at);
        AllocatedIsExclusive(s, false, n, policy, at);
        ret := Placed(p, align);
        PlacedInside(s, Now(), p, size, align);
      } else {
        var p, node := AllocateAlignedWithCleanup(n, policy, at);
        ret := Placed(p, align);
        FillCleanup(node, ret, destructor);
        RegisteredIsExclusive(s, n, Node(ret, destructor), policy, at);
        PlacedInside(s, Now(), p, size, align);
      }
    }

    // The array may come from another serial arena.
    method ReturnArrayMemory(p: int, size: int)
      requires Valid() && Returnable(Now(), p, size)
      modifies this
      ensures Valid()
      ensures Now() == Returned(old(Now()), p, size)
      ensures bumped == old(bumped) && spaceAllocated == old(spaceAllocated)
    {
      hide Sound, WellFormed, HeadersHold, NodesHold, FreeHold, Load, Pow2, TotalSize, TakenBack, Foreign, Received, Resized,
        ReturnIndex, CopyHeads, ClearHeads;
      ghost var s := Received(Now(), p, size);
      ReceivedSound(Now(), p, size);
      ReturnedSound(Now(), p, size);
      ReceivedBlocks(Now(), p, size);
      layout := s.layout;
      // The list of the largest power of two that the array can hold.
      var index := ReturnIndex(size);
      if index >= cachedLength {
        GrownTableFits(size, cachedLength);
        // This object becomes the table of free lists.
        FillTable(p, size / 8);
        cachedBlocks := p;
        cachedLength := Min(64, size / 8);
        layout := Recast(layout, p, Table);
        lists := Resized(lists, cachedLength);
        return;
      }
      var newNode := p;
      mem := mem[newNode := Load(mem, cachedBlocks + 8 * index)];
      mem := mem[cachedBlocks + 8 * index := newNode];
      layout := Recast(layout, p, Free(index));
      lists := lists[index := [p] + lists[index]];
    }

    method FillTable(newList: int, newSize: nat)
      requires cachedLength <= newSize
      modifies this`mem
      ensures mem == ClearHeads(CopyHeads(old(mem), newList, cachedBlocks, cachedLength), newList, cachedLength, newSize)
    {
      var i := 0;
      while i < cachedLength
        invariant 0 <= i <= cachedLength
        invariant mem == CopyHeads(old(mem), newList, cachedBlocks, i)
      {
        mem := mem[newList + 8 * i := Load(mem, cachedBlocks + 8 * i)];
        i := i + 1;
      }
      while i < newSize
        invariant cachedLength <= i <= newSize
        invariant mem == ClearHeads(CopyHeads(old(mem), newList, cachedBlocks, cachedLength), newList, cachedLength, i)
      {
        mem := mem[newList + 8 * i := 0];
        i := i + 1;
      }
    }

    // A client's store into an object it holds.
    method Store(p: int, w: int, v: int)
      requires Valid() && WordOf(layout, p, w) && layout.owned[p].role == Object
      modifies this`mem
      ensures Valid()
      ensures Now() == old(Now()).(mem := old(mem)[w := v])
    {
      hide Sound, OthersSame, TotalSize;
      ObjectStore(Now(), p, w, v);
      mem := mem[w := v];
    }

    // A client gives its array back to another serial arena.
    ghost method Lend(p: int)
      requires Valid() && p in layout.owned && layout.owned[p].role == Object
      modifies this`layout
      ensures Valid()
      ensures Now() == Passed(old(Now()), p, Lent)
    {
      hide Sound, TotalSize;
      PassedSound(Now(), p, Lent);
      layout := Recast(layout, p, Lent);
    }

    // The memory as others have left it since this arena was last used.
    method Resume(m: Memory)
      requires Valid() && FromElsewhere(Now(), m)
      modifies this`mem
      ensures Valid()
      ensures Now() == old(Now()).(mem := m)
    {
      hide Sound, FromElsewhere, TotalSize, ClientsKept;
      ElsewhereSound(Now(), m);
      mem := m;
    }

    method SpaceUsed() returns (r: int)
      requires Valid()
      ensures r == bumped
    {
      r := ptr - (head + HEADER_SIZE);
      r := r + spaceUsed;
      // The arena object is in the first block and counts for none of it.
      r := r - ARENA_SIZE;
    }

    // The cleanups are logged in the order in which they are called.
    method CleanupList() returns (log: seq<Node>)
      requires Valid()
      modifies this`mem
      ensures Valid()
      ensures |layout.blocks| == |run| > 0 && Now() == Sealed(old(Now()))
      ensures log == CleanupLog(layout.blocks, run)
    {
      hide Sound, WellFormed, HeadersHold, NodesHold, FreeHold, Load, TotalSize, CleanupLog, ClientsKept, Overlooked, Masked;
      ghost var s := Now();
      Shape(s);
      SealedSound(s);
      var b := head;
      mem := mem[b + 16 := limit];
      assert Now() == Sealed(s);
      log := [];
      ghost var k := |run|;
      WholeLog(layout.blocks, run);
      while b != 0
        invariant 0 <= k <= |run| == |layout.blocks| && Now() == Sealed(s)
        invariant b == if k == 0 then 0 else layout.blocks[k - 1].base
        invariant log + CleanupLog(layout.blocks[..k], run[..k]) == CleanupLog(layout.blocks, run)
        decreases k
      {
        HeaderWords(Now(), k - 1);
        var end := b + Masked(Load(mem, b + 8));
        var it := Load(mem, b + 16);
        var part := RunBlock(it, end, k - 1);
        LogSplit(layout.blocks, run, k, log);
        log := log + part;
        b := Load(mem, b);
        k := k - 1;
      }
      if k > 0 {
        HeaderWords(Now(), k - 1);
      }
      NoBlocksLeft(layout.blocks, run, log);
    }

    // The cleanup nodes from `it` up to end.
    method RunBlock(it: int, end: int, ghost k: nat) returns (log: seq<Node>)
      requires Sound(Now()) && k < |layout.blocks| == |run|
      requires it == layout.blocks[k].start && end == layout.blocks[k].base + Masked(layout.blocks[k].size)
      ensures log == if Overlooked(layout.blocks, run, k) then [] else run[k]
    {
      hide Sound, NodeAt;
      ghost var r := run[k];
      NodeWords(Now(), k);
      log := [];
      var num := (end - it) / CLEANUP_SIZE;
      if num > 0 {
        var at := it;
        ghost var j := 0;
        while at < end
          invariant 0 <= j <= |r| && at == it + CLEANUP_SIZE * j
          invariant log == r[..j]
        {
          log := log + [NodeAt(mem, at)];
          at := at + CLEANUP_SIZE;
          j := j + 1;
        }
      }
    }
  }

  // The bytes asked of the arena for an object of the given size and
  // alignment, and where in them the object is placed.
  function Padded(size: int, align: int): int {
    if align <= 8 then AlignUpTo8(size) else size + align - 8
  }

  function Placed(p: int, align: int): int {
    if align <= 8 then p else AlignTo(p, align)
  }

  lemma PaddedIsAligned(size: int, align: int)
    requires size >= 0 && (align > 8 ==> align % 8 == 0 && size % 8 == 0)
    ensures Padded(size, align) >= size && Padded(size, align) % 8 == 0
    ensures if align > 8 then Padded(size, align) == size + align - 8 else Padded(size, align) < size + 8
  {
  }

  lemma PlacedInside(s: State, s': State, p: int, size: int, align: int)
    requires HandedOut(s, s', p, Padded(size, align)) && p % 8 == 0
    requires size >= 0 && align > 0
    requires align <= 8 ==> align in {1, 2, 4, 8}
    requires align > 8 ==> align % 8 == 0 && size % 8 == 0
    ensures Placed(p, align) % align == 0
    ensures size > 0 ==> exists a :: a in s'.layout.owned && s'.layout.owned[a].role == Object &&
                                     a <= Placed(p, align) && Placed(p, align) + size <= a + s'.layout.owned[a].size
  {
    hide ClientsKept, AlignTo, AlignUpTo8;
    PaddedIsAligned(size, align);
    if align > 8 {
      AlignedFits(p, align);
    } else {
      SmallAlignment(p, align);
    }
    assert size > 0 ==> p in s'.layout.owned && s'.layout.owned[p].role == Object;
  }

  lemma SmallAlignment(p: int, align: int)
    requires p % 8 == 0 && align in {1, 2, 4, 8}
    ensures p % align == 0
  {
    assert p == align * ((8 / align) * (p / 8));
    ModUnique(p, align, (8 / align) * (p / 8), 0);
  }

  lemma ReceivedBlocks(s: State, p: int, size: int)
    ensures var s' := Received(s, p, size);
            && s'.mem == s.mem && s'.run == s.run && s'.lists == s.lists && s'.table == s.table
            && s'.layout.blocks == s.layout.blocks && s'.layout.ptr == s.layout.ptr
  {
  }

  // The newest block's header holds its size.
  lemma NewestSize(s: State)
    requires Sound(s)
    ensures |s.layout.blocks| > 0
    ensures Load(s.mem, Newest(s.layout).base + 8) == Newest(s.layout).size
  {
    hide Sound, WellFormed, NodesHold, FreeHold, Load;
    Shape(s);
    assert HeaderHolds(s.mem, s.layout.blocks, |s.layout.blocks| - 1);
  }

  lemma FrontIsNotNull(s: State, i: nat)
    requires Sound(s) && i < |s.lists| && |s.lists[i]| > 0
    ensures s.lists[i][0] != 0
  {
    Shape(s);
    HeadIsNullIff(s, i);
    RegionIsRoomy(s.layout, s.lists[i][0]);
  }

  lemma HeaderWords(s: State, k: nat)
    requires Sound(s) && k < |s.layout.blocks|
    requires Load(s.mem, Newest(s.layout).base + 16) == Newest(s.layout).start
    ensures var b := s.layout.blocks[k];
            && b.base != 0
            && Load(s.mem, b.base) == (if k == 0 then 0 else s.layout.blocks[k - 1].base)
            && Load(s.mem, b.base + 8) == b.size
            && Load(s.mem, b.base + 16) == b.start
  {
    hide Sound, WellFormed, NodesHold, FreeHold, Load, Masked;
    Shape(s);
    FormOfBlock(s.layout, k);
    assert HeaderHolds(s.mem, s.layout.blocks, k);
  }

  lemma NodeWords(s: State, k: nat)
    requires Sound(s) && k < |s.layout.blocks| == |s.run|
    ensures var b, r := s.layout.blocks[k], s.run[k];
            && b.top == b.base + (if k == 0 then Masked(b.size) else b.size)
            && b.top - b.start == CLEANUP_SIZE * |r|
            && forall j :: 0 <= j < |r| ==> NodeAt(s.mem, b.start + CLEANUP_SIZE * j) == r[j]
  {
    hide Sound, WellFormed, HeadersHold, FreeHold, NodeAt, Masked;
    Shape(s);
    FormOfBlock(s.layout, k);
    assert BlockNodesHold(s.mem, s.layout.blocks[k], s.run[k]);
  }

  // The log of the blocks up to k, appended to what was logged before.
  lemma LogSplit(blocks: seq<Block>, run: seq<seq<Node>>, k: nat, log: seq<Node>)
    requires 0 < k <= |blocks| == |run|
    ensures log + CleanupLog(blocks[..k], run[..k]) ==
            log + (if Overlooked(blocks, run, k - 1) then [] else run[k - 1]) + CleanupLog(blocks[..k - 1], run[..k - 1])
  {
    assert blocks[..k][..k - 1] == blocks[..k - 1] && run[..k][..k - 1] == run[..k - 1];
    Associate(log, if Overlooked(blocks, run, k - 1) then [] else run[k - 1], CleanupLog(blocks[..k - 1], run[..k - 1]));
  }

  lemma WholeLog(blocks: seq<Block>, run: seq<seq<Node>>)
    requires |blocks| == |run|
    ensures [] + CleanupLog(blocks[..|run|], run[..|run|]) == CleanupLog(blocks, run)
  {
    hide CleanupLog;
    assert blocks[..|run|] == blocks && run[..|run|] == run;
  }

  lemma NoBlocksLeft(blocks: seq<Block>, run: seq<seq<Node>>, log: seq<Node>)
    requires |blocks| == |run|
    ensures log + CleanupLog(blocks[..0], run[..0]) == log
  {
    assert log + [] == log;
  }
}
