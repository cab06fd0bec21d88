// How an arena gives its memory back. Every serial arena lives in its own
// oldest block, so the walk over the list of arenas reads from blocks that
// are about to be released; here a released block can no longer be read.
module ArenaRelease {
  import opened Wrappers
  import opened ArenaLayout

  // The size of an allocation policy; with it an initial block must have room
  // for the policy as well.
  const POLICY_SIZE: int := 40

  datatype Mem = Mem(ptr: int, size: int)

  // What a serial arena's object says: its newest block, the next arena of
  // the list and the sum of its blocks' sizes.
  datatype Serial = Serial(head: int, next: int, spaceAllocated: int)

  // A live block: its header, and the arena object if it holds one.
  datatype Cell = Cell(next: int, size: int, serial: Option<Serial>)

  // A serial arena is the list of its blocks, the newest first.
  type Blocks = seq<Mem>

  function Sum(blocks: Blocks): int {
    if |blocks| == 0 then 0 else Sum(blocks[..|blocks| - 1]) + blocks[|blocks| - 1].size
  }

  function Flatten(arenas: seq<Blocks>): Blocks {
    if |arenas| == 0 then [] else Flatten(arenas[..|arenas| - 1]) + arenas[|arenas| - 1]
  }

  function Ptrs(blocks: Blocks): set<int> {
    set i | 0 <= i < |blocks| :: blocks[i].ptr
  }

  function Oldest(blocks: Blocks): Mem
    requires |blocks| > 0
  {
    blocks[|blocks| - 1]
  }

  // The pointer to arena i, or null past the end of the list.
  function SerialAt(arenas: seq<Blocks>, i: nat): int
    requires NonEmpty(arenas)
  {
    if i < |arenas| then Oldest(arenas[i]).ptr + HEADER_SIZE else 0
  }

  // The least initial block of use.
  function Smallest(hasPolicy: bool): (size: int)
    ensures size == if hasPolicy then 144 else 104
  {
    HEADER_SIZE + ARENA_SIZE + if hasPolicy then POLICY_SIZE else 0
  }

  predicate NonEmpty(arenas: seq<Blocks>) {
    forall k :: 0 <= k < |arenas| ==> |arenas[k]| > 0
  }

  // All blocks are different and none is null.
  ghost predicate Distinct(arenas: seq<Blocks>) {
    && (forall i, x :: 0 <= i < |arenas| && 0 <= x < |arenas[i]| ==> arenas[i][x].ptr > 0)
    && (forall i, x, j, y :: 0 <= i < |arenas| && 0 <= x < |arenas[i]| && 0 <= j < |arenas| && 0 <= y < |arenas[j]| ==>
          (i == j && x == y) || arenas[i][x].ptr != arenas[j][y].ptr)
  }

  // The cells of arena i are those of its blocks.
  predicate ArenaHolds(cells: map<int, Cell>, arenas: seq<Blocks>, i: nat)
    requires i < |arenas| && NonEmpty(arenas)
  {
    var blocks := arenas[i];
    && (forall x :: 0 <= x < |blocks| ==>
          blocks[x].ptr in cells && cells[blocks[x].ptr].size == blocks[x].size)
    && (forall x :: 0 <= x < |blocks| - 1 ==> cells[blocks[x].ptr].next == blocks[x + 1].ptr)
    && cells[Oldest(blocks).ptr].next == 0
    && cells[Oldest(blocks).ptr].serial == Some(Serial(blocks[0].ptr, SerialAt(arenas, i + 1), Sum(blocks)))
  }

  ghost predicate ArenasHold(cells: map<int, Cell>, arenas: seq<Blocks>, from: nat)
    requires NonEmpty(arenas)
  {
    forall i :: from <= i < |arenas| ==> ArenaHolds(cells, arenas, i)
  }

  // Cells elsewhere do not matter.
  lemma ArenaStays(cells: map<int, Cell>, cells': map<int, Cell>, arenas: seq<Blocks>, i: nat)
    requires i < |arenas| && NonEmpty(arenas) && ArenaHolds(cells, arenas, i)
    requires forall x :: 0 <= x < |arenas[i]| ==> arenas[i][x].ptr in cells' && cells'[arenas[i][x].ptr] == cells[arenas[i][x].ptr]
    ensures ArenaHolds(cells', arenas, i)
  {
    hide Sum;
  }

  lemma SumSplit(blocks: Blocks, b: Mem)
    ensures Sum(blocks + [b]) == Sum(blocks) + b.size
  {
    assert (blocks + [b])[..|blocks|] == blocks;
  }

  lemma {:induction false} SumAppend(x: Blocks, y: Blocks)
    ensures Sum(x + y) == Sum(x) + Sum(y)
    decreases |y|
  {
    if |y| == 0 {
      assert x + y == x;
    } else {
      var z := y[..|y| - 1];
      assert x + y == (x + z) + [y[|y| - 1]];
      SumSplit(x + z, y[|y| - 1]);
      SumAppend(x, z);
    }
  }

  lemma FlattenSplit(arenas: seq<Blocks>, i: nat)
    requires i < |arenas|
    ensures Flatten(arenas[..i + 1]) == Flatten(arenas[..i]) + arenas[i]
  {
    assert arenas[..i + 1][..i] == arenas[..i];
  }

  lemma PtrsSplit(x: Blocks, y: Blocks)
    ensures Ptrs(x + y) == Ptrs(x) + Ptrs(y)
  {
    var z := x + y;
    assert forall i | 0 <= i < |x| :: z[i] == x[i];
    assert forall i | 0 <= i < |y| :: z[|x| + i] == y[i];
  }

  // Nothing of the first arenas lies in a later one.
  lemma {:induction false} EarlierIsElsewhere(arenas: seq<Blocks>, i: nat, j: nat, y: nat)
    requires Distinct(arenas) && i <= j < |arenas| && y < |arenas[j]|
    ensures arenas[j][y].ptr !in Ptrs(Flatten(arenas[..i]))
    decreases i
  {
    if i > 0 {
      EarlierIsElsewhere(arenas, i - 1, j, y);
      FlattenSplit(arenas, i - 1);
      PtrsSplit(Flatten(arenas[..i - 1]), arenas[i - 1]);
    }
  }

  lemma OnlyOldestEnds(cells: map<int, Cell>, arenas: seq<Blocks>, i: nat, x: nat)
    requires NonEmpty(arenas) && Distinct(arenas) && i < |arenas| && ArenaHolds(cells, arenas, i)
    requires x < |arenas[i]|
    ensures arenas[i][x].ptr in cells && cells[arenas[i][x].ptr].size == arenas[i][x].size
    ensures cells[arenas[i][x].ptr].next == 0 <==> x == |arenas[i]| - 1
    ensures x < |arenas[i]| - 1 ==> cells[arenas[i][x].ptr].next == arenas[i][x + 1].ptr
  {
    hide Sum;
    assert x < |arenas[i]| - 1 ==> arenas[i][x + 1].ptr > 0;
  }

  lemma NotEarlier(arenas: seq<Blocks>, i: nat, x: nat)
    requires Distinct(arenas) && i < |arenas| && x < |arenas[i]|
    ensures arenas[i][x].ptr !in Ptrs(arenas[i][..x])
  {
  }

  // An arena further down the list is untouched while earlier ones go.
  lemma LaterArenaHolds(cells: map<int, Cell>, arenas: seq<Blocks>, i: nat, j: nat, gone: set<int>)
    requires NonEmpty(arenas) && Distinct(arenas) && ArenasHold(cells, arenas, 0)
    requires i <= j < |arenas| && gone <= Ptrs(Flatten(arenas[..i]))
    ensures ArenaHolds(cells - gone, arenas, j)
  {
    hide ArenaHolds, Flatten, Ptrs, Distinct;
    assert ArenaHolds(cells, arenas, j);
    forall y | 0 <= y < |arenas[j]| ensures arenas[j][y].ptr !in gone {
      EarlierIsElsewhere(arenas, i, j, y);
    }
    Present(cells, arenas, j);
    ArenaStays(cells, cells - gone, arenas, j);
  }

  lemma Present(cells: map<int, Cell>, arenas: seq<Blocks>, i: nat)
    requires NonEmpty(arenas) && i < |arenas| && ArenaHolds(cells, arenas, i)
    ensures forall x :: 0 <= x < |arenas[i]| ==>
              arenas[i][x].ptr in cells && cells[arenas[i][x].ptr].size == arenas[i][x].size
    ensures cells[Oldest(arenas[i]).ptr].serial == Some(Serial(arenas[i][0].ptr, SerialAt(arenas, i + 1), Sum(arenas[i])))
  {
  }

  // The blocks released so far, when arena i has kept its oldest block.
  lemma GoneButOldest(arenas: seq<Blocks>, i: nat)
    requires NonEmpty(arenas) && Distinct(arenas) && i < |arenas|
    ensures var r, blocks := Ptrs(Flatten(arenas[..i])), arenas[i];
            && r + Ptrs(blocks[..|blocks| - 1]) == Ptrs(Flatten(arenas[..i + 1])) - {Oldest(blocks).ptr}
            && Oldest(blocks).ptr in Ptrs(Flatten(arenas[..i + 1]))
            && Oldest(blocks).ptr !in r + Ptrs(blocks[..|blocks| - 1])
  {
    var blocks := arenas[i];
    var last := |blocks| - 1;
    FlattenSplit(arenas, i);
    PtrsSplit(Flatten(arenas[..i]), blocks);
    assert blocks == blocks[..last] + [blocks[last]];
    PtrsSplit(blocks[..last], [blocks[last]]);
    EarlierIsElsewhere(arenas, i, i, last);
    assert Ptrs([blocks[last]]) == {blocks[last].ptr};
    assert blocks[last].ptr !in Ptrs(blocks[..last]);
    hide Flatten, Distinct, NonEmpty;
  }

  lemma NewIsElsewhere(cells: map<int, Cell>, arenas: seq<Blocks>, p: int)
    requires NonEmpty(arenas) && ArenasHold(cells, arenas, 0) && p !in cells
    ensures forall i, x :: 0 <= i < |arenas| && 0 <= x < |arenas[i]| ==> arenas[i][x].ptr != p
  {
    hide ArenaHolds;
    forall i, x | 0 <= i < |arenas| && 0 <= x < |arenas[i]| ensures arenas[i][x].ptr != p {
      assert ArenaHolds(cells, arenas, i);
      Present(cells, arenas, i);
    }
  }

  lemma FirstOfList(cells: map<int, Cell>, arenas: seq<Blocks>, block: Mem)
    requires NonEmpty(arenas) && |arenas| > 0 && arenas[0] == [block]
    requires block.ptr in cells
    requires cells[block.ptr] == Cell(0, block.size, Some(Serial(block.ptr, SerialAt(arenas, 1), block.size)))
    ensures ArenaHolds(cells, arenas, 0)
  {
    SumSplit([], block);
    assert [] + [block] == [block];
  }

  lemma LaterInList(cells: map<int, Cell>, cells': map<int, Cell>, arenas: seq<Blocks>, arenas': seq<Blocks>, i: nat)
    requires NonEmpty(arenas) && NonEmpty(arenas') && i < |arenas| && ArenasHold(cells, arenas, 0)
    requires |arenas'| == |arenas| + 1 && arenas'[1..] == arenas
    requires forall x :: 0 <= x < |arenas[i]| ==>
               arenas[i][x].ptr in cells ==> arenas[i][x].ptr in cells' && cells'[arenas[i][x].ptr] == cells[arenas[i][x].ptr]
    ensures ArenaHolds(cells', arenas', i + 1)
  {
    hide Sum;
    assert ArenaHolds(cells, arenas, i);
    assert arenas'[i + 1] == arenas'[1..][i];
    assert i + 1 < |arenas| ==> arenas'[i + 2] == arenas'[1..][i + 1];
  }

  lemma DistinctGrows(arenas: seq<Blocks>, i: nat, block: Mem)
    requires NonEmpty(arenas) && Distinct(arenas) && i < |arenas| && block.ptr > 0
    requires forall k, x :: 0 <= k < |arenas| && 0 <= x < |arenas[k]| ==> arenas[k][x].ptr != block.ptr
    ensures NonEmpty(arenas[i := [block] + arenas[i]]) && Distinct(arenas[i := [block] + arenas[i]])
  {
    var arenas': seq<Blocks> := arenas[i := [block] + arenas[i]];
    forall k, x, j, y | 0 <= k < |arenas'| && 0 <= x < |arenas'[k]| && 0 <= j < |arenas'| && 0 <= y < |arenas'[j]|
      ensures (k == j && x == y) || arenas'[k][x].ptr != arenas'[j][y].ptr
    {
      var x' := if k == i then x - 1 else x;
      var y' := if j == i then y - 1 else y;
      assert x' >= 0 ==> arenas'[k][x] == arenas[k][x'];
      assert y' >= 0 ==> arenas'[j][y] == arenas[j][y'];
    }
  }

  lemma DistinctFront(arenas: seq<Blocks>, block: Mem)
    requires NonEmpty(arenas) && Distinct(arenas) && block.ptr > 0
    requires forall k, x :: 0 <= k < |arenas| && 0 <= x < |arenas[k]| ==> arenas[k][x].ptr != block.ptr
    ensures NonEmpty([[block]] + arenas) && Distinct([[block]] + arenas)
  {
    var arenas': seq<Blocks> := [[block]] + arenas;
    forall k, x, j, y | 0 <= k < |arenas'| && 0 <= x < |arenas'[k]| && 0 <= j < |arenas'| && 0 <= y < |arenas'[j]|
      ensures (k == j && x == y) || arenas'[k][x].ptr != arenas'[j][y].ptr
    {
      assert k > 0 ==> arenas'[k] == arenas[k - 1];
      assert j > 0 ==> arenas'[j] == arenas[j - 1];
    }
  }

  lemma GrownHolds(cells: map<int, Cell>, cells': map<int, Cell>, arenas: seq<Blocks>, i: nat, block: Mem)
    requires NonEmpty(arenas) && Distinct(arenas) && i < |arenas| && ArenaHolds(cells, arenas, i)
    requires forall x :: 0 <= x < |arenas[i]| ==> arenas[i][x].ptr != block.ptr
    requires var o := Oldest(arenas[i]).ptr;
             var s := cells[o].serial.value;
             cells' == cells[o := cells[o].(serial := Some(s.(head := block.ptr, spaceAllocated := s.spaceAllocated + block.size)))]
                            [block.ptr := Cell(s.head, block.size, None)]
    ensures ArenaHolds(cells', arenas[i := [block] + arenas[i]], i)
  {
    hide Sum, Distinct;
    SumInFront(block, arenas[i]);
    OldestApart(arenas, i);
    var blocks, blocks' := arenas[i], [block] + arenas[i];
    assert forall x | 0 <= x < |blocks| :: blocks'[x + 1] == blocks[x];
    forall x | 0 <= x < |blocks'|
      ensures blocks'[x].ptr in cells' && cells'[blocks'[x].ptr].size == blocks'[x].size
      ensures x < |blocks'| - 1 ==> cells'[blocks'[x].ptr].next == blocks'[x + 1].ptr
    {
      assert x > 0 ==> blocks'[x] == blocks[x - 1];
    }
  }

  lemma SumInFront(block: Mem, blocks: Blocks)
    ensures Sum([block] + blocks) == block.size + Sum(blocks)
  {
    SumSplit([], block);
    assert [] + [block] == [block];
    SumAppend([block], blocks);
  }

  lemma OldestApart(arenas: seq<Blocks>, i: nat)
    requires NonEmpty(arenas) && Distinct(arenas) && i < |arenas|
    ensures forall k, x :: 0 <= k < |arenas| && 0 <= x < |arenas[k]| && (k != i || x != |arenas[i]| - 1) ==>
              arenas[k][x].ptr != Oldest(arenas[i]).ptr
  {
  }

  lemma OthersHold(cells: map<int, Cell>, cells': map<int, Cell>, arenas: seq<Blocks>, i: nat, k: nat, block: Mem)
    requires NonEmpty(arenas) && Distinct(arenas) && i < |arenas| && k < |arenas| && i != k && ArenaHolds(cells, arenas, k)
    requires forall x :: 0 <= x < |arenas[k]| ==> arenas[k][x].ptr != block.ptr
    requires forall p :: p in cells && p != block.ptr && p != Oldest(arenas[i]).ptr ==> p in cells' && cells'[p] == cells[p]
    ensures NonEmpty(arenas[i := [block] + arenas[i]])
    ensures ArenaHolds(cells', arenas[i := [block] + arenas[i]], k)
  {
    hide Sum, Distinct;
    OldestApart(arenas, i);
  }

  // Every block is listed, and none twice.
  lemma {:induction false} FlattenListsOnce(arenas: seq<Blocks>, n: nat)
    requires Distinct(arenas) && n <= |arenas|
    ensures forall i, x :: 0 <= i < n && 0 <= x < |arenas[i]| ==> arenas[i][x] in Flatten(arenas[..n])
    ensures forall p, q :: 0 <= p < q < |Flatten(arenas[..n])| ==> Flatten(arenas[..n])[p].ptr != Flatten(arenas[..n])[q].ptr
    decreases n
  {
    if n > 0 {
      FlattenListsOnce(arenas, n - 1);
      FlattenSplit(arenas, n - 1);
      var before, blocks := Flatten(arenas[..n - 1]), arenas[n - 1];
      hide Flatten;
      var all := before + blocks;
      forall p, q | 0 <= p < q < |all| ensures all[p].ptr != all[q].ptr {
        if q >= |before| {
          EarlierIsElsewhere(arenas, n - 1, n - 1, q - |before|);
          assert p < |before| ==> before[p].ptr in Ptrs(before);
          assert p >= |before| ==> blocks[p - |before|].ptr != blocks[q - |before|].ptr;
        }
      }
    }
  }

  class ThreadSafeArena {
    // The live blocks of the process, by address.
    var cells: map<int, Cell>
    var threads: int
    // The block holding the allocation policy, or null.
    var policy: int
    var userOwnsInitialBlock: bool
    // Everything given to the block deallocator, in order.
    var released: Blocks

    ghost var arenas: seq<Blocks>

    ghost predicate Listed()
      reads this
    {
      && NonEmpty(arenas) && Distinct(arenas) && ArenasHold(cells, arenas, 0)
      && threads == SerialAt(arenas, 0)
    }

    // The block a release leaves for last.
    ghost function Survivor(): Mem
      requires |arenas| > 0 && NonEmpty(arenas)
      reads this
    {
      Oldest(arenas[|arenas| - 1])
    }

    // The policy and an initial block given by the user are in the oldest
    // block of the last arena of the list.
    ghost predicate Valid()
      reads this
    {
      && Listed()
      && (policy != 0 ==> |arenas| > 0 && policy == Survivor().ptr)
      && (userOwnsInitialBlock ==> |arenas| > 0 && Survivor().size >= Smallest(policy != 0))
    }

    // The block deallocator, which also counts what it gives back.
    method Dealloc(mem: Mem, space: int) returns (space': int)
      requires mem.ptr in cells && cells[mem.ptr].size == mem.size
      modifies this`cells, this`released
      ensures cells == old(cells) - {mem.ptr} && released == old(released) + [mem]
      ensures space' == space + mem.size
    {
      cells := cells - {mem.ptr};
      released := released + [mem];
      space' := space + mem.size;
    }

    // SerialArena::Free. All blocks of arena i but the oldest are released.
    method FreeSerial(serial: int, space: int, ghost i: nat) returns (mem: Mem, space': int)
      requires NonEmpty(arenas) && Distinct(arenas) && i < |arenas| && ArenaHolds(cells, arenas, i)
      requires serial == SerialAt(arenas, i)
      modifies this`cells, this`released
      ensures mem == Oldest(arenas[i])
      ensures released + [mem] == old(released) + arenas[i]
      ensures cells == old(cells) - Ptrs(arenas[i][..|arenas[i]| - 1])
      ensures space' + mem.size == space + Sum(arenas[i])
    {
      hide Flatten, Sum, Distinct, ArenaHolds, Ptrs;
      ghost var blocks := arenas[i];
      ghost var last := |blocks| - 1;
      Present(cells, arenas, i);
      SumOfNone();
      space' := space;
      var b := cells[serial - HEADER_SIZE].serial.value.head;
      mem := Mem(b, cells[b].size);
      ghost var x := 0;
      assert blocks[..0] == [];
      while cells[b].next != 0
        invariant 0 <= x <= last && b == blocks[x].ptr && mem == blocks[x]
        invariant cells == old(cells) - Ptrs(blocks[..x])
        invariant released == old(released) + blocks[..x]
        invariant space' == space + Sum(blocks[..x])
        invariant b in cells
        decreases last - x
      {
        OnlyOldestEnds(old(cells), arenas, i, x);
        OnlyOldestEnds(old(cells), arenas, i, x + 1);
        assert blocks[..x + 1] == blocks[..x] + [blocks[x]];
        PtrsSplit(blocks[..x], [blocks[x]]);
        PtrsOfOne(blocks[x]);
        SumSplit(blocks[..x], blocks[x]);
        NotEarlier(arenas, i, x + 1);
        // The header cannot be read once its block is gone.
        b := cells[b].next;
        space' := Dealloc(mem, space');
        x := x + 1;
        mem := Mem(b, cells[b].size);
      }
      OnlyOldestEnds(old(cells), arenas, i, x);
      assert blocks == blocks[..last] + [blocks[last]];
      SumSplit(blocks[..last], blocks[last]);
    }

    // ThreadSafeArena::Free. Every block is released but the oldest of the
    // last arena, which is returned.
    method Free() returns (mem: Mem, space: int)
      requires Listed()
      modifies this`cells, this`released
      ensures |arenas| == 0 ==> mem == Mem(0, 0) && space == 0 && cells == old(cells) && released == old(released)
      ensures |arenas| > 0 ==>
                && mem == Oldest(arenas[|arenas| - 1])
                && released + [mem] == old(released) + Flatten(arenas)
                && cells == old(cells) - (Ptrs(Flatten(arenas)) - {mem.ptr})
                && mem.ptr in cells && cells[mem.ptr].size == mem.size
                && mem.ptr in Ptrs(Flatten(arenas))
                && space + mem.size == Sum(Flatten(arenas))
    {
      hide Distinct, ArenaHolds, Flatten, Ptrs, Sum;
      mem, space := Mem(0, 0), 0;
      var serial := threads;
      ghost var i := 0;
      ghost var gone: set<int> := {};
      while serial != 0
        invariant 0 <= i <= |arenas| && NonEmpty(arenas) && serial == SerialAt(arenas, i)
        invariant cells == old(cells) - gone && gone <= Ptrs(Flatten(arenas[..i]))
        invariant i == 0 ==> mem == Mem(0, 0) && space == 0 && gone == {} && released == old(released)
        invariant i > 0 ==>
                    && mem == Oldest(arenas[i - 1]) && mem.ptr > 0
                    && mem.ptr in cells && cells[mem.ptr].size == mem.size
                    && gone == Ptrs(Flatten(arenas[..i])) - {mem.ptr}
                    && mem.ptr in Ptrs(Flatten(arenas[..i]))
                    && released + [mem] == old(released) + Flatten(arenas[..i])
                    && space + mem.size == Sum(Flatten(arenas[..i]))
        decreases |arenas| - i
      {
        SerialIsNullIff(arenas, i);
        FreeStart(arenas, i);
        if mem.ptr != 0 {
          space := Dealloc(mem, space);
          gone := gone + {mem.ptr};
        }
        LaterArenaHolds(old(cells), arenas, i, i, gone);
        assert cells == old(cells) - gone;
        FlattenSplit(arenas, i);
        SumAppend(Flatten(arenas[..i]), arenas[i]);
        GoneButOldest(arenas, i);
        Present(cells, arenas, i);
        ghost var before := cells;
        ghost var done := released;
        mem, space := FreeSerial(serial, space, i);
        gone := gone + Ptrs(arenas[i][..|arenas[i]| - 1]);
        serial := cells[serial - HEADER_SIZE].serial.value.next;
        i := i + 1;
      }
      SerialIsNullIff(arenas, i);
      assert arenas[..|arenas|] == arenas;
    }

    constructor (world: map<int, Cell>)
      ensures Valid() && arenas == [] && cells == world && released == []
      ensures policy == 0 && !userOwnsInitialBlock
    {
      cells, threads, policy, userOwnsInitialBlock, released, arenas := world, 0, 0, false, [], [];
    }

    // A new thread's arena, in its first block, put in front of the list.
    method Join(block: Mem)
      requires Valid() && block.ptr > 0 && block.ptr !in cells
      modifies this`cells, this`threads, this`arenas
      ensures Valid() && arenas == [[block]] + old(arenas)
      ensures |old(arenas)| > 0 ==> Survivor() == old(Survivor())
    {
      hide ArenaHolds, Sum, Distinct, Flatten;
      ghost var was := arenas;
      ghost var arenas' := [[block]] + arenas;
      NewIsElsewhere(cells, arenas, block.ptr);
      DistinctFront(arenas, block);
      var cell := Cell(0, block.size, Some(Serial(block.ptr, threads, block.size)));
      var cells' := cells[block.ptr := cell];
      forall i | 0 <= i < |arenas'| ensures ArenaHolds(cells', arenas', i) {
        if i > 0 {
          LaterInList(cells, cells', arenas, arenas', i - 1);
        } else {
          FirstOfList(cells', arenas', block);
        }
      }
      cells := cells';
      threads := block.ptr + HEADER_SIZE;
      arenas := arenas';
      assert arenas[|arenas| - 1] == if |was| > 0 then was[|was| - 1] else [block];
    }

    // AllocateNewBlock: a new newest block for arena i.
    method Grow(serial: int, block: Mem, ghost i: nat)
      requires Valid() && block.ptr > 0 && block.ptr !in cells
      requires i < |arenas| && serial == SerialAt(arenas, i)
      modifies this`cells, this`arenas
      ensures Valid() && arenas == old(arenas)[i := [block] + old(arenas)[i]]
      ensures Survivor() == old(Survivor())
    {
      hide ArenaHolds, Sum, Distinct, Flatten;
      ghost var arenas' := arenas[i := [block] + arenas[i]];
      NewIsElsewhere(cells, arenas, block.ptr);
      assert ArenaHolds(cells, arenas, i);
      Present(cells, arenas, i);
      var oldest := serial - HEADER_SIZE;
      var s := cells[oldest].serial.value;
      var cells' := cells[oldest := cells[oldest].(serial := Some(s.(head := block.ptr, spaceAllocated := s.spaceAllocated + block.size)))];
      cells' := cells'[block.ptr := Cell(s.head, block.size, None)];
      DistinctGrows(arenas, i, block);
      forall k | 0 <= k < |arenas'| ensures ArenaHolds(cells', arenas', k) {
        assert ArenaHolds(cells, arenas, k);
        if k == i {
          GrownHolds(cells, cells', arenas, i, block);
        } else {
          OthersHold(cells, cells', arenas, i, k, block);
        }
      }
      cells := cells';
      arenas := arenas';
    }

    // Init
    method Init()
      modifies this`threads, this`arenas
      ensures arenas == [] && threads == 0
    {
      threads := 0;
      arenas := [];
    }

    method SetInitialBlock(mem: Mem)
      requires mem.ptr > 0
      modifies this`cells, this`threads, this`arenas
      ensures Listed() && arenas == [[mem]]
      ensures cells == old(cells)[mem.ptr := Cell(0, mem.size, Some(Serial(mem.ptr, 0, mem.size)))]
    {
      cells := cells[mem.ptr := Cell(0, mem.size, Some(Serial(mem.ptr, 0, mem.size)))];
      threads := mem.ptr + HEADER_SIZE;
      arenas := [[mem]];
      SumSplit([], mem);
      assert [] + [mem] == [mem];
    }

    method InitializeFrom(mem: Mem)
      requires mem.ptr >= 0 && policy == 0
      requires userOwnsInitialBlock ==> mem.ptr != 0 && mem.size >= Smallest(false)
      modifies this`cells, this`threads, this`arenas, this`userOwnsInitialBlock
      ensures Valid()
      ensures arenas == if mem.ptr != 0 && mem.size >= Smallest(false) then [[mem]] else []
      ensures userOwnsInitialBlock == (arenas != [])
    {
      Init();
      // A block without room for a header and the arena is left alone.
      if mem.ptr != 0 && mem.size >= HEADER_SIZE + ARENA_SIZE {
        userOwnsInitialBlock := true;
        SetInitialBlock(mem);
      }
    }

    // granted is what the block allocator returns if it is asked.
    method InitializeWithPolicy(mem: Mem, granted: Mem)
      requires mem.ptr >= 0 && granted.ptr > 0
      requires userOwnsInitialBlock ==> mem.ptr != 0 && mem.size >= Smallest(true)
      modifies this`cells, this`threads, this`arenas, this`userOwnsInitialBlock, this`policy
      ensures Valid()
      ensures userOwnsInitialBlock == (mem.ptr != 0 && mem.size >= Smallest(true))
      ensures arenas == [[if userOwnsInitialBlock then mem else granted]] && policy != 0
    {
      Init();
      var block := mem;
      if mem.ptr != 0 && mem.size >= HEADER_SIZE + ARENA_SIZE + POLICY_SIZE {
        userOwnsInitialBlock := true;
      } else {
        block := granted;
      }
      SetInitialBlock(block);
      policy := block.ptr;
    }

    // Reading the policy needs the block it lies in.
    method ReadPolicy()
      requires policy in cells
    {
    }

    method SpaceAllocated() returns (res: int)
      requires Listed()
      ensures res == Sum(Flatten(arenas))
    {
      hide Distinct, ArenaHolds, Flatten, Sum;
      var serial := threads;
      res := 0;
      ghost var i := 0;
      FreeStart(arenas, 0);
      while serial != 0
        invariant 0 <= i <= |arenas| && serial == SerialAt(arenas, i)
        invariant res == Sum(Flatten(arenas[..i]))
        decreases |arenas| - i
      {
        SerialIsNullIff(arenas, i);
        assert ArenaHolds(cells, arenas, i);
        Present(cells, arenas, i);
        FlattenSplit(arenas, i);
        SumAppend(Flatten(arenas[..i]), arenas[i]);
        var s := cells[serial - HEADER_SIZE].serial.value;
        res := res + s.spaceAllocated;
        serial := s.next;
        i := i + 1;
      }
      SerialIsNullIff(arenas, i);
      assert arenas[..|arenas|] == arenas;
    }

    // The destructor, once the cleanups have run. Every block is released
    // once, but for an initial block the user owns.
    method Destroy() returns (space: int)
      requires Valid()
      modifies this`cells, this`released
      ensures space == Sum(Flatten(arenas))
      ensures released + (if userOwnsInitialBlock then [Survivor()] else []) == old(released) + Flatten(arenas)
      ensures !userOwnsInitialBlock ==> cells == old(cells) - Ptrs(Flatten(arenas))
      ensures userOwnsInitialBlock ==> cells == old(cells) - (Ptrs(Flatten(arenas)) - {Survivor().ptr})
    {
      hide Distinct, ArenaHolds, Sum, Ptrs;
      SurvivorIsLast(this);
      var mem;
      mem, space := Free();
      if policy != 0 {
        ReadPolicy();
      }
      if userOwnsInitialBlock {
        space := space + mem.size;
      } else if mem.ptr != 0 {
        space := Dealloc(mem, space);
      }
      NoArenas();
    }

    // Reset, once the cleanups have run. It returns exactly the space that
    // was allocated and starts over with what is left.
    method Reset(granted: Mem) returns (space: int)
      requires Valid() && granted.ptr > 0
      modifies this
      ensures Valid()
      ensures space == old(Sum(Flatten(arenas)))
      ensures released + (if old(userOwnsInitialBlock) then [old(Survivor())] else []) == old(released) + old(Flatten(arenas))
      ensures userOwnsInitialBlock == old(userOwnsInitialBlock) && (policy == 0 <==> old(policy) == 0)
      ensures arenas == if old(userOwnsInitialBlock) then [[old(Survivor())]]
                        else if old(policy) != 0 then [[granted]] else []
    {
      hide Distinct, ArenaHolds, Sum, Ptrs;
      SurvivorIsLast(this);
      var mem;
      mem, space := Free();
      NoArenas();
      if policy != 0 {
        ReadPolicy();
        if userOwnsInitialBlock {
          space := space + mem.size;
        } else {
          space := Dealloc(mem, space);
          mem := Mem(0, 0);
        }
        InitializeWithPolicy(mem, granted);
      } else if userOwnsInitialBlock {
        space := space + mem.size;
        InitializeFrom(mem);
      } else {
        if mem.ptr != 0 {
          space := Dealloc(mem, space);
        }
        Init();
      }
    }
  }

  lemma SerialIsNullIff(arenas: seq<Blocks>, i: nat)
    requires NonEmpty(arenas) && Distinct(arenas)
    ensures SerialAt(arenas, i) == 0 <==> i >= |arenas|
    ensures i < |arenas| ==> Oldest(arenas[i]).ptr > 0
  {
  }

  lemma FreeStart(arenas: seq<Blocks>, i: nat)
    requires i <= |arenas|
    ensures i == 0 ==> Flatten(arenas[..i]) == [] && Ptrs(Flatten(arenas[..i])) == {} && Sum(Flatten(arenas[..i])) == 0
  {
  }

  lemma SurvivorIsLast(a: ThreadSafeArena)
    requires a.Valid()
    ensures |a.arenas| > 0 ==> a.Survivor().ptr > 0
  {
  }

  lemma SumOfNone()
    ensures Sum([]) == 0 && Ptrs([]) == {}
  {
  }

  lemma PtrsOfOne(b: Mem)
    ensures Ptrs([b]) == {b.ptr}
  {
    assert [b][0] == b;
  }

  lemma NoArenas()
    ensures NonEmpty([]) && Distinct([]) && Flatten([]) == [] && Sum(Flatten([])) == 0 && Ptrs(Flatten([])) == {}
  {
  }
}
