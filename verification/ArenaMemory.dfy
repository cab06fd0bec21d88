// The words a serial arena keeps in its own memory: block headers, cleanup
// nodes, and the free lists of returned arrays with the table of their heads.
module ArenaMemory {
  import opened ArenaLayout
  import opened Bits

  // Memory is a map from the address of an 8-byte word to its value.
  type Memory = map<int, int>

  function Load(m: Memory, w: int): int {
    if w in m then m[w] else 0
  }

  datatype Node = Node(elem: int, cleanup: int)

  function NodeAt(m: Memory, w: int): Node {
    Node(Load(m, w), Load(m, w + 8))
  }

  ghost predicate SameOutside(m0: Memory, m1: Memory, lo: int, hi: int) {
    forall w :: !(lo <= w < hi) ==> Load(m1, w) == Load(m0, w)
  }

  lemma Stored(m: Memory, w: int, v: int, x: int)
    ensures Load(m[w := v], w) == v
    ensures x != w ==> Load(m[w := v], x) == Load(m, x)
  {
  }

  lemma StoreWithin(m: Memory, w: int, v: int, lo: int, hi: int)
    requires lo <= w < hi
    ensures SameOutside(m, m[w := v], lo, hi)
  {
  }

  // ---------- what the words say ----------

  function Previous(blocks: seq<Block>, k: nat): int
    requires k < |blocks|
  {
    if k == 0 then 0 else blocks[k - 1].base
  }

  // The header of block k: the next older block, the size and, once the
  // block is no longer the newest, where its cleanup nodes start.
  predicate HeaderHolds(m: Memory, blocks: seq<Block>, k: nat)
    requires k < |blocks|
  {
    && Load(m, blocks[k].base) == Previous(blocks, k)
    && Load(m, blocks[k].base + 8) == blocks[k].size
    && (k < |blocks| - 1 ==> Load(m, blocks[k].base + 16) == blocks[k].start)
  }

  predicate HeadersHold(m: Memory, blocks: seq<Block>) {
    forall k :: 0 <= k < |blocks| ==> HeaderHolds(m, blocks, k)
  }

  // r lists the nodes of block b, the latest first.
  predicate BlockNodesHold(m: Memory, b: Block, r: seq<Node>) {
    && b.top - b.start == CLEANUP_SIZE * |r|
    && forall j :: 0 <= j < |r| ==> NodeAt(m, b.start + CLEANUP_SIZE * j) == r[j]
  }

  predicate NodesHold(m: Memory, blocks: seq<Block>, run: seq<seq<Node>>) {
    && |run| == |blocks|
    && forall k :: 0 <= k < |run| ==> BlockNodesHold(m, blocks[k], run[k])
  }

  function Front(s: seq<int>): int {
    if |s| == 0 then 0 else s[0]
  }

  function After(s: seq<int>, j: nat): int {
    if j + 1 < |s| then s[j + 1] else 0
  }

  // s is list i: every block in it is filed under i, large enough for the
  // list, and holds the address of the next one.
  predicate ListHolds(m: Memory, owned: map<int, Region>, s: seq<int>, i: nat) {
    && (forall j :: 0 <= j < |s| ==>
          && s[j] in owned && owned[s[j]].role == Free(i)
          && owned[s[j]].size >= Pow2(i + 4)
          && Load(m, s[j]) == After(s, j))
    && (forall j, j' :: 0 <= j < j' < |s| ==> s[j] != s[j'])
  }

  predicate TableOk(owned: map<int, Region>, table: int, length: nat) {
    length > 0 ==> table in owned && owned[table].role == Table && owned[table].size >= 8 * length
  }

  predicate HeadsHold(m: Memory, lists: seq<seq<int>>, table: int) {
    forall i :: 0 <= i < |lists| ==> Load(m, table + 8 * i) == Front(lists[i])
  }

  predicate ListsHold(m: Memory, owned: map<int, Region>, lists: seq<seq<int>>) {
    forall i :: 0 <= i < |lists| ==> ListHolds(m, owned, lists[i], i)
  }

  predicate FreeHold(m: Memory, owned: map<int, Region>, lists: seq<seq<int>>, table: int) {
    && |lists| <= 64
    && TableOk(owned, table, |lists|)
    && HeadsHold(m, lists, table)
    && ListsHold(m, owned, lists)
  }

  // run and lists are the contents of the cleanup nodes and free lists that
  // the words in mem represent.
  datatype State = State(mem: Memory, layout: Layout, run: seq<seq<Node>>, lists: seq<seq<int>>, table: int)

  ghost predicate Sound(s: State) {
    && WellFormed(s.layout)
    && HeadersHold(s.mem, s.layout.blocks)
    && NodesHold(s.mem, s.layout.blocks, s.run)
    && FreeHold(s.mem, s.layout.owned, s.lists, s.table)
  }

  // The words of every object handed out and not returned are as they were.
  ghost predicate ClientsKept(m0: Memory, m1: Memory, l: Layout) {
    forall a, w :: a in l.owned && l.owned[a].role == Object && a <= w < a + l.owned[a].size ==>
                     Load(m1, w) == Load(m0, w)
  }

  // ---------- a change inside one piece disturbs no other ----------

  // No word of a piece other than p has changed, regions lent aside.
  ghost predicate OthersSame(m0: Memory, m1: Memory, l: Layout, p: Piece) {
    forall q: Piece, w :: IsPiece(l, q) && q != p && !IsLent(l, q) && Lo(l, q) <= w < Hi(l, q) ==>
                            Load(m1, w) == Load(m0, w)
  }

  lemma ChangeWithin(l: Layout, p: Piece, m0: Memory, m1: Memory)
    requires WellFormed(l) && IsPiece(l, p)
    requires SameOutside(m0, m1, Lo(l, p), Hi(l, p))
    ensures OthersSame(m0, m1, l, p)
  {
    hide WellFormed, Load, IsLent;
    forall q: Piece, w | IsPiece(l, q) && q != p && Lo(l, q) <= w < Hi(l, q)
      ensures Load(m1, w) == Load(m0, w)
    {
      PiecesApart(l, p, q);
    }
  }

  // Nothing of the arena lies where the allocator may place a block.
  lemma ChangeElsewhere(l: Layout, base: int, size: int, p: Piece, m0: Memory, m1: Memory)
    requires WellFormed(l) && Grantable(l, base, size)
    requires SameOutside(m0, m1, base, base + size)
    ensures OthersSame(m0, m1, l, p)
  {
    hide WellFormed, Load, IsLent, Grantable;
    forall q: Piece, w | IsPiece(l, q) && Lo(l, q) <= w < Hi(l, q)
      ensures Load(m1, w) == Load(m0, w)
    {
      GrantMissesPiece(l, base, size, q);
    }
  }

  lemma GrantMissesPiece(l: Layout, base: int, size: int, q: Piece)
    requires WellFormed(l) && Grantable(l, base, size) && IsPiece(l, q)
    ensures Apart(base, base + size, Lo(l, q), Hi(l, q))
  {
    hide WellFormed;
    if HomeOf(l, q).In? {
      PieceInBlock(l, q);
      assert Outside(base, base + size, l.blocks[HomeOf(l, q).block]);
    }
  }

  lemma PieceKept(l: Layout, p: Piece, q: Piece, m0: Memory, m1: Memory, w: int)
    requires OthersSame(m0, m1, l, p) && IsPiece(l, q) && p != q && !IsLent(l, q)
    requires Lo(l, q) <= w < Hi(l, q)
    ensures Load(m1, w) == Load(m0, w)
  {
  }

  lemma HeadersFrame(l: Layout, p: Piece, m0: Memory, m1: Memory)
    requires WellFormed(l) && !p.Header?
    requires OthersSame(m0, m1, l, p)
    requires HeadersHold(m0, l.blocks)
    ensures HeadersHold(m1, l.blocks)
  {
    hide WellFormed, OthersSame, Load;
    forall k | 0 <= k < |l.blocks| ensures HeaderHolds(m1, l.blocks, k) {
      assert HeaderHolds(m0, l.blocks, k);
      var b := l.blocks[k].base;
      PieceKept(l, p, Header(k), m0, m1, b);
      PieceKept(l, p, Header(k), m0, m1, b + 8);
      PieceKept(l, p, Header(k), m0, m1, b + 16);
    }
  }

  lemma NodesFrame(l: Layout, p: Piece, m0: Memory, m1: Memory, run: seq<seq<Node>>)
    requires WellFormed(l) && !p.CleanupNode?
    requires OthersSame(m0, m1, l, p)
    requires NodesHold(m0, l.blocks, run)
    ensures NodesHold(m1, l.blocks, run)
  {
    hide WellFormed, OthersSame, Load;
    forall k | 0 <= k < |run| ensures BlockNodesHold(m1, l.blocks[k], run[k]) {
      assert BlockNodesHold(m0, l.blocks[k], run[k]);
      var b := l.blocks[k];
      forall j | 0 <= j < |run[k]| ensures NodeAt(m1, b.start + CLEANUP_SIZE * j) == run[k][j] {
        PieceKept(l, p, CleanupNode(k, j), m0, m1, b.start + CLEANUP_SIZE * j);
        PieceKept(l, p, CleanupNode(k, j), m0, m1, b.start + CLEANUP_SIZE * j + 8);
      }
    }
  }

  lemma ListFrame(l: Layout, p: Piece, m0: Memory, m1: Memory, s: seq<int>, i: nat)
    requires WellFormed(l)
    requires p.Owned? && p.at in l.owned ==> l.owned[p.at].role != Free(i)
    requires OthersSame(m0, m1, l, p)
    requires ListHolds(m0, l.owned, s, i)
    ensures ListHolds(m1, l.owned, s, i)
  {
    hide WellFormed, OthersSame, Load, Pow2;
    forall j | 0 <= j < |s| ensures Load(m1, s[j]) == Load(m0, s[j]) {
      RegionIsRoomy(l, s[j]);
      PieceKept(l, p, Owned(s[j]), m0, m1, s[j]);
    }
  }

  lemma RegionIsRoomy(l: Layout, a: int)
    requires WellFormed(l) && a in l.owned
    ensures l.owned[a].size > 0 && a > 0 && a % 8 == 0
  {
    RegionIsOk(l, a);
    hide WellFormed, OutsideAll;
  }

  lemma HeadsFrame(l: Layout, p: Piece, m0: Memory, m1: Memory, lists: seq<seq<int>>, table: int)
    requires WellFormed(l)
    requires TableOk(l.owned, table, |lists|)
    requires p.Owned? && p.at in l.owned ==> l.owned[p.at].role != Table
    requires OthersSame(m0, m1, l, p)
    requires HeadsHold(m0, lists, table)
    ensures HeadsHold(m1, lists, table)
  {
    hide WellFormed, OthersSame, Load;
    forall i | 0 <= i < |lists| ensures Load(m1, table + 8 * i) == Front(lists[i]) {
      PieceKept(l, p, Owned(table), m0, m1, table + 8 * i);
    }
  }

  lemma FreeFrame(l: Layout, p: Piece, m0: Memory, m1: Memory, lists: seq<seq<int>>, table: int)
    requires WellFormed(l)
    requires p.Owned? && p.at in l.owned ==> l.owned[p.at].role == Object
    requires OthersSame(m0, m1, l, p)
    requires FreeHold(m0, l.owned, lists, table)
    ensures FreeHold(m1, l.owned, lists, table)
  {
    hide WellFormed, OthersSame, Load, ListHolds;
    HeadsFrame(l, p, m0, m1, lists, table);
    forall i | 0 <= i < |lists| ensures ListHolds(m1, l.owned, lists[i], i) {
      ListFrame(l, p, m0, m1, lists[i], i);
    }
  }

  lemma ClientsFrame(l: Layout, p: Piece, m0: Memory, m1: Memory)
    requires WellFormed(l)
    requires p.Owned? && p.at in l.owned ==> l.owned[p.at].role != Object
    requires OthersSame(m0, m1, l, p)
    ensures ClientsKept(m0, m1, l)
  {
    hide WellFormed, OthersSame, Load;
    forall a, w | a in l.owned && l.owned[a].role == Object && a <= w < a + l.owned[a].size
      ensures Load(m1, w) == Load(m0, w)
    {
      PieceKept(l, p, Owned(a), m0, m1, w);
    }
  }
}
