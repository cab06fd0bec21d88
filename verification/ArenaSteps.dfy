// What each operation of a serial arena does to its state, and why the state
// stays sound and every object handed out keeps its words.
module ArenaSteps {
  import opened ArenaLayout
  import opened ArenaMemory
  import opened Bits

  // ---------- the steps ----------

  function Bumped(s: State, n: int): State
    requires |s.layout.blocks| > 0
  {
    s.(layout := Bump(s.layout, n))
  }

  // Room for one more cleanup node, whose words are still what they were.
  function WithNode(s: State): State
    requires |s.layout.blocks| == |s.run| > 0
  {
    var last := |s.run| - 1;
    s.(layout := PushNode(s.layout),
       run := s.run[last := [NodeAt(s.mem, Newest(s.layout).start - CLEANUP_SIZE)] + s.run[last]])
  }

  // The latest cleanup node filled in.
  function Filled(s: State, node: Node): State
    requires |s.layout.blocks| == |s.run| > 0
    requires |s.run[|s.run| - 1]| > 0
  {
    var last := |s.run| - 1;
    var at := Newest(s.layout).start;
    s.(mem := s.mem[at := node.elem][at + 8 := node.cleanup],
       run := s.run[last := [node] + s.run[last][1..]])
  }

  function Grown(s: State, base: int, size: int): State
    requires |s.layout.blocks| > 0
  {
    var newest := Newest(s.layout);
    s.(mem := s.mem[newest.base + 16 := newest.start][base := newest.base][base + 8 := size][base + 16 := 0],
       layout := AddBlock(s.layout, base, size),
       run := s.run + [[]])
  }

  // The first block of list i handed out again.
  function Taken(s: State, i: nat): State
    requires i < |s.lists| && |s.lists[i]| > 0 && s.lists[i][0] in s.layout.owned
  {
    var a := s.lists[i][0];
    s.(mem := s.mem[s.table + 8 * i := Load(s.mem, a)],
       layout := Recast(s.layout, a, Object),
       lists := s.lists[i := s.lists[i][1..]])
  }

  // The object at p put in front of list i.
  function Given(s: State, p: int, i: nat): State
    requires i < |s.lists| && p in s.layout.owned
  {
    s.(mem := s.mem[p := Load(s.mem, s.table + 8 * i)][s.table + 8 * i := p],
       layout := Recast(s.layout, p, Free(i)),
       lists := s.lists[i := [p] + s.lists[i]])
  }

  function EmptyLists(n: nat): (r: seq<seq<int>>)
    ensures |r| == n && forall i :: 0 <= i < n ==> r[i] == []
  {
    seq(n, _ => [])
  }

  function Resized(lists: seq<seq<int>>, n: nat): (r: seq<seq<int>>)
    ensures |r| == n
  {
    if n < |lists| then lists[..n] else lists + EmptyLists(n - |lists|)
  }

  // The object at p made the table of length lists, with memory m.
  function Retabled(s: State, p: int, m: Memory, length: nat): State
    requires p in s.layout.owned
  {
    s.(mem := m,
       layout := Recast(s.layout, p, Table),
       lists := Resized(s.lists, length),
       table := p)
  }

  lemma Shape(s: State)
    requires Sound(s)
    ensures |s.run| == |s.layout.blocks| > 0 && |s.lists| <= 64
    ensures WellFormed(s.layout) && HeadersHold(s.mem, s.layout.blocks)
    ensures NodesHold(s.mem, s.layout.blocks, s.run) && FreeHold(s.mem, s.layout.owned, s.lists, s.table)
  {
    hide InPlace, RegionsApart, EachBlockOk, BlocksApart, HeadersHold, ListsHold, HeadsHold, TableOk, BlockNodesHold;
  }

  lemma PutTogether(s: State)
    requires WellFormed(s.layout) && HeadersHold(s.mem, s.layout.blocks)
    requires NodesHold(s.mem, s.layout.blocks, s.run) && FreeHold(s.mem, s.layout.owned, s.lists, s.table)
    ensures Sound(s)
  {
    hide WellFormed, HeadersHold, NodesHold, FreeHold;
  }

  // ---------- bumping ----------

  lemma OwnedGrows(m: Memory, owned: map<int, Region>, a: int, r: Region, lists: seq<seq<int>>, table: int)
    requires FreeHold(m, owned, lists, table) && a !in owned
    ensures FreeHold(m, owned[a := r], lists, table)
  {
    hide Load, Pow2, Front;
    forall i | 0 <= i < |lists| ensures ListHolds(m, owned[a := r], lists[i], i) {
      assert ListHolds(m, owned, lists[i], i);
    }
  }

  lemma BumpedSound(s: State, n: int)
    requires Sound(s) && n % 8 == 0 && 0 <= n <= Room(s.layout)
    ensures Sound(Bumped(s, n))
    ensures n > 0 ==> s.layout.ptr !in s.layout.owned
  {
    hide Sound, WellFormed, HeadersHold, NodesHold, FreeHold;
    Shape(s);
    BumpKeepsForm(s.layout, n);
    if n > 0 {
      OwnedGrows(s.mem, s.layout.owned, s.layout.ptr, Region(n, Object, In(|s.layout.blocks| - 1)), s.lists, s.table);
    }
    PutTogether(Bumped(s, n));
  }

  // ---------- cleanup nodes ----------

  lemma HeadersIgnoreNewestStart(m: Memory, blocks: seq<Block>, start: int)
    requires |blocks| > 0 && HeadersHold(m, blocks)
    ensures HeadersHold(m, blocks[|blocks| - 1 := blocks[|blocks| - 1].(start := start)])
  {
    hide Load;
    var blocks' := blocks[|blocks| - 1 := blocks[|blocks| - 1].(start := start)];
    forall k | 0 <= k < |blocks'| ensures HeaderHolds(m, blocks', k) {
      assert HeaderHolds(m, blocks, k);
    }
  }

  lemma NodePushed(m: Memory, b: Block, r: seq<Node>)
    requires BlockNodesHold(m, b, r)
    ensures BlockNodesHold(m, b.(start := b.start - CLEANUP_SIZE), [NodeAt(m, b.start - CLEANUP_SIZE)] + r)
  {
    hide NodeAt;
    var b' := b.(start := b.start - CLEANUP_SIZE);
    var r' := [NodeAt(m, b.start - CLEANUP_SIZE)] + r;
    forall j | 0 <= j < |r'| ensures NodeAt(m, b'.start + CLEANUP_SIZE * j) == r'[j] {
      if j > 0 {
        assert b'.start + CLEANUP_SIZE * j == b.start + CLEANUP_SIZE * (j - 1);
        assert r'[j] == r[j - 1];
      }
    }
  }

  lemma WithNodeSound(s: State)
    requires Sound(s) && CLEANUP_SIZE <= Room(s.layout)
    ensures Sound(WithNode(s))
  {
    hide Sound, WellFormed, HeadersHold, NodesHold, FreeHold, NodeAt;
    Shape(s);
    PushNodeKeepsForm(s.layout);
    HeadersIgnoreNewestStart(s.mem, s.layout.blocks, Newest(s.layout).start - CLEANUP_SIZE);
    NewestNodePushed(s.mem, s.layout.blocks, s.run);
    PutTogether(WithNode(s));
  }

  lemma NewestNodePushed(m: Memory, blocks: seq<Block>, run: seq<seq<Node>>)
    requires NodesHold(m, blocks, run) && |blocks| > 0
    ensures var last := |blocks| - 1;
            var start := blocks[last].start - CLEANUP_SIZE;
            |run| == |blocks| &&
            NodesHold(m, blocks[last := blocks[last].(start := start)], run[last := [NodeAt(m, start)] + run[last]])
  {
    hide BlockNodesHold, NodeAt;
    var last := |blocks| - 1;
    assert BlockNodesHold(m, blocks[last], run[last]);
    NodePushed(m, blocks[last], run[last]);
  }

  // Two stores within [lo, lo + 16).
  lemma StorePair(m: Memory, lo: int, x: int, y: int)
    ensures SameOutside(m, m[lo := x][lo + 8 := y], lo, lo + 16)
    ensures NodeAt(m[lo := x][lo + 8 := y], lo) == Node(x, y)
  {
  }

  lemma NodesFilled(l: Layout, m: Memory, m': Memory, run: seq<seq<Node>>, node: Node)
    requires WellFormed(l) && NodesHold(m, l.blocks, run)
    requires |run[|run| - 1]| > 0
    requires OthersSame(m, m', l, CleanupNode(|l.blocks| - 1, 0))
    requires NodeAt(m', Newest(l).start) == node
    ensures IsPiece(l, CleanupNode(|l.blocks| - 1, 0))
    ensures NodesHold(m', l.blocks, run[|run| - 1 := [node] + run[|run| - 1][1..]])
  {
    hide WellFormed, OthersSame, Load;
    HasBlocks(l);
    var last := |run| - 1;
    var run' := run[last := [node] + run[last][1..]];
    var p := CleanupNode(last, 0);
    assert BlockNodesHold(m, l.blocks[last], run[last]);
    forall k | 0 <= k < |run'| ensures BlockNodesHold(m', l.blocks[k], run'[k]) {
      assert BlockNodesHold(m, l.blocks[k], run[k]);
      var b := l.blocks[k];
      forall j | 0 <= j < |run'[k]| ensures NodeAt(m', b.start + CLEANUP_SIZE * j) == run'[k][j] {
        if CleanupNode(k, j) != p {
          PieceKept(l, p, CleanupNode(k, j), m, m', b.start + CLEANUP_SIZE * j);
          PieceKept(l, p, CleanupNode(k, j), m, m', b.start + CLEANUP_SIZE * j + 8);
          assert run'[k][j] == run[k][j];
        }
      }
    }
  }

  lemma NewestNode(s: State)
    requires Sound(s) && |s.run[|s.run| - 1]| > 0
    ensures IsPiece(s.layout, CleanupNode(|s.layout.blocks| - 1, 0))
    ensures Lo(s.layout, CleanupNode(|s.layout.blocks| - 1, 0)) == Newest(s.layout).start
  {
    hide WellFormed, HeadersHold, FreeHold, NodeAt;
    Shape(s);
    assert BlockNodesHold(s.mem, s.layout.blocks[|s.run| - 1], s.run[|s.run| - 1]);
  }

  lemma FilledSound(s: State, node: Node)
    requires Sound(s) && |s.run[|s.run| - 1]| > 0
    ensures Sound(Filled(s, node))
    ensures ClientsKept(s.mem, Filled(s, node).mem, s.layout)
  {
    hide Sound, WellFormed, HeadersHold, NodesHold, FreeHold, NodeAt, SameOutside, OthersSame, ClientsKept;
    Shape(s);
    NewestNode(s);
    var l, s' := s.layout, Filled(s, node);
    var p := CleanupNode(|l.blocks| - 1, 0);
    StorePair(s.mem, Newest(l).start, node.elem, node.cleanup);
    ChangeWithin(l, p, s.mem, s'.mem);
    NodesFilled(l, s.mem, s'.mem, s.run, node);
    HeadersFrame(l, p, s.mem, s'.mem);
    FreeFrame(l, p, s.mem, s'.mem, s.lists, s.table);
    ClientsFrame(l, p, s.mem, s'.mem);
    PutTogether(s');
  }

  // ---------- a new block ----------

  lemma NewBlockNodes(l: Layout, m: Memory, m': Memory, run: seq<seq<Node>>, base: int, size: int)
    requires WellFormed(l) && NodesHold(m, l.blocks, run)
    requires NodesHold(m', l.blocks, run)
    ensures NodesHold(m', l.blocks + [LaterBlock(base, size)], run + [[]])
  {
    hide WellFormed, NodeAt;
    var blocks', run' := l.blocks + [LaterBlock(base, size)], run + [[]];
    forall k | 0 <= k < |run'| ensures BlockNodesHold(m', blocks'[k], run'[k]) {
      if k < |run| {
        assert BlockNodesHold(m', l.blocks[k], run[k]);
      }
    }
  }

  lemma NewBlockHeaders(l: Layout, m: Memory, base: int, size: int)
    requires WellFormed(l) && HeadersHold(m, l.blocks) && Grantable(l, base, size) && size >= HEADER_SIZE
    ensures var newest := Newest(l);
            HeadersHold(m[newest.base + 16 := newest.start][base := newest.base][base + 8 := size][base + 16 := 0],
                        l.blocks + [LaterBlock(base, size)])
  {
    hide WellFormed, Grantable, OthersSame, Load, SameOutside;
    HasBlocks(l);
    var newest := Newest(l);
    var last := |l.blocks| - 1;
    var m1 := m[newest.base + 16 := newest.start];
    var m2 := m1[base := newest.base][base + 8 := size][base + 16 := 0];
    var blocks' := l.blocks + [LaterBlock(base, size)];
    HeaderStored(m1, base, newest.base, size);
    SameWhereWider(m1, m2, base, base + HEADER_SIZE, base + size);
    ChangeElsewhere(l, base, size, Header(|l.blocks|), m1, m2);
    SealedHeaders(l, m);
    forall k | 0 <= k < |blocks'| ensures HeaderHolds(m2, blocks', k) {
      if k <= last {
        assert HeaderHolds(m1, l.blocks, k);
        var b := l.blocks[k].base;
        PieceKept(l, Header(|l.blocks|), Header(k), m1, m2, b);
        PieceKept(l, Header(|l.blocks|), Header(k), m1, m2, b + 8);
        PieceKept(l, Header(|l.blocks|), Header(k), m1, m2, b + 16);
      }
    }
  }

  lemma HeaderStored(m: Memory, base: int, next: int, size: int)
    ensures var m' := m[base := next][base + 8 := size][base + 16 := 0];
            SameOutside(m, m', base, base + HEADER_SIZE) && Load(m', base) == next && Load(m', base + 8) == size
  {
  }

  lemma SameWhereWider(m: Memory, m': Memory, lo: int, hi: int, hi': int)
    requires SameOutside(m, m', lo, hi) && hi <= hi'
    ensures SameOutside(m, m', lo, hi')
  {
    hide Load;
  }

  // Writing the newest block's start into its header.
  lemma SealedHeaders(l: Layout, m: Memory)
    requires WellFormed(l) && HeadersHold(m, l.blocks)
    ensures var m1 := m[Newest(l).base + 16 := Newest(l).start];
            HeadersHold(m1, l.blocks) && Load(m1, Newest(l).base + 16) == Newest(l).start
  {
    hide WellFormed, OthersSame, Load, SameOutside;
    HasBlocks(l);
    var last := |l.blocks| - 1;
    var newest := Newest(l);
    var m1 := m[newest.base + 16 := newest.start];
    Stored(m, newest.base + 16, newest.start, newest.base);
    Stored(m, newest.base + 16, newest.start, newest.base + 8);
    StoreWithin(m, newest.base + 16, newest.start, newest.base, newest.base + HEADER_SIZE);
    ChangeWithin(l, Header(last), m, m1);
    forall k | 0 <= k < |l.blocks| ensures HeaderHolds(m1, l.blocks, k) {
      assert HeaderHolds(m, l.blocks, k);
      var b := l.blocks[k].base;
      if k < last {
        PieceKept(l, Header(last), Header(k), m, m1, b);
        PieceKept(l, Header(last), Header(k), m, m1, b + 8);
        PieceKept(l, Header(last), Header(k), m, m1, b + 16);
      }
    }
  }

  lemma GrownSound(s: State, base: int, size: int)
    requires Sound(s) && Grantable(s.layout, base, size) && size >= HEADER_SIZE
    ensures Sound(Grown(s, base, size))
    ensures ClientsKept(s.mem, Grown(s, base, size).mem, s.layout)
  {
    hide Sound, WellFormed, HeadersHold, NodesHold, FreeHold, ClientsKept, OthersSame, Grantable, Load;
    Shape(s);
    var l, newest, last := s.layout, Newest(s.layout), |s.layout.blocks| - 1;
    var m1 := s.mem[newest.base + 16 := newest.start];
    var m2 := Grown(s, base, size).mem;
    GrownMemory(s, base, size);
    NodesFrame(l, Header(last), s.mem, m1, s.run);
    NodesFrame(l, Header(|l.blocks|), m1, m2, s.run);
    NewBlockNodes(l, s.mem, m2, s.run, base, size);
    NewBlockHeaders(l, s.mem, base, size);
    FreeFrame(l, Header(last), s.mem, m1, s.lists, s.table);
    FreeFrame(l, Header(|l.blocks|), m1, m2, s.lists, s.table);
    ClientsFrame(l, Header(last), s.mem, m1);
    ClientsFrame(l, Header(|l.blocks|), m1, m2);
    ClientsKeptTwice(s.mem, m1, m2, l);
    AddBlockKeepsForm(l, base, size);
    PutTogether(Grown(s, base, size));
  }

  lemma GrownMemory(s: State, base: int, size: int)
    requires WellFormed(s.layout) && Grantable(s.layout, base, size) && size >= HEADER_SIZE
    ensures var l := s.layout;
            var m1 := s.mem[Newest(l).base + 16 := Newest(l).start];
            && OthersSame(s.mem, m1, l, Header(|l.blocks| - 1))
            && OthersSame(m1, Grown(s, base, size).mem, l, Header(|l.blocks|))
  {
    hide WellFormed, Grantable, OthersSame, SameOutside, Load;
    var l := s.layout;
    HasBlocks(l);
    var newest := Newest(l);
    var m1 := s.mem[newest.base + 16 := newest.start];
    StoreWithin(s.mem, newest.base + 16, newest.start, newest.base, newest.base + HEADER_SIZE);
    ChangeWithin(l, Header(|l.blocks| - 1), s.mem, m1);
    HeaderStored(m1, base, newest.base, size);
    SameWhereWider(m1, Grown(s, base, size).mem, base, base + HEADER_SIZE, base + size);
    ChangeElsewhere(l, base, size, Header(|l.blocks|), m1, Grown(s, base, size).mem);
  }

  lemma ClientsKeptTwice(m0: Memory, m1: Memory, m2: Memory, l: Layout)
    requires ClientsKept(m0, m1, l) && ClientsKept(m1, m2, l)
    ensures ClientsKept(m0, m2, l)
  {
    hide Load;
  }

  // ---------- free lists ----------

  // The table's words lie in its region, apart from every other piece.
  lemma TableWord(s: State, i: nat)
    requires Sound(s) && i < |s.lists|
    ensures s.table in s.layout.owned && s.layout.owned[s.table].role == Table
    ensures Lo(s.layout, Owned(s.table)) <= s.table + 8 * i
    ensures s.table + 8 * i + 8 <= Hi(s.layout, Owned(s.table))
    ensures Load(s.mem, s.table + 8 * i) == Front(s.lists[i])
    ensures ListHolds(s.mem, s.layout.owned, s.lists[i], i)
  {
    hide WellFormed, HeadersHold, NodesHold, ListHolds, Load;
  }

  // The table's word i is null exactly when list i is empty.
  lemma HeadIsNullIff(s: State, i: nat)
    requires Sound(s) && i < |s.lists|
    ensures Load(s.mem, s.table + 8 * i) == 0 <==> |s.lists[i]| == 0
    ensures |s.lists[i]| > 0 ==> Load(s.mem, s.table + 8 * i) == s.lists[i][0] && s.lists[i][0] in s.layout.owned
  {
    TableWord(s, i);
    if |s.lists[i]| > 0 {
      RegionIsRoomy(s.layout, s.lists[i][0]);
    }
  }

  lemma HeadsStored(m: Memory, lists: seq<seq<int>>, table: int, i: nat, list: seq<int>)
    requires HeadsHold(m, lists, table) && i < |lists|
    ensures HeadsHold(m[table + 8 * i := Front(list)], lists[i := list], table)
  {
  }

  lemma ListRecast(m: Memory, owned: map<int, Region>, a: int, role: Role, s: seq<int>, i: nat)
    requires ListHolds(m, owned, s, i) && a in owned && a !in s
    ensures ListHolds(m, owned[a := owned[a].(role := role)], s, i)
  {
    hide Load, Pow2;
  }

  lemma ListTail(m: Memory, owned: map<int, Region>, s: seq<int>, i: nat)
    requires ListHolds(m, owned, s, i) && |s| > 0
    ensures ListHolds(m, owned, s[1..], i)
    ensures s[0] in owned && owned[s[0]].role == Free(i) && owned[s[0]].size >= Pow2(i + 4)
    ensures s[0] !in s[1..]
    ensures Load(m, s[0]) == Front(s[1..])
  {
    hide Load, Pow2;
    var t := s[1..];
    assert s[0] in owned;
    assert Load(m, s[0]) == After(s, 0);
    forall j | 0 <= j < |t|
      ensures t[j] in owned && owned[t[j]].role == Free(i) && owned[t[j]].size >= Pow2(i + 4)
      ensures Load(m, t[j]) == After(t, j)
    {
      assert t[j] == s[j + 1];
      assert j + 1 < |t| ==> t[j + 1] == s[j + 2];
    }
  }

  lemma ListPushed(m: Memory, owned: map<int, Region>, s: seq<int>, i: nat, p: int)
    requires ListHolds(m, owned, s, i) && p !in s
    requires p in owned && owned[p].size >= Pow2(i + 4) && owned[p].role == Free(i)
    requires Load(m, p) == Front(s)
    ensures ListHolds(m, owned, [p] + s, i)
  {
    hide Load, Pow2;
    var t := [p] + s;
    forall j | 0 <= j < |t|
      ensures t[j] in owned && owned[t[j]].role == Free(i) && owned[t[j]].size >= Pow2(i + 4)
      ensures Load(m, t[j]) == After(t, j)
    {
      if j > 0 {
        assert t[j] == s[j - 1];
        assert j + 1 < |t| ==> t[j + 1] == s[j];
      }
    }
  }

  lemma RolesTellListsApart(m: Memory, owned: map<int, Region>, s: seq<int>, i: nat, a: int)
    requires ListHolds(m, owned, s, i) && a in owned && owned[a].role != Free(i)
    ensures a !in s
  {
    hide Load, Pow2;
  }

  // One table word changed: what else stays.
  lemma TableStore(s: State, i: nat, v: int)
    requires Sound(s) && i < |s.lists|
    ensures OthersSame(s.mem, s.mem[s.table + 8 * i := v], s.layout, Owned(s.table))
  {
    hide Sound, WellFormed, HeadersHold, NodesHold, FreeHold, ListHolds, Front, Load, SameOutside, OthersSame, Hi, Lo;
    Shape(s);
    TableWord(s, i);
    var w, p := s.table + 8 * i, Owned(s.table);
    StoreWithin(s.mem, w, v, Lo(s.layout, p), Hi(s.layout, p));
    ChangeWithin(s.layout, p, s.mem, s.mem[w := v]);
  }

  lemma TakenSound(s: State, i: nat)
    requires Sound(s) && i < |s.lists| && |s.lists[i]| > 0
    ensures s.lists[i][0] in s.layout.owned
    ensures s.layout.owned[s.lists[i][0]].role == Free(i)
    ensures s.layout.owned[s.lists[i][0]].size >= Pow2(i + 4)
    ensures Sound(Taken(s, i))
    ensures ClientsKept(s.mem, Taken(s, i).mem, s.layout)
  {
    hide Sound, WellFormed, HeadersHold, NodesHold, FreeHold, ClientsKept, OthersSame, ListHolds, Load, Pow2, Front;
    Shape(s);
    TableWord(s, i);
    ListTail(s.mem, s.layout.owned, s.lists[i], i);
    var l, a, p := s.layout, s.lists[i][0], Owned(s.table);
    TableStore(s, i, Load(s.mem, a));
    TakenLists(s, i);
    var s' := Taken(s, i);
    HeadersFrame(l, p, s.mem, s'.mem);
    NodesFrame(l, p, s.mem, s'.mem, s.run);
    ClientsFrame(l, p, s.mem, s'.mem);
    RecastKeepsForm(l, a, Object);
    PutTogether(s');
  }

  // List k after a table word has changed and a, the first block of list i,
  // has been handed out.
  lemma ListAfterTaking(l: Layout, m: Memory, m': Memory, table: int, list: seq<int>, k: nat, i: nat, a: int)
    requires WellFormed(l) && ListHolds(m, l.owned, list, k)
    requires table in l.owned && l.owned[table].role == Table && OthersSame(m, m', l, Owned(table))
    requires a in l.owned && l.owned[a].role == Free(i)
    requires k == i ==> |list| > 0 && list[0] == a
    ensures ListHolds(m', Recast(l, a, Object).owned, if k == i then list[1..] else list, k)
  {
    hide WellFormed, OthersSame, ListHolds, Load, Pow2, Front;
    ListFrame(l, Owned(table), m, m', list, k);
    if k == i {
      ListTail(m', l.owned, list, i);
      ListRecast(m', l.owned, a, Object, list[1..], k);
    } else {
      RolesTellListsApart(m, l.owned, list, k, a);
      ListRecast(m', l.owned, a, Object, list, k);
    }
  }

  lemma TakenLists(s: State, i: nat)
    requires Sound(s) && i < |s.lists| && |s.lists[i]| > 0
    requires s.lists[i][0] in s.layout.owned
    ensures FreeHold(Taken(s, i).mem, Taken(s, i).layout.owned, Taken(s, i).lists, s.table)
  {
    hide Sound, WellFormed, FreeHold, TableOk, OthersSame, ListHolds, HeadsHold, ListsHold, Load, Pow2, Front;
    Shape(s);
    FreeParts(s);
    var l, a := s.layout, s.lists[i][0];
    var s' := Taken(s, i);
    TableWord(s, i);
    TableStore(s, i, Load(s.mem, a));
    ListTail(s.mem, l.owned, s.lists[i], i);
    HeadsStored(s.mem, s.lists, s.table, i, s.lists[i][1..]);
    forall k | 0 <= k < |s.lists| ensures ListHolds(s'.mem, s'.layout.owned, s'.lists[k], k) {
      ListIsOk(s, k);
      ListAfterTaking(l, s.mem, s'.mem, s.table, s.lists[k], k, i, a);
    }
    AllListsHold(s'.mem, s'.layout.owned, s'.lists);
    TableRecast(l.owned, s.table, |s.lists|, a, Object);
    TableFits(s'.mem, s'.layout.owned, s'.lists, s.table);
  }

  lemma FreeParts(s: State)
    requires Sound(s)
    ensures |s.lists| <= 64 && TableOk(s.layout.owned, s.table, |s.lists|)
    ensures HeadsHold(s.mem, s.lists, s.table) && ListsHold(s.mem, s.layout.owned, s.lists)
  {
    hide WellFormed, HeadersHold, NodesHold, TableOk, HeadsHold, ListsHold;
  }

  lemma ListIsOk(s: State, k: nat)
    requires Sound(s) && k < |s.lists|
    ensures ListHolds(s.mem, s.layout.owned, s.lists[k], k)
  {
    hide WellFormed, HeadersHold, NodesHold, TableOk, HeadsHold, ListHolds;
  }

  lemma AllListsHold(m: Memory, owned: map<int, Region>, lists: seq<seq<int>>)
    requires forall k :: 0 <= k < |lists| ==> ListHolds(m, owned, lists[k], k)
    ensures ListsHold(m, owned, lists)
  {
    hide ListHolds;
  }

  lemma TableRecast(owned: map<int, Region>, table: int, length: nat, a: int, role: Role)
    requires TableOk(owned, table, length) && a in owned && (length > 0 ==> a != table)
    ensures TableOk(owned[a := owned[a].(role := role)], table, length)
  {
  }

  lemma GivenSound(s: State, p: int, i: nat)
    requires Sound(s) && i < |s.lists|
    requires p in s.layout.owned && s.layout.owned[p].role == Object && s.layout.owned[p].size >= Pow2(i + 4)
    ensures Sound(Given(s, p, i))
    ensures ClientsKept(s.mem, Given(s, p, i).mem, Recast(s.layout, p, Free(i)))
  {
    hide Sound, WellFormed, HeadersHold, NodesHold, FreeHold, ClientsKept, OthersSame, ListHolds, Load, Pow2, Front;
    var s1 := s.(mem := s.mem[p := Load(s.mem, s.table + 8 * i)]);
    var s' := Given(s, p, i);
    SmallPowers();
    PowersGrow(4, i + 4);
    GivenStored(s, p, i);
    Shape(s1);
    ObjectIsNotTable(s, p, i);
    StoreTwice(s.mem, p, Load(s.mem, s.table + 8 * i), s.table + 8 * i, p);
    TableWord(s, i);
    TableStore(s1, i, p);
    GivenLists(s1, s', p, i);
    HeadersFrame(s.layout, Owned(s.table), s1.mem, s'.mem);
    NodesFrame(s.layout, Owned(s.table), s1.mem, s'.mem, s.run);
    RecastKeepsForm(s.layout, p, Free(i));
    GivenClients(s, s1, s', p, i);
    PutTogether(s');
  }

  lemma GivenStored(s: State, p: int, i: nat)
    requires Sound(s) && i < |s.lists|
    requires p in s.layout.owned && s.layout.owned[p].role == Object && s.layout.owned[p].size >= 16
    ensures var s1 := s.(mem := s.mem[p := Load(s.mem, s.table + 8 * i)]);
            Sound(s1) && OthersSame(s.mem, s1.mem, s.layout, Owned(p))
  {
    hide Sound, WellFormed, OthersSame, Load;
    Shape(s);
    RegionIsRoomy(s.layout, p);
    assert WordOf(s.layout, p, p);
    ObjectStore(s, p, p, Load(s.mem, s.table + 8 * i));
  }

  // An object's first word is no word of the table.
  lemma ObjectIsNotTable(s: State, p: int, i: nat)
    requires Sound(s) && i < |s.lists|
    requires p in s.layout.owned && s.layout.owned[p].role == Object
    ensures p != s.table + 8 * i
  {
    hide Sound, WellFormed, FreeHold, HeadersHold, NodesHold, Load, ListHolds, Front;
    Shape(s);
    TableWord(s, i);
    RegionIsRoomy(s.layout, p);
    PiecesApart(s.layout, Owned(p), Owned(s.table));
  }

  lemma StoreTwice(m: Memory, w: int, v: int, w': int, v': int)
    ensures w != w' ==> Load(m[w := v][w' := v'], w) == v
  {
  }

  // List k after a table word has changed and p has been filed under i.
  lemma ListAfterGiving(l: Layout, m: Memory, m': Memory, table: int, list: seq<int>, k: nat, i: nat, p: int)
    requires WellFormed(l) && ListHolds(m, l.owned, list, k)
    requires table in l.owned && l.owned[table].role == Table && OthersSame(m, m', l, Owned(table))
    requires p in l.owned && l.owned[p].role == Object && l.owned[p].size >= Pow2(i + 4)
    requires k == i ==> Load(m', p) == Front(list)
    ensures ListHolds(m', Recast(l, p, Free(i)).owned, if k == i then [p] + list else list, k)
  {
    hide WellFormed, OthersSame, ListHolds, Load, Pow2, Front;
    ListFrame(l, Owned(table), m, m', list, k);
    RolesTellListsApart(m, l.owned, list, k, p);
    ListRecast(m', l.owned, p, Free(i), list, k);
    if k == i {
      ListPushed(m', Recast(l, p, Free(i)).owned, list, i, p);
    }
  }

  lemma GivenLists(s1: State, s': State, p: int, i: nat)
    requires Sound(s1) && i < |s1.lists|
    requires p in s1.layout.owned && s1.layout.owned[p].role == Object && s1.layout.owned[p].size >= Pow2(i + 4)
    requires s'.mem == s1.mem[s1.table + 8 * i := p]
    requires s'.layout == Recast(s1.layout, p, Free(i)) && s'.table == s1.table
    requires s'.lists == s1.lists[i := [p] + s1.lists[i]]
    requires Load(s'.mem, p) == Front(s1.lists[i])
    ensures FreeHold(s'.mem, s'.layout.owned, s'.lists, s'.table)
  {
    hide Sound, WellFormed, FreeHold, TableOk, OthersSame, ListHolds, HeadsHold, ListsHold, Load, Pow2, Front;
    Shape(s1);
    FreeParts(s1);
    FrontOfPushed(p, s1.lists[i]);
    var l := s1.layout;
    TableWord(s1, i);
    TableStore(s1, i, p);
    HeadsStored(s1.mem, s1.lists, s1.table, i, [p] + s1.lists[i]);
    forall k | 0 <= k < |s1.lists| ensures ListHolds(s'.mem, s'.layout.owned, s'.lists[k], k) {
      ListIsOk(s1, k);
      ListAfterGiving(l, s1.mem, s'.mem, s1.table, s1.lists[k], k, i, p);
    }
    AllListsHold(s'.mem, s'.layout.owned, s'.lists);
    TableRecast(l.owned, s1.table, |s1.lists|, p, Free(i));
    TableFits(s'.mem, s'.layout.owned, s'.lists, s'.table);
  }

  lemma FrontOfPushed(p: int, s: seq<int>)
    ensures Front([p] + s) == p
  {
  }

  lemma GivenClients(s: State, s1: State, s': State, p: int, i: nat)
    requires WellFormed(s.layout) && p in s.layout.owned
    requires OthersSame(s.mem, s1.mem, s.layout, Owned(p))
    requires s.table in s.layout.owned && s.layout.owned[s.table].role == Table
    requires OthersSame(s1.mem, s'.mem, s.layout, Owned(s.table))
    ensures ClientsKept(s.mem, s'.mem, Recast(s.layout, p, Free(i)))
  {
    hide WellFormed, OthersSame, Load;
    var l' := Recast(s.layout, p, Free(i));
    forall a, w | a in l'.owned && l'.owned[a].role == Object && a <= w < a + l'.owned[a].size
      ensures Load(s'.mem, w) == Load(s.mem, w)
    {
      PieceKept(s.layout, Owned(p), Owned(a), s.mem, s1.mem, w);
      PieceKept(s.layout, Owned(s.table), Owned(a), s1.mem, s'.mem, w);
    }
  }

  // A client storing into an object it was handed disturbs nothing of the
  // arena and no other object.
  lemma ObjectStore(s: State, a: int, w: int, v: int)
    requires Sound(s) && a in s.layout.owned && s.layout.owned[a].role == Object
    requires WordOf(s.layout, a, w)
    ensures Sound(s.(mem := s.mem[w := v]))
    ensures OthersSame(s.mem, s.mem[w := v], s.layout, Owned(a))
  {
    hide Sound, WellFormed, HeadersHold, NodesHold, FreeHold, OthersSame, SameOutside, Load;
    Shape(s);
    var m', p := s.mem[w := v], Owned(a);
    StoreWithin(s.mem, w, v, Lo(s.layout, p), Hi(s.layout, p));
    ChangeWithin(s.layout, p, s.mem, m');
    HeadersFrame(s.layout, p, s.mem, m');
    NodesFrame(s.layout, p, s.mem, m', s.run);
    FreeFrame(s.layout, p, s.mem, m', s.lists, s.table);
    PutTogether(s.(mem := m'));
  }

  // A whole word of the region at a.
  predicate WordOf(l: Layout, a: int, w: int) {
    a in l.owned && Aligned(w) && a <= w && w + 8 <= a + l.owned[a].size
  }

  // ---------- other serial arenas ----------

  // An array of another serial arena, which from now on is this one's to file
  // or to hand out again.
  function Adopted(s: State, p: int, size: int): State {
    s.(layout := Adopt(s.layout, p, size))
  }

  lemma AdoptedSound(s: State, p: int, size: int)
    requires Sound(s) && Foreign(s.layout, p, size)
    ensures Sound(Adopted(s, p, size)) && p !in s.layout.owned
  {
    hide Sound, WellFormed, HeadersHold, NodesHold, FreeHold, Foreign;
    Shape(s);
    AdoptKeepsForm(s.layout, p, size);
    OwnedGrows(s.mem, s.layout.owned, p, Region(size, Object, Abroad), s.lists, s.table);
    PutTogether(Adopted(s, p, size));
  }

  // An object of this arena that changes hands: Lent once it is given back to
  // another arena, Object again when it comes home.
  function Passed(s: State, p: int, role: Role): State
    requires p in s.layout.owned
  {
    s.(layout := Recast(s.layout, p, role))
  }

  lemma PassedSound(s: State, p: int, role: Role)
    requires Sound(s) && p in s.layout.owned && (s.layout.owned[p].role == Object || s.layout.owned[p].role == Lent)
    ensures Sound(Passed(s, p, role))
  {
    hide Sound, WellFormed, HeadersHold, NodesHold, FreeHold, ListsHold, ListHolds, HeadsHold, Load, Pow2;
    Shape(s);
    FreeParts(s);
    RecastKeepsForm(s.layout, p, role);
    forall k | 0 <= k < |s.lists| ensures ListHolds(s.mem, Passed(s, p, role).layout.owned, s.lists[k], k) {
      ListIsOk(s, k);
      RolesTellListsApart(s.mem, s.layout.owned, s.lists[k], k, p);
      ListRecast(s.mem, s.layout.owned, p, role, s.lists[k], k);
    }
    AllListsHold(s.mem, Passed(s, p, role).layout.owned, s.lists);
    TableRecast(s.layout.owned, s.table, |s.lists|, p, role);
    TableFits(s.mem, Passed(s, p, role).layout.owned, s.lists, s.table);
    PutTogether(Passed(s, p, role));
  }

  // What the rest of the process may do meanwhile: change any word that is
  // not in one of the arena's pieces, and words of regions it has lent.
  ghost predicate FromElsewhere(s: State, m: Memory) {
    forall q: Piece, w :: IsPiece(s.layout, q) && !IsLent(s.layout, q) && Lo(s.layout, q) <= w < Hi(s.layout, q) ==>
                            Load(m, w) == Load(s.mem, w)
  }

  lemma ElsewhereSound(s: State, m: Memory)
    requires Sound(s) && FromElsewhere(s, m)
    ensures Sound(s.(mem := m)) && ClientsKept(s.mem, m, s.layout)
  {
    hide Sound, WellFormed, HeadersHold, NodesHold, FreeHold, ClientsKept, Load, IsLent;
    Shape(s);
    NothingOfHeader(s, m, Header(|s.layout.blocks|));
  }

  // A change that touches no piece at all, and no header in particular.
  lemma NothingOfHeader(s: State, m: Memory, p: Piece)
    requires WellFormed(s.layout) && HeadersHold(s.mem, s.layout.blocks)
    requires NodesHold(s.mem, s.layout.blocks, s.run) && FreeHold(s.mem, s.layout.owned, s.lists, s.table)
    requires p == Header(|s.layout.blocks|) && OthersSame(s.mem, m, s.layout, p)
    ensures Sound(s.(mem := m)) && ClientsKept(s.mem, m, s.layout)
  {
    hide WellFormed, NodesHold, FreeHold, OthersSame, ClientsKept, Load, HeadersHold;
    var free := CleanupNode(|s.layout.blocks|, 0);
    assert OthersSame(s.mem, m, s.layout, free) by { NoSuchPiece(s, m, p, free); }
    HeadersFrame(s.layout, free, s.mem, m);
    NodesFrame(s.layout, p, s.mem, m, s.run);
    FreeFrame(s.layout, p, s.mem, m, s.lists, s.table);
    ClientsFrame(s.layout, p, s.mem, m);
    PutTogether(s.(mem := m));
  }

  lemma NoSuchPiece(s: State, m: Memory, p: Piece, q: Piece)
    requires !IsPiece(s.layout, p) && !IsPiece(s.layout, q) && OthersSame(s.mem, m, s.layout, p)
    ensures OthersSame(s.mem, m, s.layout, q)
  {
    hide Load, IsLent;
  }

  // ---------- a new table ----------

  lemma RetabledSound(s: State, p: int, m: Memory, length: nat)
    requires Sound(s)
    requires p in s.layout.owned && s.layout.owned[p].role == Object
    requires |s.lists| <= length <= 64 && 8 * length <= s.layout.owned[p].size
    requires SameOutside(s.mem, m, p, p + s.layout.owned[p].size)
    requires forall i :: 0 <= i < |s.lists| ==> Load(m, p + 8 * i) == Load(s.mem, s.table + 8 * i)
    requires forall i :: |s.lists| <= i < length ==> Load(m, p + 8 * i) == 0
    ensures Sound(Retabled(s, p, m, length))
    ensures ClientsKept(s.mem, m, Recast(s.layout, p, Table))
  {
    hide Sound, WellFormed, HeadersHold, NodesHold, FreeHold, ClientsKept, SameOutside, OthersSame, ListsHold, HeadsHold, ListHolds, Load;
    Shape(s);
    FreeParts(s);
    ChangeWithin(s.layout, Owned(p), s.mem, m);
    RetabledHeads(s, p, m, length);
    RetabledLists(s, p, m, length);
    RetabledClients(s, p, m);
    HeadersFrame(s.layout, Owned(p), s.mem, m);
    NodesFrame(s.layout, Owned(p), s.mem, m, s.run);
    RecastKeepsForm(s.layout, p, Table);
    TableFits(m, Recast(s.layout, p, Table).owned, Resized(s.lists, length), p);
    PutTogether(Retabled(s, p, m, length));
  }

  lemma TableFits(m: Memory, owned: map<int, Region>, lists: seq<seq<int>>, table: int)
    requires |lists| <= 64 && TableOk(owned, table, |lists|) && HeadsHold(m, lists, table) && ListsHold(m, owned, lists)
    ensures FreeHold(m, owned, lists, table)
  {
    hide HeadsHold, ListsHold, TableOk;
  }

  lemma RetabledHeads(s: State, p: int, m: Memory, length: nat)
    requires HeadsHold(s.mem, s.lists, s.table) && |s.lists| <= length
    requires forall i :: 0 <= i < |s.lists| ==> Load(m, p + 8 * i) == Load(s.mem, s.table + 8 * i)
    requires forall i :: |s.lists| <= i < length ==> Load(m, p + 8 * i) == 0
    ensures HeadsHold(m, Resized(s.lists, length), p)
  {
    hide Load;
    var lists := Resized(s.lists, length);
    forall i | 0 <= i < |lists| ensures Load(m, p + 8 * i) == Front(lists[i]) {
      if i < |s.lists| {
        assert Load(s.mem, s.table + 8 * i) == Front(s.lists[i]);
        assert lists[i] == s.lists[i];
      }
    }
  }

  lemma RetabledLists(s: State, p: int, m: Memory, length: nat)
    requires WellFormed(s.layout) && ListsHold(s.mem, s.layout.owned, s.lists) && |s.lists| <= length
    requires p in s.layout.owned && s.layout.owned[p].role == Object
    requires OthersSame(s.mem, m, s.layout, Owned(p))
    ensures ListsHold(m, Recast(s.layout, p, Table).owned, Resized(s.lists, length))
  {
    hide WellFormed, OthersSame, ListHolds;
    var l := s.layout;
    var lists, owned' := Resized(s.lists, length), Recast(l, p, Table).owned;
    forall k | 0 <= k < length ensures ListHolds(m, owned', lists[k], k) {
      if k < |s.lists| {
        assert ListHolds(s.mem, l.owned, s.lists[k], k);
        ListFrame(l, Owned(p), s.mem, m, s.lists[k], k);
        RolesTellListsApart(s.mem, l.owned, s.lists[k], k, p);
        ListRecast(m, l.owned, p, Table, s.lists[k], k);
      } else {
        EmptyListHolds(m, owned', k);
      }
    }
  }

  lemma EmptyListHolds(m: Memory, owned: map<int, Region>, i: nat)
    ensures ListHolds(m, owned, [], i)
  {
  }

  lemma RetabledClients(s: State, p: int, m: Memory)
    requires p in s.layout.owned
    requires OthersSame(s.mem, m, s.layout, Owned(p))
    ensures ClientsKept(s.mem, m, Recast(s.layout, p, Table))
  {
    hide OthersSame, Load;
    var l' := Recast(s.layout, p, Table);
    forall a, w | a in l'.owned && l'.owned[a].role == Object && a <= w < a + l'.owned[a].size
      ensures Load(m, w) == Load(s.mem, w)
    {
      PieceKept(s.layout, Owned(p), Owned(a), s.mem, m, w);
    }
  }

  // ---------- the start of the newest block recorded ----------

  function Sealed(s: State): State
    requires |s.layout.blocks| > 0
  {
    s.(mem := s.mem[Newest(s.layout).base + 16 := Newest(s.layout).start])
  }

  lemma SealedSound(s: State)
    requires Sound(s)
    ensures |s.layout.blocks| > 0
    ensures Sound(Sealed(s))
    ensures Load(Sealed(s).mem, Newest(s.layout).base + 16) == Newest(s.layout).start
    ensures ClientsKept(s.mem, Sealed(s).mem, s.layout)
  {
    hide Sound, WellFormed, HeadersHold, NodesHold, FreeHold, OthersSame, ClientsKept, Load, SameOutside;
    Shape(s);
    var l, p, newest := s.layout, Header(|s.layout.blocks| - 1), Newest(s.layout);
    SealedHeaders(l, s.mem);
    StoreWithin(s.mem, newest.base + 16, newest.start, newest.base, newest.base + HEADER_SIZE);
    ChangeWithin(l, p, s.mem, Sealed(s).mem);
    NodesFrame(l, p, s.mem, Sealed(s).mem, s.run);
    FreeFrame(l, p, s.mem, Sealed(s).mem, s.lists, s.table);
    ClientsFrame(l, p, s.mem, Sealed(s).mem);
    PutTogether(Sealed(s));
  }
}
