// Where everything lies in the memory of one serial arena: block headers,
// the arena object itself, cleanup nodes growing down, and the regions
// handed out, kept for reuse or holding the table of free lists, growing up.
module ArenaLayout {
  import opened Arithmetic

  // Sizes of the block header, the arena object and a cleanup node when
  // pointers and sizes have eight bytes.
  const HEADER_SIZE: int := 24
  const ARENA_SIZE: int := 80
  const CLEANUP_SIZE: int := 16

  predicate Aligned(x: int) {
    x % 8 == 0
  }

  function AlignUpTo8(n: int): (r: int)
    ensures r % 8 == 0 && n <= r < n + 8
  {
    (n + 7) / 8 * 8
  }

  // size & -8
  function Masked(size: int): (r: int)
    ensures r % 8 == 0 && size - 8 < r <= size
  {
    size / 8 * 8
  }

  // (p + align - 1) & (~align + 1), for a power of two
  function AlignTo(p: int, align: int): int
    requires align > 0
  {
    RoundedDown(p + align - 1, align)
  }

  // Allocating align - 8 bytes too many leaves an aligned place of the size
  // asked for.
  lemma AlignedFits(p: int, align: int)
    requires align > 0 && align % 8 == 0 && p % 8 == 0
    ensures AlignTo(p, align) % align == 0
    ensures p <= AlignTo(p, align) <= p + align - 8
  {
    hide RoundedDown;
    RoundedDownBounds(p + align - 1, align);
    RoundedDownOf8(p + align - 1, align);
    NextMultipleOf8(AlignTo(p, align), p, align);
  }

  // Allocations use [bottom, ...) upwards and cleanup nodes [start, top)
  // downwards. Only the oldest block also holds the arena object, and only
  // its top is rounded down.
  datatype Block = Block(base: int, size: int, bottom: int, top: int, start: int)

  // A region is Lent when the array in it was given back to another serial
  // arena, which may use it from then on.
  datatype Role = Object | Free(list: nat) | Table | Lent

  // A region lies in one of the arena's own blocks, or it is Abroad: an array
  // of another serial arena that was given back to this one.
  datatype Home = In(block: nat) | Abroad

  datatype Region = Region(size: int, role: Role, home: Home)

  // Blocks are listed oldest first; ptr is where the next allocation in the
  // newest of them begins.
  datatype Layout = Layout(blocks: seq<Block>, ptr: int, owned: map<int, Region>)

  function FirstBlock(base: int, size: int): Block {
    Block(base, size, base + HEADER_SIZE + ARENA_SIZE, base + Masked(size), base + Masked(size))
  }

  function LaterBlock(base: int, size: int): Block {
    Block(base, size, base + HEADER_SIZE, base + size, base + size)
  }

  predicate BlockOk(b: Block, first: bool) {
    && b.base > 0 && Aligned(b.base)
    && b.bottom == b.base + HEADER_SIZE + (if first then ARENA_SIZE else 0)
    && b.top == b.base + (if first then Masked(b.size) else b.size)
    && b.bottom <= b.start <= b.top
  }

  predicate Apart(lo: int, hi: int, lo': int, hi': int) {
    hi <= lo' || hi' <= lo
  }

  // The addresses from lo to hi are outside block b.
  predicate Outside(lo: int, hi: int, b: Block) {
    Apart(lo, hi, b.base, b.base + b.size)
  }

  // Addresses below this one in block k may belong to regions.
  function Ceiling(l: Layout, k: nat): int
    requires k < |l.blocks|
  {
    if k == |l.blocks| - 1 then l.ptr else l.blocks[k].start
  }

  predicate BlocksApart(blocks: seq<Block>) {
    forall i, j :: 0 <= i < j < |blocks| ==> Outside(blocks[i].base, blocks[i].base + blocks[i].size, blocks[j])
  }

  predicate EachBlockOk(blocks: seq<Block>) {
    forall k :: 0 <= k < |blocks| ==> BlockOk(blocks[k], k == 0)
  }

  predicate BlocksOk(l: Layout) {
    && |l.blocks| > 0 && EachBlockOk(l.blocks) && BlocksApart(l.blocks)
    && Aligned(l.ptr)
    && l.blocks[|l.blocks| - 1].bottom <= l.ptr <= l.blocks[|l.blocks| - 1].start
  }

  predicate OutsideAll(lo: int, hi: int, blocks: seq<Block>) {
    forall k :: 0 <= k < |blocks| ==> Outside(lo, hi, blocks[k])
  }

  predicate RegionOk(l: Layout, a: int, r: Region) {
    && a > 0 && Aligned(a) && r.size > 0
    && match r.home
       case In(k) => k < |l.blocks| && l.blocks[k].bottom <= a && a + r.size <= Ceiling(l, k)
       case Abroad => OutsideAll(a, a + r.size, l.blocks)
  }

  ghost predicate InPlace(l: Layout) {
    forall a :: a in l.owned ==> RegionOk(l, a, l.owned[a])
  }

  ghost predicate RegionsApart(owned: map<int, Region>) {
    forall a, b :: a in owned && b in owned && a != b ==> Apart(a, a + owned[a].size, b, b + owned[b].size)
  }

  ghost predicate WellFormed(l: Layout) {
    BlocksOk(l) && InPlace(l) && RegionsApart(l.owned)
  }

  function Newest(l: Layout): Block
    requires |l.blocks| > 0
  {
    l.blocks[|l.blocks| - 1]
  }

  function Room(l: Layout): int
    requires |l.blocks| > 0
  {
    Newest(l).start - l.ptr
  }

  // ---------- everything in its own place ----------

  datatype Piece = Header(block: nat) | Self | CleanupNode(block: nat, place: nat) | Owned(at: int)

  predicate IsPiece(l: Layout, p: Piece) {
    match p
    case Header(k) => k < |l.blocks|
    case Self => |l.blocks| > 0
    case CleanupNode(k, j) => k < |l.blocks| && l.blocks[k].start + CLEANUP_SIZE * (j + 1) <= l.blocks[k].top
    case Owned(a) => a in l.owned
  }

  function Lo(l: Layout, p: Piece): int
    requires IsPiece(l, p)
  {
    match p
    case Header(k) => l.blocks[k].base
    case Self => l.blocks[0].base + HEADER_SIZE
    case CleanupNode(k, j) => l.blocks[k].start + CLEANUP_SIZE * j
    case Owned(a) => a
  }

  function Hi(l: Layout, p: Piece): int
    requires IsPiece(l, p)
  {
    match p
    case Header(k) => l.blocks[k].base + HEADER_SIZE
    case Self => l.blocks[0].base + HEADER_SIZE + ARENA_SIZE
    case CleanupNode(k, j) => l.blocks[k].start + CLEANUP_SIZE * (j + 1)
    case Owned(a) => a + l.owned[a].size
  }

  function HomeOf(l: Layout, p: Piece): Home
    requires IsPiece(l, p)
  {
    match p
    case Header(k) => In(k)
    case Self => In(0)
    case CleanupNode(k, j) => In(k)
    case Owned(a) => l.owned[a].home
  }

  predicate IsLent(l: Layout, p: Piece) {
    p.Owned? && p.at in l.owned && l.owned[p.at].role == Lent
  }

  lemma HasBlocks(l: Layout)
    requires WellFormed(l)
    ensures |l.blocks| > 0
  {
    hide EachBlockOk, BlocksApart, InPlace, RegionsApart;
  }

  lemma PtrIsAligned(l: Layout)
    requires WellFormed(l)
    ensures l.ptr % 8 == 0
  {
    hide EachBlockOk, BlocksApart, InPlace, RegionsApart;
  }

  lemma BlockIsOk(l: Layout, k: nat)
    requires BlocksOk(l) && k < |l.blocks|
    ensures BlockOk(l.blocks[k], k == 0)
  {
    hide BlockOk, BlocksApart;
  }

  lemma FormOfBlock(l: Layout, k: nat)
    requires WellFormed(l) && k < |l.blocks|
    ensures BlockOk(l.blocks[k], k == 0)
  {
    hide EachBlockOk, BlockOk, BlocksApart, InPlace, RegionsApart;
    BlockIsOk(l, k);
  }

  lemma BlocksAreApart(l: Layout, i: nat, j: nat)
    requires BlocksOk(l) && i < |l.blocks| && j < |l.blocks|
    ensures i != j ==> Outside(l.blocks[i].base, l.blocks[i].base + l.blocks[i].size, l.blocks[j])
  {
    hide EachBlockOk, BlockOk;
  }

  lemma RegionIsOk(l: Layout, a: int)
    requires InPlace(l) && a in l.owned
    ensures RegionOk(l, a, l.owned[a])
  {
    hide RegionOk;
  }

  lemma RegionsAreApart(owned: map<int, Region>, a: int, b: int)
    requires RegionsApart(owned) && a in owned && b in owned && a != b
    ensures Apart(a, a + owned[a].size, b, b + owned[b].size)
  {
    hide Apart;
  }

  // Every piece that is not abroad lies inside one block, above or below that
  // block's start according to its kind.
  lemma PieceInBlock(l: Layout, p: Piece)
    requires WellFormed(l) && IsPiece(l, p) && HomeOf(l, p).In?
    ensures HomeOf(l, p).block < |l.blocks|
    ensures var b := l.blocks[HomeOf(l, p).block];
            b.base <= Lo(l, p) < Hi(l, p) <= b.base + b.size
    ensures p.CleanupNode? ==> l.blocks[HomeOf(l, p).block].start <= Lo(l, p)
    ensures !p.CleanupNode? ==> Hi(l, p) <= l.blocks[HomeOf(l, p).block].start
    ensures p.Owned? ==> l.blocks[HomeOf(l, p).block].bottom <= Lo(l, p)
  {
    if p.Owned? {
      RegionIsOk(l, p.at);
    }
    assert |l.blocks| > 0;
    BlockIsOk(l, HomeOf(l, p).block);
    assert l.ptr <= Newest(l).start;
    hide WellFormed, Aligned, Masked;
  }

  // One that is abroad meets none of the blocks.
  lemma PieceAbroad(l: Layout, p: Piece)
    requires WellFormed(l) && IsPiece(l, p) && HomeOf(l, p).Abroad?
    ensures Lo(l, p) < Hi(l, p) && OutsideAll(Lo(l, p), Hi(l, p), l.blocks)
  {
    RegionIsOk(l, p.at);
    hide WellFormed, OutsideAll, Aligned;
  }

  // Any two different pieces are apart.
  lemma PiecesApart(l: Layout, p: Piece, q: Piece)
    requires WellFormed(l) && IsPiece(l, p) && IsPiece(l, q) && p != q
    ensures Apart(Lo(l, p), Hi(l, p), Lo(l, q), Hi(l, q))
  {
    if p.Owned? && q.Owned? {
      RegionsAreApart(l.owned, p.at, q.at);
    } else if HomeOf(l, p).Abroad? {
      PieceAbroad(l, p);
      PieceInBlock(l, q);
      hide WellFormed;
      assert Outside(Lo(l, p), Hi(l, p), l.blocks[HomeOf(l, q).block]);
    } else if HomeOf(l, q).Abroad? {
      PieceAbroad(l, q);
      PieceInBlock(l, p);
      hide WellFormed;
      assert Outside(Lo(l, q), Hi(l, q), l.blocks[HomeOf(l, p).block]);
    } else {
      PieceInBlock(l, p);
      PieceInBlock(l, q);
      HomesApart(l, p, q);
      hide WellFormed;
    }
  }

  // Pieces in different blocks are apart, and headers, the arena object,
  // nodes and regions of one block have their own part of it.
  lemma HomesApart(l: Layout, p: Piece, q: Piece)
    requires WellFormed(l) && IsPiece(l, p) && IsPiece(l, q) && p != q
    requires HomeOf(l, p).In? && HomeOf(l, q).In? && !(p.Owned? && q.Owned?)
    ensures Apart(Lo(l, p), Hi(l, p), Lo(l, q), Hi(l, q))
  {
    PieceInBlock(l, p);
    PieceInBlock(l, q);
    BlocksAreApart(l, HomeOf(l, p).block, HomeOf(l, q).block);
    BlockIsOk(l, HomeOf(l, p).block);
    hide WellFormed, Aligned, Masked;
  }

  // Everything but the cleanup nodes is 8-aligned.
  lemma PieceAligned(l: Layout, p: Piece)
    requires WellFormed(l) && IsPiece(l, p) && !p.CleanupNode?
    ensures Lo(l, p) % 8 == 0
  {
    match p
    case Header(k) => BlockIsOk(l, k); hide WellFormed, Masked;
    case Self => BlockIsOk(l, 0); hide WellFormed, Masked;
    case Owned(a) => RegionIsOk(l, a); hide WellFormed, Ceiling, OutsideAll;
  }

  // A cleanup node is 8-aligned unless it lies in a later block whose size is
  // no multiple of 8.
  lemma NodeAlignedIff(l: Layout, k: nat, j: nat)
    requires BlocksOk(l) && IsPiece(l, CleanupNode(k, j))
    requires (l.blocks[k].top - l.blocks[k].start) % CLEANUP_SIZE == 0
    ensures Lo(l, CleanupNode(k, j)) % 8 == 0 <==> k == 0 || l.blocks[k].size % 8 == 0
  {
    hide BlocksOk;
    var b := l.blocks[k];
    BlockIsOk(l, k);
    NodeAligned(b.top, b.start, j);
    SumAligned(b.base, b.top - b.base);
  }

  lemma SumAligned(x: int, y: int)
    requires x % 8 == 0
    ensures (x + y) % 8 == 0 <==> y % 8 == 0
  {
  }

  lemma NodeAligned(top: int, start: int, j: nat)
    requires (top - start) % CLEANUP_SIZE == 0
    ensures (start + CLEANUP_SIZE * j) % 8 == 0 <==> top % 8 == 0
  {
    var q := (top - start) / CLEANUP_SIZE;
    assert start + CLEANUP_SIZE * j == top + 8 * (2 * j - 2 * q);
    EightsDoNotMatter(top, 2 * j - 2 * q);
  }

  // ---------- what the operations do to the layout ----------

  function Bump(l: Layout, n: int): Layout
    requires |l.blocks| > 0
  {
    l.(ptr := l.ptr + n,
       owned := if n > 0 then l.owned[l.ptr := Region(n, Object, In(|l.blocks| - 1))] else l.owned)
  }

  function PushNode(l: Layout): Layout
    requires |l.blocks| > 0
  {
    var last := |l.blocks| - 1;
    l.(blocks := l.blocks[last := l.blocks[last].(start := l.blocks[last].start - CLEANUP_SIZE)])
  }

  function AddBlock(l: Layout, base: int, size: int): Layout {
    l.(blocks := l.blocks + [LaterBlock(base, size)], ptr := base + HEADER_SIZE)
  }

  function Recast(l: Layout, a: int, role: Role): Layout
    requires a in l.owned
  {
    l.(owned := l.owned[a := l.owned[a].(role := role)])
  }

  // An array of another serial arena taken over.
  function Adopt(l: Layout, a: int, size: int): Layout {
    l.(owned := l.owned[a := Region(size, Object, Abroad)])
  }

  // An address the block allocator may return for size bytes.
  ghost predicate Grantable(l: Layout, base: int, size: int) {
    && base > 0 && Aligned(base)
    && OutsideAll(base, base + size, l.blocks)
    && forall a :: a in l.owned && l.owned[a].home.Abroad? ==> Apart(base, base + size, a, a + l.owned[a].size)
  }

  // An array that lies in no block and no region of this arena.
  ghost predicate Foreign(l: Layout, a: int, size: int) {
    && a > 0 && Aligned(a) && size > 0
    && OutsideAll(a, a + size, l.blocks)
    && forall b :: b in l.owned ==> Apart(a, a + size, b, b + l.owned[b].size)
  }

  // ---------- the layout stays well formed ----------

  lemma RegionAdded(owned: map<int, Region>, a: int, r: Region)
    requires RegionsApart(owned)
    requires forall b :: b in owned && b != a ==> Apart(a, a + r.size, b, b + owned[b].size)
    ensures RegionsApart(owned[a := r])
  {
    var owned' := owned[a := r];
    forall b, c | b in owned' && c in owned' && b != c ensures Apart(b, b + owned'[b].size, c, c + owned'[c].size) {
      if b != a && c != a {
        RegionsAreApart(owned, b, c);
      }
    }
  }

  lemma OwnedGrowsInPlace(l: Layout, a: int, r: Region)
    requires InPlace(l) && RegionOk(l, a, r)
    ensures InPlace(l.(owned := l.owned[a := r]))
  {
    var l' := l.(owned := l.owned[a := r]);
    forall b | b in l'.owned ensures RegionOk(l', b, l'.owned[b]) {
      if b != a {
        RegionIsOk(l, b);
      }
      hide Aligned, OutsideAll;
    }
  }

  // A region stays in place while its ceiling does not sink and no new block
  // meets it.
  lemma RegionStays(l: Layout, l': Layout, a: int, r: Region)
    requires RegionOk(l, a, r)
    requires match r.home
             case In(k) => k < |l.blocks| ==>
               k < |l'.blocks| && l'.blocks[k].bottom == l.blocks[k].bottom &&
               (Ceiling(l, k) <= Ceiling(l', k) || a + r.size <= Ceiling(l', k))
             case Abroad => OutsideAll(a, a + r.size, l.blocks) ==> OutsideAll(a, a + r.size, l'.blocks)
    ensures RegionOk(l', a, r)
  {
    hide Aligned, OutsideAll, Ceiling;
  }

  lemma BumpKeepsForm(l: Layout, n: int)
    requires WellFormed(l) && n % 8 == 0 && 0 <= n <= Room(l)
    ensures WellFormed(Bump(l, n))
    ensures n > 0 ==> l.ptr !in l.owned
  {
    BumpBlocks(l, n);
    BumpInPlace(l, n);
    forall a | a in l.owned ensures (n > 0 ==> a != l.ptr) && Apart(l.ptr, l.ptr + n, a, a + l.owned[a].size) {
      RegionBelowPtr(l, a, n);
    }
    hide BlocksOk, InPlace, RegionsApart, Apart;
    if n > 0 {
      RegionAdded(l.owned, l.ptr, Region(n, Object, In(|l.blocks| - 1)));
    }
  }

  lemma BumpBlocks(l: Layout, n: int)
    requires BlocksOk(l) && n % 8 == 0 && 0 <= n <= Room(l)
    ensures BlocksOk(Bump(l, n))
    ensures BlocksOk(l.(ptr := l.ptr + n))
  {
    hide EachBlockOk, BlocksApart;
  }

  lemma BumpInPlace(l: Layout, n: int)
    requires BlocksOk(l) && InPlace(l) && n >= 0
    ensures InPlace(Bump(l, n))
  {
    var l1 := l.(ptr := l.ptr + n);
    forall a | a in l.owned ensures RegionOk(l1, a, l.owned[a]) {
      RegionIsOk(l, a);
      RegionStays(l, l1, a, l.owned[a]);
    }
    if n > 0 {
      NewRegionOk(l, n);
      hide BlocksOk, RegionOk;
      OwnedGrowsInPlace(l1, l.ptr, Region(n, Object, In(|l.blocks| - 1)));
    }
  }

  lemma NewRegionOk(l: Layout, n: int)
    requires BlocksOk(l) && n > 0
    ensures RegionOk(l.(ptr := l.ptr + n), l.ptr, Region(n, Object, In(|l.blocks| - 1)))
  {
    hide EachBlockOk, BlocksApart, Aligned, Masked;
    BlockIsOk(l, |l.blocks| - 1);
  }

  lemma RegionBelowPtr(l: Layout, a: int, n: int)
    requires WellFormed(l) && a in l.owned && 0 <= n <= Room(l)
    ensures Apart(l.ptr, l.ptr + n, a, a + l.owned[a].size)
    ensures n > 0 ==> a != l.ptr
  {
    var last := |l.blocks| - 1;
    RegionIsOk(l, a);
    BlockIsOk(l, last);
    assert Newest(l).bottom <= l.ptr <= Newest(l).start;
    if l.owned[a].home.In? {
      var k := l.owned[a].home.block;
      BlockIsOk(l, k);
      BlocksAreApart(l, k, last);
      hide WellFormed, Aligned, Masked;
    } else {
      assert Newest(l).top <= Newest(l).base + Newest(l).size;
      hide WellFormed, Aligned, Masked;
      assert Outside(a, a + l.owned[a].size, l.blocks[last]);
    }
  }

  lemma PushNodeKeepsForm(l: Layout)
    requires WellFormed(l) && CLEANUP_SIZE <= Room(l)
    ensures WellFormed(PushNode(l))
  {
    var l' := PushNode(l);
    PushNodeBlocks(l);
    hide BlocksOk, RegionOk;
    forall a | a in l'.owned ensures RegionOk(l', a, l'.owned[a]) {
      RegionIsOk(l, a);
      PushNodeRegion(l, a, l.owned[a]);
    }
  }

  lemma PushNodeBlocks(l: Layout)
    requires BlocksOk(l) && CLEANUP_SIZE <= Room(l)
    ensures BlocksOk(PushNode(l))
  {
    var l' := PushNode(l);
    hide Aligned, Masked;
    forall k | 0 <= k < |l'.blocks| ensures BlockOk(l'.blocks[k], k == 0) {
      BlockIsOk(l, k);
    }
    forall i, j | 0 <= i < j < |l'.blocks|
      ensures Outside(l'.blocks[i].base, l'.blocks[i].base + l'.blocks[i].size, l'.blocks[j])
    {
      BlocksAreApart(l, i, j);
    }
    hide EachBlockOk, BlocksApart, BlockOk, Outside;
  }

  lemma PushNodeRegion(l: Layout, a: int, r: Region)
    requires |l.blocks| > 0 && RegionOk(l, a, r)
    ensures RegionOk(PushNode(l), a, r)
  {
    var l' := PushNode(l);
    assert forall k | 0 <= k < |l.blocks| ::
        Outside(a, a + r.size, l.blocks[k]) == Outside(a, a + r.size, l'.blocks[k]);
    hide Aligned, Outside;
  }

  lemma AddBlockKeepsForm(l: Layout, base: int, size: int)
    requires WellFormed(l) && Grantable(l, base, size) && size >= HEADER_SIZE
    ensures WellFormed(AddBlock(l, base, size))
  {
    hide BlocksOk, RegionOk, RegionsApart;
    var l' := AddBlock(l, base, size);
    AddBlockBlocks(l, base, size);
    forall a | a in l'.owned ensures RegionOk(l', a, l'.owned[a]) {
      RegionIsOk(l, a);
      assert l.owned[a].home.Abroad? ==> Apart(base, base + size, a, a + l.owned[a].size);
      AddBlockRegion(l, base, size, a, l.owned[a]);
    }
  }

  lemma AddBlockBlocks(l: Layout, base: int, size: int)
    requires BlocksOk(l) && Grantable(l, base, size) && size >= HEADER_SIZE
    ensures BlocksOk(AddBlock(l, base, size))
  {
    var l' := AddBlock(l, base, size);
    hide Masked;
    assert Aligned(base + HEADER_SIZE);
    hide Aligned;
    forall k | 0 <= k < |l'.blocks| ensures BlockOk(l'.blocks[k], k == 0) {
      if k < |l.blocks| {
        BlockIsOk(l, k);
      }
    }
    forall i, j | 0 <= i < j < |l'.blocks|
      ensures Outside(l'.blocks[i].base, l'.blocks[i].base + l'.blocks[i].size, l'.blocks[j])
    {
      if j < |l.blocks| {
        BlocksAreApart(l, i, j);
      } else {
        assert Outside(base, base + size, l.blocks[i]);
      }
    }
    hide EachBlockOk, BlocksApart, BlockOk, Outside;
  }

  lemma AddBlockRegion(l: Layout, base: int, size: int, a: int, r: Region)
    requires BlocksOk(l) && RegionOk(l, a, r)
    requires r.home.Abroad? ==> Apart(base, base + size, a, a + r.size)
    ensures RegionOk(AddBlock(l, base, size), a, r)
  {
    hide EachBlockOk, BlocksApart, Aligned;
  }

  lemma RecastKeepsForm(l: Layout, a: int, role: Role)
    requires WellFormed(l) && a in l.owned
    ensures WellFormed(Recast(l, a, role))
  {
    hide BlocksOk, InPlace, RegionsApart, RegionOk;
    var r := l.owned[a].(role := role);
    RegionIsOk(l, a);
    RecastRegion(l, a, role);
    OwnedGrowsInPlace(l, a, r);
    forall b | b in l.owned && b != a ensures Apart(a, a + r.size, b, b + l.owned[b].size) {
      RegionsAreApart(l.owned, a, b);
    }
    RegionAdded(l.owned, a, r);
    SameBlocks(l, Recast(l, a, role));
  }

  lemma RecastRegion(l: Layout, a: int, role: Role)
    requires a in l.owned && RegionOk(l, a, l.owned[a])
    ensures RegionOk(l, a, l.owned[a].(role := role))
  {
    hide Aligned, OutsideAll;
  }

  lemma SameBlocks(l: Layout, l': Layout)
    requires BlocksOk(l) && l'.blocks == l.blocks && l'.ptr == l.ptr
    ensures BlocksOk(l')
  {
    hide EachBlockOk, BlocksApart;
  }

  lemma AdoptKeepsForm(l: Layout, a: int, size: int)
    requires WellFormed(l) && Foreign(l, a, size)
    ensures WellFormed(Adopt(l, a, size)) && a !in l.owned
  {
    hide BlocksOk, OutsideAll, Aligned;
    var r := Region(size, Object, Abroad);
    assert a in l.owned ==> RegionOk(l, a, l.owned[a]);
    assert RegionOk(l, a, r);
    OwnedGrowsInPlace(l, a, r);
    RegionAdded(l.owned, a, r);
    SameBlocks(l, Adopt(l, a, size));
  }

  // The first block and its arena object alone.
  lemma FirstBlockForm(base: int, size: int)
    requires base > 0 && base % 8 == 0 && size >= HEADER_SIZE + ARENA_SIZE
    ensures WellFormed(Layout([FirstBlock(base, size)], base + HEADER_SIZE + ARENA_SIZE, map[]))
  {
  }
}
