// A serial arena's operations as steps between states, and what holds after
// any run of them.
module ArenaRuns {
  import opened ArenaLayout
  import opened ArenaMemory
  import opened ArenaSteps
  import opened Bits
  import opened SizeClasses

  datatype Policy = Policy(startBlockSize: nat, maxBlockSize: nat)

  function Min(x: int, y: int): int {
    if x < y then x else y
  }

  function Max(x: int, y: int): int {
    if x > y then x else y
  }

  // The size of the block after one of size last (0: there is none).
  function BlockSize(policy: Policy, last: int, minBytes: int): (size: int)
    ensures size >= HEADER_SIZE + minBytes
  {
    Max(if last != 0 then Min(2 * last, policy.maxBlockSize) else policy.startBlockSize, HEADER_SIZE + minBytes)
  }

  // What the block allocator may answer when n more bytes do not fit.
  ghost predicate MayGrow(s: State, n: int, policy: Policy, at: int) {
    && |s.layout.blocks| > 0
    && (n > Room(s.layout) ==> Grantable(s.layout, at, BlockSize(policy, Newest(s.layout).size, n)))
  }

  // Room for n bytes, in a new block at `at` if need be.
  function Fitted(s: State, n: int, policy: Policy, at: int): State
    requires |s.layout.blocks| > 0
  {
    if n <= Room(s.layout) then s else Grown(s, at, BlockSize(policy, Newest(s.layout).size, n))
  }

  lemma FittedSound(s: State, n: int, policy: Policy, at: int)
    requires Sound(s) && n >= 0 && MayGrow(s, n, policy, at)
    ensures Sound(Fitted(s, n, policy, at))
    ensures n <= Room(Fitted(s, n, policy, at).layout)
    ensures ClientsKept(s.mem, Fitted(s, n, policy, at).mem, s.layout)
    ensures Fitted(s, n, policy, at).layout.ptr % 8 == 0
  {
    hide Sound, WellFormed, Grantable, ClientsKept;
    Shape(s);
    PtrIsAligned(s.layout);
    if n > Room(s.layout) {
      var s' := Grown(s, at, BlockSize(policy, Newest(s.layout).size, n));
      GrownSound(s, at, BlockSize(policy, Newest(s.layout).size, n));
      Shape(s');
      PtrIsAligned(s'.layout);
    } else {
      NothingChanged(s.mem, s.layout);
    }
  }

  lemma NothingChanged(m: Memory, l: Layout)
    ensures ClientsKept(m, m, l)
  {
  }

  // ---------- allocating ----------

  // The list an array request of n bytes is served from.
  predicate FromList(s: State, kArray: bool, n: int) {
    kArray && n >= 16 && RequestIndex(n) < |s.lists| && |s.lists[RequestIndex(n)]| > 0
  }

  predicate FrontsOwned(s: State) {
    forall i :: 0 <= i < |s.lists| && |s.lists[i]| > 0 ==> s.lists[i][0] in s.layout.owned
  }

  lemma FrontsAreOwned(s: State)
    requires Sound(s)
    ensures FrontsOwned(s)
  {
    forall i | 0 <= i < |s.lists| && |s.lists[i]| > 0 ensures s.lists[i][0] in s.layout.owned {
      HeadIsNullIff(s, i);
    }
  }

  function Allocated(s: State, kArray: bool, n: int, policy: Policy, at: int): State
    requires |s.layout.blocks| > 0 && FrontsOwned(s)
  {
    if FromList(s, kArray, n) then Taken(s, RequestIndex(n))
    else Bumped(Fitted(s, n, policy, at), n)
  }

  function AllocatedAt(s: State, kArray: bool, n: int, policy: Policy, at: int): int
    requires |s.layout.blocks| > 0
  {
    if FromList(s, kArray, n) then s.lists[RequestIndex(n)][0]
    else Fitted(s, n, policy, at).layout.ptr
  }

  // The memory at a now belongs to an object of n bytes or more, and did not
  // belong to one before; whoever held an object still holds it.
  ghost predicate HandedOut(s: State, s': State, a: int, n: int) {
    && (n > 0 ==>
          && a in s'.layout.owned && s'.layout.owned[a].role == Object && s'.layout.owned[a].size >= n
          && (a in s.layout.owned ==> s.layout.owned[a].role.Free?))
    && (forall b :: b in s.layout.owned && s.layout.owned[b].role == Object ==>
          b in s'.layout.owned && s'.layout.owned[b] == s.layout.owned[b])
    && ClientsKept(s.mem, s'.mem, s.layout)
  }

  lemma AllocatedIsExclusive(s: State, kArray: bool, n: int, policy: Policy, at: int)
    requires Sound(s) && n >= 0 && n % 8 == 0 && MayGrow(s, n, policy, at)
    requires FrontsOwned(s)
    ensures Sound(Allocated(s, kArray, n, policy, at))
    ensures HandedOut(s, Allocated(s, kArray, n, policy, at), AllocatedAt(s, kArray, n, policy, at), n)
    ensures AllocatedAt(s, kArray, n, policy, at) % 8 == 0
  {
    hide Sound, WellFormed, ClientsKept, FrontsOwned, Pow2;
    Shape(s);
    if FromList(s, kArray, n) {
      TakenSound(s, RequestIndex(n));
      RegionIsRoomy(s.layout, s.lists[RequestIndex(n)][0]);
    } else {
      FittedSound(s, n, policy, at);
      BumpedSound(Fitted(s, n, policy, at), n);
      FittedHandsOut(s, n, n, policy, at);
    }
  }

  lemma FittedHandsOut(s: State, n: int, room: int, policy: Policy, at: int)
    requires |s.layout.blocks| > 0 && Sound(Fitted(s, room, policy, at))
    requires n % 8 == 0 && 0 <= n <= Room(Fitted(s, room, policy, at).layout)
    requires ClientsKept(s.mem, Fitted(s, room, policy, at).mem, s.layout)
    ensures HandedOut(s, Bumped(Fitted(s, room, policy, at), n), Fitted(s, room, policy, at).layout.ptr, n)
  {
    hide Sound, WellFormed, ClientsKept;
    BumpedSound(Fitted(s, room, policy, at), n);
  }

  // ---------- allocating with a cleanup node ----------

  function WithCleanup(s: State, n: int, policy: Policy, at: int): State
    requires |s.layout.blocks| == |s.run| > 0
  {
    WithNode(Bumped(Fitted(s, n + CLEANUP_SIZE, policy, at), n))
  }

  function Registered(s: State, n: int, node: Node, policy: Policy, at: int): State
    requires |s.layout.blocks| == |s.run| > 0
  {
    Filled(WithCleanup(s, n, policy, at), node)
  }

  lemma WithCleanupIsExclusive(s: State, n: int, policy: Policy, at: int)
    requires Sound(s) && n >= 0 && n % 8 == 0 && MayGrow(s, n + CLEANUP_SIZE, policy, at)
    requires |s.layout.blocks| == |s.run| > 0
    ensures Sound(WithCleanup(s, n, policy, at))
    ensures Fitted(s, n + CLEANUP_SIZE, policy, at).layout.ptr % 8 == 0
    ensures HandedOut(s, WithCleanup(s, n, policy, at), Fitted(s, n + CLEANUP_SIZE, policy, at).layout.ptr, n)
  {
    hide Sound, WellFormed, ClientsKept;
    var s1 := Fitted(s, n + CLEANUP_SIZE, policy, at);
    FittedSound(s, n + CLEANUP_SIZE, policy, at);
    Shape(s1);
    BumpedSound(s1, n);
    FittedHandsOut(s, n, n + CLEANUP_SIZE, policy, at);
    WithNodeSound(Bumped(s1, n));
  }

  lemma RegisteredIsExclusive(s: State, n: int, node: Node, policy: Policy, at: int)
    requires Sound(s) && n >= 0 && n % 8 == 0 && MayGrow(s, n + CLEANUP_SIZE, policy, at)
    requires |s.layout.blocks| == |s.run| > 0
    ensures Sound(Registered(s, n, node, policy, at))
    ensures Fitted(s, n + CLEANUP_SIZE, policy, at).layout.ptr % 8 == 0
    ensures HandedOut(s, Registered(s, n, node, policy, at), Fitted(s, n + CLEANUP_SIZE, policy, at).layout.ptr, n)
  {
    hide Sound, WellFormed;
    var s1 := WithCleanup(s, n, policy, at);
    WithCleanupIsExclusive(s, n, policy, at);
    Shape(s1);
    FilledSound(s1, node);
    StillHandedOut(s, s1, Filled(s1, node), Fitted(s, n + CLEANUP_SIZE, policy, at).layout.ptr, n);
  }

  lemma StillHandedOut(s: State, s1: State, s2: State, a: int, n: int)
    requires HandedOut(s, s1, a, n) && s2.layout == s1.layout
    requires ClientsKept(s1.mem, s2.mem, s1.layout)
    ensures HandedOut(s, s2, a, n)
  {
    hide Load;
    forall b, w | b in s.layout.owned && s.layout.owned[b].role == Object && b <= w < b + s.layout.owned[b].size
      ensures Load(s2.mem, w) == Load(s.mem, w)
    {
      assert b in s1.layout.owned && s1.layout.owned[b] == s.layout.owned[b];
      assert Load(s1.mem, w) == Load(s.mem, w);
    }
  }

  // ---------- returning an array ----------

  // std::copy of n table words to p.
  function CopyHeads(m: Memory, p: int, table: int, n: nat): Memory {
    if n == 0 then m else
    var m' := CopyHeads(m, p, table, n - 1);
    m'[p + 8 * (n - 1) := Load(m', table + 8 * (n - 1))]
  }

  // std::fill of the table words from lo up to hi with null.
  function ClearHeads(m: Memory, p: int, lo: nat, hi: nat): Memory {
    if hi <= lo then m else ClearHeads(m, p, lo, hi - 1)[p + 8 * (hi - 1) := 0]
  }

  // An array that may be given back here: an object of this arena, one that
  // this arena has lent and that comes home, or one of another serial arena.
  ghost predicate Returnable(s: State, p: int, size: int) {
    && 16 <= size < SIZE_LIMIT
    && if p in s.layout.owned then
         && (s.layout.owned[p].role == Object || s.layout.owned[p].role == Lent)
         && size <= s.layout.owned[p].size
       else Foreign(s.layout, p, size)
  }

  // The array as an object of this arena.
  function Received(s: State, p: int, size: int): State {
    if p in s.layout.owned then Passed(s, p, Object) else Adopted(s, p, size)
  }

  lemma ReceivedSound(s: State, p: int, size: int)
    requires Sound(s) && Returnable(s, p, size)
    ensures var s' := Received(s, p, size);
            && Sound(s') && p in s'.layout.owned && s'.layout.owned[p].role == Object
            && size <= s'.layout.owned[p].size
            && forall b :: b in s.layout.owned && b != p ==> b in s'.layout.owned && s'.layout.owned[b] == s.layout.owned[b]
  {
    hide Sound, Foreign;
    if p in s.layout.owned {
      PassedSound(s, p, Object);
    } else {
      AdoptedSound(s, p, size);
    }
  }

  function Returned(s: State, p: int, size: int): State
    requires size >= 16
  {
    Filed(Received(s, p, size), p, size)
  }

  function Filed(s: State, p: int, size: int): State
    requires p in s.layout.owned && size >= 16
  {
    var i := ReturnIndex(size);
    if i >= |s.lists| then
      var m := ClearHeads(CopyHeads(s.mem, p, s.table, |s.lists|), p, |s.lists|, size / 8);
      Retabled(s, p, m, Min(64, size / 8))
    else Given(s, p, i)
  }

  lemma {:induction false} CopiedHeads(m: Memory, p: int, table: int, n: nat, top: int)
    requires 8 * n <= top
    requires forall i :: 0 <= i < n ==> !(p <= table + 8 * i < p + top)
    ensures SameOutside(m, CopyHeads(m, p, table, n), p, p + 8 * n)
    ensures forall i :: 0 <= i < n ==> Load(CopyHeads(m, p, table, n), p + 8 * i) == Load(m, table + 8 * i)
  {
    if n > 0 {
      CopiedHeads(m, p, table, n - 1, top);
      var m' := CopyHeads(m, p, table, n - 1);
      assert Load(m', table + 8 * (n - 1)) == Load(m, table + 8 * (n - 1));
    }
  }

  lemma {:induction false} ClearedHeads(m: Memory, p: int, lo: nat, hi: nat)
    requires lo <= hi
    ensures SameOutside(m, ClearHeads(m, p, lo, hi), p + 8 * lo, p + 8 * hi)
    ensures forall i :: lo <= i < hi ==> Load(ClearHeads(m, p, lo, hi), p + 8 * i) == 0
  {
    if lo < hi {
      ClearedHeads(m, p, lo, hi - 1);
    }
  }

  lemma TableMemory(m: Memory, p: int, table: int, n: nat, hi: nat, size: int)
    requires n <= hi && 8 * hi <= size
    requires forall i :: 0 <= i < n ==> !(p <= table + 8 * i < p + size)
    ensures var m' := ClearHeads(CopyHeads(m, p, table, n), p, n, hi);
            && SameOutside(m, m', p, p + size)
            && (forall i :: 0 <= i < n ==> Load(m', p + 8 * i) == Load(m, table + 8 * i))
            && (forall i :: n <= i < hi ==> Load(m', p + 8 * i) == 0)
  {
    hide CopyHeads, ClearHeads, Load;
    CopiedHeads(m, p, table, n, size);
    ClearedHeads(CopyHeads(m, p, table, n), p, n, hi);
  }

  // An object's region does not meet the table's words.
  lemma TableIsElsewhere(s: State, p: int)
    requires Sound(s)
    requires p in s.layout.owned && s.layout.owned[p].role == Object
    ensures forall i :: 0 <= i < |s.lists| ==> !(p <= s.table + 8 * i < p + s.layout.owned[p].size)
  {
    hide Sound, WellFormed;
    Shape(s);
    forall i | 0 <= i < |s.lists| ensures !(p <= s.table + 8 * i < p + s.layout.owned[p].size) {
      TableWord(s, i);
      PiecesApart(s.layout, Owned(p), Owned(s.table));
    }
  }

  // The array is no longer its client's; everyone else's objects are as they
  // were.
  ghost predicate TakenBack(s: State, s': State, p: int) {
    && p in s'.layout.owned && s'.layout.owned[p].role != Object
    && (forall b :: b in s.layout.owned && b != p ==> b in s'.layout.owned && s'.layout.owned[b] == s.layout.owned[b])
    && ClientsKept(s.mem, s'.mem, s'.layout)
  }

  lemma RecastTakesBack(s: State, s': State, p: int, role: Role)
    requires p in s.layout.owned && role != Object && s'.layout == Recast(s.layout, p, role)
    requires ClientsKept(s.mem, s'.mem, s'.layout)
    ensures TakenBack(s, s', p)
  {
    hide ClientsKept;
  }

  lemma ReturnedSound(s: State, p: int, size: int)
    requires Sound(s) && Returnable(s, p, size)
    ensures Sound(Returned(s, p, size))
    ensures TakenBack(s, Returned(s, p, size), p)
    ensures ReturnIndex(size) < |Returned(s, p, size).lists|
  {
    hide Sound, Foreign, Received, Filed, TakenBack, ClientsKept;
    ReceivedSound(s, p, size);
    var s1 := Received(s, p, size);
    FiledSound(s1, p, size);
    ReceivedFirst(s, p, size, Filed(s1, p, size));
  }

  lemma ReceivedFirst(s: State, p: int, size: int, s': State)
    requires Sound(s) && Returnable(s, p, size) && TakenBack(Received(s, p, size), s', p)
    ensures TakenBack(s, s', p)
  {
    hide Sound, Returnable, ClientsKept, Adopt, Recast;
    ReceivedSound(s, p, size);
  }

  lemma FiledSound(s: State, p: int, size: int)
    requires Sound(s)
    requires p in s.layout.owned && s.layout.owned[p].role == Object
    requires 16 <= size <= s.layout.owned[p].size && size < SIZE_LIMIT
    ensures Sound(Filed(s, p, size))
    ensures TakenBack(s, Filed(s, p, size), p)
    ensures ReturnIndex(size) < |Filed(s, p, size).lists|
  {
    hide Sound, WellFormed, ClientsKept, TakenBack, ClearHeads, CopyHeads, SameOutside, Load, Pow2;
    Shape(s);
    var i := ReturnIndex(size);
    if i >= |s.lists| {
      GrownTableFits(size, |s.lists|);
      TableIsElsewhere(s, p);
      TableMemory(s.mem, p, s.table, |s.lists|, size / 8, s.layout.owned[p].size);
      RetabledSound(s, p, ClearHeads(CopyHeads(s.mem, p, s.table, |s.lists|), p, |s.lists|, size / 8),
                    Min(64, size / 8));
      RecastTakesBack(s, Filed(s, p, size), p, Table);
    } else {
      GivenSound(s, p, i);
      RecastTakesBack(s, Filed(s, p, size), p, Free(i));
    }
  }
}
