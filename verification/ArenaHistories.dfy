// Whole histories of a serial arena: what stays apart after any run of
// operations, and which cleanups run, in which order, when it ends.
module ArenaHistories {
  import opened ArenaLayout
  import opened ArenaMemory
  import opened ArenaSteps
  import opened ArenaRuns
  import opened Arithmetic
  import opened Bits
  import opened SizeClasses

  datatype Op =
    | Allocate(kArray: bool, n: int, at: int)
    | MaybeAllocate(n: int)
    | Register(n: int, node: Node, at: int)
    | Return(p: int, size: int)
    | Write(p: int, w: int, v: int)
    | Lend(p: int)
    | Elsewhere(m: Memory)

  // What callers owe: sizes are multiples of 8, arrays are returned by those
  // who hold them, and clients write whole words of their own objects; `at` is
  // the block allocator's answer. An array may be returned to another serial
  // arena than it came from: then its own arena lends it, and the one that
  // receives it finds it outside all its blocks. Elsewhere is what the rest of
  // the process does to memory between two operations.
  ghost predicate Allowed(s: State, op: Op, policy: Policy) {
    match op
    case Allocate(kArray, n, at) => n >= 0 && n % 8 == 0 && MayGrow(s, n, policy, at)
    case MaybeAllocate(n) => n >= 0 && n % 8 == 0
    case Register(n, node, at) => n >= 0 && n % 8 == 0 && MayGrow(s, n + CLEANUP_SIZE, policy, at)
    case Return(p, size) => Returnable(s, p, size)
    case Write(p, w, v) => WordOf(s.layout, p, w) && s.layout.owned[p].role == Object
    case Lend(p) => p in s.layout.owned && s.layout.owned[p].role == Object
    case Elsewhere(m) => FromElsewhere(s, m)
  }

  function MaybeAllocated(s: State, n: int): State
    requires |s.layout.blocks| > 0
  {
    if n <= Room(s.layout) then Bumped(s, n) else s
  }

  ghost function Step(s: State, op: Op, policy: Policy): (s': State)
    requires Sound(s) && Allowed(s, op, policy)
  {
    FrontsAreOwned(s);
    Shape(s);
    match op
    case Allocate(kArray, n, at) => Allocated(s, kArray, n, policy, at)
    case MaybeAllocate(n) => MaybeAllocated(s, n)
    case Register(n, node, at) => Registered(s, n, node, policy, at)
    case Return(p, size) => Returned(s, p, size)
    case Write(p, w, v) => s.(mem := s.mem[w := v])
    case Lend(p) => Passed(s, p, Lent)
    case Elsewhere(m) => s.(mem := m)
  }

  lemma StepSound(s: State, op: Op, policy: Policy)
    requires Sound(s) && Allowed(s, op, policy)
    ensures Sound(Step(s, op, policy))
  {
    hide Sound, WellFormed, MayGrow, Allocated, Registered, Returned, Returnable, FrontsOwned, ClientsKept, FromElsewhere,
      HandedOut, TakenBack, HeadersHold, NodesHold, FreeHold, OthersSame, Passed, Bumped;
    FrontsAreOwned(s);
    Shape(s);
    match op
    case Allocate(kArray, n, at) => AllocatedIsExclusive(s, kArray, n, policy, at);
    case MaybeAllocate(n) => if n <= Room(s.layout) { BumpedSound(s, n); }
    case Register(n, node, at) => RegisteredIsExclusive(s, n, node, policy, at);
    case Return(p, size) => ReturnedSound(s, p, size);
    case Write(p, w, v) => ObjectStore(s, p, w, v);
    case Lend(p) => PassedSound(s, p, Lent);
    case Elsewhere(m) => ElsewhereSound(s, m);
  }

  ghost predicate AllowedRun(s: State, ops: seq<Op>, policy: Policy)
    requires Sound(s)
    decreases |ops|
  {
    ops == [] || (Allowed(s, ops[0], policy) && (StepSound(s, ops[0], policy); AllowedRun(Step(s, ops[0], policy), ops[1..], policy)))
  }

  ghost function Final(s: State, ops: seq<Op>, policy: Policy): State
    requires Sound(s) && AllowedRun(s, ops, policy)
    decreases |ops|
  {
    if ops == [] then s else
    StepSound(s, ops[0], policy);
    Final(Step(s, ops[0], policy), ops[1..], policy)
  }

  // ---------- the nodes pending ----------

  // The order in which blocks and their nodes are visited, the newest block
  // first.
  function RunOrder(run: seq<seq<Node>>): seq<Node> {
    if |run| == 0 then [] else run[|run| - 1] + RunOrder(run[..|run| - 1])
  }

  function NodesOfStep(op: Op): seq<Node> {
    if op.Register? then [op.node] else []
  }

  // The nodes a run registers, in order.
  function NodesOf(ops: seq<Op>): seq<Node> {
    if ops == [] then [] else NodesOfStep(ops[0]) + NodesOf(ops[1..])
  }

  function Reversed(s: seq<Node>): (r: seq<Node>)
    ensures |r| == |s|
  {
    if s == [] then [] else Reversed(s[1..]) + [s[0]]
  }

  lemma RunOrderSplit(run: seq<seq<Node>>, r: seq<Node>)
    ensures RunOrder(run + [r]) == r + RunOrder(run)
  {
    assert (run + [r])[..|run|] == run;
  }

  lemma NothingPending()
    ensures RunOrder([[]]) == []
  {
    var none: seq<seq<Node>> := [];
    RunOrderSplit(none, []);
    assert none + [[]] == [[]];
  }

  // A run's latest node comes first, in whichever block it lies.
  lemma RegisteredRunOrder(s: State, n: int, node: Node, policy: Policy, at: int)
    requires |s.layout.blocks| == |s.run| > 0
    ensures RunOrder(Registered(s, n, node, policy, at).run) == [node] + RunOrder(s.run)
  {
    hide RunOrder;
    var s1 := Fitted(s, n + CLEANUP_SIZE, policy, at);
    RunOrderSplit(s.run, []);
    assert RunOrder(s1.run) == RunOrder(s.run);
    var last := |s1.run| - 1;
    var older, newest := s1.run[..last], s1.run[last];
    assert s1.run == older + [newest];
    var run' := Registered(s, n, node, policy, at).run;
    assert run' == older + [[node] + newest] by {
      assert run'[last] == [node] + newest;
    }
    RunOrderSplit(older, newest);
    RunOrderSplit(older, [node] + newest);
    assert [node] + newest + RunOrder(older) == [node] + (newest + RunOrder(older));
  }

  lemma AllocatedRunOrder(s: State, kArray: bool, n: int, policy: Policy, at: int)
    requires |s.layout.blocks| > 0 && FrontsOwned(s)
    ensures RunOrder(Allocated(s, kArray, n, policy, at).run) == RunOrder(s.run)
  {
    hide RunOrder, FrontsOwned, FromList, Load;
    RunOrderSplit(s.run, []);
    assert [] + RunOrder(s.run) == RunOrder(s.run);
  }

  lemma ReturnedBlocks(s: State, p: int, size: int)
    requires size >= 16
    ensures Returned(s, p, size).run == s.run && Returned(s, p, size).layout.blocks == s.layout.blocks
  {
    hide Load, CopyHeads, ClearHeads, Resized;
  }

  lemma StepRunOrder(s: State, op: Op, policy: Policy)
    requires Sound(s) && Allowed(s, op, policy)
    ensures RunOrder(Step(s, op, policy).run) == NodesOfStep(op) + RunOrder(s.run)
  {
    hide Sound, WellFormed, HeadersHold, NodesHold, FreeHold, MayGrow, FrontsOwned, Allocated, Registered, Returned, RunOrder,
      FromElsewhere, Load;
    Shape(s);
    FrontsAreOwned(s);
    match op
    case Allocate(kArray, n, at) => AllocatedRunOrder(s, kArray, n, policy, at);
    case Register(n, node, at) => RegisteredRunOrder(s, n, node, policy, at);
    case Return(p, size) => ReturnedBlocks(s, p, size);
    case MaybeAllocate(n) =>
    case Write(p, w, v) =>
    case Lend(p) =>
    case Elsewhere(m) =>
  }

  lemma {:induction false} RunKeepsOrder(s: State, ops: seq<Op>, policy: Policy)
    requires Sound(s) && AllowedRun(s, ops, policy)
    ensures Sound(Final(s, ops, policy))
    ensures RunOrder(Final(s, ops, policy).run) == Reversed(NodesOf(ops)) + RunOrder(s.run)
    decreases |ops|
  {
    hide Sound, Step, Allowed, RunOrder, NodesOf, NodesOfStep, Reversed;
    if ops != [] {
      StepSound(s, ops[0], policy);
      var s1 := Step(s, ops[0], policy);
      RunKeepsOrder(s1, ops[1..], policy);
      StepRunOrder(s, ops[0], policy);
      ReversedNodes(ops);
      Associate(Reversed(NodesOf(ops[1..])), NodesOfStep(ops[0]), RunOrder(s.run));
    } else {
      NoNodes();
      assert [] + RunOrder(s.run) == RunOrder(s.run);
    }
  }

  lemma NoNodes()
    ensures Reversed(NodesOf([])) == []
  {
  }

  lemma {:induction false} ReversedNodes(ops: seq<Op>)
    requires ops != []
    ensures Reversed(NodesOf(ops)) == Reversed(NodesOf(ops[1..])) + NodesOfStep(ops[0])
  {
    var rest := NodesOf(ops[1..]);
    if ops[0].Register? {
      assert ([ops[0].node] + rest)[1..] == rest;
    } else {
      assert [] + rest == rest;
      assert Reversed(rest) + [] == Reversed(rest);
    }
  }

  lemma {:induction false} Associate(x: seq<Node>, y: seq<Node>, z: seq<Node>)
    ensures (x + y) + z == x + (y + z)
  {
  }

  // ---------- any run from a new arena ----------

  ghost predicate FirstBlockAt(base: int, size: int) {
    base > 0 && base % 8 == 0 && size >= HEADER_SIZE + ARENA_SIZE
  }

  // A new arena in its first block, at base.
  function Initial(m: Memory, base: int, size: int): (s: State)
    requires FirstBlockAt(base, size)
    ensures Sound(s)
  {
    FirstBlockForm(base, size);
    State(m[base := 0][base + 8 := size][base + 16 := 0],
          Layout([FirstBlock(base, size)], base + HEADER_SIZE + ARENA_SIZE, map[]), [[]], [], 0)
  }

  lemma InitialParts(m: Memory, base: int, size: int)
    requires FirstBlockAt(base, size)
    ensures var s := Initial(m, base, size);
            s.run == [[]] && s.layout.blocks == [FirstBlock(base, size)] && s.layout.owned == map[]
  {
    hide Sound;
  }

  // Whatever callers do, the block headers, the arena object, the cleanup
  // nodes, the objects handed out, the arrays kept for reuse and the tables
  // of free lists are apart, each inside one block, or outside all of them
  // if it is an array of another serial arena; all but cleanup nodes are
  // 8-aligned; and the next allocation starts at or below the latest node.
  lemma EveryRunKeepsApart(m: Memory, base: int, size: int, ops: seq<Op>, policy: Policy, p: Piece, q: Piece)
    requires FirstBlockAt(base, size) && AllowedRun(Initial(m, base, size), ops, policy)
    requires var l := Final(Initial(m, base, size), ops, policy).layout;
             IsPiece(l, p) && IsPiece(l, q) && p != q
    ensures var l := Final(Initial(m, base, size), ops, policy).layout;
            && Apart(Lo(l, p), Hi(l, p), Lo(l, q), Hi(l, q))
            && (match HomeOf(l, p)
                case In(k) =>
                  k < |l.blocks| && l.blocks[k].base <= Lo(l, p) < Hi(l, p) <= l.blocks[k].base + l.blocks[k].size
                case Abroad => p.Owned? && Lo(l, p) < Hi(l, p) && OutsideAll(Lo(l, p), Hi(l, p), l.blocks))
            && (p.CleanupNode? || Lo(l, p) % 8 == 0)
            && |l.blocks| > 0 && l.ptr % 8 == 0 && Room(l) >= 0
  {
    hide Sound, WellFormed, Final, AllowedRun, Initial, OutsideAll;
    RunKeepsOrder(Initial(m, base, size), ops, policy);
    var l := Final(Initial(m, base, size), ops, policy).layout;
    Shape(Final(Initial(m, base, size), ops, policy));
    PiecesApart(l, p, q);
    if HomeOf(l, p).In? {
      PieceInBlock(l, p);
    } else {
      PieceAbroad(l, p);
    }
    if !p.CleanupNode? {
      PieceAligned(l, p);
    }
    PtrIsAligned(l);
    HasRoom(l);
  }

  lemma HasRoom(l: Layout)
    requires WellFormed(l) && |l.blocks| > 0
    ensures Room(l) >= 0
  {
    hide EachBlockOk, BlocksApart, InPlace, RegionsApart, Aligned;
  }

  predicate LeavesAlone(op: Op, p: int) {
    (op.Return? || op.Write? || op.Lend?) ==> op.p != p
  }

  ghost predicate HasObject(s: State, p: int, r: Region) {
    p in s.layout.owned && s.layout.owned[p] == r && r.role == Object
  }

  lemma HandedOutKeeps(s: State, s': State, a: int, n: int, p: int, r: Region, w: int)
    requires HandedOut(s, s', a, n) && HasObject(s, p, r) && p <= w < p + r.size
    ensures HasObject(s', p, r) && Load(s'.mem, w) == Load(s.mem, w)
  {
  }

  lemma TakenBackKeeps(s: State, s': State, q: int, p: int, r: Region, w: int)
    requires TakenBack(s, s', q) && q != p && HasObject(s, p, r) && p <= w < p + r.size
    ensures HasObject(s', p, r) && Load(s'.mem, w) == Load(s.mem, w)
  {
  }

  lemma StepKeepsObject(s: State, op: Op, policy: Policy, p: int, r: Region, w: int)
    requires Sound(s) && Allowed(s, op, policy)
    requires HasObject(s, p, r) && p <= w < p + r.size && LeavesAlone(op, p)
    ensures HasObject(Step(s, op, policy), p, r)
    ensures Load(Step(s, op, policy).mem, w) == Load(s.mem, w)
  {
    hide Sound, WellFormed, HeadersHold, NodesHold, FreeHold, MayGrow, FrontsOwned, Allocated, AllocatedAt, Registered,
      Returned, Foreign, OthersSame, Load, HandedOut, TakenBack, Fitted, FromElsewhere;
    Shape(s);
    FrontsAreOwned(s);
    match op
    case Allocate(kArray, n, at) =>
      AllocatedIsExclusive(s, kArray, n, policy, at);
      HandedOutKeeps(s, Allocated(s, kArray, n, policy, at), AllocatedAt(s, kArray, n, policy, at), n, p, r, w);
    case MaybeAllocate(n) => if n <= Room(s.layout) { BumpedSound(s, n); }
    case Register(n, node, at) =>
      RegisteredIsExclusive(s, n, node, policy, at);
      HandedOutKeeps(s, Registered(s, n, node, policy, at), Fitted(s, n + CLEANUP_SIZE, policy, at).layout.ptr, n, p, r, w);
    case Return(q, size) =>
      ReturnedSound(s, q, size);
      TakenBackKeeps(s, Returned(s, q, size), q, p, r, w);
    case Write(q, v, x) =>
      ObjectStore(s, q, v, x);
      PieceKept(s.layout, Owned(q), Owned(p), s.mem, s.mem[v := x], w);
    case Lend(q) =>
    case Elsewhere(m) => ElsewhereSound(s, m);
  }

  // An object keeps its place and its words through any run in which its
  // holder neither writes nor returns it, here or elsewhere.
  lemma {:induction false} ObjectsSurviveRuns(s: State, ops: seq<Op>, policy: Policy, p: int, r: Region, w: int)
    requires Sound(s) && AllowedRun(s, ops, policy)
    requires HasObject(s, p, r) && p <= w < p + r.size
    requires forall op :: op in ops ==> LeavesAlone(op, p)
    ensures HasObject(Final(s, ops, policy), p, r)
    ensures Load(Final(s, ops, policy).mem, w) == Load(s.mem, w)
    decreases |ops|
  {
    hide Sound, Step, Allowed, HasObject, Load, LeavesAlone;
    if ops != [] {
      StepSound(s, ops[0], policy);
      StepKeepsObject(s, ops[0], policy, p, r, w);
      ObjectsSurviveRuns(Step(s, ops[0], policy), ops[1..], policy, p, r, w);
    }
  }

  // ---------- reuse ----------

  // An object that is no array never comes from a list, whatever has been
  // returned.
  lemma ObjectsAreBumped(s: State, n: int, policy: Policy, at: int)
    requires |s.layout.blocks| > 0
    ensures AllocatedAt(s, false, n, policy, at) == if n <= Room(s.layout) then s.layout.ptr else at + 24
  {
    hide BlockSize, Load;
  }

  // An array that has been filed is the next one handed out for an array of
  // its class, and no new memory is used; requests of other classes are
  // answered as they would have been.
  lemma ReturnedIsServed(s: State, p: int, size: int, n: int, policy: Policy, at: int)
    requires Sound(s) && Returnable(s, p, size) && ReturnIndex(size) < |s.lists| && n >= 16
    ensures |s.layout.blocks| > 0
    ensures var i, s' := ReturnIndex(size), Returned(s, p, size);
            && |s'.layout.blocks| > 0 && FrontsOwned(s')
            && (Pow2(i + 3) < n <= Pow2(i + 4) ==>
                  && n <= size && AllocatedAt(s', true, n, policy, at) == p
                  && Allocated(s', true, n, policy, at).layout.blocks == s.layout.blocks
                  && Allocated(s', true, n, policy, at).layout.ptr == s.layout.ptr
                  && Allocated(s', true, n, policy, at).lists == s.lists)
            && (RequestIndex(n) != i ==> AllocatedAt(s', true, n, policy, at) == AllocatedAt(s, true, n, policy, at))
  {
    hide Sound, WellFormed, HeadersHold, NodesHold, FreeHold, Foreign, Pow2, RequestIndex, ReturnIndex, Returned,
      Allocated, AllocatedAt, FrontsOwned, TakenBack;
    var i, s' := ReturnIndex(size), Returned(s, p, size);
    Shape(s);
    ReturnedSound(s, p, size);
    Shape(s');
    FrontsAreOwned(s');
    ReturnedFirst(s, p, size);
    if Pow2(i + 3) < n <= Pow2(i + 4) {
      RequestIs(n, i);
      TakenBackAgain(s, s', p, i, n, policy, at);
    } else if RequestIndex(n) != i {
      OtherClass(s, s', p, i, n, policy, at);
    }
  }

  lemma TakenBackAgain(s: State, s': State, p: int, i: nat, n: int, policy: Policy, at: int)
    requires |s'.layout.blocks| > 0 && FrontsOwned(s') && i < |s.lists| && n >= 16 && RequestIndex(n) == i
    requires s'.lists == s.lists[i := [p] + s.lists[i]]
    ensures AllocatedAt(s', true, n, policy, at) == p
    ensures var s2 := Allocated(s', true, n, policy, at);
            s2.layout.blocks == s'.layout.blocks && s2.layout.ptr == s'.layout.ptr && s2.lists == s.lists
  {
    hide RequestIndex, Load, Fitted, Bumped;
    assert ([p] + s.lists[i])[1..] == s.lists[i];
    assert FrontsOwned(s') && s'.lists[i][0] in s'.layout.owned;
    assert s'.lists[i := s.lists[i]] == s.lists;
  }

  lemma OtherClass(s: State, s': State, p: int, i: nat, n: int, policy: Policy, at: int)
    requires |s.layout.blocks| > 0 && i < |s.lists| && n >= 16 && RequestIndex(n) != i
    requires s'.lists == s.lists[i := [p] + s.lists[i]]
    requires s'.layout.blocks == s.layout.blocks && s'.layout.ptr == s.layout.ptr
    ensures AllocatedAt(s', true, n, policy, at) == AllocatedAt(s, true, n, policy, at)
  {
    hide RequestIndex, BlockSize;
  }

  lemma ReturnedFirst(s: State, p: int, size: int)
    requires size >= 16 && ReturnIndex(size) < |s.lists|
    ensures var s' := Returned(s, p, size);
            && s'.lists == s.lists[ReturnIndex(size) := [p] + s.lists[ReturnIndex(size)]]
            && s'.layout.blocks == s.layout.blocks && s'.layout.ptr == s.layout.ptr
  {
    hide ReturnIndex, Load;
  }

  // ---------- several serial arenas ----------

  // The word lies in a piece the arena has and has not lent.
  ghost predicate InOwnPiece(l: Layout, w: int) {
    exists p: Piece :: IsPiece(l, p) && !IsLent(l, p) && Lo(l, p) <= w < Hi(l, p)
  }

  ghost predicate WritesOnlyOwn(m0: Memory, m1: Memory, l: Layout) {
    forall w :: Load(m1, w) != Load(m0, w) ==> InOwnPiece(l, w)
  }

  lemma OwnWord(l: Layout, p: Piece, w: int)
    requires IsPiece(l, p) && !IsLent(l, p) && Lo(l, p) <= w < Hi(l, p)
    ensures InOwnPiece(l, w)
  {
  }

  lemma OneWordWritten(m: Memory, l: Layout, p: Piece, w: int, v: int)
    requires IsPiece(l, p) && !IsLent(l, p) && Lo(l, p) <= w < Hi(l, p)
    ensures WritesOnlyOwn(m, m[w := v], l)
  {
    hide IsLent, InOwnPiece;
    OwnWord(l, p, w);
  }

  lemma WrittenTwice(m0: Memory, m1: Memory, m2: Memory, l: Layout)
    requires WritesOnlyOwn(m0, m1, l) && WritesOnlyOwn(m1, m2, l)
    ensures WritesOnlyOwn(m0, m2, l)
  {
    hide InOwnPiece, Load;
  }

  // Another layout with the same block headers.
  predicate SameBases(l: Layout, l': Layout) {
    && |l.blocks| == |l'.blocks|
    && forall k :: 0 <= k < |l.blocks| ==> l.blocks[k].base == l'.blocks[k].base
  }

  lemma GrownWrites(s: State, base: int, size: int, l: Layout)
    requires |s.layout.blocks| > 0 && SameBases(Grown(s, base, size).layout, l)
    ensures WritesOnlyOwn(s.mem, Grown(s, base, size).mem, l)
  {
    hide InOwnPiece, WritesOnlyOwn;
    var last, newest := |s.layout.blocks| - 1, Newest(s.layout);
    assert AddBlock(s.layout, base, size).blocks[last].base == newest.base;
    assert AddBlock(s.layout, base, size).blocks[last + 1].base == base;
    var m1 := s.mem[newest.base + 16 := newest.start];
    OneWordWritten(s.mem, l, Header(last), newest.base + 16, newest.start);
    OneWordWritten(m1, l, Header(last + 1), base, newest.base);
    var m2 := m1[base := newest.base];
    OneWordWritten(m2, l, Header(last + 1), base + 8, size);
    var m3 := m2[base + 8 := size];
    OneWordWritten(m3, l, Header(last + 1), base + 16, 0);
    WrittenTwice(s.mem, m1, m2, l);
    WrittenTwice(s.mem, m2, m3, l);
    WrittenTwice(s.mem, m3, m3[base + 16 := 0], l);
  }

  lemma FittedWrites(s: State, n: int, policy: Policy, at: int, l: Layout)
    requires |s.layout.blocks| > 0 && SameBases(Fitted(s, n, policy, at).layout, l)
    ensures WritesOnlyOwn(s.mem, Fitted(s, n, policy, at).mem, l)
  {
    hide InOwnPiece, Grown, BlockSize, SameBases;
    if n > Room(s.layout) {
      GrownWrites(s, at, BlockSize(policy, Newest(s.layout).size, n), l);
    }
  }

  lemma AllocatedWrites(s: State, kArray: bool, n: int, policy: Policy, at: int)
    requires Sound(s) && |s.layout.blocks| > 0 && FrontsOwned(s)
    ensures WritesOnlyOwn(s.mem, Allocated(s, kArray, n, policy, at).mem, Allocated(s, kArray, n, policy, at).layout)
  {
    hide Sound, WellFormed, WritesOnlyOwn, Load, Front, ListHolds, FrontsOwned, Fitted;
    var s' := Allocated(s, kArray, n, policy, at);
    if FromList(s, kArray, n) {
      var i := RequestIndex(n);
      TakenSound(s, i);
      TableWord(s, i);
      OneWordWritten(s.mem, s'.layout, Owned(s.table), s.table + 8 * i, Load(s.mem, s.lists[i][0]));
    } else {
      FittedWrites(s, n, policy, at, s'.layout);
    }
  }

  lemma RegisteredWrites(s: State, n: int, node: Node, policy: Policy, at: int)
    requires Sound(s) && n >= 0 && n % 8 == 0 && MayGrow(s, n + CLEANUP_SIZE, policy, at)
    requires |s.layout.blocks| == |s.run| > 0
    ensures WritesOnlyOwn(s.mem, Registered(s, n, node, policy, at).mem, Registered(s, n, node, policy, at).layout)
  {
    hide Sound, WellFormed, WritesOnlyOwn, HandedOut, NodeAt, BlockSize, MayGrow, Load;
    var s1, s' := WithCleanup(s, n, policy, at), Registered(s, n, node, policy, at);
    WithCleanupIsExclusive(s, n, policy, at);
    FittedWrites(s, n + CLEANUP_SIZE, policy, at, s'.layout);
    NewestNode(s1);
    var w, p := Newest(s'.layout).start, CleanupNode(|s'.layout.blocks| - 1, 0);
    OneWordWritten(s1.mem, s'.layout, p, w, node.elem);
    OneWordWritten(s1.mem[w := node.elem], s'.layout, p, w + 8, node.cleanup);
    WrittenTwice(s.mem, s1.mem, s1.mem[w := node.elem], s'.layout);
    WrittenTwice(s.mem, s1.mem[w := node.elem], s'.mem, s'.layout);
  }

  lemma ReturnedWrites(s: State, p: int, size: int)
    requires Sound(s) && Returnable(s, p, size)
    ensures WritesOnlyOwn(s.mem, Returned(s, p, size).mem, Returned(s, p, size).layout)
  {
    hide Sound, Foreign, WritesOnlyOwn;
    ReceivedSound(s, p, size);
    FiledWrites(Received(s, p, size), p, size);
  }

  lemma FiledWrites(s: State, p: int, size: int)
    requires Sound(s) && p in s.layout.owned && s.layout.owned[p].role == Object
    requires 16 <= size <= s.layout.owned[p].size && size < SIZE_LIMIT
    ensures WritesOnlyOwn(s.mem, Filed(s, p, size).mem, Filed(s, p, size).layout)
  {
    hide Sound, WritesOnlyOwn, CopyHeads, ClearHeads, Load, Front, ListHolds, InOwnPiece, SameOutside;
    var i, s' := ReturnIndex(size), Filed(s, p, size);
    if i >= |s.lists| {
      GrownTableFits(size, |s.lists|);
      TableIsElsewhere(s, p);
      TableMemory(s.mem, p, s.table, |s.lists|, size / 8, s.layout.owned[p].size);
      RegionWritten(s.mem, s'.mem, s'.layout, p);
    } else {
      TableWord(s, i);
      var w, v := s.table + 8 * i, Load(s.mem, s.table + 8 * i);
      OneWordWritten(s.mem, s'.layout, Owned(p), p, v);
      OneWordWritten(s.mem[p := v], s'.layout, Owned(s.table), w, p);
      WrittenTwice(s.mem, s.mem[p := v], s'.mem, s'.layout);
    }
  }

  lemma RegionWritten(m0: Memory, m1: Memory, l: Layout, p: int)
    requires p in l.owned && l.owned[p].role != Lent && SameOutside(m0, m1, p, p + l.owned[p].size)
    ensures WritesOnlyOwn(m0, m1, l)
  {
    hide Load, InOwnPiece;
    forall w | Load(m1, w) != Load(m0, w) ensures InOwnPiece(l, w) {
      OwnWord(l, Owned(p), w);
    }
  }

  // A serial arena and its clients write only words of pieces it has and has
  // not lent.
  lemma StepWritesOnlyOwn(s: State, op: Op, policy: Policy)
    requires Sound(s) && Allowed(s, op, policy) && !op.Elsewhere?
    ensures WritesOnlyOwn(s.mem, Step(s, op, policy).mem, Step(s, op, policy).layout)
  {
    hide Sound, WellFormed, HeadersHold, NodesHold, FreeHold, MayGrow, FrontsOwned, Allocated, Registered, Returned, Returnable,
      Load, InOwnPiece;
    Shape(s);
    FrontsAreOwned(s);
    match op
    case Allocate(kArray, n, at) => AllocatedWrites(s, kArray, n, policy, at);
    case MaybeAllocate(n) =>
    case Register(n, node, at) => RegisteredWrites(s, n, node, policy, at);
    case Return(p, size) => ReturnedWrites(s, p, size);
    case Write(p, w, v) => OneWordWritten(s.mem, s.layout, Owned(p), w, v);
    case Lend(p) =>
  }

  // So whatever one of two arenas in the same memory does is, to the other,
  // something that happens elsewhere, as long as their pieces have no word in
  // common.
  lemma SiblingsDoNotDisturb(s: State, op: Op, policy: Policy, other: State)
    requires Sound(s) && Allowed(s, op, policy) && !op.Elsewhere?
    requires other.mem == s.mem
    requires forall w :: !(InOwnPiece(Step(s, op, policy).layout, w) && InOwnPiece(other.layout, w))
    ensures Allowed(other, Elsewhere(Step(s, op, policy).mem), policy)
  {
    hide Sound, Step, Load;
    var s' := Step(s, op, policy);
    StepWritesOnlyOwn(s, op, policy);
    forall q: Piece, w | IsPiece(other.layout, q) && !IsLent(other.layout, q) && Lo(other.layout, q) <= w < Hi(other.layout, q)
      ensures Load(s'.mem, w) == Load(other.mem, w)
    {
      OwnWord(other.layout, q, w);
    }
  }

  // ---------- the end of an arena ----------

  // CleanupList rounds the top of every block down, so a single node below an
  // unrounded top is not seen.
  predicate Overlooked(blocks: seq<Block>, run: seq<seq<Node>>, k: nat)
    requires k < |blocks| == |run|
  {
    k > 0 && blocks[k].size % 8 != 0 && |run[k]| == 1
  }

  // What CleanupList runs, in order.
  function CleanupLog(blocks: seq<Block>, run: seq<seq<Node>>): seq<Node>
    requires |blocks| == |run|
  {
    if |run| == 0 then [] else
    var last := |run| - 1;
    (if Overlooked(blocks, run, last) then [] else run[last]) + CleanupLog(blocks[..last], run[..last])
  }

  lemma {:induction false} LogIsShorter(blocks: seq<Block>, run: seq<seq<Node>>)
    requires |blocks| == |run|
    ensures |CleanupLog(blocks, run)| <= |RunOrder(run)|
    ensures |CleanupLog(blocks, run)| == |RunOrder(run)| ==>
              forall k :: 0 <= k < |run| ==> !Overlooked(blocks, run, k)
    ensures (forall k :: 0 <= k < |run| ==> !Overlooked(blocks, run, k)) ==>
              CleanupLog(blocks, run) == RunOrder(run)
    decreases |run|
  {
    if |run| > 0 {
      var last := |run| - 1;
      var blocks', run' := blocks[..last], run[..last];
      LogIsShorter(blocks', run');
      forall k | 0 <= k < last ensures Overlooked(blocks', run', k) == Overlooked(blocks, run, k) {
      }
    }
  }

  // After any run, the cleanups that run are exactly those registered, each
  // once and in the reverse of their order, if and only if no later block
  // has both a size that is no multiple of 8 and a single cleanup node.
  lemma CleanupsAreExact(m: Memory, base: int, size: int, ops: seq<Op>, policy: Policy)
    requires FirstBlockAt(base, size) && AllowedRun(Initial(m, base, size), ops, policy)
    ensures var s := Final(Initial(m, base, size), ops, policy);
            && |s.layout.blocks| == |s.run|
            && (CleanupLog(s.layout.blocks, s.run) == Reversed(NodesOf(ops)) <==>
                forall k :: 0 <= k < |s.run| ==> !Overlooked(s.layout.blocks, s.run, k))
  {
    hide Sound, Final, AllowedRun, Initial, RunOrder, NodesOf, Reversed, CleanupLog, Overlooked;
    var s0 := Initial(m, base, size);
    RunKeepsOrder(s0, ops, policy);
    var s := Final(s0, ops, policy);
    assert RunOrder(s0.run) == [] by {
      InitialParts(m, base, size);
      NothingPending();
    }
    Shape(s);
    LogIsShorter(s.layout.blocks, s.run);
    assert Reversed(NodesOf(ops)) + [] == Reversed(NodesOf(ops));
  }

  // ---------- how blocks grow ----------

  // The bytes an operation asks the newest block for.
  function Asked(op: Op): int
    requires op.Allocate? || op.Register?
  {
    if op.Allocate? then op.n else op.n + CLEANUP_SIZE
  }

  // size is what the policy gives after a block of size last when n bytes do
  // not fit: they fit, with a header; it is at least twice the last size or
  // the policy's largest; and it exceeds neither of the two unless the bytes
  // asked for demand it.
  predicate GrowsAsAsked(policy: Policy, last: int, n: int, size: int) {
    && size >= HEADER_SIZE + n
    && (size >= 2 * last || size >= policy.maxBlockSize)
    && (size <= 2 * last || size == HEADER_SIZE + n)
    && (size <= policy.maxBlockSize || size == HEADER_SIZE + n)
  }

  lemma NextBlockSize(policy: Policy, last: int, n: int)
    requires last != 0
    ensures GrowsAsAsked(policy, last, n, BlockSize(policy, last, n))
  {
  }

  // A thread's new serial arena begins with a block of the policy's start
  // size, or of the size it needs if that is more.
  lemma NewArenaBlockSize(policy: Policy)
    ensures var size := BlockSize(policy, 0, ARENA_SIZE);
            && size >= policy.startBlockSize && size >= 104
            && (size == policy.startBlockSize || size == 104)
            && forall base :: base > 0 && base % 8 == 0 ==> FirstBlockAt(base, size)
  {
  }

  // Under the default policy blocks double from 256 to 8192 bytes and stay
  // there, but for larger requests.
  lemma DefaultSizes(n: int)
    requires 0 <= n
    ensures var p := Policy(256, 8192);
            && (n <= 232 ==> BlockSize(p, 0, n) == 256) && (n <= 488 ==> BlockSize(p, 256, n) == 512)
            && (n <= 8168 ==> BlockSize(p, 4096, n) == 8192 && BlockSize(p, 8192, n) == 8192)
            && (n > 8168 ==> BlockSize(p, 8192, n) == n + 24)
  {
  }

  // No block shrinks, grows or goes in a step; a new one may come.
  ghost predicate SizesStay(blocks: seq<Block>, blocks': seq<Block>) {
    |blocks| <= |blocks'| && forall k :: 0 <= k < |blocks| ==> blocks'[k].size == blocks[k].size
  }

  // The blocks of l' are those of l and at most one more, which came because
  // op asked for more than there was room for, and grew as op asked.
  ghost predicate OneMoreBlock(policy: Policy, op: Op, l: Layout, l': Layout) {
    var blocks, blocks' := l.blocks, l'.blocks;
    && SizesStay(blocks, blocks')
    && (|blocks'| != |blocks| ==>
          && 0 < |blocks| == |blocks'| - 1 && (op.Allocate? || op.Register?) && Asked(op) > Room(l)
          && GrowsAsAsked(policy, blocks[|blocks| - 1].size, Asked(op), blocks'[|blocks|].size))
  }

  lemma FittedSizes(s: State, n: int, policy: Policy, at: int)
    requires Sound(s) && |s.layout.blocks| > 0
    ensures var blocks, blocks' := s.layout.blocks, Fitted(s, n, policy, at).layout.blocks;
            && SizesStay(blocks, blocks') && |blocks'| <= |blocks| + 1
            && (|blocks'| > |blocks| ==> n > Room(s.layout) && GrowsAsAsked(policy, blocks[|blocks| - 1].size, n, blocks'[|blocks|].size))
  {
    hide Sound, WellFormed, BlockSize, GrowsAsAsked;
    Shape(s);
    BlockHasSize(s.layout, |s.layout.blocks| - 1);
    NextBlockSize(policy, Newest(s.layout).size, n);
  }

  lemma StepBlocks(s: State, op: Op, policy: Policy)
    requires Sound(s) && Allowed(s, op, policy)
    ensures OneMoreBlock(policy, op, s.layout, Step(s, op, policy).layout)
  {
    hide Sound, WellFormed, HeadersHold, NodesHold, FreeHold, MayGrow, FrontsOwned, Returned, Fitted, FromElsewhere, Load,
      GrowsAsAsked, FromList, NodeAt;
    Shape(s);
    FrontsAreOwned(s);
    match op
    case Allocate(kArray, n, at) => FittedSizes(s, n, policy, at);
    case Register(n, node, at) =>
      FittedSizes(s, n + CLEANUP_SIZE, policy, at);
      RegisteredSizes(s, n, node, policy, at);
    case Return(p, size) => ReturnedBlocks(s, p, size);
    case MaybeAllocate(n) =>
    case Write(p, w, v) =>
    case Lend(p) =>
    case Elsewhere(m) =>
  }

  lemma RegisteredSizes(s: State, n: int, node: Node, policy: Policy, at: int)
    requires |s.layout.blocks| == |s.run| > 0
    ensures var blocks := Fitted(s, n + CLEANUP_SIZE, policy, at).layout.blocks;
            SizesStay(blocks, Registered(s, n, node, policy, at).layout.blocks)
            && |Registered(s, n, node, policy, at).layout.blocks| == |blocks|
  {
    hide BlockSize, NodeAt;
  }

  // Block k of a run's last state that was not there at first has the size
  // some operation of the run called for.
  lemma {:induction false} BlocksGrowAsAsked(s: State, ops: seq<Op>, policy: Policy, k: nat)
    requires Sound(s) && AllowedRun(s, ops, policy)
    requires 0 < |s.layout.blocks| <= k < |Final(s, ops, policy).layout.blocks|
    ensures var blocks := Final(s, ops, policy).layout.blocks;
            exists i :: 0 <= i < |ops| && (ops[i].Allocate? || ops[i].Register?) &&
                        GrowsAsAsked(policy, blocks[k - 1].size, Asked(ops[i]), blocks[k].size)
    decreases |ops|
  {
    hide Sound, Step, Allowed, GrowsAsAsked, Asked;
    if ops != [] {
      StepSound(s, ops[0], policy);
      StepBlocks(s, ops[0], policy);
      var s1 := Step(s, ops[0], policy);
      RunKeepsSizes(s1, ops[1..], policy);
      if k < |s1.layout.blocks| {
        assert k == |s.layout.blocks|;
      } else {
        BlocksGrowAsAsked(s1, ops[1..], policy, k);
        var blocks := Final(s, ops, policy).layout.blocks;
        var i :| 0 <= i < |ops[1..]| && (ops[1..][i].Allocate? || ops[1..][i].Register?) &&
                 GrowsAsAsked(policy, blocks[k - 1].size, Asked(ops[1..][i]), blocks[k].size);
        assert ops[i + 1] == ops[1..][i];
      }
    }
  }

  lemma {:induction false} RunKeepsSizes(s: State, ops: seq<Op>, policy: Policy)
    requires Sound(s) && AllowedRun(s, ops, policy)
    ensures SizesStay(s.layout.blocks, Final(s, ops, policy).layout.blocks)
    decreases |ops|
  {
    hide Sound, Step, Allowed, GrowsAsAsked, Asked;
    if ops != [] {
      StepSound(s, ops[0], policy);
      StepBlocks(s, ops[0], policy);
      RunKeepsSizes(Step(s, ops[0], policy), ops[1..], policy);
    }
  }

  // After any run from a new arena, every block but the first has a size that
  // exceeds the policy's largest only if as many bytes were asked for at
  // once, and that has doubled or reached the policy's largest.
  lemma BlockSizesFollowPolicy(m: Memory, base: int, size: int, ops: seq<Op>, policy: Policy, k: nat)
    requires FirstBlockAt(base, size) && AllowedRun(Initial(m, base, size), ops, policy)
    requires 1 <= k < |Final(Initial(m, base, size), ops, policy).layout.blocks|
    ensures var blocks := Final(Initial(m, base, size), ops, policy).layout.blocks;
            && blocks[0].size == size
            && (blocks[k].size >= 2 * blocks[k - 1].size || blocks[k].size >= policy.maxBlockSize)
            && exists i :: 0 <= i < |ops| && (ops[i].Allocate? || ops[i].Register?)
                           && blocks[k].size >= HEADER_SIZE + Asked(ops[i])
                           && blocks[k].size <= Max(policy.maxBlockSize, HEADER_SIZE + Asked(ops[i]))
                           && blocks[k].size <= Max(2 * blocks[k - 1].size, HEADER_SIZE + Asked(ops[i]))
  {
    hide Sound, Final, AllowedRun, Initial, Asked;
    InitialParts(m, base, size);
    BlocksGrowAsAsked(Initial(m, base, size), ops, policy, k);
    RunKeepsSizes(Initial(m, base, size), ops, policy);
  }

  predicate SizesAligned(blocks: seq<Block>) {
    forall k :: 0 <= k < |blocks| ==> blocks[k].size % 8 == 0
  }

  lemma AlignedBlockSize(policy: Policy, last: int, n: int)
    requires policy.maxBlockSize % 8 == 0 && last % 8 == 0 && n % 8 == 0 && last != 0
    ensures BlockSize(policy, last, n) % 8 == 0
  {
    var k, m := last / 8, n / 8;
    assert 2 * last == 8 * (2 * k) && HEADER_SIZE + n == 8 * (m + 3);
    EightTimes(2 * k);
    EightTimes(m + 3);
  }

  lemma EightTimes(k: int)
    ensures 8 * k % 8 == 0
  {
  }

  lemma FittedSizesAligned(s: State, n: int, policy: Policy, at: int)
    requires Sound(s) && SizesAligned(s.layout.blocks)
    requires policy.maxBlockSize % 8 == 0 && n % 8 == 0
    requires |s.layout.blocks| > 0
    ensures SizesAligned(Fitted(s, n, policy, at).layout.blocks)
  {
    hide Sound, WellFormed;
    Shape(s);
    BlockHasSize(s.layout, |s.layout.blocks| - 1);
    AlignedBlockSize(policy, Newest(s.layout).size, n);
  }

  lemma BlockHasSize(l: Layout, k: nat)
    requires WellFormed(l) && k < |l.blocks|
    ensures l.blocks[k].size > 0
  {
    hide WellFormed, Masked;
    FormOfBlock(l, k);
  }

  lemma AllocatedSizesAligned(s: State, kArray: bool, n: int, policy: Policy, at: int)
    requires Sound(s) && SizesAligned(s.layout.blocks)
    requires policy.maxBlockSize % 8 == 0 && n % 8 == 0
    requires |s.layout.blocks| > 0 && FrontsOwned(s)
    ensures SizesAligned(Allocated(s, kArray, n, policy, at).layout.blocks)
  {
    hide Sound, WellFormed, SizesAligned, FrontsOwned, FromList, Load, NodeAt;
    FittedSizesAligned(s, n, policy, at);
  }

  lemma RegisteredSizesAligned(s: State, n: int, node: Node, policy: Policy, at: int)
    requires Sound(s) && SizesAligned(s.layout.blocks)
    requires policy.maxBlockSize % 8 == 0 && n % 8 == 0
    requires |s.layout.blocks| == |s.run| > 0
    ensures SizesAligned(Registered(s, n, node, policy, at).layout.blocks)
  {
    hide Sound, WellFormed, NodeAt, Load, BlockSize;
    FittedSizesAligned(s, n + CLEANUP_SIZE, policy, at);
  }

  lemma StepSizesAligned(s: State, op: Op, policy: Policy)
    requires Sound(s) && Allowed(s, op, policy) && SizesAligned(s.layout.blocks)
    requires policy.maxBlockSize % 8 == 0
    ensures SizesAligned(Step(s, op, policy).layout.blocks)
  {
    hide Sound, WellFormed, HeadersHold, NodesHold, FreeHold, MayGrow, FrontsOwned, Allocated, Registered, Returned,
      SizesAligned, FromElsewhere, Load;
    Shape(s);
    FrontsAreOwned(s);
    match op
    case Allocate(kArray, n, at) => AllocatedSizesAligned(s, kArray, n, policy, at);
    case Register(n, node, at) => RegisteredSizesAligned(s, n, node, policy, at);
    case Return(p, size) => ReturnedBlocks(s, p, size);
    case MaybeAllocate(n) =>
    case Write(p, w, v) =>
    case Lend(p) =>
    case Elsewhere(m) =>
  }

  lemma {:induction false} RunSizesAligned(s: State, ops: seq<Op>, policy: Policy)
    requires Sound(s) && AllowedRun(s, ops, policy) && SizesAligned(s.layout.blocks)
    requires policy.maxBlockSize % 8 == 0
    ensures SizesAligned(Final(s, ops, policy).layout.blocks)
    decreases |ops|
  {
    hide Sound, Step, Allowed, SizesAligned;
    if ops != [] {
      StepSound(s, ops[0], policy);
      StepSizesAligned(s, ops[0], policy);
      RunSizesAligned(Step(s, ops[0], policy), ops[1..], policy);
    }
  }

  // Callers who give a first block and a largest block size that are
  // multiples of 8 get every cleanup, once and in reverse order.
  lemma AlignedArenasRunEveryCleanup(m: Memory, base: int, size: int, ops: seq<Op>, policy: Policy)
    requires FirstBlockAt(base, size) && AllowedRun(Initial(m, base, size), ops, policy)
    requires size % 8 == 0 && policy.maxBlockSize % 8 == 0
    ensures var s := Final(Initial(m, base, size), ops, policy);
            && |s.layout.blocks| == |s.run|
            && CleanupLog(s.layout.blocks, s.run) == Reversed(NodesOf(ops))
  {
    hide Sound, Final, AllowedRun, Initial, NodesOf, Reversed, CleanupLog;
    InitialParts(m, base, size);
    RunSizesAligned(Initial(m, base, size), ops, policy);
    CleanupsAreExact(m, base, size, ops, policy);
  }

  // Such an arena's cleanup nodes are 8-aligned, like all its other pieces.
  lemma AlignedArenasAlignEverything(m: Memory, base: int, size: int, ops: seq<Op>, policy: Policy, p: Piece)
    requires FirstBlockAt(base, size) && AllowedRun(Initial(m, base, size), ops, policy)
    requires size % 8 == 0 && policy.maxBlockSize % 8 == 0
    requires IsPiece(Final(Initial(m, base, size), ops, policy).layout, p)
    ensures Lo(Final(Initial(m, base, size), ops, policy).layout, p) % 8 == 0
  {
    hide Sound, WellFormed, HeadersHold, FreeHold, BlockNodesHold, Final, AllowedRun, Initial;
    InitialParts(m, base, size);
    RunSizesAligned(Initial(m, base, size), ops, policy);
    RunKeepsOrder(Initial(m, base, size), ops, policy);
    var s := Final(Initial(m, base, size), ops, policy);
    Shape(s);
    if p.CleanupNode? {
      NodesFillTheTop(s, p.block);
      NodeAlignedIff(s.layout, p.block, p.place);
    } else {
      PieceAligned(s.layout, p);
    }
  }

  lemma NodesFillTheTop(s: State, k: nat)
    requires Sound(s) && k < |s.layout.blocks|
    ensures BlocksOk(s.layout)
    ensures (s.layout.blocks[k].top - s.layout.blocks[k].start) % CLEANUP_SIZE == 0
  {
    hide BlocksOk, InPlace, RegionsApart, HeadersHold, FreeHold, NodeAt;
    assert BlockNodesHold(s.mem, s.layout.blocks[k], s.run[k]);
    ModUnique(s.layout.blocks[k].top - s.layout.blocks[k].start, CLEANUP_SIZE, |s.run[k]|, 0);
  }

  lemma RegisteredInNewBlock(s: State, n: int, node: Node, policy: Policy, at: int)
    requires |s.layout.blocks| == |s.run| > 0 && n + CLEANUP_SIZE > Room(s.layout)
    ensures var s' := Registered(s, n, node, policy, at);
            && s'.run == s.run + [[node]]
            && |s'.layout.blocks| == |s.run| + 1
            && s'.layout.blocks[|s.run|].size == BlockSize(policy, Newest(s.layout).size, n + CLEANUP_SIZE)
  {
    hide NodeAt, BlockSize;
    var s1 := WithCleanup(s, n, policy, at);
    var s' := Registered(s, n, node, policy, at);
    assert s1.run[|s.run|][1..] == [];
    assert [node] + [] == [node];
    assert s'.run[|s.run|] == [node];
    assert forall k | 0 <= k < |s.run| :: s'.run[k] == s.run[k];
  }

  // A first block of 1001 bytes under the default policy: the one cleanup in
  // the second block, of 2002 bytes, is never run.
  lemma SingleNodeIsOverlooked(m: Memory, node: Node)
    ensures FirstBlockAt(8, 1001)
    ensures var ops := [Register(1000, node, 8000)];
            var policy := Policy(256, 8192);
            && AllowedRun(Initial(m, 8, 1001), ops, policy)
            && var s := Final(Initial(m, 8, 1001), ops, policy);
               && |s.layout.blocks| == |s.run|
               && CleanupLog(s.layout.blocks, s.run) == []
               && Reversed(NodesOf(ops)) == [node]
  {
    hide Sound, Step, Allowed, Initial, NodeAt;
    var op := Register(1000, node, 8000);
    var policy := Policy(256, 8192);
    var s0 := Initial(m, 8, 1001);
    SecondBlockMayBeAt8000(m, node);
    var s := Step(s0, op, policy);
    SecondBlockAdded(m, node);
    StepSound(s0, op, policy);
    assert [op][1..] == [];
    assert Final(s0, [op], policy) == Final(s, [], policy) == s;
    assert NodesOf([op]) == [node];
    assert CleanupLog(s.layout.blocks[..1], s.run[..1]) == [] by {
      assert s.run[..1] == [[]];
    }
  }

  lemma SecondBlockAdded(m: Memory, node: Node)
    requires FirstBlockAt(8, 1001) && Allowed(Initial(m, 8, 1001), Register(1000, node, 8000), Policy(256, 8192))
    ensures var s := Step(Initial(m, 8, 1001), Register(1000, node, 8000), Policy(256, 8192));
            s.run == [[], [node]] && |s.layout.blocks| == 2 && s.layout.blocks[1].size == 2002
  {
    hide Sound, Allowed, Initial, NodeAt, Registered;
    InitialParts(m, 8, 1001);
    SecondBlockMayBeAt8000(m, node);
    RegisteredInNewBlock(Initial(m, 8, 1001), 1000, node, Policy(256, 8192), 8000);
  }

  lemma SecondBlockMayBeAt8000(m: Memory, node: Node)
    ensures FirstBlockAt(8, 1001)
    ensures var s0 := Initial(m, 8, 1001);
            && Allowed(s0, Register(1000, node, 8000), Policy(256, 8192))
            && |s0.layout.blocks| > 0 && Room(s0.layout) == 896 && Newest(s0.layout).size == 1001
            && BlockSize(Policy(256, 8192), 1001, 1016) == 2002
  {
    hide Sound;
  }
}
