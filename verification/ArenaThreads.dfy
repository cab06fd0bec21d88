// Threads sharing arenas. Each thread has at most one serial arena in each
// arena's list; it finds it in its cache, through the arena's hint or by
// walking the list, and otherwise pushes a new one with compare-and-swap.
// Every step is one access to memory that other threads can see.
module ArenaThreads {
  // A thread is known by the address of its cache.
  type Thread = int

  // Identifiers are drawn in steps of 2, by batches of 256.
  const DELTA: int := 2
  const INC: int := 512

  // The initial value of a cache's last identifier.
  const NO_ID: int := -1

  datatype Cache = Cache(nextId: nat, lastId: int, lastSerial: int)

  // home is the arena the serial arena was made for.
  datatype Serial = Serial(owner: Thread, next: int, home: int)

  datatype Arena = Arena(tagAndId: int, threads: int, hint: int)

  // The live arenas and serial arenas; lists holds what the links represent,
  // the serial arenas of each arena from the head of its list.
  datatype Heap = Heap(arenas: map<int, Arena>, serials: map<int, Serial>, lists: map<int, seq<int>>)

  // Where a thread is in GetSerialArenaFast and GetSerialArenaFallback. A
  // walk has `left` serial arenas left, counting the one it is at.
  datatype Place =
    | Idle
    | Hinting(arena: int)
    | Searching(arena: int)
    | Walking(arena: int, serial: int, left: nat)
    | Starting(arena: int, serial: int)
    | Linking(arena: int, serial: int, head: int)
    | Swapping(arena: int, serial: int, head: int)
    | Caching(arena: int, serial: int)
    | Publishing(arena: int, serial: int)
    | Holding(arena: int, serial: int)

  // batches[k] is the thread that drew the k-th batch of identifiers, and
  // drawn lists every identifier drawn so far.
  datatype State = State(heap: Heap, generator: nat, caches: map<Thread, Cache>, places: map<Thread, Place>,
                         batches: seq<Thread>, drawn: seq<nat>)

  function CacheOf(s: State, t: Thread): Cache {
    if t in s.caches then s.caches[t] else Cache(0, NO_ID, 0)
  }

  function PlaceOf(s: State, t: Thread): Place {
    if t in s.places then s.places[t] else Idle
  }

  predicate Inside(p: Place, a: int) {
    !p.Idle? && p.arena == a
  }

  function At(s: State, h: Heap, t: Thread, p: Place): State {
    s.(heap := h, places := s.places[t := p])
  }

  datatype Step =
    | Create(arena: int, messageOwned: bool, initial: int)
    | Reset(arena: int, initial: int)
    | Destroy(arena: int)
    | Enter(arena: int)
    | ReadHint
    | GiveUp
    | LoadThreads
    | Visit
    | MakeNew(serial: int)
    | LoadHead
    | SetNext
    | Swap(spurious: bool)
    | Remember
    | Publish
    | Leave

  // ---------- drawing an identifier ----------

  function DrawnId(s: State, t: Thread): nat {
    if CacheOf(s, t).nextId % INC == 0 then s.generator * INC else CacheOf(s, t).nextId
  }

  function Draw(s: State, t: Thread): State {
    var id := DrawnId(s, t);
    var s1 := if CacheOf(s, t).nextId % INC == 0
              then s.(generator := s.generator + 1, batches := s.batches + [t]) else s;
    s1.(caches := s.caches[t := CacheOf(s, t).(nextId := id + DELTA)], drawn := s.drawn + [id])
  }

  // ---------- arenas come and go ----------

  function Without(serials: map<int, Serial>, a: int): map<int, Serial> {
    map p | p in serials && serials[p].home != a :: serials[p]
  }

  // The heap with a new arena, and in it t's serial arena initial unless that
  // is null.
  function WithArena(h: Heap, t: Thread, a: int, tag: int, initial: int): Heap {
    if initial == 0 then Heap(h.arenas[a := Arena(tag, 0, 0)], h.serials, h.lists[a := []])
    else Heap(h.arenas[a := Arena(tag, initial, initial)], h.serials[initial := Serial(t, 0, a)], h.lists[a := [initial]])
  }

  function WithoutArena(h: Heap, a: int): Heap {
    Heap(h.arenas - {a}, Without(h.serials, a), h.lists - {a})
  }

  function Remembered(s: State, t: Thread, tag: int, serial: int): State {
    s.(caches := s.caches[t := CacheOf(s, t).(lastSerial := serial, lastId := tag)])
  }

  // Init, and SetInitialBlock if there is an initial block; bit is the mark
  // of a message-owned arena.
  function Started(s: State, t: Thread, a: int, bit: int, initial: int): State {
    var tag := DrawnId(s, t) + bit;
    var s1 := Draw(s, t).(heap := WithArena(s.heap, t, a, tag, initial));
    if initial == 0 then s1 else Remembered(s1, t, tag, initial)
  }

  function Ended(s: State, a: int): State {
    s.(heap := WithoutArena(s.heap, a))
  }

  ghost predicate NobodyInside(s: State, a: int) {
    forall t :: !Inside(PlaceOf(s, t), a)
  }

  // An address at which a serial arena may be made.
  predicate Unused(h: Heap, p: int) {
    p > 0 && p !in h.serials
  }

  ghost predicate Enabled(s: State, t: Thread, step: Step) {
    var p := PlaceOf(s, t);
    match step
    case Create(a, messageOwned, initial) => p.Idle? && a !in s.heap.arenas && (initial == 0 || Unused(s.heap, initial))
    case Reset(a, initial) =>
      p.Idle? && a in s.heap.arenas && NobodyInside(s, a) && (initial == 0 || Unused(WithoutArena(s.heap, a), initial))
    case Destroy(a) => p.Idle? && a in s.heap.arenas && NobodyInside(s, a)
    case Enter(a) => p.Idle? && a in s.heap.arenas
    case ReadHint => p.Hinting?
    case GiveUp => p.Hinting? || p.Searching?
    case LoadThreads => p.Searching?
    case Visit => p.Walking? && p.serial != 0
    case MakeNew(serial) => p.Walking? && p.serial == 0 && Unused(s.heap, serial)
    case LoadHead => p.Starting?
    case SetNext => p.Linking?
    case Swap(spurious) => p.Swapping?
    case Remember => p.Caching?
    case Publish => p.Publishing?
    case Leave => p.Holding?
  }

  // ---------- the invariant ----------

  function Following(list: seq<int>, k: nat): int {
    if k < |list| then list[k] else 0
  }

  // The list of arena a: linked from its head, one serial arena for each
  // owner, and the hint is one of them.
  predicate ListOk(h: Heap, a: int) {
    && a in h.arenas && a in h.lists
    && var list := h.lists[a];
       && h.arenas[a].threads == Following(list, 0)
       && (h.arenas[a].hint != 0 ==> h.arenas[a].hint in list)
       && (forall k :: 0 <= k < |list| ==>
             && list[k] in h.serials && h.serials[list[k]].home == a
             && h.serials[list[k]].next == Following(list, k + 1))
       && (forall j, k :: 0 <= j < k < |list| ==> h.serials[list[j]].owner != h.serials[list[k]].owner)
  }

  ghost predicate HeapOk(h: Heap) {
    && h.lists.Keys == h.arenas.Keys
    && (forall a :: a in h.arenas ==> ListOk(h, a))
    && (forall p :: p in h.serials ==> p > 0)
  }

  // p is thread t's serial arena in the list of a.
  predicate IsOwn(h: Heap, t: Thread, a: int, p: int) {
    a in h.lists && p in h.lists[a] && p in h.serials && h.serials[p].owner == t
  }

  // Among the first n serial arenas of a's list there is none of t's.
  predicate HasNone(h: Heap, t: Thread, a: int, n: int) {
    a in h.lists && forall k :: 0 <= k < n && k < |h.lists[a]| ==>
      h.lists[a][k] in h.serials && h.serials[h.lists[a][k]].owner != t
  }

  // A serial arena that t has made and not yet pushed.
  predicate IsNew(h: Heap, t: Thread, a: int, p: int) {
    && a in h.lists && HasNone(h, t, a, |h.lists[a]|)
    && p in h.serials && h.serials[p].owner == t && h.serials[p].home == a
  }

  predicate PlaceOk(h: Heap, t: Thread, p: Place) {
    && (!p.Idle? ==> p.arena in h.arenas)
    && match p
       case Walking(a, q, left) =>
         && a in h.lists && left <= |h.lists[a]|
         && q == Following(h.lists[a], |h.lists[a]| - left)
         && HasNone(h, t, a, |h.lists[a]| - left)
       case Starting(a, q) => IsNew(h, t, a, q)
       case Linking(a, q, head) => IsNew(h, t, a, q)
       case Swapping(a, q, head) => IsNew(h, t, a, q) && h.serials[q].next == head
       case Caching(a, q) => IsOwn(h, t, a, q)
       case Publishing(a, q) => IsOwn(h, t, a, q)
       case Holding(a, q) => IsOwn(h, t, a, q)
       case _ => true
  }

  ghost predicate PlacesOk(s: State) {
    forall t :: PlaceOk(s.heap, t, PlaceOf(s, t))
  }

  function Untagged(tag: int): int {
    tag - tag % 2
  }

  // A cache that matches a live arena holds the thread's own serial arena;
  // one that does not remembers an identifier drawn before, if any.
  ghost predicate CacheOk(h: Heap, drawn: seq<nat>, t: Thread, c: Cache) {
    && (forall a :: a in h.arenas && c.lastId == h.arenas[a].tagAndId ==> IsOwn(h, t, a, c.lastSerial))
    && (c.lastId == NO_ID || Untagged(c.lastId) in drawn)
  }

  ghost predicate CachesOk(s: State) {
    forall t :: CacheOk(s.heap, s.drawn, t, CacheOf(s, t))
  }

  // What t has left of its batch has not been drawn.
  predicate NextOk(batches: seq<Thread>, drawn: seq<nat>, t: Thread, next: nat) {
    && next % DELTA == 0
    && (next % INC != 0 ==>
          && next / INC < |batches| && batches[next / INC] == t
          && forall i :: 0 <= i < |drawn| && drawn[i] / INC == next / INC ==> drawn[i] < next)
  }

  ghost predicate IdsOk(s: State) {
    && |s.batches| == s.generator
    && (forall i :: 0 <= i < |s.drawn| ==> s.drawn[i] / INC < s.generator && s.drawn[i] % DELTA == 0)
    && (forall i, j :: 0 <= i < j < |s.drawn| ==> s.drawn[i] != s.drawn[j])
    && (forall t :: NextOk(s.batches, s.drawn, t, CacheOf(s, t).nextId))
  }

  // Live arenas have different identifiers, all of them drawn.
  ghost predicate TagsOk(h: Heap, drawn: seq<nat>) {
    && (forall a :: a in h.arenas ==> h.arenas[a].tagAndId >= 0 && Untagged(h.arenas[a].tagAndId) in drawn)
    && (forall a, b :: a in h.arenas && b in h.arenas && a != b ==>
          Untagged(h.arenas[a].tagAndId) != Untagged(h.arenas[b].tagAndId))
  }

  ghost predicate Inv(s: State) {
    HeapOk(s.heap) && PlacesOk(s) && CachesOk(s) && IdsOk(s) && TagsOk(s.heap, s.drawn)
  }

  lemma InvParts(s: State)
    requires Inv(s)
    ensures HeapOk(s.heap) && PlacesOk(s) && CachesOk(s) && IdsOk(s) && TagsOk(s.heap, s.drawn)
    ensures s.heap.lists.Keys == s.heap.arenas.Keys
  {
    hide ListOk, PlacesOk, CachesOk, IdsOk, TagsOk;
  }

  lemma OfThread(s: State, t: Thread)
    requires PlacesOk(s) && CachesOk(s)
    ensures PlaceOk(s.heap, t, PlaceOf(s, t)) && CacheOk(s.heap, s.drawn, t, CacheOf(s, t))
  {
    hide PlaceOk, CacheOk, PlaceOf, CacheOf;
  }

  function Start(): (s: State)
    ensures Inv(s)
  {
    State(Heap(map[], map[], map[]), 0, map[], map[], [], [])
  }

  // ---------- the steps ----------

  // Every place names live arenas and serial arenas.
  predicate Named(h: Heap, p: Place) {
    && (!p.Idle? ==> p.arena in h.arenas && p.arena in h.lists)
    && (p.Walking? && p.serial != 0 ==> p.serial in h.serials && p.left > 0)
    && (p.Linking? || p.Swapping? ==> p.serial in h.serials)
    && (p.Hinting? && h.arenas[p.arena].hint != 0 ==> h.arenas[p.arena].hint in h.serials)
  }

  lemma PlacesAreNamed(h: Heap, t: Thread, p: Place)
    requires HeapOk(h) && PlaceOk(h, t, p)
    ensures Named(h, p)
  {
    if !p.Idle? {
      assert ListOk(h, p.arena);
    }
  }

  // What one access of thread t at place p does to the heap, and where t is
  // afterwards.
  function Access(h: Heap, c: Cache, t: Thread, p: Place, step: Step): (Heap, Place)
    requires Named(h, p)
  {
    match (step, p)
    case (Enter(a), Idle) =>
      if a !in h.arenas then (h, p)
      else if c.lastId == h.arenas[a].tagAndId then (h, Holding(a, c.lastSerial))
      else (h, Hinting(a))
    case (ReadHint, Hinting(a)) =>
      var hint := h.arenas[a].hint;
      (h, if hint != 0 && h.serials[hint].owner == t then Holding(a, hint) else Searching(a))
    case (GiveUp, _) => (h, Idle)
    case (LoadThreads, Searching(a)) => (h, Walking(a, h.arenas[a].threads, |h.lists[a]|))
    case (Visit, Walking(a, q, left)) =>
      if q == 0 then (h, p)
      else (h, if h.serials[q].owner == t then Caching(a, q) else Walking(a, h.serials[q].next, left - 1))
    case (MakeNew(q), Walking(a, _, _)) => (h.(serials := h.serials[q := Serial(t, 0, a)]), Starting(a, q))
    case (LoadHead, Starting(a, q)) => (h, Linking(a, q, h.arenas[a].threads))
    case (SetNext, Linking(a, q, head)) =>
      (h.(serials := h.serials[q := h.serials[q].(next := head)]), Swapping(a, q, head))
    case (Swap(spurious), Swapping(a, q, head)) =>
      if h.arenas[a].threads == head && !spurious then
        (Pushed(h, a, q), Caching(a, q))
      else (h, Linking(a, q, h.arenas[a].threads))
    case (Remember, Caching(a, q)) => (h, Publishing(a, q))
    case (Publish, Publishing(a, q)) => (h.(arenas := h.arenas[a := h.arenas[a].(hint := q)]), Holding(a, q))
    case (Leave, Holding(_, _)) => (h, Idle)
    case _ => (h, p)
  }

  function Accessed(s: State, t: Thread, step: Step): State
    requires Named(s.heap, PlaceOf(s, t))
  {
    var (h, p) := Access(s.heap, CacheOf(s, t), t, PlaceOf(s, t), step);
    At(s, h, t, p)
  }

  function Apply(s: State, t: Thread, step: Step): State
    requires Enabled(s, t, step) && Named(s.heap, PlaceOf(s, t))
  {
    var p := PlaceOf(s, t);
    match step
    case Create(a, messageOwned, initial) => Started(s, t, a, if messageOwned then 1 else 0, initial)
    case Reset(a, initial) => Started(Ended(s, a), t, a, s.heap.arenas[a].tagAndId % 2, initial)
    case Destroy(a) => Ended(s, a)
    case Remember => Remembered(Accessed(s, t, step), t, s.heap.arenas[p.arena].tagAndId, p.serial)
    case _ => Accessed(s, t, step)
  }

  // ---------- an access keeps the invariant ----------

  // How the heap may change while t is in the fallback: t's serial arenas may
  // be made, linked and pushed, and hints may move.
  ghost predicate Grows(h: Heap, h': Heap, t: Thread) {
    && h'.arenas.Keys == h.arenas.Keys && h'.lists.Keys == h.lists.Keys
    && (forall a :: a in h.arenas ==> h'.arenas[a].tagAndId == h.arenas[a].tagAndId)
    && (forall q :: q in h.serials ==>
          && q in h'.serials && h'.serials[q].owner == h.serials[q].owner && h'.serials[q].home == h.serials[q].home
          && (h.serials[q].owner != t ==> h'.serials[q] == h.serials[q]))
    && (forall a :: a in h.lists ==> ListGrows(h.lists[a], h', h'.lists[a], t))
  }

  // Nothing is lost from a list; what is new comes first and is t's.
  predicate ListGrows(list: seq<int>, h': Heap, list': seq<int>, t: Thread) {
    && |list'| >= |list| && list'[|list'| - |list|..] == list
    && forall k :: 0 <= k < |list'| - |list| ==> list'[k] in h'.serials && h'.serials[list'[k]].owner == t
  }

  lemma OldEntry(list: seq<int>, h': Heap, list': seq<int>, t: Thread, k: nat)
    requires ListGrows(list, h', list', t) && k < |list|
    ensures list'[|list'| - |list| + k] == list[k]
  {
    assert list'[|list'| - |list|..][k] == list[k];
  }

  lemma GrowsKeepsOwn(h: Heap, h': Heap, t: Thread, u: Thread, a: int, q: int)
    requires Grows(h, h', t) && IsOwn(h, u, a, q)
    ensures IsOwn(h', u, a, q)
  {
    assert ListGrows(h.lists[a], h', h'.lists[a], t);
    var k :| 0 <= k < |h.lists[a]| && h.lists[a][k] == q;
    OldEntry(h.lists[a], h', h'.lists[a], t, k);
  }

  lemma GrowsKeepsNone(h: Heap, h': Heap, t: Thread, u: Thread, a: int, n: nat)
    requires Grows(h, h', t) && u != t && HasNone(h, u, a, n)
    ensures a in h'.lists && HasNone(h', u, a, n + |h'.lists[a]| - |h.lists[a]|)
  {
    var list, list' := h.lists[a], h'.lists[a];
    assert ListGrows(list, h', list', t);
    var more := |list'| - |list|;
    forall k | 0 <= k < n + more && k < |list'|
      ensures list'[k] in h'.serials && h'.serials[list'[k]].owner != u
    {
      if k >= more {
        OldEntry(list, h', list', t, k - more);
        assert list[k - more] in h.serials;
      }
    }
  }

  lemma GrowsKeepsPlace(h: Heap, h': Heap, t: Thread, u: Thread, p: Place)
    requires Grows(h, h', t) && u != t && PlaceOk(h, u, p)
    ensures PlaceOk(h', u, p)
  {
    hide ListGrows;
    if p.Caching? || p.Publishing? || p.Holding? {
      GrowsKeepsOwn(h, h', t, u, p.arena, p.serial);
    } else if p.Starting? || p.Linking? || p.Swapping? {
      GrowsKeepsNone(h, h', t, u, p.arena, |h.lists[p.arena]|);
    } else if p.Walking? {
      var n := |h.lists[p.arena]| - p.left;
      GrowsKeepsNone(h, h', t, u, p.arena, n);
      GrowsKeepsPoint(h, h', t, p.arena, n);
    }
  }

  lemma GrowsKeepsPoint(h: Heap, h': Heap, t: Thread, a: int, n: nat)
    requires Grows(h, h', t) && a in h.lists && n <= |h.lists[a]|
    ensures a in h'.lists && |h'.lists[a]| >= |h.lists[a]|
    ensures Following(h'.lists[a], n + |h'.lists[a]| - |h.lists[a]|) == Following(h.lists[a], n)
  {
    assert ListGrows(h.lists[a], h', h'.lists[a], t);
    if n < |h.lists[a]| {
      OldEntry(h.lists[a], h', h'.lists[a], t, n);
    }
  }

  lemma GrowsReflexive(h: Heap, t: Thread)
    ensures Grows(h, h, t)
  {
  }

  // A list's entries are serial arenas made for it.
  lemma NewIsUnlisted(h: Heap, t: Thread, a: int, q: int)
    requires HeapOk(h) && IsNew(h, t, a, q)
    ensures forall b :: b in h.lists ==> q !in h.lists[b]
  {
    forall b | b in h.lists ensures q !in h.lists[b] {
      assert ListOk(h, b);
    }
  }

  lemma MakeNewOk(h: Heap, t: Thread, a: int, q: int)
    requires HeapOk(h) && a in h.arenas && a in h.lists && Unused(h, q) && HasNone(h, t, a, |h.lists[a]|)
    ensures var h' := h.(serials := h.serials[q := Serial(t, 0, a)]);
            HeapOk(h') && Grows(h, h', t) && IsNew(h', t, a, q)
  {
    var h' := h.(serials := h.serials[q := Serial(t, 0, a)]);
    forall b | b in h'.arenas ensures ListOk(h', b) {
      assert ListOk(h, b);
    }
  }

  lemma SetNextOk(h: Heap, t: Thread, a: int, q: int, head: int)
    requires HeapOk(h) && IsNew(h, t, a, q)
    ensures var h' := h.(serials := h.serials[q := h.serials[q].(next := head)]);
            HeapOk(h') && Grows(h, h', t) && IsNew(h', t, a, q)
  {
    var h' := h.(serials := h.serials[q := h.serials[q].(next := head)]);
    NewIsUnlisted(h, t, a, q);
    forall b | b in h'.arenas ensures ListOk(h', b) {
      assert ListOk(h, b);
    }
  }

  function Pushed(h: Heap, a: int, q: int): Heap
    requires a in h.arenas && a in h.lists
  {
    h.(arenas := h.arenas[a := h.arenas[a].(threads := q)], lists := h.lists[a := [q] + h.lists[a]])
  }

  lemma PushOk(h: Heap, t: Thread, a: int, q: int)
    requires HeapOk(h) && a in h.arenas && IsNew(h, t, a, q)
    requires h.serials[q].next == h.arenas[a].threads
    ensures HeapOk(Pushed(h, a, q)) && Grows(h, Pushed(h, a, q), t) && IsOwn(Pushed(h, a, q), t, a, q)
  {
    hide ListOk, ListGrows, HasNone;
    var h' := Pushed(h, a, q);
    PushGrows(h, t, a, q);
    forall b | b in h'.arenas ensures ListOk(h', b) {
      assert ListOk(h, b);
      if b == a {
        PushedList(h, t, a, q);
      } else {
        SameList(h, h', b);
      }
    }
  }

  lemma SameList(h: Heap, h': Heap, a: int)
    requires ListOk(h, a) && h'.serials == h.serials
    requires a in h'.arenas && a in h'.lists && h'.arenas[a] == h.arenas[a] && h'.lists[a] == h.lists[a]
    ensures ListOk(h', a)
  {
  }

  lemma PushGrows(h: Heap, t: Thread, a: int, q: int)
    requires a in h.arenas && IsNew(h, t, a, q)
    ensures Grows(h, Pushed(h, a, q), t)
  {
    var h' := Pushed(h, a, q);
    forall b | b in h.lists ensures ListGrows(h.lists[b], h', h'.lists[b], t) {
    }
    hide ListGrows;
  }

  lemma PushedList(h: Heap, t: Thread, a: int, q: int)
    requires ListOk(h, a) && IsNew(h, t, a, q)
    requires h.serials[q].next == h.arenas[a].threads
    ensures ListOk(Pushed(h, a, q), a)
  {
    var list, list' := h.lists[a], [q] + h.lists[a];
    var h' := Pushed(h, a, q);
    forall k | 0 <= k < |list'|
      ensures list'[k] in h'.serials && h'.serials[list'[k]].home == a
      ensures h'.serials[list'[k]].next == Following(list', k + 1)
    {
      if k > 0 {
        assert list'[k] == list[k - 1];
      }
    }
    forall j, k | 0 <= j < k < |list'|
      ensures h'.serials[list'[j]].owner != h'.serials[list'[k]].owner
    {
      assert list'[k] == list[k - 1];
      if j > 0 {
        assert list'[j] == list[j - 1];
      }
    }
  }

  lemma PublishOk(h: Heap, t: Thread, a: int, q: int)
    requires HeapOk(h) && a in h.arenas && IsOwn(h, t, a, q)
    ensures var h' := h.(arenas := h.arenas[a := h.arenas[a].(hint := q)]);
            HeapOk(h') && Grows(h, h', t) && IsOwn(h', t, a, q)
  {
    var h' := h.(arenas := h.arenas[a := h.arenas[a].(hint := q)]);
    forall b | b in h'.arenas ensures ListOk(h', b) {
      assert ListOk(h, b);
    }
  }

  // The hint and the walk only ever hand t its own.
  lemma LookupOk(h: Heap, t: Thread, a: int)
    requires HeapOk(h) && a in h.arenas
    ensures a in h.lists
    ensures h.arenas[a].threads == Following(h.lists[a], 0)
    ensures h.arenas[a].hint != 0 ==> h.arenas[a].hint in h.serials && h.arenas[a].hint in h.lists[a]
  {
    assert ListOk(h, a);
  }

  lemma WalkedOk(h: Heap, t: Thread, a: int, q: int, left: nat)
    requires HeapOk(h) && PlaceOk(h, t, Walking(a, q, left))
    ensures q == 0 <==> left == 0
    ensures left > 0 ==> q == h.lists[a][|h.lists[a]| - left]
    ensures left > 0 ==> q in h.serials && h.serials[q].next == Following(h.lists[a], |h.lists[a]| - left + 1)
  {
    hide HasNone;
    assert ListOk(h, a);
    var i := |h.lists[a]| - left;
    assert i < |h.lists[a]| ==> h.lists[a][i] in h.serials;
  }

  lemma VisitOk(h: Heap, t: Thread, a: int, q: int, left: nat)
    requires HeapOk(h) && PlaceOk(h, t, Walking(a, q, left)) && q != 0
    ensures left > 0 && q in h.serials
    ensures h.serials[q].owner == t ==> IsOwn(h, t, a, q)
    ensures h.serials[q].owner != t ==> PlaceOk(h, t, Walking(a, h.serials[q].next, left - 1))
  {
    hide HeapOk, HasNone, Following;
    WalkedOk(h, t, a, q, left);
    assert q in h.lists[a];
    if h.serials[q].owner != t {
      NoneSoFar(h, t, a, |h.lists[a]| - left);
    }
  }

  lemma NoneSoFar(h: Heap, t: Thread, a: int, n: nat)
    requires HasNone(h, t, a, n) && n < |h.lists[a]|
    requires h.lists[a][n] in h.serials && h.serials[h.lists[a][n]].owner != t
    ensures HasNone(h, t, a, n + 1)
  {
  }

  lemma AccessOk(h: Heap, drawn: seq<nat>, c: Cache, t: Thread, p: Place, step: Step)
    requires HeapOk(h) && PlaceOk(h, t, p) && CacheOk(h, drawn, t, c) && Named(h, p)
    requires step.MakeNew? ==> Unused(h, step.serial) && p.Walking? && p.serial == 0
    ensures var (h', p') := Access(h, c, t, p, step);
            HeapOk(h') && Grows(h, h', t) && PlaceOk(h', t, p')
  {
    hide HeapOk, Grows, CacheOk, HasNone, ListOk, Unused, Following;
    GrowsReflexive(h, t);
    match (step, p)
    case (Enter(a), Idle) => if a in h.arenas && c.lastId == h.arenas[a].tagAndId { CachedOk(h, drawn, t, c, a); }
    case (ReadHint, Hinting(a)) => LookupOk(h, t, a);
    case (LoadThreads, Searching(a)) =>
      LookupOk(h, t, a);
      NoneOfNone(h, t, a);
    case (Visit, Walking(a, q, left)) => if q != 0 { VisitOk(h, t, a, q, left); }
    case (MakeNew(q), Walking(a, _, left)) =>
      WalkedOk(h, t, a, 0, left);
      MakeNewOk(h, t, a, q);
    case (SetNext, Linking(a, q, head)) => SetNextOk(h, t, a, q, head);
    case (Swap(spurious), Swapping(a, q, head)) =>
      if h.arenas[a].threads == head && !spurious {
        PushOk(h, t, a, q);
      }
    case (Publish, Publishing(a, q)) => PublishOk(h, t, a, q);
    case _ =>
  }

  lemma NoneOfNone(h: Heap, t: Thread, a: int)
    requires a in h.lists
    ensures HasNone(h, t, a, 0)
  {
  }

  lemma CachedOk(h: Heap, drawn: seq<nat>, t: Thread, c: Cache, a: int)
    requires CacheOk(h, drawn, t, c) && a in h.arenas && c.lastId == h.arenas[a].tagAndId
    ensures IsOwn(h, t, a, c.lastSerial)
  {
  }

  // ---------- the other parts of the state ----------

  lemma GrowsKeepsCache(h: Heap, h': Heap, drawn: seq<nat>, t: Thread, u: Thread, c: Cache)
    requires Grows(h, h', t) && CacheOk(h, drawn, u, c)
    ensures CacheOk(h', drawn, u, c)
  {
    hide ListGrows, IsOwn;
    forall a | a in h'.arenas && c.lastId == h'.arenas[a].tagAndId ensures IsOwn(h', u, a, c.lastSerial) {
      GrowsKeepsOwn(h, h', t, u, a, c.lastSerial);
    }
  }

  lemma GrowsKeepsTags(h: Heap, h': Heap, drawn: seq<nat>, t: Thread)
    requires Grows(h, h', t) && TagsOk(h, drawn)
    ensures TagsOk(h', drawn)
  {
    hide ListGrows, Untagged;
  }

  lemma AccessedInv(s: State, t: Thread, step: Step)
    requires Inv(s) && Named(s.heap, PlaceOf(s, t))
    requires step.MakeNew? ==> Unused(s.heap, step.serial) && PlaceOf(s, t).Walking? && PlaceOf(s, t).serial == 0
    ensures Inv(Accessed(s, t, step))
  {
    hide HeapOk, Grows, PlaceOk, CacheOk, TagsOk, NextOk, Access, Named, Unused;
    var p := PlaceOf(s, t);
    var (h', p') := Access(s.heap, CacheOf(s, t), t, p, step);
    var s' := Accessed(s, t, step);
    assert PlaceOk(s.heap, t, p) && CacheOk(s.heap, s.drawn, t, CacheOf(s, t));
    AccessOk(s.heap, s.drawn, CacheOf(s, t), t, p, step);
    GrowsKeepsTags(s.heap, h', s.drawn, t);
    forall u ensures PlaceOk(s'.heap, u, PlaceOf(s', u)) {
      assert PlaceOk(s.heap, u, PlaceOf(s, u));
      if u != t {
        GrowsKeepsPlace(s.heap, h', t, u, PlaceOf(s, u));
      }
    }
    forall u ensures CacheOk(s'.heap, s'.drawn, u, CacheOf(s', u)) {
      assert CacheOk(s.heap, s.drawn, u, CacheOf(s, u));
      GrowsKeepsCache(s.heap, h', s.drawn, t, u, CacheOf(s, u));
    }
    SameIds(s, s');
  }

  lemma SameIds(s: State, s': State)
    requires IdsOk(s) && s'.generator == s.generator && s'.batches == s.batches && s'.drawn == s.drawn
    requires forall t :: CacheOf(s', t).nextId == CacheOf(s, t).nextId
    ensures IdsOk(s')
  {
    hide NextOk;
  }

  // A thread caches its own serial arena under the arena's identifier.
  lemma RememberedInv(s: State, t: Thread, a: int, q: int)
    requires Inv(s) && a in s.heap.arenas && IsOwn(s.heap, t, a, q)
    ensures Inv(Remembered(s, t, s.heap.arenas[a].tagAndId, q))
  {
    var s' := Remembered(s, t, s.heap.arenas[a].tagAndId, q);
    hide HeapOk, PlaceOk, NextOk, IsOwn;
    forall u ensures CacheOk(s'.heap, s'.drawn, u, CacheOf(s', u)) {
      assert CacheOk(s.heap, s.drawn, u, CacheOf(s, u));
    }
    hide CacheOk, TagsOk;
    forall u ensures PlaceOk(s'.heap, u, PlaceOf(s', u)) {
      assert PlaceOk(s.heap, u, PlaceOf(s, u));
    }
    SameIds(s, s');
  }

  // ---------- drawing identifiers ----------

  lemma DrawOk(s: State, t: Thread)
    requires IdsOk(s)
    ensures IdsOk(Draw(s, t))
    ensures DrawnId(s, t) !in s.drawn && DrawnId(s, t) % DELTA == 0
  {
    hide NextOk, DrawnId;
    var s' := Draw(s, t);
    var id := DrawnId(s, t);
    BatchOf(s, t);
    assert forall i | 0 <= i < |s.drawn| :: s.drawn[i] != id;
    forall u ensures NextOk(s'.batches, s'.drawn, u, CacheOf(s', u).nextId) {
      if u == t {
        NextOfDrawer(s, t);
      } else {
        NextOfOthers(s, t, u);
      }
    }
  }

  lemma NextOfDrawer(s: State, t: Thread)
    requires IdsOk(s)
    ensures NextOk(Draw(s, t).batches, Draw(s, t).drawn, t, DrawnId(s, t) + DELTA)
  {
    hide IdsOk, NextOk, DrawnId;
    var id, s' := DrawnId(s, t), Draw(s, t);
    BatchOf(s, t);
    SameBatch(id);
    assert s'.drawn == s.drawn + [id];
    AllBelow(s'.drawn, id);
    Below(s'.batches, s'.drawn, t, id);
  }

  lemma SameBatch(id: nat)
    requires id % DELTA == 0
    ensures (id + DELTA) % DELTA == 0
    ensures (id + DELTA) % INC != 0 ==> (id + DELTA) / INC == id / INC
  {
    var q, r := id / 512, id % 512;
    assert r <= 510;
    if r < 510 {
      assert (512 * q + (r + 2)) / 512 == q;
    } else {
      assert id + 2 == 512 * (q + 1);
    }
  }

  lemma AllBelow(drawn: seq<nat>, id: nat)
    requires |drawn| > 0 && drawn[|drawn| - 1] == id
    requires forall i :: 0 <= i < |drawn| - 1 && drawn[i] / INC == id / INC ==> drawn[i] < id
    ensures forall i :: 0 <= i < |drawn| && drawn[i] / INC == id / INC ==> drawn[i] < id + DELTA
  {
  }

  lemma Below(batches: seq<Thread>, drawn: seq<nat>, t: Thread, id: nat)
    requires (id + DELTA) % DELTA == 0
    requires (id + DELTA) % INC != 0 ==> (id + DELTA) / INC == id / INC
    requires id / INC < |batches| && batches[id / INC] == t
    requires forall i :: 0 <= i < |drawn| && drawn[i] / INC == id / INC ==> drawn[i] < id + DELTA
    ensures NextOk(batches, drawn, t, id + DELTA)
  {
  }

  lemma NextOfOthers(s: State, t: Thread, u: Thread)
    requires IdsOk(s) && u != t
    ensures NextOk(Draw(s, t).batches, Draw(s, t).drawn, u, CacheOf(s, u).nextId)
  {
    BatchOf(s, t);
    assert NextOk(s.batches, s.drawn, u, CacheOf(s, u).nextId);
    var n, id, s' := CacheOf(s, u).nextId, DrawnId(s, t), Draw(s, t);
    hide IdsOk, DrawnId;
    assert n % INC != 0 ==> s'.batches[n / INC] == s.batches[n / INC];
  }

  // The identifier drawn is of a batch of t's, and the highest so far.
  lemma BatchOf(s: State, t: Thread)
    requires IdsOk(s)
    ensures var id, s' := DrawnId(s, t), Draw(s, t);
            && id % DELTA == 0 && id / INC < |s'.batches| && s'.batches[id / INC] == t
            && (forall i :: 0 <= i < |s.drawn| && s.drawn[i] / INC == id / INC ==> s.drawn[i] < id)
  {
    assert NextOk(s.batches, s.drawn, t, CacheOf(s, t).nextId);
    if CacheOf(s, t).nextId % INC == 0 {
      NewBatch(s.generator);
      hide NextOk;
    } else {
      hide IdsOk;
    }
  }

  lemma NewBatch(generator: nat)
    ensures generator * INC / INC == generator && generator * INC % DELTA == 0
  {
  }

  // ---------- arenas come and go ----------

  // Seen from list b, nothing has changed.
  ghost predicate SameFor(h: Heap, h': Heap, b: int) {
    && b in h.lists && b in h'.lists && h'.lists[b] == h.lists[b] && b in h'.arenas
    && forall q :: q in h.serials && h.serials[q].home == b ==> q in h'.serials && h'.serials[q] == h.serials[q]
  }

  lemma SameForPlace(h: Heap, h': Heap, u: Thread, p: Place)
    requires PlaceOk(h, u, p) && (p.Idle? || (ListOk(h, p.arena) && SameFor(h, h', p.arena)))
    ensures PlaceOk(h', u, p)
  {
    if !p.Idle? {
      ListedSame(h, h', p.arena);
      hide ListOk;
    }
  }

  lemma ListedSame(h: Heap, h': Heap, b: int)
    requires ListOk(h, b) && SameFor(h, h', b)
    ensures forall k :: 0 <= k < |h.lists[b]| ==>
              h.lists[b][k] in h'.serials && h'.serials[h.lists[b][k]] == h.serials[h.lists[b][k]]
  {
    var list := h.lists[b];
    forall k | 0 <= k < |list| ensures list[k] in h'.serials && h'.serials[list[k]] == h.serials[list[k]] {
      var q := list[k];
      assert q in h.serials;
      assert h.serials[q].home == b;
      assert q in h'.serials;
    }
  }

  lemma EndedPlace(h: Heap, a: int, u: Thread, p: Place)
    requires HeapOk(h) && PlaceOk(h, u, p) && !Inside(p, a)
    ensures PlaceOk(WithoutArena(h, a), u, p)
  {
    if !p.Idle? {
      assert p.arena in h.arenas && ListOk(h, p.arena);
      EndedFor(h, a, p.arena);
    }
    hide HeapOk, PlaceOk, WithoutArena, ListOk, SameFor;
    SameForPlace(h, WithoutArena(h, a), u, p);
  }

  lemma EndedFor(h: Heap, a: int, b: int)
    requires b in h.arenas && b in h.lists && a != b
    ensures SameFor(h, WithoutArena(h, a), b)
  {
  }

  lemma EndedHeap(h: Heap, a: int)
    requires HeapOk(h)
    ensures HeapOk(WithoutArena(h, a))
  {
    var h' := WithoutArena(h, a);
    forall b | b in h'.arenas ensures ListOk(h', b) {
      assert ListOk(h, b);
    }
  }

  lemma EndedCache(h: Heap, drawn: seq<nat>, a: int, u: Thread, c: Cache)
    requires HeapOk(h) && CacheOk(h, drawn, u, c)
    ensures CacheOk(WithoutArena(h, a), drawn, u, c)
  {
    var h' := WithoutArena(h, a);
    forall b | b in h'.arenas && c.lastId == h'.arenas[b].tagAndId ensures IsOwn(h', u, b, c.lastSerial) {
      assert ListOk(h, b);
    }
  }

  lemma EndedInv(s: State, a: int)
    requires Inv(s) && NobodyInside(s, a)
    ensures Inv(Ended(s, a))
  {
    hide HeapOk, PlaceOk, CacheOk, TagsOk, NextOk, WithoutArena;
    var s' := Ended(s, a);
    EndedHeap(s.heap, a);
    EndedTags(s.heap, s.drawn, a);
    forall u ensures PlaceOk(s'.heap, u, PlaceOf(s', u)) && CacheOk(s'.heap, s'.drawn, u, CacheOf(s', u)) {
      assert PlaceOk(s.heap, u, PlaceOf(s, u)) && CacheOk(s.heap, s.drawn, u, CacheOf(s, u));
      EndedPlace(s.heap, a, u, PlaceOf(s, u));
      EndedCache(s.heap, s.drawn, a, u, CacheOf(s, u));
    }
    SameIds(s, s');
  }

  lemma EndedTags(h: Heap, drawn: seq<nat>, a: int)
    requires TagsOk(h, drawn)
    ensures TagsOk(WithoutArena(h, a), drawn)
  {
    hide Untagged;
  }

  lemma StartedHeap(h: Heap, t: Thread, a: int, tag: int, initial: int)
    requires HeapOk(h) && a !in h.arenas && (initial == 0 || Unused(h, initial))
    ensures HeapOk(WithArena(h, t, a, tag, initial))
    ensures initial != 0 ==> IsOwn(WithArena(h, t, a, tag, initial), t, a, initial)
  {
    var h' := WithArena(h, t, a, tag, initial);
    forall b | b in h'.arenas ensures ListOk(h', b) {
      if b != a {
        assert ListOk(h, b);
      }
    }
  }

  lemma StartedPlace(h: Heap, t: Thread, a: int, tag: int, initial: int, u: Thread, p: Place)
    requires a !in h.arenas && (initial == 0 || Unused(h, initial)) && PlaceOk(h, u, p)
    ensures PlaceOk(WithArena(h, t, a, tag, initial), u, p)
  {
  }

  lemma StartedCache(h: Heap, drawn: seq<nat>, t: Thread, a: int, id: nat, bit: int, initial: int, u: Thread, c: Cache)
    requires a !in h.arenas && (initial == 0 || Unused(h, initial)) && CacheOk(h, drawn, u, c)
    requires id !in drawn && id % 2 == 0 && bit in {0, 1}
    ensures CacheOk(WithArena(h, t, a, id + bit, initial), drawn + [id], u, c)
  {
    var h' := WithArena(h, t, a, id + bit, initial);
    UntaggedBit(id, bit);
    forall b | b in h'.arenas && c.lastId == h'.arenas[b].tagAndId ensures IsOwn(h', u, b, c.lastSerial) {
      assert b != a;
      assert IsOwn(h, u, b, c.lastSerial);
    }
  }

  lemma StartedTags(h: Heap, drawn: seq<nat>, t: Thread, a: int, id: nat, bit: int, initial: int)
    requires a !in h.arenas && TagsOk(h, drawn)
    requires id !in drawn && id % 2 == 0 && bit in {0, 1}
    ensures TagsOk(WithArena(h, t, a, id + bit, initial), drawn + [id])
  {
    hide Untagged;
    UntaggedBit(id, bit);
  }

  lemma UntaggedBit(id: int, bit: int)
    requires id % 2 == 0 && bit in {0, 1}
    ensures Untagged(id + bit) == id
  {
  }

  lemma DrawnInv(s: State, t: Thread, a: int, bit: int, initial: int)
    requires Inv(s) && a !in s.heap.arenas && (initial == 0 || Unused(s.heap, initial)) && bit in {0, 1}
    ensures var tag := DrawnId(s, t) + bit;
            Inv(Draw(s, t).(heap := WithArena(s.heap, t, a, tag, initial)))
  {
    hide HeapOk, PlaceOk, CacheOk, TagsOk, NextOk, IdsOk, WithArena, Unused, DrawnId;
    var id := DrawnId(s, t);
    var h' := WithArena(s.heap, t, a, id + bit, initial);
    var s' := Draw(s, t).(heap := h');
    DrawOk(s, t);
    SameIds(Draw(s, t), s');
    StartedHeap(s.heap, t, a, id + bit, initial);
    StartedTags(s.heap, s.drawn, t, a, id, bit, initial);
    forall u ensures PlaceOk(h', u, PlaceOf(s', u)) {
      assert PlaceOk(s.heap, u, PlaceOf(s, u));
      StartedPlace(s.heap, t, a, id + bit, initial, u, PlaceOf(s, u));
    }
    forall u ensures CacheOk(h', s.drawn + [id], u, CacheOf(s', u)) {
      assert CacheOk(s.heap, s.drawn, u, CacheOf(s, u));
      StartedCache(s.heap, s.drawn, t, a, id, bit, initial, u, CacheOf(s, u));
      CacheIdsOnly(h', s.drawn + [id], u, CacheOf(s, u), CacheOf(s', u));
    }
  }

  lemma CacheIdsOnly(h: Heap, drawn: seq<nat>, u: Thread, c: Cache, c': Cache)
    requires CacheOk(h, drawn, u, c) && c'.lastId == c.lastId && c'.lastSerial == c.lastSerial
    ensures CacheOk(h, drawn, u, c')
  {
  }

  lemma StartedInv(s: State, t: Thread, a: int, bit: int, initial: int)
    requires Inv(s) && a !in s.heap.arenas && (initial == 0 || Unused(s.heap, initial)) && bit in {0, 1}
    ensures Inv(Started(s, t, a, bit, initial))
  {
    hide Inv, HeapOk, WithArena, DrawnId, IsOwn, Unused, Draw, Remembered, PlacesOk, CachesOk, IdsOk, TagsOk;
    InvParts(s);
    DrawnInv(s, t, a, bit, initial);
    StartedHeap(s.heap, t, a, DrawnId(s, t) + bit, initial);
    WithArenaTag(s.heap, t, a, DrawnId(s, t) + bit, initial);
    if initial != 0 {
      RememberedInv(Draw(s, t).(heap := WithArena(s.heap, t, a, DrawnId(s, t) + bit, initial)), t, a, initial);
    }
  }

  lemma WithArenaTag(h: Heap, t: Thread, a: int, tag: int, initial: int)
    ensures a in WithArena(h, t, a, tag, initial).arenas && WithArena(h, t, a, tag, initial).arenas[a].tagAndId == tag
  {
  }

  // ---------- every step, every run ----------

  lemma StepsAreNamed(s: State, t: Thread)
    requires Inv(s)
    ensures Named(s.heap, PlaceOf(s, t))
  {
    hide HeapOk, PlaceOk, CacheOk, IdsOk, TagsOk, Named;
    assert PlaceOk(s.heap, t, PlaceOf(s, t));
    PlacesAreNamed(s.heap, t, PlaceOf(s, t));
  }

  lemma ApplyInv(s: State, t: Thread, step: Step)
    requires Inv(s) && Enabled(s, t, step) && Named(s.heap, PlaceOf(s, t))
    ensures Inv(Apply(s, t, step))
  {
    hide Inv, HeapOk, PlacesOk, CachesOk, IdsOk, TagsOk, Started, NobodyInside, Named;
    match step
    case Create(a, messageOwned, initial) => StartedInv(s, t, a, if messageOwned then 1 else 0, initial);
    case Reset(a, initial) =>
      EndedInv(s, a);
      StartedInv(Ended(s, a), t, a, s.heap.arenas[a].tagAndId % 2, initial);
    case Destroy(a) => EndedInv(s, a);
    case Remember =>
      var p := PlaceOf(s, t);
      InvParts(s);
      OfThread(s, t);
      AccessedInv(s, t, step);
      RememberedInv(Accessed(s, t, step), t, p.arena, p.serial);
    case _ => AccessedInv(s, t, step);
  }

  datatype Event = Event(thread: Thread, step: Step)

  ghost predicate AllowedRun(s: State, events: seq<Event>)
    requires Inv(s)
    decreases |events|
  {
    events == [] ||
    (&& Enabled(s, events[0].thread, events[0].step)
     && (StepsAreNamed(s, events[0].thread);
         ApplyInv(s, events[0].thread, events[0].step);
         AllowedRun(Apply(s, events[0].thread, events[0].step), events[1..])))
  }

  ghost function Final(s: State, events: seq<Event>): State
    requires Inv(s) && AllowedRun(s, events)
    decreases |events|
  {
    if events == [] then s else
    StepsAreNamed(s, events[0].thread);
    ApplyInv(s, events[0].thread, events[0].step);
    Final(Apply(s, events[0].thread, events[0].step), events[1..])
  }

  lemma {:induction false} RunInv(s: State, events: seq<Event>)
    requires Inv(s) && AllowedRun(s, events)
    ensures Inv(Final(s, events))
    decreases |events|
  {
    if events != [] {
      StepsAreNamed(s, events[0].thread);
      ApplyInv(s, events[0].thread, events[0].step);
      hide Inv, Apply, Enabled;
      RunInv(Apply(s, events[0].thread, events[0].step), events[1..]);
    }
  }

  // Under any interleaving, a thread that has been handed a serial arena has
  // one of this arena's list, its own, and nobody else has been handed it.
  lemma HandedOutIsExclusive(events: seq<Event>, t: Thread)
    requires AllowedRun(Start(), events)
    requires PlaceOf(Final(Start(), events), t).Holding?
    ensures var s := Final(Start(), events);
            && IsOwn(s.heap, t, PlaceOf(s, t).arena, PlaceOf(s, t).serial)
            && forall u :: u != t && PlaceOf(s, u).Holding? ==> PlaceOf(s, u).serial != PlaceOf(s, t).serial
  {
    hide Final, Inv, HeapOk, PlacesOk, CachesOk, CacheOk, IdsOk, TagsOk, PlaceOf, HasNone;
    RunInv(Start(), events);
    var s := Final(Start(), events);
    InvParts(s);
    OfThread(s, t);
    forall u | u != t && PlaceOf(s, u).Holding? ensures PlaceOf(s, u).serial != PlaceOf(s, t).serial {
      OfThread(s, u);
    }
  }

  // Under any interleaving the serial arenas of a list have different owners.
  lemma OneSerialArenaPerOwner(events: seq<Event>, a: int, j: nat, k: nat)
    requires AllowedRun(Start(), events)
    requires var h := Final(Start(), events).heap;
             a in h.arenas && a in h.lists && j < k < |h.lists[a]|
    ensures var h := Final(Start(), events).heap;
            && h.lists[a][j] in h.serials && h.lists[a][k] in h.serials
            && h.serials[h.lists[a][j]].owner != h.serials[h.lists[a][k]].owner
  {
    hide Final, Inv, PlacesOk, CachesOk, IdsOk, TagsOk;
    RunInv(Start(), events);
    var h := Final(Start(), events).heap;
    InvParts(Final(Start(), events));
    assert ListOk(h, a);
  }

  // No identifier is ever drawn twice, by whichever threads and for whichever
  // arenas and resets.
  lemma IdsNeverRepeat(events: seq<Event>, i: nat, j: nat)
    requires AllowedRun(Start(), events)
    requires i < j < |Final(Start(), events).drawn|
    ensures Final(Start(), events).drawn[i] != Final(Start(), events).drawn[j]
  {
    hide Final, HeapOk, PlacesOk, CachesOk, NextOk, TagsOk;
    RunInv(Start(), events);
  }

  // What a cache that matches a live arena hands out is a serial arena of
  // that arena and the thread's own.
  lemma CacheMatchesOnlyItsArena(events: seq<Event>, t: Thread, a: int)
    requires AllowedRun(Start(), events)
    requires a in Final(Start(), events).heap.arenas
    ensures var s := Final(Start(), events);
            CacheOf(s, t).lastId == s.heap.arenas[a].tagAndId ==>
              && IsOwn(s.heap, t, a, CacheOf(s, t).lastSerial)
              && s.heap.serials[CacheOf(s, t).lastSerial].home == a
  {
    hide Final, Inv, PlacesOk, PlaceOk, CachesOk, IdsOk, TagsOk, CacheOf, PlaceOf;
    RunInv(Start(), events);
    var s := Final(Start(), events);
    InvParts(s);
    OfThread(s, t);
    assert ListOk(s.heap, a);
  }

  predicate EndsArena(step: Step, a: int) {
    (step.Reset? || step.Destroy?) && step.arena == a
  }

  // Identifier id has been drawn, and no live arena has it.
  ghost predicate Retired(s: State, id: int) {
    id in s.drawn && forall a :: a in s.heap.arenas ==> Untagged(s.heap.arenas[a].tagAndId) != id
  }

  lemma EndedRetires(s: State, a: int)
    requires TagsOk(s.heap, s.drawn) && a in s.heap.arenas
    ensures Retired(Ended(s, a), Untagged(s.heap.arenas[a].tagAndId))
  {
    hide Untagged, Without;
  }

  lemma EndedStaysRetired(s: State, a: int, id: int)
    requires Retired(s, id)
    ensures Retired(Ended(s, a), id)
  {
    hide Untagged, Without;
  }

  lemma StartedStaysRetired(s: State, t: Thread, a: int, bit: int, initial: int, id: int)
    requires Retired(s, id) && IdsOk(s) && bit in {0, 1}
    ensures Retired(Started(s, t, a, bit, initial), id)
  {
    hide Untagged, DrawnId, IdsOk;
    DrawOk(s, t);
    UntaggedBit(DrawnId(s, t), bit);
  }

  // No access gives an arena another identifier.
  lemma AccessKeepsTags(h: Heap, c: Cache, t: Thread, p: Place, step: Step)
    requires Named(h, p)
    ensures var h' := Access(h, c, t, p, step).0;
            h'.arenas.Keys == h.arenas.Keys && forall a :: a in h.arenas ==> h'.arenas[a].tagAndId == h.arenas[a].tagAndId
  {
  }

  lemma StaysRetired(s: State, t: Thread, step: Step, id: int)
    requires Inv(s) && Enabled(s, t, step) && Named(s.heap, PlaceOf(s, t))
    requires Retired(s, id)
    ensures Retired(Apply(s, t, step), id)
  {
    hide Inv, HeapOk, PlacesOk, CachesOk, IdsOk, TagsOk, NobodyInside, Unused, Access, Started, WithoutArena, Named, Untagged;
    InvParts(s);
    match step
    case Create(a, messageOwned, initial) => StartedStaysRetired(s, t, a, if messageOwned then 1 else 0, initial, id);
    case Reset(a, initial) =>
      EndedStaysRetired(s, a, id);
      EndedInv(s, a);
      InvParts(Ended(s, a));
      StartedStaysRetired(Ended(s, a), t, a, s.heap.arenas[a].tagAndId % 2, initial, id);
    case Destroy(a) => EndedStaysRetired(s, a, id);
    case _ => AccessKeepsTags(s.heap, CacheOf(s, t), t, PlaceOf(s, t), step);
  }

  lemma EndingRetires(s: State, t: Thread, step: Step, a: int)
    requires Inv(s) && Enabled(s, t, step) && Named(s.heap, PlaceOf(s, t)) && EndsArena(step, a)
    ensures Retired(Apply(s, t, step), Untagged(s.heap.arenas[a].tagAndId))
  {
    hide Inv, HeapOk, PlacesOk, CachesOk, IdsOk, TagsOk, Unused, Started, WithoutArena, Named, Untagged, Retired;
    InvParts(s);
    EndedRetires(s, a);
    if step.Reset? {
      EndedInv(s, a);
      InvParts(Ended(s, a));
      StartedStaysRetired(Ended(s, a), t, a, s.heap.arenas[a].tagAndId % 2, step.initial,
                          Untagged(s.heap.arenas[a].tagAndId));
    }
  }

  lemma {:induction false} RetiredForever(s: State, events: seq<Event>, id: int)
    requires Inv(s) && AllowedRun(s, events) && Retired(s, id)
    ensures Retired(Final(s, events), id)
    decreases |events|
  {
    hide Inv, Apply, Enabled, Retired;
    if events != [] {
      StepsAreNamed(s, events[0].thread);
      ApplyInv(s, events[0].thread, events[0].step);
      StaysRetired(s, events[0].thread, events[0].step, id);
      RetiredForever(Apply(s, events[0].thread, events[0].step), events[1..], id);
    }
  }

  // Once an arena has been reset or destroyed, its identifier never comes
  // back: whatever happens afterwards, a cache that still remembers the arena
  // matches no live one.
  lemma StaleCacheMatchesNone(s: State, events: seq<Event>, a: int, t: Thread)
    requires Inv(s) && AllowedRun(s, events)
    requires events != [] && EndsArena(events[0].step, a)
    ensures a in s.heap.arenas
    ensures var s', tag := Final(s, events), s.heap.arenas[a].tagAndId;
            && (forall b :: b in s'.heap.arenas ==> s'.heap.arenas[b].tagAndId != tag)
            && (CacheOf(s', t).lastId == tag ==>
                forall b :: b in s'.heap.arenas ==> CacheOf(s', t).lastId != s'.heap.arenas[b].tagAndId)
  {
    hide Inv, Apply, NobodyInside, Unused, CacheOf, Untagged;
    StepsAreNamed(s, events[0].thread);
    ApplyInv(s, events[0].thread, events[0].step);
    EndingRetires(s, events[0].thread, events[0].step, a);
    RetiredForever(Apply(s, events[0].thread, events[0].step), events[1..], Untagged(s.heap.arenas[a].tagAndId));
  }

  // ---------- message-owned arenas ----------

  predicate MessageOwned(s: State, a: int)
    requires a in s.heap.arenas
  {
    s.heap.arenas[a].tagAndId % 2 == 1
  }

  lemma StartedMark(s: State, t: Thread, a: int, bit: int, initial: int)
    requires IdsOk(s) && bit in {0, 1}
    ensures a in Started(s, t, a, bit, initial).heap.arenas
    ensures Started(s, t, a, bit, initial).heap.arenas[a].tagAndId % 2 == bit
  {
    hide IdsOk, DrawnId;
    DrawOk(s, t);
  }

  lemma CreatedMark(s: State, t: Thread, a: int, messageOwned: bool, initial: int)
    requires Inv(s) && Enabled(s, t, Create(a, messageOwned, initial)) && Named(s.heap, PlaceOf(s, t))
    ensures var s' := Apply(s, t, Create(a, messageOwned, initial));
            a in s'.heap.arenas && (MessageOwned(s', a) <==> messageOwned)
  {
    hide Inv, HeapOk, PlacesOk, CachesOk, IdsOk, TagsOk, Started, Named, Unused;
    InvParts(s);
    StartedMark(s, t, a, if messageOwned then 1 else 0, initial);
  }

  lemma StartedOthers(s: State, t: Thread, b: int, bit: int, initial: int)
    ensures forall a :: a in s.heap.arenas && a != b ==>
              a in Started(s, t, b, bit, initial).heap.arenas &&
              Started(s, t, b, bit, initial).heap.arenas[a] == s.heap.arenas[a]
  {
    hide DrawnId, CacheOf;
  }

  lemma EndedOthers(s: State, b: int)
    ensures forall a :: a in s.heap.arenas && a != b ==>
              a in Ended(s, b).heap.arenas && Ended(s, b).heap.arenas[a] == s.heap.arenas[a]
  {
    hide Without;
  }

  // With an arena all of its serial arenas go, and no other.
  lemma EndedFrees(s: State, a: int, p: int)
    ensures a !in Ended(s, a).heap.arenas && a !in Ended(s, a).heap.lists
    ensures p in Ended(s, a).heap.serials <==> p in s.heap.serials && s.heap.serials[p].home != a
    ensures p in Ended(s, a).heap.serials ==> Ended(s, a).heap.serials[p] == s.heap.serials[p]
  {
  }

  // An arena keeps its identifier until it is reset or destroyed.
  lemma StepKeepsTag(s: State, t: Thread, step: Step, a: int)
    requires Inv(s) && Enabled(s, t, step) && Named(s.heap, PlaceOf(s, t))
    requires a in s.heap.arenas && !EndsArena(step, a)
    ensures a in Apply(s, t, step).heap.arenas
    ensures Apply(s, t, step).heap.arenas[a].tagAndId == s.heap.arenas[a].tagAndId
  {
    hide Inv, NobodyInside, Unused, Access, Named, Started, Ended;
    match step
    case Create(b, messageOwned, initial) => StartedOthers(s, t, b, if messageOwned then 1 else 0, initial);
    case Reset(b, initial) =>
      EndedOthers(s, b);
      StartedOthers(Ended(s, b), t, b, s.heap.arenas[b].tagAndId % 2, initial);
    case Destroy(b) => EndedOthers(s, b);
    case _ => AccessKeepsTags(s.heap, CacheOf(s, t), t, PlaceOf(s, t), step);
  }

  lemma StepKeepsMark(s: State, t: Thread, step: Step, a: int)
    requires Inv(s) && Enabled(s, t, step) && Named(s.heap, PlaceOf(s, t))
    requires a in s.heap.arenas && step != Destroy(a)
    ensures a in Apply(s, t, step).heap.arenas
    ensures MessageOwned(Apply(s, t, step), a) <==> MessageOwned(s, a)
  {
    hide Inv, HeapOk, PlacesOk, CachesOk, IdsOk, TagsOk, NobodyInside, Unused, Access, Named, Started, Ended;
    if EndsArena(step, a) {
      EndedInv(s, a);
      InvParts(Ended(s, a));
      StartedMark(Ended(s, a), t, a, s.heap.arenas[a].tagAndId % 2, step.initial);
    } else {
      StepKeepsTag(s, t, step, a);
    }
  }

  lemma {:induction false} RunKeepsMark(s: State, events: seq<Event>, a: int)
    requires Inv(s) && AllowedRun(s, events) && a in s.heap.arenas
    requires forall e :: e in events ==> e.step != Destroy(a)
    ensures a in Final(s, events).heap.arenas
    ensures MessageOwned(Final(s, events), a) <==> MessageOwned(s, a)
    decreases |events|
  {
    hide Inv, Apply, Enabled, MessageOwned;
    if events != [] {
      StepsAreNamed(s, events[0].thread);
      ApplyInv(s, events[0].thread, events[0].step);
      StepKeepsMark(s, events[0].thread, events[0].step, a);
      RunKeepsMark(Apply(s, events[0].thread, events[0].step), events[1..], a);
    }
  }

  // An arena is message-owned from its creation to its destruction, through
  // every reset, if and only if it was created so.
  lemma MessageOwnedForLife(s: State, events: seq<Event>, a: int, messageOwned: bool, initial: int)
    requires Inv(s) && AllowedRun(s, events)
    requires events != [] && events[0].step == Create(a, messageOwned, initial)
    requires forall i :: 1 <= i < |events| ==> events[i].step != Destroy(a)
    ensures a in Final(s, events).heap.arenas
    ensures Final(s, events).heap.arenas[a].tagAndId % 2 == 1 <==> messageOwned
  {
    hide Inv, Apply, Enabled;
    StepsAreNamed(s, events[0].thread);
    ApplyInv(s, events[0].thread, events[0].step);
    CreatedMark(s, events[0].thread, a, messageOwned, initial);
    RunKeepsMark(Apply(s, events[0].thread, events[0].step), events[1..], a);
  }

  // ---------- the fast paths ----------

  // A thread that neither steps nor loses the arena finds it in its cache.
  ghost predicate Caches(s: State, t: Thread, a: int) {
    a in s.heap.arenas && CacheOf(s, t).lastId == s.heap.arenas[a].tagAndId
  }

  lemma OthersLeaveAlone(s: State, t: Thread, step: Step, u: Thread)
    requires Enabled(s, t, step) && Named(s.heap, PlaceOf(s, t)) && u != t
    ensures CacheOf(Apply(s, t, step), u) == CacheOf(s, u) && PlaceOf(Apply(s, t, step), u) == PlaceOf(s, u)
  {
    hide Access, Named, NobodyInside, Unused, DrawnId, WithArena, WithoutArena;
  }

  lemma {:induction false} CacheLasts(s: State, events: seq<Event>, u: Thread, a: int)
    requires Inv(s) && AllowedRun(s, events) && Caches(s, u, a)
    requires forall e :: e in events ==> e.thread != u && !EndsArena(e.step, a)
    ensures Caches(Final(s, events), u, a)
    ensures CacheOf(Final(s, events), u) == CacheOf(s, u) && PlaceOf(Final(s, events), u) == PlaceOf(s, u)
    decreases |events|
  {
    hide Inv, Apply, Enabled, CacheOf, PlaceOf;
    if events != [] {
      StepsAreNamed(s, events[0].thread);
      ApplyInv(s, events[0].thread, events[0].step);
      OthersLeaveAlone(s, events[0].thread, events[0].step, u);
      StepKeepsTag(s, events[0].thread, events[0].step, a);
      CacheLasts(Apply(s, events[0].thread, events[0].step), events[1..], u, a);
    }
  }

  // Whatever other threads do in the meantime, resets and destruction of this
  // arena apart, a thread that has the arena in its cache enters it in one
  // access and without touching the list.
  lemma CacheServes(s: State, events: seq<Event>, t: Thread, a: int)
    requires Inv(s) && AllowedRun(s, events) && Caches(s, t, a) && PlaceOf(s, t).Idle?
    requires forall e :: e in events ==> e.thread != t && !EndsArena(e.step, a)
    ensures var s' := Final(s, events);
            && Enabled(s', t, Enter(a)) && Named(s'.heap, PlaceOf(s', t))
            && PlaceOf(Apply(s', t, Enter(a)), t) == Holding(a, CacheOf(s, t).lastSerial)
            && Apply(s', t, Enter(a)).heap == s'.heap
  {
    hide Inv, HeapOk, PlacesOk, CachesOk, IdsOk, TagsOk;
    RunInv(s, events);
    CacheLasts(s, events, t, a);
    StepsAreNamed(Final(s, events), t);
  }

  // The steps that fill the cache: remembering what the fallback found, and
  // making an arena with an initial block, which is the hint from then on.
  lemma RememberFillsCache(s: State, t: Thread)
    requires Inv(s) && Enabled(s, t, Remember) && Named(s.heap, PlaceOf(s, t))
    ensures var s', p := Apply(s, t, Remember), PlaceOf(s, t);
            Caches(s', t, p.arena) && CacheOf(s', t).lastSerial == p.serial && s'.heap == s.heap
  {
    hide Inv;
  }

  lemma InitialBlockFillsCache(s: State, t: Thread, step: Step)
    requires Inv(s) && Enabled(s, t, step) && Named(s.heap, PlaceOf(s, t))
    requires (step.Create? || step.Reset?) && step.initial != 0
    ensures var s' := Apply(s, t, step);
            && Caches(s', t, step.arena) && CacheOf(s', t).lastSerial == step.initial
            && s'.heap.arenas[step.arena].hint == step.initial
  {
    hide Inv, DrawnId, WithoutArena, NobodyInside;
  }

  // The hint is the serial arena published last, and its owner is handed it
  // without a walk.
  lemma HintServes(s: State, t: Thread)
    requires Inv(s) && Named(s.heap, PlaceOf(s, t))
    ensures PlaceOf(s, t).Publishing? ==>
              Apply(s, t, Publish).heap.arenas[PlaceOf(s, t).arena].hint == PlaceOf(s, t).serial
    ensures PlaceOf(s, t).Hinting? ==>
              var a := PlaceOf(s, t).arena;
              var hint := s.heap.arenas[a].hint;
              (hint != 0 && s.heap.serials[hint].owner == t ==> PlaceOf(Apply(s, t, ReadHint), t) == Holding(a, hint))
  {
    hide Inv;
  }

  // ---------- identifiers at work ----------

  // Two threads drawing in turn: each takes a batch of 256 even identifiers
  // from the counter.
  lemma BatchesOf256(t: Thread, u: Thread)
    requires t != u
    ensures var s1 := Draw(Start(), t);
            var s2 := Draw(s1, u);
            var s3 := Draw(s2, t);
            s3.drawn == [0, 512, 2] && s3.generator == 2
  {
    hide Inv;
  }

  // The counter is left alone exactly until 256 have been drawn.
  lemma CounterIsRarelyTouched(s: State, t: Thread, batch: nat, k: nat)
    requires k < 256 && CacheOf(s, t).nextId == 512 * batch + 2 * k
    ensures DrawnId(s, t) == if k == 0 then 512 * s.generator else 512 * batch + 2 * k
    ensures Draw(s, t).generator == if k == 0 then s.generator + 1 else s.generator
    ensures CacheOf(Draw(s, t), t).nextId == DrawnId(s, t) + 2
  {
    assert (512 * batch + 2 * k) % 512 == 2 * k;
  }

  // Only a reset or the destructor ever takes a serial arena off a list;
  // every other step of any thread leaves the list as it was or puts one
  // serial arena in front.
  lemma ListsOnlyGrow(s: State, t: Thread, step: Step, a: int)
    requires Inv(s) && Enabled(s, t, step) && Named(s.heap, PlaceOf(s, t))
    requires a in s.heap.lists && !EndsArena(step, a)
    ensures a in Apply(s, t, step).heap.lists
    ensures var list, list' := s.heap.lists[a], Apply(s, t, step).heap.lists[a];
            list' == list || (step.Swap? && |list'| > 0 && list' == [list'[0]] + list)
  {
    hide Inv, HeapOk, PlacesOk, CachesOk, IdsOk, TagsOk, PlaceOk, NobodyInside, CacheOf, Access, Named, Started, WithoutArena, Unused;
    InvParts(s);
    match step
    case Create(b, messageOwned, initial) => StartedLists(s, t, b, if messageOwned then 1 else 0, initial);
    case Reset(b, initial) =>
      EndedLists(s, b);
      StartedLists(Ended(s, b), t, b, s.heap.arenas[b].tagAndId % 2, initial);
    case Destroy(b) => EndedLists(s, b);
    case _ => AccessLists(s.heap, CacheOf(s, t), t, PlaceOf(s, t), step, a);
  }

  lemma StartedLists(s: State, t: Thread, b: int, bit: int, initial: int)
    ensures forall a :: a in s.heap.lists && a != b ==>
              a in Started(s, t, b, bit, initial).heap.lists && Started(s, t, b, bit, initial).heap.lists[a] == s.heap.lists[a]
  {
    hide DrawnId, CacheOf;
  }

  lemma EndedLists(s: State, b: int)
    ensures forall a :: a in s.heap.lists && a != b ==>
              a in Ended(s, b).heap.lists && Ended(s, b).heap.lists[a] == s.heap.lists[a]
  {
    hide Without;
  }

  lemma AccessLists(h: Heap, c: Cache, t: Thread, p: Place, step: Step, a: int)
    requires Named(h, p) && a in h.lists
    ensures var h' := Access(h, c, t, p, step).0;
            && a in h'.lists
            && (h'.lists[a] == h.lists[a] ||
                (step.Swap? && |h'.lists[a]| > 0 && h'.lists[a] == [h'.lists[a][0]] + h.lists[a]))
  {
  }
}
