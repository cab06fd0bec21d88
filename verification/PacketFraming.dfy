// Packets on the wire: a header of two 16-bit numbers, the packet's size with
// the header and its id, before the serialized message; and the table of
// handlers a packet is dispatched by.
module PacketFraming {
  import opened PacketIds
  import opened Varint
  import opened VarintLoops

  const HEADER: int := 4
  const TWO_16: int := 0x1_0000

  // UINT16_MAX, the number of entries of the table.
  const TABLE_SIZE: int := 0xffff

  // SEND_BUFFER_CHUNK_SIZE
  const CHUNK_SIZE: int := 6000

  // ---------- frames ----------

  function Word(n: nat): (b: seq<byte>)
    requires n < TWO_16
    ensures |b| == 2
  {
    [n % 256, n / 256]
  }

  function ReadWord(b: seq<byte>, at: nat): (n: nat)
    requires at + 2 <= |b|
    ensures n < TWO_16
  {
    b[at] as int + 256 * (b[at + 1] as int)
  }

  lemma ReadsWord(b: seq<byte>, at: nat, n: nat)
    requires n < TWO_16 && at + 2 <= |b| && b[at..at + 2] == Word(n)
    ensures ReadWord(b, at) == n
  {
    assert b[at] == b[at..at + 2][0] && b[at + 1] == b[at..at + 2][1];
  }

  predicate Framable(data: seq<byte>) {
    |data| + HEADER < TWO_16
  }

  function Frame(data: seq<byte>, id: nat): (f: seq<byte>)
    requires Framable(data) && id < TWO_16
    ensures |f| == |data| + HEADER
  {
    Word(|data| + HEADER) + Word(id) + data
  }

  lemma FrameReads(data: seq<byte>, id: nat, more: seq<byte>)
    requires Framable(data) && id < TWO_16
    ensures var b := Frame(data, id) + more;
            ReadWord(b, 0) == |data| + HEADER && ReadWord(b, 2) == id
    ensures Frame(data, id)[HEADER..] == data
  {
    var b := Frame(data, id) + more;
    assert b[0..2] == Word(|data| + HEADER);
    assert b[2..4] == Word(id);
    ReadsWord(b, 0, |data| + HEADER);
    ReadsWord(b, 2, id);
  }

  // The size with the header and the id, each with its low byte first, and
  // then the message: C_CHAT, whose id is 1004, with two bytes.
  lemma FrameBytes()
    ensures Frame([7, 9], 1004) == [6, 0, 236, 3, 7, 9]
  {
  }

  lemma FrameBytesAt(data: seq<byte>, id: nat)
    requires Framable(data) && id < 65536
    ensures var f := Frame(data, id);
            && f[0] as int + 256 * (f[1] as int) == |data| + 4 && f[2] as int + 256 * (f[3] as int) == id
            && forall i :: 0 <= i < |data| ==> f[4 + i] == data[i]
  {
  }

  // ---------- sending ----------

  // Stopped means that an assertion ends the process. Overrun means that bytes
  // are written past the end of the space opened for the packet: its size, a
  // 16-bit number, has wrapped around to less than a header.
  datatype Sending = Sent | Stopped | Overrun

  method MakeSendBuffer(data: seq<byte>, pktId: nat) returns (outcome: Sending, buffer: array<byte>)
    requires pktId < TWO_16
    ensures outcome.Sent? <==> |data| <= 5996
    ensures outcome.Overrun? <==> |data| % 65536 >= 65532
    ensures outcome.Sent? ==> buffer[..] == Frame(data, pktId)
    ensures fresh(buffer)
  {
    var dataSize := |data| % TWO_16;
    var packetSize := (dataSize + HEADER) % TWO_16;
    if packetSize > CHUNK_SIZE {
      return Stopped, new byte[0];
    }
    buffer := new byte[packetSize];
    if packetSize < HEADER {
      return Overrun, buffer;
    }
    buffer[0], buffer[1] := packetSize % 256, packetSize / 256;
    buffer[2], buffer[3] := pktId % 256, pktId / 256;
    // SerializeToArray
    if dataSize < |data| {
      return Stopped, buffer;
    }
    assert buffer[..HEADER] == Word(packetSize) + Word(pktId);
    hide Word;
    ghost var was := buffer[..];
    var end := WriteRaw(data, buffer, HEADER);
    assert was[..HEADER] == buffer[..HEADER];
    outcome := Sent;
  }

  // ---------- dispatching ----------

  datatype Handler = Invalid | Handle(name: string)

  // The handler of id after the assignments of Init: the last one made.
  function HandlerOf(recv: seq<Packet>, id: int): Handler {
    if |recv| == 0 then Invalid
    else if recv[|recv| - 1].id == id then Handle(recv[|recv| - 1].name)
    else HandlerOf(recv[..|recv| - 1], id)
  }

  ghost predicate IdsDiffer(recv: seq<Packet>) {
    forall j, k :: 0 <= j < k < |recv| ==> recv[j].id != recv[k].id
  }

  // Each packet's handler is its own, and no other id has one.
  lemma {:induction false} HandlersAreExact(recv: seq<Packet>, k: nat)
    requires k < |recv| && IdsDiffer(recv)
    ensures HandlerOf(recv, recv[k].id) == Handle(recv[k].name)
  {
    if k < |recv| - 1 {
      HandlersAreExact(recv[..|recv| - 1], k);
    }
  }

  lemma {:induction false} OtherIdsAreInvalid(recv: seq<Packet>, id: int)
    ensures HandlerOf(recv, id) == Invalid <==> forall k :: 0 <= k < |recv| ==> recv[k].id != id
  {
    if |recv| > 0 {
      OtherIdsAreInvalid(recv[..|recv| - 1], id);
    }
  }

  // What becomes of a packet: a handler with the bytes of its message, a
  // handler told that its message has less than no bytes, or an id past the
  // end of the table.
  datatype Dispatch = Dispatched(handler: Handler, data: seq<byte>) | TooShort(handler: Handler) | OutsideTable

  // The packet is the first len bytes of what has been received; the header
  // is read whether or not it is part of it.
  function DispatchOf(recv: seq<Packet>, buffer: seq<byte>, len: nat): Dispatch
    requires |buffer| >= HEADER && len <= |buffer|
  {
    var id := ReadWord(buffer, 2);
    if id >= TABLE_SIZE then OutsideTable
    else if len < HEADER then TooShort(HandlerOf(recv, id))
    else Dispatched(HandlerOf(recv, id), buffer[HEADER..len])
  }

  // The table has no entry for the greatest 16-bit number.
  lemma GreatestId(recv: seq<Packet>, buffer: seq<byte>, len: nat)
    requires |buffer| >= HEADER && len <= |buffer|
    ensures DispatchOf(recv, buffer, len).OutsideTable? <==> buffer[2] == 255 && buffer[3] == 255
  {
  }

  class PacketHandler {
    const table: array<Handler>

    ghost predicate Holds(recv: seq<Packet>)
      reads table
    {
      table.Length == TABLE_SIZE && forall i :: 0 <= i < TABLE_SIZE ==> table[i] == HandlerOf(recv, i)
    }

    // Init
    constructor (recv: seq<Packet>)
      requires forall k :: 0 <= k < |recv| ==> 0 <= recv[k].id < TABLE_SIZE
      ensures Holds(recv) && fresh(table)
    {
      var t := new Handler[TABLE_SIZE];
      for i := 0 to TABLE_SIZE
        invariant forall j :: 0 <= j < i ==> t[j] == Invalid
      {
        t[i] := Invalid;
      }
      assert recv[..0] == [];
      for k := 0 to |recv|
        invariant forall i :: 0 <= i < TABLE_SIZE ==> t[i] == HandlerOf(recv[..k], i)
      {
        assert recv[..k + 1][..k] == recv[..k];
        t[recv[k].id] := Handle(recv[k].name);
      }
      assert recv[..|recv|] == recv;
      table := t;
    }

    method HandlePacket(buffer: seq<byte>, len: nat, ghost recv: seq<Packet>) returns (d: Dispatch)
      requires Holds(recv) && |buffer| >= HEADER && len <= |buffer|
      ensures d == DispatchOf(recv, buffer, len)
    {
      var id := ReadWord(buffer, 2);
      if id >= table.Length {
        return OutsideTable;
      }
      if len < HEADER {
        return TooShort(table[id]);
      }
      d := Dispatched(table[id], buffer[HEADER..len]);
    }
  }
}
