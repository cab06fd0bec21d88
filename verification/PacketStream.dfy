// Packets cut out of a byte stream that arrives in arbitrary pieces.
module PacketStream {
  import opened Varint
  import opened VarintLoops
  import opened PacketFraming

  // The packets at the front of b and the bytes left over. A header that
  // announces size 0 stops the scan for good.
  datatype Scan = Scan(packets: seq<seq<byte>>, rest: seq<byte>, stuck: bool)

  function ScanOf(b: seq<byte>): (s: Scan)
    ensures |s.rest| <= |b|
  {
    if |b| < HEADER || |b| < ReadWord(b, 0) then Scan([], b, false)
    else if ReadWord(b, 0) == 0 then Scan([], b, true)
    else
      var size := ReadWord(b, 0);
      PutBefore([b[..size]], ScanOf(b[size..]))
  }

  function PutBefore(packets: seq<seq<byte>>, s: Scan): Scan {
    s.(packets := packets + s.packets)
  }

  lemma PutBeforeTwice(p: seq<seq<byte>>, q: seq<seq<byte>>, s: Scan)
    ensures PutBefore(p, PutBefore(q, s)) == PutBefore(p + q, s)
    ensures PutBefore([], s) == s
  {
    assert p + (q + s.packets) == (p + q) + s.packets;
    assert [] + s.packets == s.packets;
  }

  lemma PutBeforeParts(p: seq<seq<byte>>, s: Scan)
    ensures PutBefore(p, s).stuck == s.stuck
    ensures PutBefore(p, s) == Scan(p + s.packets, s.rest, s.stuck)
    ensures s.packets == [] ==> PutBefore(p, s) == Scan(p, s.rest, s.stuck)
  {
  }

  // Where a scan comes to its end.
  lemma ScanEnds(b: seq<byte>)
    ensures |b| < HEADER || |b| < ReadWord(b, 0) ==> ScanOf(b) == Scan([], b, false)
    ensures |b| >= HEADER && ReadWord(b, 0) == 0 ==> ScanOf(b) == Scan([], b, true)
  {
  }

  // What is left over is less than one packet.
  lemma {:induction false} RestIsShort(b: seq<byte>)
    ensures !ScanOf(b).stuck ==> |ScanOf(b).rest| < TWO_16
    ensures !ScanOf(b).stuck ==> ScanOf(ScanOf(b).rest) == Scan([], ScanOf(b).rest, false)
    decreases |b|
  {
    if !(|b| < HEADER || |b| < ReadWord(b, 0)) && ReadWord(b, 0) != 0 {
      RestIsShort(b[ReadWord(b, 0)..]);
    }
  }

  // Scanning what has arrived and later the rest with what follows it gives
  // the packets of the whole.
  lemma {:induction false} ScanAppend(x: seq<byte>, y: seq<byte>)
    requires !ScanOf(x).stuck
    ensures ScanOf(x + y) == PutBefore(ScanOf(x).packets, ScanOf(ScanOf(x).rest + y))
    decreases |x|
  {
    var s := ScanOf(ScanOf(x).rest + y);
    if |x| < HEADER || |x| < ReadWord(x, 0) {
      PutBeforeTwice([], [], s);
    } else {
      var size := ReadWord(x, 0);
      SameWord(x, y);
      assert (x + y)[size..] == x[size..] + y && (x + y)[..size] == x[..size];
      ScanStep(x + y);
      ScanStep(x);
      hide ScanOf, ReadWord;
      ScanAppend(x[size..], y);
      PutBeforeTwice([x[..size]], ScanOf(x[size..]).packets, s);
    }
  }

  lemma ScanStep(b: seq<byte>)
    requires |b| >= HEADER && 0 < ReadWord(b, 0) <= |b|
    ensures ScanOf(b) == PutBefore([b[..ReadWord(b, 0)]], ScanOf(b[ReadWord(b, 0)..]))
  {
  }

  lemma SameWord(x: seq<byte>, y: seq<byte>)
    requires |x| >= HEADER
    ensures ReadWord(x + y, 0) == ReadWord(x, 0)
  {
  }

  function Concat(parts: seq<seq<byte>>): seq<byte> {
    if |parts| == 0 then [] else parts[0] + Concat(parts[1..])
  }

  // A packet as MakeSendBuffer makes it.
  predicate IsFrame(p: seq<byte>) {
    |p| >= HEADER && ReadWord(p, 0) == |p|
  }

  // A stream of packets is cut into exactly those packets, with nothing left.
  lemma {:induction false} PacketsAreCutOut(packets: seq<seq<byte>>)
    requires forall p :: p in packets ==> IsFrame(p)
    ensures ScanOf(Concat(packets)) == Scan(packets, [], false)
  {
    if |packets| > 0 {
      var p, more := packets[0], Concat(packets[1..]);
      assert IsFrame(p);
      PacketsAreCutOut(packets[1..]);
      SameWord(p, more);
      assert (p + more)[|p|..] == more && (p + more)[..|p|] == p;
      assert [p] + packets[1..] == packets;
    }
  }

  // ---------- the receive buffer ----------

  const BUFFER_SIZE: int := 0x1_0000
  const BUFFER_COUNT: int := 10

  class RecvBuffer {
    const buffer: array<byte>
    var readPos: nat
    var writePos: nat

    ghost predicate Valid()
      reads this
    {
      buffer.Length == BUFFER_SIZE * BUFFER_COUNT && readPos <= writePos <= buffer.Length
    }

    // The bytes received and not yet consumed.
    function Pending(): (p: seq<byte>)
      requires Valid()
      reads this, buffer
    {
      buffer[readPos..writePos]
    }

    constructor ()
      ensures Valid() && Pending() == [] && FreeSize() == 655360
      ensures fresh(buffer)
    {
      buffer := new byte[BUFFER_SIZE * BUFFER_COUNT];
      readPos, writePos := 0, 0;
    }

    function DataSize(): int
      reads this
    {
      writePos - readPos
    }

    function FreeSize(): int
      reads this
    {
      buffer.Length - writePos
    }

    // The bytes a receive put behind writePos become pending.
    method OnWrite(bytes: seq<byte>) returns (ok: bool)
      requires Valid()
      modifies this, buffer
      ensures Valid()
      ensures ok <==> |bytes| <= old(FreeSize())
      ensures Pending() == if ok then old(Pending()) + bytes else old(Pending())
      ensures readPos == old(readPos) && writePos == old(writePos) + if ok then |bytes| else 0
    {
      if |bytes| > FreeSize() {
        return false;
      }
      ghost var before := Pending();
      var end := WriteRaw(bytes, buffer, writePos);
      writePos := end;
      assert buffer[readPos..writePos] == before + bytes;
      ok := true;
    }

    method OnRead(numOfBytes: nat) returns (ok: bool)
      requires Valid()
      modifies this
      ensures Valid()
      ensures ok <==> numOfBytes <= old(DataSize())
      ensures Pending() == if ok then old(Pending())[numOfBytes..] else old(Pending())
      ensures writePos == old(writePos) && DataSize() == old(DataSize()) - if ok then numOfBytes else 0
    {
      if numOfBytes > DataSize() {
        return false;
      }
      readPos := readPos + numOfBytes;
      ok := true;
    }

    // What is pending moves to the front once there is little room behind it.
    // It is then shorter than what lies before it, so that the two ranges of
    // memcpy do not meet.
    method Clean()
      requires Valid() && DataSize() < TWO_16
      modifies this, buffer
      ensures Valid() && Pending() == old(Pending())
      ensures FreeSize() >= BUFFER_SIZE
    {
      var dataSize := DataSize();
      if dataSize == 0 {
        readPos, writePos := 0, 0;
      } else if FreeSize() < BUFFER_SIZE {
        ghost var p := Pending();
        Move(dataSize);
        readPos := 0;
        writePos := dataSize;
        assert Pending() == p;
      }
    }

    // memcpy, whose ranges must be apart
    method Move(size: nat)
      requires Valid() && size == DataSize() && size <= readPos
      modifies buffer
      ensures buffer[..size] == old(Pending())
    {
      var i := 0;
      while i < size
        invariant 0 <= i <= size
        invariant buffer[..i] == old(buffer[readPos..readPos + i])
        invariant forall j :: i <= j < buffer.Length ==> buffer[j] == old(buffer[j])
      {
        buffer[i] := buffer[readPos + i];
        i := i + 1;
      }
    }
  }

  class PacketSession {
    const recvBuffer: RecvBuffer
    // The packets handed to OnRecvPacket, in order.
    var handled: seq<seq<byte>>

    ghost predicate Valid()
      reads this, recvBuffer, recvBuffer.buffer
    {
      recvBuffer.Valid() && recvBuffer.FreeSize() >= BUFFER_SIZE
    }

    constructor ()
      ensures Valid() && handled == [] && recvBuffer.Pending() == []
      ensures fresh(recvBuffer) && fresh(recvBuffer.buffer)
    {
      recvBuffer := new RecvBuffer();
      handled := [];
    }

    // OnRecv. stuck stands for a loop that never ends.
    method OnRecv(buffer: seq<byte>) returns (processLen: nat, stuck: bool)
      modifies this`handled
      ensures processLen <= |buffer|
      ensures stuck == ScanOf(buffer).stuck
      ensures handled == old(handled) + ScanOf(buffer).packets
      ensures buffer[processLen..] == ScanOf(buffer).rest
    {
      hide ScanOf, PutBefore, ReadWord;
      processLen := 0;
      ghost var got: seq<seq<byte>> := [];
      assert buffer[0..] == buffer;
      PutBeforeTwice([], [], ScanOf(buffer));
      while true
        invariant processLen <= |buffer|
        invariant handled == old(handled) + got
        invariant ScanOf(buffer) == PutBefore(got, ScanOf(buffer[processLen..]))
        decreases |buffer| - processLen
      {
        var dataSize := |buffer| - processLen;
        ghost var b := buffer[processLen..];
        ScanEnds(b);
        PutBeforeParts(got, ScanOf(b));
        if dataSize < HEADER {
          break;
        }
        var size := ReadWord(buffer, processLen);
        WordAt(buffer, processLen);
        if dataSize < size {
          break;
        }
        if size == 0 {
          return processLen, true;
        }
        assert b[..size] == buffer[processLen..processLen + size];
        assert b[size..] == buffer[processLen + size..];
        ScanStep(b);
        PutBeforeTwice(got, [b[..size]], ScanOf(b[size..]));
        got := got + [b[..size]];
        handled := handled + [buffer[processLen..processLen + size]];
        processLen := processLen + size;
      }
      stuck := false;
    }

    // ProcessRecv: bytes is what one receive delivered. The session is given
    // up when that is nothing or more than there is room for.
    method ProcessRecv(bytes: seq<byte>) returns (connected: bool, stuck: bool)
      requires Valid() && |recvBuffer.Pending()| < TWO_16
      modifies this`handled, recvBuffer, recvBuffer.buffer
      ensures connected <==> 0 < |bytes| <= old(recvBuffer.FreeSize())
      ensures !connected ==>
                && handled == old(handled) && !stuck && Valid()
                && recvBuffer.Pending() == old(recvBuffer.Pending()) && recvBuffer.FreeSize() == old(recvBuffer.FreeSize())
      ensures connected ==>
                var s := ScanOf(old(recvBuffer.Pending()) + bytes);
                && stuck == s.stuck
                && handled == old(handled) + s.packets
                && (!stuck ==> Valid() && recvBuffer.Pending() == s.rest && |recvBuffer.Pending()| < TWO_16)
    {
      if |bytes| == 0 {
        return false, false;
      }
      var ok := recvBuffer.OnWrite(bytes);
      if !ok {
        return false, false;
      }
      ghost var b := recvBuffer.Pending();
      RestIsShort(b);
      var processLen;
      processLen, stuck := OnRecv(recvBuffer.Pending());
      connected := true;
      if stuck {
        return;
      }
      ok := recvBuffer.OnRead(processLen);
      assert ok && recvBuffer.Pending() == ScanOf(b).rest;
      recvBuffer.Clean();
    }

    // A whole stream, however it is cut into pieces: the packets handled are
    // those of the stream, and the rest is pending. n is the number of pieces
    // taken. Pieces no longer than the receive buffer's unit always fit; the
    // session ends at one that is empty or finds too little room.
    method ReceiveAll(pieces: seq<seq<byte>>) returns (n: nat, stuck: bool)
      requires Valid() && recvBuffer.Pending() == []
      modifies this`handled, recvBuffer, recvBuffer.buffer
      ensures n <= |pieces|
      ensures var s := ScanOf(Concat(pieces[..n]));
              && stuck == s.stuck && handled == old(handled) + s.packets
              && (!stuck ==> Valid() && recvBuffer.Pending() == s.rest)
      ensures !stuck && n < |pieces| ==> pieces[n] == [] || |pieces[n]| > recvBuffer.FreeSize()
      ensures !stuck && n < |pieces| ==> !(0 < |pieces[n]| <= BUFFER_SIZE)
    {
      hide ScanOf, Concat, PutBefore;
      n, stuck := 0, false;
      ghost var got: seq<seq<byte>> := [];
      NothingYet(pieces);
      while n < |pieces|
        invariant 0 <= n <= |pieces| && Valid() && |recvBuffer.Pending()| < TWO_16
        invariant handled == old(handled) + got
        invariant ScanOf(Concat(pieces[..n])) == Scan(got, recvBuffer.Pending(), false)
        invariant !stuck
      {
        ghost var before, pending := Concat(pieces[..n]), recvBuffer.Pending();
        NextPiece(pieces, n);
        var connected;
        connected, stuck := ProcessRecv(pieces[n]);
        if !connected {
          return;
        }
        ghost var s := ScanOf(pending + pieces[n]);
        ScanAppend(before, pieces[n]);
        PutBeforeParts(got, s);
        n := n + 1;
        if stuck {
          return;
        }
        got := got + s.packets;
      }
    }
  }

  lemma NothingYet(pieces: seq<seq<byte>>)
    ensures ScanOf(Concat(pieces[..0])) == Scan([], [], false)
  {
  }

  lemma {:induction false} ConcatSplit(x: seq<seq<byte>>, y: seq<seq<byte>>)
    ensures Concat(x + y) == Concat(x) + Concat(y)
    decreases |x|
  {
    if |x| == 0 {
      assert x + y == y;
    } else {
      ConcatSplit(x[1..], y);
      assert (x + y)[1..] == x[1..] + y;
    }
  }

  lemma NextPiece(pieces: seq<seq<byte>>, n: nat)
    requires n < |pieces|
    ensures Concat(pieces[..n + 1]) == Concat(pieces[..n]) + pieces[n]
  {
    assert pieces[..n + 1] == pieces[..n] + [pieces[n]];
    ConcatSplit(pieces[..n], [pieces[n]]);
    assert Concat([pieces[n]]) == pieces[n] + Concat([]);
  }

  lemma WordAt(b: seq<byte>, at: nat)
    requires at + HEADER <= |b|
    ensures ReadWord(b, at) == ReadWord(b[at..], 0)
  {
  }

  lemma {:induction false} StuckForGood(x: seq<byte>, y: seq<byte>)
    requires ScanOf(x).stuck
    ensures ScanOf(x + y).stuck
    decreases |x|
  {
    SameWord(x, y);
    var size := ReadWord(x, 0);
    if size > 0 {
      StuckForGood(x[size..], y);
      assert (x + y)[size..] == x[size..] + y;
    }
  }
}
