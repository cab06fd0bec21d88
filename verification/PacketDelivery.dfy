// From one side to the other: a message sent under the id the generator gave
// it reaches, on the peer generated with the prefixes exchanged, exactly the
// handler of its own name, with an equal message.
module PacketDelivery {
  import opened Wrappers
  import opened PacketIds
  import opened PacketFraming
  import opened PacketStream
  import opened Varint
  import opened MessageLoop
  import L = LoginMessage
  import C = ChatMessage

  ghost predicate Increasing(ps: seq<Packet>, lo: int, hi: int) {
    && (forall k :: 0 <= k < |ps| ==> lo <= ps[k].id < hi)
    && (forall j, k :: 0 <= j < k < |ps| ==> ps[j].id < ps[k].id)
  }

  // The ids of the received packets increase, as do those of the sent ones,
  // and no packet is both.
  ghost predicate ListsOrdered(a: Assignment, startId: int) {
    && startId <= a.next
    && Increasing(a.recv, startId, a.next) && Increasing(a.send, startId, a.next)
    && forall j, k :: 0 <= j < |a.recv| && 0 <= k < |a.send| ==> a.recv[j].id != a.send[k].id
  }

  lemma {:induction false} ListsIncrease(lines: seq<string>, startId: int, recv: string, send: string)
    ensures ListsOrdered(Assigned(lines, startId, recv, send), startId)
  {
    if |lines| > 0 {
      ListsIncrease(lines[..|lines| - 1], startId, recv, send);
      LineKeepsOrder(Assigned(lines[..|lines| - 1], startId, recv, send), lines[|lines| - 1], startId, recv, send);
      hide ListsOrdered, AfterLine;
    }
  }

  lemma LineKeepsOrder(a: Assignment, line: string, startId: int, recv: string, send: string)
    requires ListsOrdered(a, startId)
    ensures ListsOrdered(AfterLine(a, line, recv, send), startId)
  {
    hide ListsOrdered, IsMessage, IsNamed, Name, StartsWith;
    if IsNamed(line) {
      OneMore(a, startId, Packet(Name(line), a.next));
    }
    EndOnly(a, startId);
  }

  lemma OneMore(a: Assignment, startId: int, p: Packet)
    requires ListsOrdered(a, startId) && p.id == a.next
    ensures ListsOrdered(a.(recv := a.recv + [p], total := a.total + [p], next := a.next + 1), startId)
    ensures ListsOrdered(a.(send := a.send + [p], total := a.total + [p], next := a.next + 1), startId)
  {
  }

  lemma EndOnly(a: Assignment, startId: int)
    requires ListsOrdered(a, startId)
    ensures ListsOrdered(a.(ok := false), startId)
  {
  }

  // Both sides of a generation run over the same lines.
  ghost predicate Generated(mine: Assignment, peer: Assignment, lines: seq<string>, startId: int, recv: string, send: string) {
    && mine == Assigned(lines, startId, recv, send) && peer == Assigned(lines, startId, send, recv)
    && !StartsWith(recv, send) && !StartsWith(send, recv)
    && 0 <= startId && mine.next <= TABLE_SIZE
  }

  lemma PeerKnowsMine(mine: Assignment, peer: Assignment, lines: seq<string>, startId: int, recv: string, send: string)
    requires Generated(mine, peer, lines, startId, recv, send)
    ensures peer.recv == mine.send && peer.send == mine.recv && peer.total == mine.total
    ensures IdsDiffer(peer.recv) && Increasing(peer.recv, startId, TABLE_SIZE)
    ensures forall j, k :: 0 <= j < |mine.recv| && 0 <= k < |mine.send| ==> mine.recv[j].id != mine.send[k].id
  {
    hide Assigned, Filter, StartsWith;
    DistinctPrefixesNeverClash(mine.total, recv, send);
    SwapExchangesLists(lines, startId, recv, send);
    SwapKeepsIds(lines, startId, recv, send);
    ListsIncrease(lines, startId, recv, send);
  }

  // What I send reaches its own handler on the peer, with the bytes sent.
  lemma SentReachesItsHandler(mine: Assignment, peer: Assignment, lines: seq<string>, startId: int,
                              recv: string, send: string, k: nat, data: seq<byte>)
    requires Generated(mine, peer, lines, startId, recv, send)
    requires k < |mine.send| && Framable(data)
    ensures 0 <= mine.send[k].id < TABLE_SIZE
    ensures DispatchOf(peer.recv, Frame(data, mine.send[k].id), |data| + HEADER) == Dispatched(Handle(mine.send[k].name), data)
  {
    PeerKnowsMine(mine, peer, lines, startId, recv, send);
    hide Generated, Frame, HandlerOf, ReadWord;
    var id := mine.send[k].id;
    assert peer.recv[k].id == id;
    HandlersAreExact(peer.recv, k);
    FrameReads(data, id, []);
    assert Frame(data, id) + [] == Frame(data, id);
  }

  // Every other id of the table, the ids of what the peer itself sends among
  // them, goes to the handler of invalid packets.
  lemma OthersAreInvalid(mine: Assignment, peer: Assignment, lines: seq<string>, startId: int,
                         recv: string, send: string, id: nat, data: seq<byte>)
    requires Generated(mine, peer, lines, startId, recv, send)
    requires id < TABLE_SIZE && Framable(data)
    requires forall k :: 0 <= k < |mine.send| ==> mine.send[k].id != id
    ensures DispatchOf(peer.recv, Frame(data, id), |data| + HEADER) == Dispatched(Invalid, data)
    ensures forall j :: 0 <= j < |mine.recv| ==>
              HandlerOf(peer.recv, mine.recv[j].id) == Invalid
  {
    PeerKnowsMine(mine, peer, lines, startId, recv, send);
    hide Generated, Frame, HandlerOf, ReadWord;
    OtherIdsAreInvalid(peer.recv, id);
    FrameReads(data, id, []);
    assert Frame(data, id) + [] == Frame(data, id);
    forall j | 0 <= j < |mine.recv| ensures HandlerOf(peer.recv, mine.recv[j].id) == Invalid {
      OtherIdsAreInvalid(peer.recv, mine.recv[j].id);
    }
  }

  // A login answer of the server, through its id, its frame and the client's
  // table, is the same message at Handle_S_LOGIN.
  lemma LoginArrives(lines: seq<string>, mine: Assignment, peer: Assignment, k: nat, utf8: Utf8Check, m: L.Login)
    requires Generated(mine, peer, lines, 1000, "C_", "S_")
    requires k < |mine.send| && mine.send[k].name == "S_LOGIN"
    requires L.Proper(m) && L.TextOk(utf8, m) && Framable(L.Serialize(m))
    ensures 0 <= mine.send[k].id < TABLE_SIZE
    ensures var d := DispatchOf(peer.recv, Frame(L.Serialize(m), mine.send[k].id), |L.Serialize(m)| + HEADER);
            d.Dispatched? && d.handler == Handle("S_LOGIN") && L.Parse(utf8, d.data) == Some(m)
  {
    hide Generated, L.Serialize, L.Parse, L.Proper, L.TextOk, Frame, DispatchOf;
    SentReachesItsHandler(mine, peer, lines, 1000, "C_", "S_", k, L.Serialize(m));
    L.RoundTrip(utf8, m);
  }

  lemma ChatArrives(lines: seq<string>, mine: Assignment, peer: Assignment, k: nat, utf8: Utf8Check, m: C.Chat)
    requires Generated(mine, peer, lines, 1000, "C_", "S_")
    requires k < |mine.send| && mine.send[k].name == "S_CHAT"
    requires C.Proper(m) && C.TextOk(utf8, m) && Framable(C.Serialize(m))
    ensures 0 <= mine.send[k].id < TABLE_SIZE
    ensures var d := DispatchOf(peer.recv, Frame(C.Serialize(m), mine.send[k].id), |C.Serialize(m)| + HEADER);
            d.Dispatched? && d.handler == Handle("S_CHAT") && C.Parse(utf8, d.data) == Some(m)
  {
    hide Generated, C.Serialize, C.Parse, C.Proper, C.TextOk, Frame, DispatchOf;
    SentReachesItsHandler(mine, peer, lines, 1000, "C_", "S_", k, C.Serialize(m));
    C.RoundTrip(utf8, m);
  }

  // ---------- a whole conversation ----------

  // Which of my packets is sent, and its serialized message.
  datatype Message = Message(packet: nat, data: seq<byte>)

  ghost predicate Sendable(mine: Assignment, w: Message) {
    && w.packet < |mine.send| && Framable(w.data)
    && 0 <= mine.send[w.packet].id < TABLE_SIZE
  }

  ghost function FrameOf(mine: Assignment, w: Message): seq<byte>
    requires Sendable(mine, w)
  {
    Frame(w.data, mine.send[w.packet].id)
  }

  ghost function Frames(mine: Assignment, ws: seq<Message>): (fs: seq<seq<byte>>)
    requires forall w :: w in ws ==> Sendable(mine, w)
    ensures |fs| == |ws|
  {
    if |ws| == 0 then [] else [FrameOf(mine, ws[0])] + Frames(mine, ws[1..])
  }

  lemma {:induction false} FramesAt(mine: Assignment, ws: seq<Message>, i: nat)
    requires forall w :: w in ws ==> Sendable(mine, w)
    requires i < |ws|
    ensures Frames(mine, ws)[i] == FrameOf(mine, ws[i])
  {
    if i > 0 {
      FramesAt(mine, ws[1..], i - 1);
    }
  }

  lemma FrameOfIsFrame(mine: Assignment, w: Message)
    requires Sendable(mine, w)
    ensures IsFrame(FrameOf(mine, w))
  {
    FrameReads(w.data, mine.send[w.packet].id, []);
    assert FrameOf(mine, w) + [] == FrameOf(mine, w);
  }

  // The packet goes to the handler of what was sent, with its bytes.
  ghost predicate Arrived(mine: Assignment, peer: Assignment, w: Message, packet: seq<byte>) {
    && Sendable(mine, w) && |packet| >= HEADER
    && DispatchOf(peer.recv, packet, |packet|) == Dispatched(Handle(mine.send[w.packet].name), w.data)
  }

  // However the bytes of any sequence of packets are cut into pieces on the
  // way, the peer dispatches each of them once, in order, to its own handler
  // and with its own bytes, and nothing is left over.
  lemma ConversationArrives(mine: Assignment, peer: Assignment, lines: seq<string>, startId: int,
                            recv: string, send: string, ws: seq<Message>, pieces: seq<seq<byte>>)
    requires Generated(mine, peer, lines, startId, recv, send)
    requires forall w :: w in ws ==> Sendable(mine, w)
    requires Concat(pieces) == Concat(Frames(mine, ws))
    ensures var s := ScanOf(Concat(pieces));
            && |s.packets| == |ws| && s.rest == [] && !s.stuck
            && forall i :: 0 <= i < |ws| ==> Arrived(mine, peer, ws[i], s.packets[i])
  {
    var fs := Frames(mine, ws);
    hide Generated, Concat, ScanOf, DispatchOf, Frames;
    forall i | 0 <= i < |ws|
      ensures Arrived(mine, peer, ws[i], fs[i]) && IsFrame(fs[i])
    {
      var w := ws[i];
      assert w in ws && Sendable(mine, w);
      FramesAt(mine, ws, i);
      FrameOfIsFrame(mine, w);
      SentReachesItsHandler(mine, peer, lines, startId, recv, send, w.packet, w.data);
    }
    PacketsAreCutOut(fs);
  }

  // The receiving session at work: whatever pieces it is given, it never hangs,
  // and if it takes them all, as it does when none is empty or longer than the
  // unit of its buffer, it has handled exactly the packets sent.
  method ReceiveConversation(session: PacketSession, ghost mine: Assignment, ghost peer: Assignment,
                             ghost lines: seq<string>, ghost startId: int, ghost recv: string, ghost send: string,
                             ghost ws: seq<Message>, pieces: seq<seq<byte>>) returns (n: nat)
    requires Generated(mine, peer, lines, startId, recv, send)
    requires forall w :: w in ws ==> Sendable(mine, w)
    requires Concat(pieces) == Concat(Frames(mine, ws))
    requires session.Valid() && session.recvBuffer.Pending() == []
    modifies session`handled, session.recvBuffer, session.recvBuffer.buffer
    ensures n <= |pieces| && session.Valid()
    ensures (forall p :: p in pieces ==> 0 < |p| <= BUFFER_SIZE) ==> n == |pieces|
    ensures n == |pieces| ==>
              && session.recvBuffer.Pending() == []
              && |session.handled| == |old(session.handled)| + |ws|
              && session.handled[..|old(session.handled)|] == old(session.handled)
              && forall i :: 0 <= i < |ws| ==> Arrived(mine, peer, ws[i], session.handled[|old(session.handled)| + i])
  {
    hide Generated, Sendable, Concat, ScanOf, Frames, Arrived;
    ConversationArrives(mine, peer, lines, startId, recv, send, ws, pieces);
    var stuck;
    n, stuck := session.ReceiveAll(pieces);
    PrefixIsNotStuck(pieces, n);
    assert n == |pieces| ==> pieces[..n] == pieces;
  }

  lemma PrefixIsNotStuck(pieces: seq<seq<byte>>, n: nat)
    requires n <= |pieces| && !ScanOf(Concat(pieces)).stuck
    ensures !ScanOf(Concat(pieces[..n])).stuck
  {
    hide ScanOf, Concat;
    assert pieces == pieces[..n] + pieces[n..];
    ConcatSplit(pieces[..n], pieces[n..]);
    if ScanOf(Concat(pieces[..n])).stuck {
      StuckForGood(Concat(pieces[..n]), Concat(pieces[n..]));
    }
  }
}
