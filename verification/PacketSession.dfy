/** Receiving on a session: the buffer, the packet loop and the next receive, against the parser of
Framing. */
module PacketSessions {
  import opened Framing
  import opened RecvBuffers

  const BUFFER_SIZE := 0x1_0000

  class PacketSession {
    const recvBuffer: RecvBuffer
    const handler: Handler
    var connected: bool
    var delivered: seq<Packet>
    /** The length of the outstanding receive, if one is posted. */
    var posted: int

    ghost predicate Valid()
      reads this, recvBuffer
    {
      recvBuffer.Valid() && recvBuffer.bufferSize == BUFFER_SIZE
    }

    /** Between receives, a live session has a receive posted that is long enough for any packet, and
    less than one packet unread. */
    ghost predicate Waiting()
      reads this, recvBuffer
    {
      && Valid()
      && (connected ==>
        && posted == recvBuffer.FreeSize() >= BUFFER_SIZE
        && recvBuffer.DataSize() < MAX_PACKET_SIZE)
    }

    ghost function View(): Receiver
      requires Valid()
      reads this, recvBuffer, recvBuffer.data
    {
      Receiver(delivered, recvBuffer.Unread(), !connected)
    }

    /** A session that has just connected. */
    constructor (handler: Handler)
      ensures Waiting() && fresh(recvBuffer) && fresh(recvBuffer.data)
      ensures posted == 655360 && recvBuffer.bufferSize == 65536
      ensures this.handler == handler && View() == Receiver([], [], false)
    {
      var buffer := new RecvBuffer(BUFFER_SIZE);
      recvBuffer := buffer;
      this.handler := handler;
      connected := true;
      delivered := [];
      posted := buffer.FreeSize();
    }

    method Disconnect()
      modifies this`connected
      ensures !connected
    {
      connected := false;
    }

    method RegisterRecv()
      modifies this`posted
      ensures posted == if connected then recvBuffer.FreeSize() else 0
    {
      posted := if connected then recvBuffer.FreeSize() else 0;
    }

    /** The handler: it may close the session. */
    method OnRecvPacket(packet: Packet) returns (threw: bool)
      modifies this`delivered, this`connected
      ensures delivered == old(delivered) + [packet]
      ensures threw <==> OutcomeOf(handler, delivered) == Throws
      ensures connected == (old(connected) && OutcomeOf(handler, delivered) != Closes)
    {
      delivered := delivered + [packet];
      if OutcomeOf(handler, delivered) == Closes {
        Disconnect();
      }
      threw := OutcomeOf(handler, delivered) == Throws;
    }

    /** One turn of the packet loop on what is left of the buffer: whether to go on, and behind how many
    bytes. The loop does not look at the connection. */
    method TakePacket(rest: seq<byte>) returns (more: bool, n: int)
      modifies this`connected, this`delivered
      ensures 0 <= n <= |rest|
      ensures more ==> n > 0
      ensures more ==>
        Parse(handler, old(!connected), old(delivered), rest) == Parse(handler, !connected, delivered, rest[n..])
      ensures !more ==>
        Parse(handler, old(!connected), old(delivered), rest) == Receiver(delivered, rest[n..], !connected)
    {
      if |rest| < HEADER_SIZE {
        return false, 0;
      }
      var size := SizeField(rest);
      if size < HEADER_SIZE {
        Disconnect();
        return false, |rest|;
      }
      if size > MAX_PACKET_SIZE {
        Disconnect();
        return false, |rest|;
      }
      if |rest| < size {
        return false, 0;
      }
      var threw := OnRecvPacket(rest[..size]);
      if threw {
        Disconnect();
        return false, |rest|;
      }
      return true, size;
    }

    /** The packet loop. */
    method OnRecv(buffer: seq<byte>) returns (processLen: int)
      modifies this`connected, this`delivered
      ensures 0 <= processLen <= |buffer|
      ensures Parse(handler, old(!connected), old(delivered), buffer)
        == Receiver(delivered, buffer[processLen..], !connected)
    {
      processLen := 0;
      ghost var goal := Parse(handler, !connected, delivered, buffer);
      var more, rest := true, buffer;
      while more
        invariant 0 <= processLen <= |buffer| && rest == buffer[processLen..]
        invariant more ==> goal == Parse(handler, !connected, delivered, rest)
        invariant !more ==> goal == Receiver(delivered, rest, !connected)
        decreases |rest|, more
      {
        var n;
        more, n := TakePacket(rest);
        rest, processLen := rest[n..], processLen + n;
      }
    }

    /** Deliver what has been received, make room and wait for more. */
    method Consume()
      requires Valid()
      modifies this, recvBuffer, recvBuffer.data
      ensures Waiting()
      ensures View() == Parse(handler, old(!connected), old(delivered), old(recvBuffer.Unread()))
    {
      var readSpan := recvBuffer.Unread();
      ParseKeepsLittle(handler, !connected, delivered, readSpan);
      var processLen := OnRecv(readSpan);
      var read := 0 <= processLen <= |readSpan|;
      if read {
        read := recvBuffer.OnRead(processLen);
      }
      if !read {
        assert false; // the packet loop never consumes more than it was given
      }
      recvBuffer.Clean();
      RegisterRecv();
    }

    /** A receive has completed with `numOfBytes` bytes in the write span. */
    method ProcessRecv(numOfBytes: nat)
      requires Valid()
      modifies this, recvBuffer, recvBuffer.data
      ensures Waiting()
      ensures numOfBytes == 0 || numOfBytes > old(recvBuffer.FreeSize()) ==>
        View() == old(View()).(closed := true)
      ensures 0 < numOfBytes <= old(recvBuffer.FreeSize()) ==> (
        var s := old(recvBuffer.Unread() + recvBuffer.data[recvBuffer.writePos..recvBuffer.writePos + numOfBytes]);
        View() == Parse(handler, old(!connected), old(delivered), s))
    {
      if numOfBytes == 0 {
        Disconnect();
        return;
      }
      ghost var before := old(recvBuffer.Unread());
      var written := recvBuffer.OnWrite(numOfBytes);
      if !written {
        Disconnect();
        assert recvBuffer.Unread() == before;
        return;
      }
      ghost var came := old(recvBuffer.data[recvBuffer.writePos..recvBuffer.writePos + numOfBytes]);
      assert recvBuffer.Unread() == before + came;
      Consume();
    }

    /** The transport completes the posted receive with some bytes, as many as fit the span. */
    method Receive(chunk: seq<byte>)
      requires Waiting() && connected && 0 < |chunk| <= posted
      modifies this, recvBuffer, recvBuffer.data
      ensures Waiting() && View() == Feed(handler, old(View()), chunk)
      ensures connected ==> posted >= 65536 && recvBuffer.DataSize() < 16384
    {
      recvBuffer.FillWriteSpan(chunk);
      ProcessRecv(|chunk|);
    }
  }

  /** The transport delivers some more of the stream, of which `i` bytes have come. */
  method ReceiveSome(session: PacketSession, stream: seq<byte>, i: nat) returns (j: nat)
    requires i < |stream| && session.Waiting() && session.connected
    requires Between(session.handler, session.View(), stream[..i])
    modifies session, session.recvBuffer, session.recvBuffer.data
    ensures i < j <= |stream| && session.Waiting()
    ensures Between(session.handler, session.View(), stream[..j])
  {
    j :| i < j <= i + session.posted && j <= |stream|;
    assert stream[..i] + stream[i..j] == stream[..j];
    FeedStaysBetween(session.handler, session.View(), stream[..i], stream[i..j]);
    session.Receive(stream[i..j]);
  }

  /** A whole connection: however the transport cuts the stream, the session stays connected exactly when
  parsing the stream at once does, delivers no less than up to the first packet that closes it and no
  more than parsing at once, and delivers just that unless packets follow one that closes it. */
  method ReceiveStream(handler: Handler, stream: seq<byte>) returns (delivered: seq<Packet>, connected: bool)
    ensures connected == !ParseAll(handler, stream).closed
    ensures ParseAll(Strict(handler), stream).delivered <= delivered <= ParseAll(handler, stream).delivered
    ensures ClosesOnlyLast(handler, 0, ParseAll(handler, stream).delivered) ==>
      delivered == ParseAll(handler, stream).delivered
  {
    var session := new PacketSession(handler);
    StartsBetween(handler);
    var i := 0;
    while i < |stream| && session.connected
      invariant 0 <= i <= |stream|
      invariant fresh(session) && fresh(session.recvBuffer) && fresh(session.recvBuffer.data)
      invariant session.Waiting() && session.handler == handler
      invariant Between(handler, session.View(), stream[..i])
    {
      i := ReceiveSome(session, stream, i);
    }
    BetweenAtEnd(handler, session.View(), stream, i);
    return session.delivered, session.connected;
  }

  /** The printer, writing into the buffer that is sent. Both sizes are cut to 16 bits, and for lengths
  just below a multiple of 64 KiB the source would write behind the end of the buffer; the model returns
  null there. The serializer writes nothing if the payload is longer than the size it is given. */
  method MakeSendBuffer(payload: seq<byte>, pktId: uint16) returns (buffer: array?<byte>)
    ensures buffer == null <==> |payload| % 0x1_0000 > 0x1_0000 - 1 - HEADER_SIZE
    ensures buffer != null ==> fresh(buffer) && InBuffer(|payload|) && buffer[..] == Sent(pktId, payload)
    ensures buffer != null && |payload| >= 0x1_0000 ==> forall k :: HEADER_SIZE <= k < buffer.Length ==> buffer[k] == 0
    ensures buffer != null && |payload| <= 0x1_0000 - 1 - HEADER_SIZE ==> buffer[..] == Frame(pktId, payload)
  {
    InBufferIff(|payload|);
    var dataSize := |payload| % 0x1_0000;
    var packetSize := (dataSize + HEADER_SIZE) % 0x1_0000;
    if HEADER_SIZE + dataSize > packetSize {
      return null;
    }
    buffer := new byte[packetSize](i => 0);
    WriteHeader(buffer, packetSize, pktId);
    assert buffer[HEADER_SIZE..] == Zeros(dataSize);
    SerializeToArray(payload, buffer, dataSize);
    assert buffer[..] == buffer[..HEADER_SIZE] + buffer[HEADER_SIZE..];
  }

  /** The serializer refuses to write more than the size it is given. */
  method SerializeToArray(payload: seq<byte>, buffer: array<byte>, size: nat)
    requires buffer.Length == HEADER_SIZE + size && |payload| >= size
    modifies buffer
    ensures buffer[..HEADER_SIZE] == old(buffer[..HEADER_SIZE])
    ensures buffer[HEADER_SIZE..] == if |payload| == size then payload else old(buffer[HEADER_SIZE..])
  {
    if |payload| > size {
      return;
    }
    forall k | 0 <= k < |payload| {
      buffer[HEADER_SIZE + k] := payload[k];
    }
  }

  method WriteHeader(buffer: array<byte>, size: uint16, id: uint16)
    requires buffer.Length >= HEADER_SIZE
    modifies buffer
    ensures buffer[..HEADER_SIZE] == [Low(size), High(size), Low(id), High(id)]
    ensures buffer[HEADER_SIZE..] == old(buffer[HEADER_SIZE..])
  {
    buffer[0], buffer[1] := Low(size), High(size);
    buffer[2], buffer[3] := Low(id), High(id);
  }
}
