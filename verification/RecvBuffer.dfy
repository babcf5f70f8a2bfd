/** The compacting receive buffer of a session. */
module RecvBuffers {
  import opened Framing

  const BUFFER_COUNT := 10

  class RecvBuffer {
    const bufferSize: nat
    const data: array<byte>
    var readPos: nat
    var writePos: nat

    ghost predicate Valid()
      reads this
    {
      && bufferSize > 0
      && data.Length == bufferSize * BUFFER_COUNT
      && readPos <= writePos <= data.Length
    }

    constructor (size: nat)
      requires size > 0
      ensures Valid() && fresh(data) && bufferSize == size
      ensures Unread() == [] && FreeSize() == size * BUFFER_COUNT
    {
      bufferSize := size;
      data := new byte[size * BUFFER_COUNT];
      readPos, writePos := 0, 0;
    }

    function DataSize(): int
      reads this
    {
      writePos - readPos
    }

    function FreeSize(): int
      reads this
    {
      data.Length - writePos
    }

    /** The bytes received and not yet consumed. */
    function Unread(): (s: seq<byte>)
      requires readPos <= writePos <= data.Length
      reads this, data
      ensures |s| == DataSize()
    {
      data[readPos..writePos]
    }

    /** Copies the unread bytes to the front. The copy runs forward over an overlapping range, so a byte
    must be read before it is overwritten. */
    method CopyDown(dataSize: nat)
      requires Valid() && dataSize == DataSize()
      modifies data
      ensures data[..dataSize] == old(Unread())
    {
      var i := 0;
      while i < dataSize
        invariant 0 <= i <= dataSize
        invariant data[..i] == old(data[readPos..readPos + i])
        invariant forall k :: readPos + i <= k < writePos ==> data[k] == old(data[k])
      {
        data[i] := data[readPos + i];
        i := i + 1;
      }
    }

    /** Makes room by moving the unread bytes to the front when less than one buffer size is free. */
    method Clean()
      requires Valid()
      modifies this, data
      ensures Valid() && Unread() == old(Unread())
      ensures old(Unread()) == [] ==> readPos == 0 && writePos == 0
      ensures old(Unread()) != [] && old(FreeSize()) < bufferSize ==> readPos == 0 && writePos == old(DataSize())
      ensures old(Unread()) != [] && old(FreeSize()) >= bufferSize ==>
        readPos == old(readPos) && writePos == old(writePos) && data[..] == old(data[..])
    {
      var dataSize := DataSize();
      if dataSize == 0 {
        readPos, writePos := 0, 0;
      } else if FreeSize() < bufferSize {
        CopyDown(dataSize);
        readPos, writePos := 0, dataSize;
      }
    }

    method OnRead(numOfBytes: nat) returns (ok: bool)
      requires Valid()
      modifies this
      ensures Valid() && ok == (numOfBytes <= |old(Unread())|)
      ensures Unread() == if ok then old(Unread())[numOfBytes..] else old(Unread())
      ensures writePos == old(writePos) && (!ok ==> readPos == old(readPos))
    {
      if numOfBytes > DataSize() {
        return false;
      }
      readPos := readPos + numOfBytes;
      return true;
    }

    method OnWrite(numOfBytes: nat) returns (ok: bool)
      requires Valid()
      modifies this
      ensures Valid() && ok == (numOfBytes <= old(FreeSize()))
      ensures ok ==> Unread() == old(Unread() + data[writePos..writePos + numOfBytes])
      ensures !ok ==> Unread() == old(Unread()) && writePos == old(writePos)
      ensures readPos == old(readPos)
    {
      if numOfBytes > FreeSize() {
        return false;
      }
      writePos := writePos + numOfBytes;
      return true;
    }

    /** What a completed receive does to the span that was handed out for it. */
    method FillWriteSpan(chunk: seq<byte>)
      requires Valid() && |chunk| <= FreeSize()
      modifies data
      ensures Valid() && Unread() == old(Unread())
      ensures data[writePos..writePos + |chunk|] == chunk
    {
      forall k | 0 <= k < |chunk| {
        data[writePos + k] := chunk[k];
      }
    }
  }
}
