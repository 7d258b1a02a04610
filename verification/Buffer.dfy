/** A big-endian writer over a byte buffer that grows by doubling. */
module Buffer {
  import opened Bytes

  class BufferWriter {
    var buffer: array<byte>
    var position: nat

    ghost predicate Valid()
      reads this, buffer
    {
      position <= buffer.Length
    }

    /** What has been written. */
    ghost function Contents(): seq<byte>
      requires Valid()
      reads this, buffer
    {
      buffer[..position]
    }

    constructor (initialCapacity: nat)
      ensures Valid() && Contents() == [] && buffer.Length == initialCapacity && fresh(buffer)
    {
      buffer := new byte[initialCapacity](_ => 0);
      position := 0;
    }

    /** Doubles the capacity until the bytes fit; an empty buffer would never get there. */
    method EnsureCapacity(additionalBytes: nat)
      requires Valid()
      requires buffer.Length > 0 || additionalBytes == 0
      modifies this
      ensures Valid() && position + additionalBytes <= buffer.Length
      ensures Contents() == old(Contents()) && position == old(position)
      ensures buffer == old(buffer) || fresh(buffer)
      ensures position + additionalBytes <= old(buffer.Length) ==> buffer == old(buffer)
      ensures buffer.Length > 0 || buffer == old(buffer)
    {
      var required := position + additionalBytes;
      if required <= buffer.Length { return; }
      var newCapacity := buffer.Length;
      while newCapacity < required
        invariant newCapacity >= buffer.Length > 0
        decreases required - newCapacity
      {
        newCapacity := newCapacity * 2;
      }
      var newBuffer := new byte[newCapacity](_ => 0);
      forall k | 0 <= k < buffer.Length {
        newBuffer[k] := buffer[k];
      }
      assert newBuffer[..position] == buffer[..position];
      buffer := newBuffer;
    }

    method WriteBytes(data: seq<byte>)
      requires Valid()
      requires buffer.Length > 0 || data == []
      modifies this, buffer
      ensures Valid() && Contents() == old(Contents()) + data
      ensures position == old(position) + |data|
      ensures buffer == old(buffer) || fresh(buffer)
      ensures old(position) + |data| <= old(buffer.Length) ==> buffer == old(buffer)
      ensures buffer.Length > 0 || buffer == old(buffer)
    {
      EnsureCapacity(|data|);
      ghost var before := buffer[..position];
      forall k | 0 <= k < |data| {
        buffer[position + k] := data[k];
      }
      assert buffer[..position + |data|] == before + data;
      position := position + |data|;
    }

    method WriteUint8(value: int)
      requires Valid() && buffer.Length > 0
      modifies this, buffer
      ensures Valid() && Contents() == old(Contents()) + [value % 256]
      ensures position == old(position) + 1
      ensures (buffer == old(buffer) || fresh(buffer)) && buffer.Length > 0
      ensures old(position) + 1 <= old(buffer.Length) ==> buffer == old(buffer)
    {
      WriteBytes([value % 256]);
    }

    method WriteUint16(value: int)
      requires Valid() && buffer.Length > 0
      modifies this, buffer
      ensures Valid() && Contents() == old(Contents()) + BE16(value)
      ensures position == old(position) + 2
      ensures (buffer == old(buffer) || fresh(buffer)) && buffer.Length > 0
      ensures old(position) + 2 <= old(buffer.Length) ==> buffer == old(buffer)
    {
      WriteBytes(BE16(value));
    }

    /** `setUint32` and `setInt32` store the same low 32 bits. */
    method WriteUint32(value: int)
      requires Valid() && buffer.Length > 0
      modifies this, buffer
      ensures Valid() && Contents() == old(Contents()) + BE32(value)
      ensures position == old(position) + 4
      ensures (buffer == old(buffer) || fresh(buffer)) && buffer.Length > 0
      ensures old(position) + 4 <= old(buffer.Length) ==> buffer == old(buffer)
    {
      WriteBytes(BE32(value));
    }

    method ToUint8Array() returns (bytes: seq<byte>)
      requires Valid()
      ensures bytes == Contents()
    {
      bytes := buffer[..position];
    }
  }
}
