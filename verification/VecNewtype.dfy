/** The bounded byte queue of src/vecwrapper.rs. */
module VecNewtypes {
  import opened Bytes
  import opened Wrappers

  datatype BufferError = BufferTooSmall(expected: nat, actual: nat) | UsbTransferError

  class VecNewtype {
    var inner: seq<byte>
    var fakeSize: nat

    /** No more bytes than the capacity the queue claims. */
    predicate Bounded()
      reads this
    {
      |inner| <= fakeSize
    }

    constructor WithFakeCapacity(size: nat)
      ensures inner == [] && fakeSize == size
    {
      inner, fakeSize := [], size;
    }

    constructor FromVec(bytes: seq<byte>)
      ensures inner == bytes && Bounded()
      ensures fakeSize - |inner| >= |bytes| && fakeSize >= 512
      ensures |bytes| <= 256 ==> fakeSize == 512
      ensures |bytes| >= 256 ==> fakeSize - |inner| == |bytes|
    {
      inner := bytes;
      fakeSize := 2 * if |bytes| >= 256 then |bytes| else 256;
    }

    method PushByte(b: byte) returns (r: Result<nat, BufferError>)
      modifies this`inner
      ensures old(|inner|) < fakeSize ==> r == Ok(1) && inner == old(inner) + [b]
      ensures old(|inner|) >= fakeSize ==> r == Err(BufferTooSmall(fakeSize + 1, fakeSize)) && inner == old(inner)
    {
      if |inner| >= fakeSize {
        return Err(BufferTooSmall(fakeSize + 1, fakeSize));
      }
      inner := inner + [b];
      r := Ok(1);
    }

    method PullByte() returns (r: Result<byte, BufferError>)
      modifies this`inner
      ensures old(inner) != [] ==> r.Ok? && old(inner) == [r.value] + inner
      ensures old(inner) == [] ==> r == Err(BufferTooSmall(1, 0)) && inner == []
    {
      if inner != [] {
        r := Ok(inner[0]);
        inner := inner[1..];
      } else {
        r := Err(BufferTooSmall(1, 0));
      }
    }

    /** Empties the queue byte by byte. */
    method Clear()
      modifies this`inner
      ensures inner == []
    {
      while inner != []
        decreases |inner|
      {
        var _ := PullByte();
      }
    }
  }
}
