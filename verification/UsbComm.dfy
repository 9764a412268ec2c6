/** The transfer shim of src/usb_comm.rs: whole buffers in and out of a bulk endpoint. */
module UsbComm {
  import opened Bytes
  import opened Wrappers
  import opened VecNewtypes

  /** What the IN endpoint does: it delivers bytes, or fails. */
  datatype Incoming = Delivers(bytes: seq<byte>) | InFails

  /** What the OUT endpoint does: it takes the bytes and reports a count, or fails. */
  datatype Outgoing = Accepts(count: nat) | OutFails

  /** The zero-filled shim of `size` bytes after the endpoint has delivered `bytes` into it. */
  function Shim(bytes: seq<byte>, size: nat): (r: seq<byte>)
    ensures |r| == size
    ensures forall i :: 0 <= i < size ==> r[i] == if i < |bytes| then bytes[i] else 0
  {
    seq(size, i requires 0 <= i => if i < |bytes| then bytes[i] else 0)
  }

  /** Filling the shim with as many bytes as it has room for hands on exactly those. */
  lemma ShimExact(bytes: seq<byte>)
    ensures Shim(bytes, |bytes|) == bytes
  {
  }

  method PullBytes(shim: array<byte>, wire: Incoming) returns (r: Result<nat, BufferError>)
    requires shim[..] == Shim([], shim.Length)
    modifies shim
    ensures r.Ok? <==> shim.Length > 0 && wire.Delivers?
    ensures r.Ok? ==> shim[..] == Shim(wire.bytes, shim.Length)
    ensures r.Ok? ==> r.value == if |wire.bytes| < shim.Length then |wire.bytes| else shim.Length
  {
    if shim.Length == 0 {
      return Err(UsbTransferError);
    }
    match wire
    case InFails =>
      return Err(UsbTransferError);
    case Delivers(bytes) =>
      var n := if |bytes| < shim.Length then |bytes| else shim.Length;
      forall i | 0 <= i < n {
        shim[i] := bytes[i];
      }
      assert shim[..] == Shim(bytes, shim.Length);
      return Ok(n);
  }

  /**
   Fills the free space of `buffer` from the endpoint. A short delivery is padded with
   zeros, and a failed one leaves the buffer alone.
   */
  method InTransfer(buffer: VecNewtype, wire: Incoming) returns (r: Result<nat, BufferError>)
    requires buffer.Bounded()
    modifies buffer`inner
    ensures var free := buffer.fakeSize - |old(buffer.inner)|;
            && (r.Ok? <==> free > 0 && wire.Delivers?)
            && (r.Ok? ==> buffer.inner == old(buffer.inner) + Shim(wire.bytes, free))
            && (r.Ok? ==> r.value == if |wire.bytes| < free then |wire.bytes| else free)
            && (r.Err? ==> buffer.inner == old(buffer.inner))
  {
    ghost var before := buffer.inner;
    var toGet := buffer.fakeSize - |buffer.inner|;
    var shim := new byte[toGet](_ => 0);
    r := PullBytes(shim, wire);
    if r.Err? {
      return;
    }
    var idx := 0;
    while buffer.fakeSize > |buffer.inner|
      invariant 0 <= idx <= toGet && idx == |buffer.inner| - |before|
      invariant shim[..] == Shim(wire.bytes, toGet)
      invariant buffer.inner == before + shim[..idx]
    {
      var _ := buffer.PushByte(shim[idx]);
      idx := idx + 1;
    }
    assert shim[..idx] == shim[..];
  }

  /**
   Drains `bytes` into one transfer, in order. The buffer is empty afterwards, also when
   the endpoint refuses the transfer.
   */
  method OutTransfer(bytes: VecNewtype, wire: Outgoing) returns (r: Result<nat, BufferError>, sent: seq<byte>)
    modifies bytes`inner
    ensures bytes.inner == [] && sent == old(bytes.inner)
    ensures r.Ok? <==> old(bytes.inner) != [] && wire.Accepts?
    ensures r.Ok? ==> r.value == wire.count
  {
    ghost var before := bytes.inner;
    var shim := new byte[|bytes.inner|](_ => 0);
    var idx := 0;
    while |bytes.inner| > 0
      invariant idx + |bytes.inner| == |before| == shim.Length
      invariant before == shim[..idx] + bytes.inner
    {
      var bt := bytes.PullByte();
      shim[idx] := bt.value;
      idx := idx + 1;
    }
    sent := shim[..];
    assert sent == shim[..idx];
    if shim.Length == 0 || wire.OutFails? {
      r := Err(UsbTransferError);
    } else {
      r := Ok(wire.count);
    }
  }

  /** What one buffer sends, another with that much free space receives, byte for byte. */
  method Relay(a: VecNewtype, b: VecNewtype) returns (r: Result<nat, BufferError>)
    requires a != b && b.Bounded() && |a.inner| == b.fakeSize - |b.inner| > 0
    modifies a`inner, b`inner
    ensures a.inner == []
    ensures b.inner == old(b.inner) + old(a.inner) && |b.inner| == b.fakeSize
    ensures r == Ok(|old(a.inner)|)
  {
    var _, sent := OutTransfer(a, Accepts(|a.inner|));
    ShimExact(sent);
    r := InTransfer(b, Delivers(sent));
  }
}
