/** The two Java streams TaskConf serialises with: a DataOutputStream over
    a ByteArrayOutputStream, and a DataInputStream over a
    ByteArrayInputStream. Only the operations TaskConf uses are modelled:
    `writeInt`, `write`, `flush`, `toByteArray`, `readInt` and `readFully`. */
module DataStreams {
  import opened Jvm

  /** The four bytes `writeInt` emits for `v`: its 32-bit two's-complement
      pattern, high byte first. */
  function Int32Bytes(v: int): (b: seq<Byte>)
    requires IsInt32(v)
    ensures |b| == 4
  {
    var u := if v < 0 then v + 0x1_0000_0000 else v;
    var u1 := u / 256;
    var u2 := u1 / 256;
    [u2 / 256, u2 % 256, u1 % 256, u % 256]
  }

  /** The value `readInt` assembles from four bytes, high byte first, read
      as a signed 32-bit int. */
  function Int32Of(b: seq<Byte>): (v: int)
    requires |b| == 4
    ensures IsInt32(v)
  {
    var u := ((b[0] as int * 256 + b[1]) * 256 + b[2]) * 256 + b[3];
    if u >= 0x8000_0000 then u - 0x1_0000_0000 else u
  }

  /** `readInt` undoes `writeInt`, and the two are inverse bijections
      between ints and 4-byte groups. */
  lemma Int32RoundTrip(v: int, b: seq<Byte>)
    requires IsInt32(v) && |b| == 4
    ensures Int32Of(Int32Bytes(v)) == v
    ensures Int32Bytes(Int32Of(b)) == b
  {
    var u := if v < 0 then v + 0x1_0000_0000 else v;
    var u1 := u / 256;
    var u2 := u1 / 256;
    assert u == u1 * 256 + u % 256;
    assert u1 == u2 * 256 + u1 % 256;
    assert u2 == (u2 / 256) * 256 + u2 % 256;

    var w := ((b[0] as int * 256 + b[1]) * 256 + b[2]) * 256 + b[3];
    var w1 := (b[0] as int * 256 + b[1]) * 256 + b[2];
    assert w / 256 == w1 && w % 256 == b[3];
    assert w1 / 256 == b[0] as int * 256 + b[1] && w1 % 256 == b[2];
    assert (b[0] as int * 256 + b[1]) / 256 == b[0] && (b[0] as int * 256 + b[1]) % 256 == b[1];
  }

  /** A DataOutputStream writing into a ByteArrayOutputStream: `written` is
      everything written so far. */
  class DataOutput {
    var written: seq<Byte>

    constructor ()
      ensures written == []
    {
      written := [];
    }

    method WriteInt(v: int)
      requires IsInt32(v)
      modifies this
      ensures written == old(written) + Int32Bytes(v)
    {
      written := written + Int32Bytes(v);
    }

    method Write(b: seq<Byte>)
      modifies this
      ensures written == old(written) + b
    {
      written := written + b;
    }

    /** Nothing is buffered between the two streams, so flushing changes nothing. */
    method Flush()
      ensures written == old(written)
    {
    }

    method ToByteArray() returns (r: seq<Byte>)
      ensures r == written
    {
      r := written;
    }
  }

  /** A DataInputStream reading from a ByteArrayInputStream over `buf`:
      `pos` bytes have been consumed. */
  class DataInput {
    const buf: seq<Byte>
    var pos: nat

    ghost predicate Valid()
      reads this
    {
      pos <= |buf|
    }

    constructor (b: seq<Byte>)
      ensures Valid() && buf == b && pos == 0
    {
      buf := b;
      pos := 0;
    }

    /** `readInt`: the next four bytes as a signed int, or EOFException when
        fewer than four remain. */
    method ReadInt() returns (r: Result<int>)
      requires Valid()
      modifies this
      ensures Valid()
      ensures old(pos) + 4 <= |buf| ==> r == Ok(Int32Of(buf[old(pos)..old(pos) + 4])) && pos == old(pos) + 4
      ensures old(pos) + 4 > |buf| ==> r == Throws(IOException(EOFException)) && pos == |buf|
    {
      if pos + 4 > |buf| {
        pos := |buf|;
        return Throws(IOException(EOFException));
      }
      r := Ok(Int32Of(buf[pos..pos + 4]));
      pos := pos + 4;
    }

    /** `readFully`: exactly the next `n` bytes, or EOFException (after
        consuming what is left) when fewer than `n` remain. */
    method ReadFully(n: nat) returns (r: Result<seq<Byte>>)
      requires Valid()
      modifies this
      ensures Valid()
      ensures old(pos) + n <= |buf| ==> r == Ok(buf[old(pos)..old(pos) + n]) && pos == old(pos) + n
      ensures old(pos) + n > |buf| ==> r == Throws(IOException(EOFException)) && pos == |buf|
    {
      if pos + n > |buf| {
        pos := |buf|;
        return Throws(IOException(EOFException));
      }
      r := Ok(buf[pos..pos + n]);
      pos := pos + n;
    }
  }
}
