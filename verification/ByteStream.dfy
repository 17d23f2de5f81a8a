/** A byte string with a read position, and the variable-length integers read from and written to it. */
module ByteStreams {
  import opened Options
  import opened Bytes
  import opened BigSize

  datatype Outcome<+T> = Done(value: T) | Failed(error: ParseError)

  class BytesIO {
    var data: seq<byte>
    var pos: nat

    ghost predicate Valid()
      reads this
    {
      pos <= |data|
    }

    /** The bytes that have not been read. */
    ghost function Rest(): seq<byte>
      requires Valid()
      reads this
    {
      data[pos..]
    }

    constructor (data: seq<byte>)
      ensures Valid() && this.data == data && pos == 0 && Rest() == data
    {
      this.data := data;
      pos := 0;
    }

    /** Reads `n` bytes, or what is left if that is less. */
    method Read(n: nat) returns (b: seq<byte>)
      requires Valid()
      modifies this`pos
      ensures Valid() && pos == old(pos) + |b|
      ensures |b| == if n <= |old(Rest())| then n else |old(Rest())|
      ensures b == old(Rest())[..|b|] && Rest() == old(Rest())[|b|..]
    {
      b := if n <= |data| - pos then data[pos..pos + n] else data[pos..];
      pos := pos + |b|;
    }

    method ReadAll() returns (b: seq<byte>)
      requires Valid()
      modifies this`pos
      ensures Valid() && b == old(Rest()) && Rest() == []
    {
      b := data[pos..];
      pos := |data|;
    }

    method Remaining() returns (n: nat)
      requires Valid()
      ensures n == |Rest()|
    {
      n := |data| - pos;
    }

    /** Writing at the end appends. */
    method Write(b: seq<byte>)
      requires Valid() && pos == |data|
      modifies this
      ensures Valid() && pos == |data| && data == old(data) + b
    {
      data := data + b;
      pos := |data|;
    }
  }

  /** The number in the next `k` bytes, not below `least`. */
  method ReadNumber(fd: BytesIO, k: nat, least: nat) returns (r: Outcome<Option<nat>>)
    requires fd.Valid()
    modifies fd`pos
    ensures fd.Valid()
    ensures |old(fd.Rest())| < k ==> r == Failed(UnexpectedEndOfStream)
    ensures |old(fd.Rest())| >= k ==>
              var v := FromBytes(old(fd.Rest())[..k]);
              if v < least then r == Failed(FieldEncodingNotMinimal)
              else r == Done(Some(v)) && fd.Rest() == old(fd.Rest())[k..]
  {
    var buf := fd.Read(k);
    if |buf| != k {
      return Failed(UnexpectedEndOfStream);
    }
    var v := FromBytes(buf);
    r := if v < least then Failed(FieldEncodingNotMinimal) else Done(Some(v));
  }

  method ReadBigsizeInt(fd: BytesIO) returns (r: Outcome<Option<nat>>)
    requires fd.Valid()
    modifies fd`pos
    ensures fd.Valid()
    ensures match ReadBigSize(old(fd.Rest()))
            case Read(v, rest) => r == Done(v) && fd.Rest() == rest
            case Bad(e) => r == Failed(e)
  {
    ghost var b := fd.Rest();
    var first := fd.Read(1);
    if |first| == 0 {
      return Done(None);
    }
    assert b == first + fd.Rest();
    assert forall k: nat :: 1 + k <= |b| ==> b[1..1 + k] == fd.Rest()[..k] && b[1 + k..] == fd.Rest()[k..];
    if first[0] < 0xfd {
      r := Done(Some(first[0]));
    } else if first[0] == 0xfd {
      r := ReadNumber(fd, 2, 0xfd);
    } else if first[0] == 0xfe {
      r := ReadNumber(fd, 4, 0x1_0000);
    } else {
      r := ReadNumber(fd, 8, 0x1_0000_0000);
    }
  }
}
