/** The variable-length integers of the Lightning wire format; every number has exactly one accepted encoding. */
module BigSize {
  import opened Options
  import opened Bytes

  datatype ParseError =
    | UnexpectedEndOfStream
    | FieldEncodingNotMinimal
    | InvalidFieldOrder
    | UnknownMandatoryRecordType
    | TrailingGarbage
    | BadCount
    | UnknownFieldType

  /** What reading from the front of a byte string yields: a value and the bytes after it. */
  datatype Parsed<+T> = Read(value: T, rest: seq<byte>) | Bad(error: ParseError)

  /** None: the number does not fit in eight bytes and the conversion raises. */
  function WriteBigSize(n: nat): Option<seq<byte>> {
    assert Power256(1) == 256 && Power256(2) == 0x1_0000 && Power256(4) == 0x1_0000_0000;
    if n < 0xfd then Some(ToBytes(n, 1))
    else if n < 0x1_0000 then Some([0xfd] + ToBytes(n, 2))
    else if n < 0x1_0000_0000 then Some([0xfe] + ToBytes(n, 4))
    else if n < Power256(8) then Some([0xff] + ToBytes(n, 8))
    else None
  }

  /** The big-endian number in the `k` bytes after the first, not below `least`. */
  function ReadTail(b: seq<byte>, k: nat, least: nat): Parsed<Option<nat>>
    requires b != []
  {
    if |b| < 1 + k then Bad(UnexpectedEndOfStream)
    else
      var v := FromBytes(b[1..1 + k]);
      if v < least then Bad(FieldEncodingNotMinimal) else Read(Some(v), b[1 + k..])
  }

  /** `Read(None, _)` is the end of the stream. */
  function ReadBigSize(b: seq<byte>): Parsed<Option<nat>> {
    if b == [] then Read(None, b)
    else if b[0] < 0xfd then Read(Some(b[0]), b[1..])
    else if b[0] == 0xfd then ReadTail(b, 2, 0xfd)
    else if b[0] == 0xfe then ReadTail(b, 4, 0x1_0000)
    else ReadTail(b, 8, 0x1_0000_0000)
  }

  lemma PowerValues()
    ensures Power256(1) == 256 && Power256(2) == 0x1_0000 && Power256(4) == 0x1_0000_0000
    ensures Power256(8) == 0x1_0000_0000_0000_0000
  {
    assert Power256(4) == 0x1_0000_0000;
    assert Power256(6) == 0x1_0000_0000_0000;
  }

  lemma ReadTailOfWritten(first: byte, v: nat, k: nat, rest: seq<byte>, least: nat)
    requires least <= v < Power256(k)
    ensures ReadTail([first] + ToBytes(v, k) + rest, k, least) == Read(Some(v), rest)
  {
    var b := [first] + ToBytes(v, k) + rest;
    assert b[1..1 + k] == ToBytes(v, k);
    assert b[1 + k..] == rest;
    FromToBytes(v, k);
  }

  lemma WrittenOfReadTail(b: seq<byte>, k: nat, least: nat)
    requires b != [] && ReadTail(b, k, least).Read?
    ensures var r := ReadTail(b, k, least);
            && r.value.Some? && least <= r.value.value < Power256(k)
            && b == [b[0]] + ToBytes(r.value.value, k) + r.rest
  {
    ToFromBytes(b[1..1 + k]);
  }

  /** The lengths of BOLT #1, section "Fundamental Types": one, three, five or nine bytes, the fewest that will do. */
  lemma Lengths(n: nat)
    ensures WriteBigSize(n).None? <==> n >= 0x1_0000_0000_0000_0000
    ensures WriteBigSize(n).Some? ==>
              |WriteBigSize(n).value| ==
              if n <= 252 then 1 else if n <= 0xffff then 3 else if n <= 0xffff_ffff then 5 else 9
    ensures n <= 252 ==> WriteBigSize(n) == Some([n])
  {
    PowerValues();
    if n <= 252 {
      assert ToBytes(n, 1) == [n] by {
        assert ToBytes(n / 256, 0) == [];
      }
    }
  }

  /** Reading accepts exactly what writing produces. */
  lemma BigSizeRoundTrip(b: seq<byte>, n: nat, rest: seq<byte>)
    ensures ReadBigSize(b) == Read(Some(n), rest) <==>
            WriteBigSize(n).Some? && b == WriteBigSize(n).value + rest
  {
    PowerValues();
    if WriteBigSize(n).Some? && b == WriteBigSize(n).value + rest {
      WrittenIsRead(n, rest);
    }
    if ReadBigSize(b) == Read(Some(n), rest) {
      ReadIsWritten(b, n, rest);
    }
  }

  lemma WrittenIsRead(n: nat, rest: seq<byte>)
    requires WriteBigSize(n).Some?
    ensures ReadBigSize(WriteBigSize(n).value + rest) == Read(Some(n), rest)
  {
    PowerValues();
    if n < 0xfd {
      assert ToBytes(n, 1) == [n] by { assert ToBytes(n / 256, 0) == []; }
      assert ([n] + rest)[1..] == rest;
    } else if n < 0x1_0000 {
      ReadTailOfWritten(0xfd, n, 2, rest, 0xfd);
    } else if n < 0x1_0000_0000 {
      ReadTailOfWritten(0xfe, n, 4, rest, 0x1_0000);
    } else {
      ReadTailOfWritten(0xff, n, 8, rest, 0x1_0000_0000);
    }
  }

  lemma ReadIsWritten(b: seq<byte>, n: nat, rest: seq<byte>)
    requires ReadBigSize(b) == Read(Some(n), rest)
    ensures WriteBigSize(n).Some? && b == WriteBigSize(n).value + rest
  {
    PowerValues();
    if b[0] < 0xfd {
      assert ToBytes(n, 1) == [n] by { assert ToBytes(n / 256, 0) == []; }
    } else if b[0] == 0xfd {
      WrittenOfReadTail(b, 2, 0xfd);
    } else if b[0] == 0xfe {
      WrittenOfReadTail(b, 4, 0x1_0000);
    } else {
      WrittenOfReadTail(b, 8, 0x1_0000_0000);
    }
  }
}
