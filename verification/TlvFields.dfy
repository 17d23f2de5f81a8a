/** Fields of Lightning messages: how their values are written, and read back. */
module TlvFields {
  import opened Options
  import opened Bytes
  import opened BigSize

  /** A field's value: a number, or bytes. */
  datatype Value = IntValue(n: nat) | BytesValue(b: seq<byte>)

  /** `Byte` and `Blob` (hashes, points, signatures) are sequences of items of fixed length. */
  datatype FieldType = Byte | Blob(len: nat) | UInt(len: nat) | Truncated(len: nat) | BigSizeField | UnknownType

  /** How many items a field has; `All` takes what is left. */
  datatype Count = Num(n: nat) | All

  function ItemLength(t: FieldType): nat {
    match t
    case Byte => 1
    case Blob(len) => len
    case UInt(len) => len
    case _ => 0
  }

  function ReadBytes(b: seq<byte>, n: nat): Parsed<Value> {
    if |b| < n then Bad(UnexpectedEndOfStream) else Read(BytesValue(b[..n]), b[n..])
  }

  function ReadUInt(b: seq<byte>, len: nat): Parsed<Value> {
    if |b| < len then Bad(UnexpectedEndOfStream) else Read(IntValue(FromBytes(b[..len])), b[len..])
  }

  /** At most `len` bytes, the first of which is not zero. */
  function ReadTruncated(b: seq<byte>, len: nat): Parsed<Value> {
    var k := if |b| < len then |b| else len;
    if k > 0 && b[0] == 0 then Bad(FieldEncodingNotMinimal) else Read(IntValue(FromBytes(b[..k])), b[k..])
  }

  function ReadField(b: seq<byte>, t: FieldType, count: Count): Parsed<Value> {
    if count == Num(0) then Read(BytesValue([]), b)
    else
      match t
      case UInt(len) => if count != Num(1) then Bad(BadCount) else ReadUInt(b, len)
      case Truncated(len) => if count != Num(1) then Bad(BadCount) else ReadTruncated(b, len)
      case BigSizeField =>
        if count != Num(1) then Bad(BadCount)
        else (match ReadBigSize(b)
              case Bad(e) => Bad(e)
              case Read(None, _) => Bad(UnexpectedEndOfStream)
              case Read(Some(n), rest) => Read(IntValue(n), rest))
      case UnknownType => if count.All? then Read(BytesValue(b), []) else Bad(UnknownFieldType)
      case _ => if count.All? then Read(BytesValue(b), []) else ReadBytes(b, count.n * ItemLength(t))
  }

  function StripZeros(b: seq<byte>): (r: seq<byte>)
    ensures |r| <= |b| && (r != [] ==> r[0] != 0)
  {
    if b != [] && b[0] == 0 then StripZeros(b[1..]) else b
  }

  function FixedBytes(n: nat, len: nat): Option<seq<byte>> {
    if n < Power256(len) then Some(ToBytes(n, len)) else None
  }

  /** None: the value does not fit the field, and writing raises. */
  function WriteField(v: Value, t: FieldType, count: Count): Option<seq<byte>> {
    if count == Num(0) then Some([])
    else
      match t
      case Truncated(len) =>
        if count != Num(1) then None
        else (match v
              case BytesValue(b) => Some(StripZeros(b))
              case IntValue(n) => if FixedBytes(n, len).Some? then Some(StripZeros(FixedBytes(n, len).value)) else None)
      case BigSizeField =>
        if count != Num(1) then None
        else (match v
              case BytesValue(b) => Some(b)
              case IntValue(n) => WriteBigSize(n))
      case UnknownType => if count.All? && v.BytesValue? then Some(v.b) else None
      case _ =>
        if count.All? then (if v.BytesValue? then Some(v.b) else None)
        else
          var total := count.n * ItemLength(t);
          match v
          case IntValue(n) => if count.n == 1 || t.Byte? then FixedBytes(n, total) else None
          case BytesValue(b) => if |b| == total then Some(b) else None
  }

  /** The values that reading a field can yield. */
  predicate Canonical(v: Value, t: FieldType, count: Count) {
    if count == Num(0) then v == BytesValue([])
    else
      match t
      case UInt(len) => count == Num(1) && v.IntValue? && v.n < Power256(len)
      case Truncated(len) => count == Num(1) && v.IntValue? && v.n < Power256(len)
      case BigSizeField => count == Num(1) && v.IntValue? && v.n < Power256(8)
      case UnknownType => count.All? && v.BytesValue?
      case _ => v.BytesValue? && (count.All? || |v.b| == count.n * ItemLength(t))
  }

  /** Fields that take what is left of the record, or as much of it as may be theirs. */
  predicate OpenEnded(t: FieldType, count: Count) {
    count != Num(0) && (t.Truncated? || count.All?)
  }

  /**
   Where a field with this value ends can be told: nothing follows, or the value has as many bytes as the field may
   have.
   */
  predicate EndsClearly(v: Value, t: FieldType, count: Count, rest: seq<byte>) {
    OpenEnded(t, count) ==>
      rest == [] || (t.Truncated? && WriteField(v, t, count).Some? && |WriteField(v, t, count).value| == t.len)
  }

  // ----- truncated integers

  lemma {:induction false} StripKeepsNumber(b: seq<byte>)
    ensures FromBytes(StripZeros(b)) == FromBytes(b)
  {
    if b != [] && b[0] == 0 {
      DropZero(b);
      StripKeepsNumber(b[1..]);
    }
  }

  lemma {:induction false} DropZero(b: seq<byte>)
    requires b != [] && b[0] == 0
    ensures FromBytes(b[1..]) == FromBytes(b)
  {
    if |b| > 1 {
      DropZero(b[..|b| - 1]);
      assert b[1..][..|b| - 2] == b[..|b| - 1][1..];
    }
  }

  lemma {:induction false} StripPadded(k: nat, b: seq<byte>)
    requires b == [] || b[0] != 0
    ensures StripZeros(Zeros(k) + b) == b && FromBytes(Zeros(k) + b) == FromBytes(b)
  {
    if k > 0 {
      assert (Zeros(k) + b)[1..] == Zeros(k - 1) + b;
      DropZero(Zeros(k) + b);
      StripPadded(k - 1, b);
    } else {
      assert Zeros(0) + b == b;
    }
  }

  lemma {:induction false} NumberBound(b: seq<byte>, len: nat)
    requires |b| <= len
    ensures FromBytes(b) < Power256(len)
  {
    if |b| < len {
      NumberBound(b, len - 1);
    } else {
      ToFromBytes(b);
    }
  }

  /** What is read as a truncated integer is how it is written. */
  lemma TruncatedBack(raw: seq<byte>, len: nat)
    requires |raw| <= len && (raw == [] || raw[0] != 0)
    ensures FromBytes(raw) < Power256(len) && StripZeros(ToBytes(FromBytes(raw), len)) == raw
  {
    var padded := Zeros(len - |raw|) + raw;
    NumberBound(raw, len);
    StripPadded(len - |raw|, raw);
    ToFromBytes(padded);
  }

  // ----- round trips

  /** Writing a value that reading can yield, and reading it back. */
  lemma FieldRoundTrip(v: Value, t: FieldType, count: Count, rest: seq<byte>)
    requires Canonical(v, t, count) && EndsClearly(v, t, count, rest)
    ensures WriteField(v, t, count).Some? && ReadField(WriteField(v, t, count).value + rest, t, count) == Read(v, rest)
  {
    if count != Num(0) {
      match t
      case UInt(len) =>
        FromToBytes(v.n, len);
        var w := ToBytes(v.n, len);
        assert WriteField(v, t, count) == Some(w) && (w + rest)[..len] == w && (w + rest)[len..] == rest;
      case Truncated(len) =>
        FromToBytes(v.n, len);
        var w := StripZeros(ToBytes(v.n, len));
        StripKeepsNumber(ToBytes(v.n, len));
        assert (w + rest)[..|w|] == w && (w + rest)[|w|..] == rest;
        assert rest == [] ==> w + rest == w;
      case BigSizeField =>
        PowerValues();
        WrittenIsRead(v.n, rest);
      case _ =>
        assert (v.b + rest)[..|v.b|] == v.b && (v.b + rest)[|v.b|..] == rest;
        assert v.b + [] == v.b;
    } else {
      assert [] + rest == rest;
    }
  }

  lemma {:induction false} MoreBytesMore(w: seq<byte>, more: seq<byte>)
    requires FromBytes(w) > 0
    ensures FromBytes(w + more) >= FromBytes(w) && (more != [] ==> FromBytes(w + more) > FromBytes(w))
  {
    if more == [] {
      assert w + more == w;
    } else {
      MoreBytesMore(w, more[..|more| - 1]);
      assert (w + more)[..|w + more| - 1] == w + more[..|more| - 1];
    }
  }

  lemma {:induction false} NotZero(w: seq<byte>)
    requires w != [] && w[0] != 0
    ensures FromBytes(w) > 0
  {
    if |w| > 1 {
      NotZero(w[..|w| - 1]);
    }
  }

  /** More bytes after a number that may have more, and another number is read, or none. */
  lemma TruncatedRunsOn(w: seq<byte>, len: nat, rest: seq<byte>)
    requires |w| < len && rest != [] && (w != [] ==> w[0] != 0)
    ensures var r := ReadTruncated(w + rest, len); r.Read? ==> r.value.n != FromBytes(w)
  {
    var b := w + rest;
    var k := if |b| < len then |b| else len;
    if w == [] {
      if b[0] != 0 {
        assert b[..k][0] == b[0];
        NotZero(b[..k]);
      }
    } else {
      NotZero(w);
      assert b[..k] == w + rest[..k - |w|];
      MoreBytesMore(w, rest[..k - |w|]);
    }
  }

  /** A field whose end cannot be told does not read back. */
  lemma RunsOn(v: Value, t: FieldType, count: Count, rest: seq<byte>)
    requires Canonical(v, t, count) && !EndsClearly(v, t, count, rest)
    ensures WriteField(v, t, count).Some?
    ensures var r := ReadField(WriteField(v, t, count).value + rest, t, count); r.Read? ==> r.value != v
  {
    if t.Truncated? {
      FromToBytes(v.n, t.len);
      StripKeepsNumber(ToBytes(v.n, t.len));
      TruncatedRunsOn(StripZeros(ToBytes(v.n, t.len)), t.len, rest);
    } else {
      assert |v.b + rest| > |v.b|;
    }
  }

  /** A field of fixed size takes up its size, as often as it is counted. */
  lemma FieldLength(v: Value, t: FieldType, n: nat)
    requires t.Byte? || t.Blob? || t.UInt?
    ensures WriteField(v, t, Num(n)).Some? ==>
              |WriteField(v, t, Num(n)).value| == n * if t.Byte? then 1 else t.len
  {
  }

  /** Whatever is read is a value that can be written, and writing it gives the bytes that were read. */
  lemma FieldAccepted(b: seq<byte>, t: FieldType, count: Count)
    requires ReadField(b, t, count).Read?
    ensures var r := ReadField(b, t, count);
            && Canonical(r.value, t, count) && WriteField(r.value, t, count).Some?
            && b == WriteField(r.value, t, count).value + r.rest
  {
    if count != Num(0) {
      match t
      case UInt(_) => NumberFieldAccepted(b, t);
      case Truncated(_) => NumberFieldAccepted(b, t);
      case BigSizeField => BigSizeFieldAccepted(b);
      case _ =>
    }
  }

  lemma NumberFieldAccepted(b: seq<byte>, t: FieldType)
    requires (t.UInt? || t.Truncated?) && ReadField(b, t, Num(1)).Read?
    ensures var r := ReadField(b, t, Num(1));
            && Canonical(r.value, t, Num(1)) && WriteField(r.value, t, Num(1)).Some?
            && b == WriteField(r.value, t, Num(1)).value + r.rest
  {
    match t
    case UInt(len) => ToFromBytes(b[..len]);
    case Truncated(len) =>
      var k := if |b| < len then |b| else len;
      TruncatedBack(b[..k], len);
  }

  lemma BigSizeFieldAccepted(b: seq<byte>)
    requires ReadField(b, BigSizeField, Num(1)).Read?
    ensures var r := ReadField(b, BigSizeField, Num(1));
            && Canonical(r.value, BigSizeField, Num(1)) && WriteField(r.value, BigSizeField, Num(1)).Some?
            && b == WriteField(r.value, BigSizeField, Num(1)).value + r.rest
  {
    PowerValues();
    ReadIsWritten(b, ReadBigSize(b).value.value, ReadBigSize(b).rest);
  }
}
