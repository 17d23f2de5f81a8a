/** Reading and writing fields, records and streams on a byte stream. */
module TlvSerializer {
  import opened Options
  import opened Bytes
  import opened BigSize
  import opened ByteStreams
  import opened TlvFields
  import opened TlvStreams
  import opened TlvRoundTrip

  method ReadField(fd: BytesIO, t: FieldType, count: Count) returns (r: Outcome<Value>)
    requires fd.Valid()
    modifies fd`pos
    ensures fd.Valid()
    ensures match TlvFields.ReadField(old(fd.Rest()), t, count)
            case Read(v, rest) => r == Done(v) && fd.Rest() == rest
            case Bad(e) => r == Failed(e)
  {
    ghost var b := fd.Rest();
    if count == Num(0) {
      return Done(BytesValue([]));
    }
    match t {
      case UInt(len) =>
        if count != Num(1) {
          return Failed(BadCount);
        }
        var buf := fd.Read(len);
        r := if |buf| != len then Failed(UnexpectedEndOfStream) else Done(IntValue(FromBytes(buf)));
      case Truncated(len) =>
        if count != Num(1) {
          return Failed(BadCount);
        }
        var raw := fd.Read(len);
        assert raw == b[..|raw|];
        r := if |raw| > 0 && raw[0] == 0 then Failed(FieldEncodingNotMinimal) else Done(IntValue(FromBytes(raw)));
      case BigSizeField =>
        if count != Num(1) {
          return Failed(BadCount);
        }
        var n := ReadBigsizeInt(fd);
        r := if n.Failed? then Failed(n.error)
             else if n.value.None? then Failed(UnexpectedEndOfStream)
             else Done(IntValue(n.value.value));
      case UnknownType =>
        if !count.All? {
          return Failed(UnknownFieldType);
        }
        var buf := fd.ReadAll();
        r := Done(BytesValue(buf));
      case _ =>
        if count.All? {
          var buf := fd.ReadAll();
          return Done(BytesValue(buf));
        }
        var total := count.n * ItemLength(t);
        var buf := fd.Read(total);
        r := if |buf| != total then Failed(UnexpectedEndOfStream) else Done(BytesValue(buf));
    }
  }

  /** Leading zeros are dropped one by one. */
  method Strip(value: seq<byte>) returns (stripped: seq<byte>)
    ensures stripped == StripZeros(value)
  {
    stripped := value;
    while |stripped| > 0 && stripped[0] == 0
      invariant StripZeros(stripped) == StripZeros(value)
    {
      stripped := stripped[1..];
    }
  }

  /** False: the value does not fit, and nothing is written. */
  method WriteField(fd: BytesIO, t: FieldType, count: Count, v: Value) returns (ok: bool)
    requires fd.Valid() && fd.pos == |fd.data|
    modifies fd
    ensures fd.Valid() && fd.pos == |fd.data|
    ensures var w := TlvFields.WriteField(v, t, count);
            (ok <==> w.Some?) && fd.data == old(fd.data) + if w.Some? then w.value else []
  {
    if count == Num(0) {
      return true;
    }
    var bytes: Option<seq<byte>>;
    match t {
      case Truncated(len) =>
        bytes := if count != Num(1) then None else if v.IntValue? then FixedBytes(v.n, len) else Some(v.b);
        if bytes.Some? {
          var stripped := Strip(bytes.value);
          bytes := Some(stripped);
        }
      case BigSizeField =>
        bytes := if count != Num(1) then None else if v.IntValue? then WriteBigSize(v.n) else Some(v.b);
      case UnknownType =>
        bytes := if count.All? && v.BytesValue? then Some(v.b) else None;
      case _ =>
        if count.All? {
          bytes := if v.BytesValue? then Some(v.b) else None;
        } else {
          var total := count.n * ItemLength(t);
          if v.IntValue? {
            bytes := if count.n == 1 || t.Byte? then FixedBytes(v.n, total) else None;
          } else {
            bytes := if |v.b| == total then Some(v.b) else None;
          }
        }
    }
    ok := bytes.Some?;
    if ok {
      fd.Write(bytes.value);
    }
  }

  method ReadTlvRecord(fd: BytesIO) returns (r: Outcome<TypedValue>)
    requires fd.Valid()
    modifies fd`pos
    ensures fd.Valid()
    ensures match TlvStreams.ReadTlvRecord(old(fd.Rest()))
            case Read(record, rest) => r == Done(record) && fd.Rest() == rest
            case Bad(e) => r == Failed(e)
  {
    hide TlvFields.ReadField, TlvStreams.ReadNumber;
    NumberField(fd.Rest());
    var typ := ReadField(fd, BigSizeField, Num(1));
    if typ.Failed? {
      return Failed(typ.error);
    }
    NumberField(fd.Rest());
    var len := ReadField(fd, BigSizeField, Num(1));
    if len.Failed? {
      return Failed(len.error);
    }
    BytesField(fd.Rest(), len.value.n);
    var val := ReadField(fd, Byte, Num(len.value.n));
    if val.Failed? {
      return Failed(val.error);
    }
    r := Done(TypedValue(typ.value.n, val.value.b));
  }

  lemma NumberField(b: seq<byte>)
    ensures TlvFields.ReadField(b, BigSizeField, Num(1)) == match TlvStreams.ReadNumber(b)
                                                                   case Read(n, rest) => Read(IntValue(n), rest)
                                                                   case Bad(e) => Bad(e)
  {
  }

  lemma BytesField(b: seq<byte>, n: nat)
    ensures TlvFields.ReadField(b, Byte, Num(n)) ==
            if |b| < n then Bad(UnexpectedEndOfStream) else Read(BytesValue(b[..n]), b[n..])
  {
  }

  method WriteTlvRecord(fd: BytesIO, typ: nat, val: seq<byte>) returns (ok: bool)
    requires fd.Valid() && fd.pos == |fd.data|
    modifies fd
    ensures fd.Valid() && fd.pos == |fd.data| && (ok <==> TlvStreams.WriteTlvRecord(typ, val).Some?)
    ensures ok ==> fd.data == old(fd.data) + TlvStreams.WriteTlvRecord(typ, val).value
  {
    ok := WriteField(fd, BigSizeField, Num(1), IntValue(typ));
    if !ok {
      return;
    }
    ok := WriteField(fd, BigSizeField, Num(1), IntValue(|val|));
    if !ok {
      return;
    }
    ok := WriteField(fd, Byte, Num(|val|), BytesValue(val));
    Appended(old(fd.data), WriteBigSize(typ).value, WriteBigSize(|val|).value, val);
  }

  lemma Appended(d: seq<byte>, t: seq<byte>, n: seq<byte>, v: seq<byte>)
    ensures d + t + n + v == d + (t + n + v)
  {
  }

  // ----- the fields of a record

  method WriteRecord(rows: seq<Row>, fields: Fields) returns (r: Option<seq<byte>>)
    ensures r == WriteRows(rows, 0, fields)
  {
    var fd := new BytesIO([]);
    PrefixedEmpty(WriteRows(rows, 0, fields));
    for i := 0 to |rows|
      invariant fd.Valid() && fd.pos == |fd.data| && fresh(fd)
      invariant WriteRows(rows, 0, fields) == Prefixed(fd.data, WriteRows(rows, i, fields))
    {
      var count := ResolveCount(rows[i].count, fields);
      if count.None? || rows[i].name !in fields {
        return None;
      }
      ghost var before := fd.data;
      var ok := WriteField(fd, rows[i].t, count.value, fields[rows[i].name]);
      if !ok {
        return None;
      }
      PrefixedNext(before, TlvFields.WriteField(fields[rows[i].name], rows[i].t, count.value).value,
                   WriteRows(rows, i + 1, fields));
    }
    assert fd.data + [] == fd.data;
    r := Some(fd.data);
  }

  function Prefixed(front: seq<byte>, more: Option<seq<byte>>): Option<seq<byte>> {
    if more.Some? then Some(front + more.value) else None
  }

  lemma PrefixedEmpty(more: Option<seq<byte>>)
    ensures Prefixed([], more) == more
  {
    if more.Some? {
      assert [] + more.value == more.value;
    }
  }

  lemma PrefixedNext(front: seq<byte>, w: seq<byte>, more: Option<seq<byte>>)
    ensures Prefixed(front + w, more) == Prefixed(front, Prefixed(w, more))
  {
    if more.Some? {
      assert front + w + more.value == front + (w + more.value);
    }
  }

  method ReadRecord(rows: seq<Row>, val: seq<byte>) returns (r: Outcome<Fields>)
    ensures match TlvStreams.ReadRecord(rows, val)
            case Read(fields, _) => r == Done(fields)
            case Bad(e) => r == Failed(e)
  {
    var fd := new BytesIO(val);
    var parsed: Fields := map[];
    for i := 0 to |rows|
      invariant fd.Valid() && fresh(fd)
      invariant ReadRows(rows, 0, val, map[]) == ReadRows(rows, i, fd.Rest(), parsed)
    {
      var count := ResolveCount(rows[i].count, parsed);
      if count.None? {
        return Failed(BadCount);
      }
      var v := ReadField(fd, rows[i].t, count.value);
      if v.Failed? {
        return Failed(v.error);
      }
      parsed := parsed[rows[i].name := v.value];
    }
    var left := fd.Remaining();
    r := if left > 0 then Failed(TrailingGarbage) else Done(parsed);
  }

  // ----- streams

  /** None: a value does not fit, and writing raises. */
  method WriteTlvStream(scheme: seq<RecordScheme>, records: Records) returns (r: Option<seq<byte>>)
    ensures r == WriteStream(scheme, 0, records)
  {
    var fd := new BytesIO([]);
    PrefixedEmpty(WriteStream(scheme, 0, records));
    for i := 0 to |scheme|
      invariant fd.Valid() && fd.pos == |fd.data| && fresh(fd)
      invariant WriteStream(scheme, 0, records) == Prefixed(fd.data, WriteStream(scheme, i, records))
    {
      if scheme[i].name !in records {
        continue;
      }
      var val := WriteRecord(scheme[i].rows, records[scheme[i].name]);
      if val.None? {
        return None;
      }
      ghost var before := fd.data;
      var ok := WriteTlvRecord(fd, scheme[i].typ, val.value);
      if !ok {
        return None;
      }
      PrefixedNext(before, TlvStreams.WriteTlvRecord(scheme[i].typ, val.value).value,
                   WriteStream(scheme, i + 1, records));
    }
    assert fd.data + [] == fd.data;
    r := Some(fd.data);
  }

  lemma StreamSound(scheme: seq<RecordScheme>, b: seq<byte>)
    ensures var r := ReadStream(scheme, b, -1, map[]);
            r.Read? ==>
              && (forall i, j :: 0 <= i < j < |Types(b)| ==> Types(b)[i] < Types(b)[j])
              && (forall i :: 0 <= i < |Types(b)| && Types(b)[i] % 2 == 0 ==>
                  exists k :: 0 <= k < |scheme| && scheme[k].typ == Types(b)[i])
              && (SchemeWellFormed(scheme) ==> WriteStream(scheme, 0, r.value) == Some(KnownPart(scheme, b)))
  {
    if ReadStream(scheme, b, -1, map[]).Read? {
      TypesAccepted(scheme, b, -1, map[]);
      if SchemeWellFormed(scheme) {
        StreamAccepted(scheme, b);
      }
    }
  }

  method ReadTlvStream(scheme: seq<RecordScheme>, b: seq<byte>) returns (r: Outcome<Records>)
    ensures match ReadStream(scheme, b, -1, map[])
            case Read(records, _) => r == Done(records)
            case Bad(e) => r == Failed(e)
    // what is accepted has increasing types, of which the even ones are known, and holds the records that are read
    ensures r.Done? ==> forall i, j :: 0 <= i < j < |Types(b)| ==> Types(b)[i] < Types(b)[j]
    ensures r.Done? ==> forall i :: 0 <= i < |Types(b)| && Types(b)[i] % 2 == 0 ==>
              exists k :: 0 <= k < |scheme| && scheme[k].typ == Types(b)[i]
    ensures r.Done? && SchemeWellFormed(scheme) ==> WriteStream(scheme, 0, r.value) == Some(KnownPart(scheme, b))
  {
    StreamSound(scheme, b);
    hide KnownPart, Types, SchemeWellFormed;
    var fd := new BytesIO(b);
    var parsed: Records := map[];
    var last: int := -1;
    var left := fd.Remaining();
    while left > 0
      invariant fd.Valid() && fresh(fd) && left == |fd.Rest()|
      invariant ReadStream(scheme, b, -1, map[]) == ReadStream(scheme, fd.Rest(), last, parsed)
      decreases left
    {
      ghost var rest := fd.Rest();
      var record := ReadTlvRecord(fd);
      if record.Failed? {
        return Failed(record.error);
      }
      TlvRecordAccepted(rest);
      if record.value.typ <= last {
        return Failed(InvalidFieldOrder);
      }
      last := record.value.typ;
      var i := Find(scheme, last);
      if i.None? {
        if last % 2 == 0 {
          return Failed(UnknownMandatoryRecordType);
        }
      } else {
        var fields := ReadRecord(scheme[i.value].rows, record.value.val);
        if fields.Failed? {
          return Failed(fields.error);
        }
        parsed := parsed[scheme[i.value].name := fields.value];
      }
      left := fd.Remaining();
    }
    r := Done(parsed);
  }
}
