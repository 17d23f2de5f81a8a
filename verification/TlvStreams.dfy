/** Records and streams of records (BOLT #1, "Type-Length-Value Format"), driven by a scheme. */
module TlvStreams {
  import opened Options
  import opened Bytes
  import opened BigSize
  import opened TlvFields

  type Name = nat

  /** One, a literal number, the value of an earlier field, or all that is left. */
  datatype CountSpec = One | Literal(n: nat) | Named(name: Name) | Ellipsis

  datatype Row = Row(name: Name, t: FieldType, count: CountSpec)

  datatype RecordScheme = RecordScheme(typ: nat, name: Name, rows: seq<Row>)

  type Fields = map<Name, Value>
  type Records = map<Name, Fields>

  function ValueAsCount(v: Value): nat {
    match v
    case IntValue(n) => n
    case BytesValue(b) => FromBytes(b)
  }

  /** None: the named field is not there. */
  function ResolveCount(c: CountSpec, fields: Fields): Option<Count> {
    match c
    case One => Some(Num(1))
    case Literal(n) => Some(Num(n))
    case Ellipsis => Some(All)
    case Named(name) => if name in fields then Some(Num(ValueAsCount(fields[name]))) else None
  }

  // ----- one record

  function WriteRows(rows: seq<Row>, i: nat, fields: Fields): Option<seq<byte>>
    requires i <= |rows|
    decreases |rows| - i
  {
    if i == |rows| then Some([])
    else
      var count := ResolveCount(rows[i].count, fields);
      if count.None? || rows[i].name !in fields then None
      else
        var w := WriteField(fields[rows[i].name], rows[i].t, count.value);
        var more := WriteRows(rows, i + 1, fields);
        if w.None? || more.None? then None else Some(w.value + more.value)
  }

  function ReadRows(rows: seq<Row>, i: nat, b: seq<byte>, fields: Fields): Parsed<Fields>
    requires i <= |rows|
    decreases |rows| - i
  {
    if i == |rows| then Read(fields, b)
    else
      var count := ResolveCount(rows[i].count, fields);
      if count.None? then Bad(BadCount)
      else
        match ReadField(b, rows[i].t, count.value)
        case Bad(e) => Bad(e)
        case Read(v, rest) => ReadRows(rows, i + 1, rest, fields[rows[i].name := v])
  }

  function ReadRecord(rows: seq<Row>, b: seq<byte>): Parsed<Fields> {
    match ReadRows(rows, 0, b, map[])
    case Bad(e) => Bad(e)
    case Read(fields, rest) => if rest != [] then Bad(TrailingGarbage) else Read(fields, [])
  }

  /** Counts refer to earlier fields, and names differ. */
  predicate RowsWellFormed(rows: seq<Row>) {
    NamesDiffer(rows) && forall i :: 0 <= i < |rows| ==> RefersBack(rows, i)
  }

  predicate NamesDiffer(rows: seq<Row>) {
    forall i, j :: 0 <= i < j < |rows| ==> rows[i].name != rows[j].name
  }

  /** Besides, only the last field may be open-ended. */
  predicate RowsOk(rows: seq<Row>) {
    RowsWellFormed(rows) && forall i :: 0 <= i < |rows| - 1 ==> !rows[i].count.Ellipsis? && !rows[i].t.Truncated?
  }

  predicate RefersBack(rows: seq<Row>, i: nat)
    requires i < |rows|
  {
    rows[i].count.Named? ==> exists j :: 0 <= j < i && rows[j].name == rows[i].count.name
  }

  /** The names of the first `i` fields. */
  function NamesUpTo(rows: seq<Row>, i: nat): set<Name>
    requires i <= |rows|
  {
    set k | 0 <= k < i :: rows[k].name
  }

  predicate RowCanonical(rows: seq<Row>, fields: Fields, i: nat)
    requires i < |rows|
  {
    && rows[i].name in fields && ResolveCount(rows[i].count, fields).Some?
    && Canonical(fields[rows[i].name], rows[i].t, ResolveCount(rows[i].count, fields).value)
  }

  /** Every field of the scheme has a value that it can hold, and there are no others. */
  predicate FieldsOk(rows: seq<Row>, fields: Fields) {
    && fields.Keys == NamesUpTo(rows, |rows|)
    && forall i :: 0 <= i < |rows| ==> RowCanonical(rows, fields, i)
  }

  function FirstFields(rows: seq<Row>, fields: Fields, i: nat): (r: Fields)
    requires i <= |rows| && forall k :: 0 <= k < i ==> rows[k].name in fields
    ensures r.Keys == NamesUpTo(rows, i) && forall k :: k in r ==> r[k] == fields[k]
  {
    map k | k in NamesUpTo(rows, i) :: fields[k]
  }

  /** A count that refers back is known as soon as the earlier fields are. */
  lemma CountKnown(rows: seq<Row>, fields: Fields, i: nat)
    requires RowsWellFormed(rows) && FieldsOk(rows, fields) && i < |rows|
    ensures (forall k :: 0 <= k < i ==> rows[k].name in fields)
    ensures ResolveCount(rows[i].count, FirstFields(rows, fields, i)) == ResolveCount(rows[i].count, fields)
  {
    assert RefersBack(rows, i) && RowCanonical(rows, fields, i);
    forall k | 0 <= k < i
      ensures rows[k].name in fields
    {
      assert RowCanonical(rows, fields, k);
    }
  }

  /** The end of field `i` can be told from what follows it. */
  predicate RowEnds(rows: seq<Row>, fields: Fields, i: nat)
    requires i < |rows|
  {
    RowCanonical(rows, fields, i) && WriteRows(rows, i + 1, fields).Some? ==>
      EndsClearly(fields[rows[i].name], rows[i].t, ResolveCount(rows[i].count, fields).value,
                  WriteRows(rows, i + 1, fields).value)
  }

  /** This holds for all fields from `i` on. */
  predicate EndsFrom(rows: seq<Row>, fields: Fields, i: nat)
    requires i <= |rows|
  {
    forall k :: i <= k < |rows| ==> RowEnds(rows, fields, k)
  }

  /** `more` has what `fields` has. */
  ghost predicate Extends(fields: Fields, more: Fields) {
    forall k :: k in fields ==> k in more && more[k] == fields[k]
  }

  /** What reading rows from `i` on says about the values it ends with. */
  ghost predicate RowsRead(rows: seq<Row>, i: nat, b: seq<byte>, fields: Fields, rest: seq<byte>)
    requires i <= |rows|
  {
    && (forall k :: i <= k < |rows| ==> RowCanonical(rows, fields, k))
    && WriteRows(rows, i, fields).Some? && b == WriteRows(rows, i, fields).value + rest
  }

  lemma {:induction false} RowsAccepted(rows: seq<Row>, i: nat, b: seq<byte>, before: Fields)
    requires NamesDiffer(rows) && i <= |rows| && before.Keys == NamesUpTo(rows, i) && ReadRows(rows, i, b, before).Read?
    ensures var r := ReadRows(rows, i, b, before);
            r.value.Keys == NamesUpTo(rows, |rows|) && Extends(before, r.value) && RowsRead(rows, i, b, r.value, r.rest)
    decreases |rows| - i
  {
    if i < |rows| {
      var count := ResolveCount(rows[i].count, before).value;
      var v, rest := ReadField(b, rows[i].t, count).value, ReadField(b, rows[i].t, count).rest;
      var next := before[rows[i].name := v];
      FieldAccepted(b, rows[i].t, count);
      assert NamesUpTo(rows, i + 1) == NamesUpTo(rows, i) + {rows[i].name};
      RowsAccepted(rows, i + 1, rest, next);
      RowAccepted(rows, i, b, before, v, count, rest, ReadRows(rows, i + 1, rest, next).value,
                  ReadRows(rows, i + 1, rest, next).rest);
    } else {
      assert [] + b == b;
    }
  }

  lemma RowAccepted(rows: seq<Row>, i: nat, b: seq<byte>, before: Fields, v: Value, count: Count, rest: seq<byte>,
                    fields: Fields, end: seq<byte>)
    requires i < |rows| && ResolveCount(rows[i].count, before) == Some(count) && rows[i].name !in before
    requires Extends(before[rows[i].name := v], fields) && RowsRead(rows, i + 1, rest, fields, end)
    requires Canonical(v, rows[i].t, count) && WriteField(v, rows[i].t, count).Some? &&
             b == WriteField(v, rows[i].t, count).value + rest
    ensures Extends(before, fields) && RowsRead(rows, i, b, fields, end)
  {
    assert ResolveCount(rows[i].count, fields) == Some(count);
    assert fields[rows[i].name] == v && RowCanonical(rows, fields, i);
  }

  // ----- what is written reads back

  /** From row `i` on the fields read back exactly if the ends of all of them can be told. */
  lemma {:induction false} RowsReadBack(rows: seq<Row>, fields: Fields, i: nat)
    requires RowsWellFormed(rows) && FieldsOk(rows, fields) && i <= |rows|
    requires forall k :: 0 <= k < i ==> rows[k].name in fields
    ensures WriteRows(rows, i, fields).Some?
    ensures ReadRows(rows, i, WriteRows(rows, i, fields).value, FirstFields(rows, fields, i)) == Read(fields, []) <==>
            EndsFrom(rows, fields, i)
    decreases |rows| - i
  {
    hide NamesUpTo, RowsWellFormed, RowEnds, NamesDiffer, ResolveCount, FirstFields;
    if i == |rows| {
      assert FirstFields(rows, fields, i) == fields;
    } else {
      assert RowCanonical(rows, fields, i);
      RowsReadBack(rows, fields, i + 1);
      assert EndsFrom(rows, fields, i) <==> RowEnds(rows, fields, i) && EndsFrom(rows, fields, i + 1);
      if RowEnds(rows, fields, i) {
        RowReadsBack(rows, fields, i, WriteRows(rows, i + 1, fields).value);
      } else {
        RowRunsOn(rows, fields, i, WriteRows(rows, i + 1, fields).value);
      }
    }
  }

  /** One row: its field is written in front of the others, and read back from there. */
  lemma RowReadsBack(rows: seq<Row>, fields: Fields, i: nat, more: seq<byte>)
    requires RowsWellFormed(rows) && FieldsOk(rows, fields) && i < |rows| &&
             (forall k :: 0 <= k <= i ==> rows[k].name in fields)
    requires WriteRows(rows, i + 1, fields) == Some(more) && RowEnds(rows, fields, i)
    ensures WriteRows(rows, i, fields).Some?
    ensures ReadRows(rows, i, WriteRows(rows, i, fields).value, FirstFields(rows, fields, i)) ==
            ReadRows(rows, i + 1, more, FirstFields(rows, fields, i + 1))
  {
    CountKnown(rows, fields, i);
    assert RowCanonical(rows, fields, i);
    var v, t, count := fields[rows[i].name], rows[i].t, ResolveCount(rows[i].count, fields).value;
    FieldRoundTrip(v, t, count, more);
    NextFields(rows, fields, i);
    ReadRow(rows, i, WriteField(v, t, count).value + more, FirstFields(rows, fields, i), v, more);
  }

  /** A field that runs on is not read back, whatever is read after it. */
  lemma RowRunsOn(rows: seq<Row>, fields: Fields, i: nat, more: seq<byte>)
    requires RowsWellFormed(rows) && FieldsOk(rows, fields) && i < |rows| &&
             (forall k :: 0 <= k <= i ==> rows[k].name in fields)
    requires WriteRows(rows, i + 1, fields) == Some(more) && !RowEnds(rows, fields, i)
    ensures WriteRows(rows, i, fields).Some?
    ensures ReadRows(rows, i, WriteRows(rows, i, fields).value, FirstFields(rows, fields, i)) != Read(fields, [])
  {
    CountKnown(rows, fields, i);
    assert RowCanonical(rows, fields, i);
    var v, t, count := fields[rows[i].name], rows[i].t, ResolveCount(rows[i].count, fields).value;
    RunsOn(v, t, count, more);
    var b, first := WriteField(v, t, count).value + more, FirstFields(rows, fields, i);
    var r := ReadField(b, t, count);
    if r.Read? {
      ReadRow(rows, i, b, first, r.value, r.rest);
      OtherValueStays(rows, i, r.rest, first, r.value);
    }
  }

  lemma OtherValueStays(rows: seq<Row>, i: nat, b: seq<byte>, before: Fields, v: Value)
    requires NamesDiffer(rows) && i < |rows| && before.Keys == NamesUpTo(rows, i)
    ensures var r := ReadRows(rows, i + 1, b, before[rows[i].name := v]);
            r.Read? ==> rows[i].name in r.value && r.value[rows[i].name] == v
  {
    var next := before[rows[i].name := v];
    assert NamesUpTo(rows, i + 1) == NamesUpTo(rows, i) + {rows[i].name};
    if ReadRows(rows, i + 1, b, next).Read? {
      RowsAccepted(rows, i + 1, b, next);
    }
  }

  lemma NextFields(rows: seq<Row>, fields: Fields, i: nat)
    requires i < |rows| && forall k :: 0 <= k <= i ==> rows[k].name in fields
    ensures FirstFields(rows, fields, i)[rows[i].name := fields[rows[i].name]] == FirstFields(rows, fields, i + 1)
  {
    assert NamesUpTo(rows, i + 1) == NamesUpTo(rows, i) + {rows[i].name};
  }

  lemma ReadRow(rows: seq<Row>, i: nat, b: seq<byte>, fields: Fields, v: Value, rest: seq<byte>)
    requires i < |rows| && ResolveCount(rows[i].count, fields).Some?
    requires ReadField(b, rows[i].t, ResolveCount(rows[i].count, fields).value) == Read(v, rest)
    ensures ReadRows(rows, i, b, fields) == ReadRows(rows, i + 1, rest, fields[rows[i].name := v])
  {
  }

  /** A record reads back as what was written if and only if the end of every field can be told. */
  lemma RecordReadsBackIff(rows: seq<Row>, fields: Fields)
    requires RowsWellFormed(rows) && FieldsOk(rows, fields)
    ensures WriteRows(rows, 0, fields).Some?
    ensures ReadRecord(rows, WriteRows(rows, 0, fields).value) == Read(fields, []) <==> EndsFrom(rows, fields, 0)
  {
    RowsReadBack(rows, fields, 0);
    assert FirstFields(rows, fields, 0) == map[];
  }

  /** That is so for all values if only the last field is open-ended. */
  lemma OnlyLastOpenEnded(rows: seq<Row>, fields: Fields)
    requires RowsOk(rows) && FieldsOk(rows, fields)
    ensures EndsFrom(rows, fields, 0)
  {
    forall k | 0 <= k < |rows|
      ensures RowEnds(rows, fields, k)
    {
      assert k == |rows| - 1 ==> WriteRows(rows, k + 1, fields) == Some([]);
    }
  }

  /** A record that is read has canonical values, and writing them gives the same bytes. */
  lemma RecordAccepted(rows: seq<Row>, b: seq<byte>)
    requires NamesDiffer(rows) && ReadRecord(rows, b).Read?
    ensures var fields := ReadRecord(rows, b).value;
            FieldsOk(rows, fields) && WriteRows(rows, 0, fields) == Some(b)
  {
    assert NamesUpTo(rows, 0) == {};
    RowsAccepted(rows, 0, b, map[]);
    var fields := ReadRecord(rows, b).value;
    assert WriteRows(rows, 0, fields).value + [] == WriteRows(rows, 0, fields).value;
  }

  // ----- streams

  /** A record's type and its value's length go in front. */
  function WriteTlvRecord(typ: nat, val: seq<byte>): Option<seq<byte>> {
    var t, n := WriteBigSize(typ), WriteBigSize(|val|);
    if t.None? || n.None? then None else Some(t.value + n.value + val)
  }

  datatype TypedValue = TypedValue(typ: nat, val: seq<byte>)

  function ReadNumber(b: seq<byte>): Parsed<nat> {
    match ReadBigSize(b)
    case Bad(e) => Bad(e)
    case Read(None, _) => Bad(UnexpectedEndOfStream)
    case Read(Some(n), rest) => Read(n, rest)
  }

  function ReadTlvRecord(b: seq<byte>): Parsed<TypedValue> {
    match ReadNumber(b)
    case Bad(e) => Bad(e)
    case Read(typ, b') =>
      match ReadNumber(b')
      case Bad(e) => Bad(e)
      case Read(n, rest) =>
        if |rest| < n then Bad(UnexpectedEndOfStream) else Read(TypedValue(typ, rest[..n]), rest[n..])
  }

  lemma NumberRoundTrip(n: nat, rest: seq<byte>)
    ensures WriteBigSize(n).Some? ==> ReadNumber(WriteBigSize(n).value + rest) == Read(n, rest)
  {
    if WriteBigSize(n).Some? {
      WrittenIsRead(n, rest);
    }
  }

  lemma NumberAccepted(b: seq<byte>)
    requires ReadNumber(b).Read?
    ensures WriteBigSize(ReadNumber(b).value).Some? && b == WriteBigSize(ReadNumber(b).value).value + ReadNumber(b).rest
    ensures |ReadNumber(b).rest| < |b|
  {
    ReadIsWritten(b, ReadNumber(b).value, ReadNumber(b).rest);
    PowerValues();
  }

  lemma TlvRecordRoundTrip(typ: nat, val: seq<byte>, rest: seq<byte>)
    requires WriteTlvRecord(typ, val).Some?
    ensures ReadTlvRecord(WriteTlvRecord(typ, val).value + rest) == Read(TypedValue(typ, val), rest)
  {
    var t, n := WriteBigSize(typ).value, WriteBigSize(|val|).value;
    assert t + n + val + rest == t + (n + (val + rest));
    NumberRoundTrip(typ, n + (val + rest));
    NumberRoundTrip(|val|, val + rest);
    assert (val + rest)[..|val|] == val && (val + rest)[|val|..] == rest;
  }

  lemma TlvRecordAccepted(b: seq<byte>)
    requires ReadTlvRecord(b).Read?
    ensures var r := ReadTlvRecord(b);
            && WriteTlvRecord(r.value.typ, r.value.val).Some?
            && b == WriteTlvRecord(r.value.typ, r.value.val).value + r.rest
            && |r.rest| < |b|
  {
    NumberAccepted(b);
    NumberAccepted(ReadNumber(b).rest);
    var r := ReadTlvRecord(b);
    Joined(b, WriteBigSize(r.value.typ).value, ReadNumber(b).rest, WriteBigSize(|r.value.val|).value,
           ReadNumber(ReadNumber(b).rest).rest, r.value.val, r.rest);
  }

  lemma Joined(b: seq<byte>, t: seq<byte>, b1: seq<byte>, n: seq<byte>, b2: seq<byte>, v: seq<byte>, rest: seq<byte>)
    requires b == t + b1 && b1 == n + b2 && b2 == v + rest
    ensures b == t + n + v + rest
  {
  }

  /** Types increase, names differ, and the rows of every type are well-formed. */
  predicate SchemeWellFormed(scheme: seq<RecordScheme>) {
    && (forall i, j :: 0 <= i < j < |scheme| ==> scheme[i].typ < scheme[j].typ && scheme[i].name != scheme[j].name)
    && forall i :: 0 <= i < |scheme| ==> RowsWellFormed(scheme[i].rows)
  }

  /** Besides, only last fields are open-ended. */
  predicate SchemeOk(scheme: seq<RecordScheme>) {
    SchemeWellFormed(scheme) && forall i :: 0 <= i < |scheme| ==> RowsOk(scheme[i].rows)
  }

  /** The records from `i` on that have values. */
  function WriteStream(scheme: seq<RecordScheme>, i: nat, records: Records): Option<seq<byte>>
    requires i <= |scheme|
    decreases |scheme| - i
  {
    if i == |scheme| then Some([])
    else if scheme[i].name !in records then WriteStream(scheme, i + 1, records)
    else
      var val := WriteRows(scheme[i].rows, 0, records[scheme[i].name]);
      if val.None? then None
      else
        var record, more := WriteTlvRecord(scheme[i].typ, val.value), WriteStream(scheme, i + 1, records);
        if record.None? || more.None? then None else Some(record.value + more.value)
  }

  /** The scheme's position of a record type. */
  function Find(scheme: seq<RecordScheme>, typ: nat): (i: Option<nat>)
    ensures i.Some? ==> i.value < |scheme| && scheme[i.value].typ == typ
    ensures i.None? ==> forall k :: 0 <= k < |scheme| ==> scheme[k].typ != typ
  {
    if scheme == [] then None
    else if scheme[|scheme| - 1].typ == typ then Some(|scheme| - 1)
    else Find(scheme[..|scheme| - 1], typ)
  }

  /** Types must increase; unknown odd types are passed over, unknown even ones are refused. */
  function ReadStream(scheme: seq<RecordScheme>, b: seq<byte>, last: int, records: Records): Parsed<Records>
    decreases |b|
  {
    if b == [] then Read(records, [])
    else
      match ReadTlvRecord(b)
      case Bad(e) => Bad(e)
      case Read(record, rest) =>
        TlvRecordAccepted(b);
        if record.typ <= last then Bad(InvalidFieldOrder)
        else
          match Find(scheme, record.typ)
          case None =>
            if record.typ % 2 == 0 then Bad(UnknownMandatoryRecordType)
            else ReadStream(scheme, rest, record.typ, records)
          case Some(i) =>
            match ReadRecord(scheme[i].rows, record.val)
            case Bad(e) => Bad(e)
            case Read(fields, _) => ReadStream(scheme, rest, record.typ, records[scheme[i].name := fields])
  }
}
