/** Whole streams: what is written is read back, and what is read is how it is written. */
module TlvRoundTrip {
  import opened Options
  import opened Bytes
  import opened BigSize
  import opened TlvFields
  import opened TlvStreams

  function RecordNames(scheme: seq<RecordScheme>, i: nat): set<Name>
    requires i <= |scheme|
  {
    set k | 0 <= k < i :: scheme[k].name
  }

  /** Every record is one of the scheme's, and its fields have the values that they can hold. */
  predicate RecordsOk(scheme: seq<RecordScheme>, records: Records) {
    && records.Keys <= RecordNames(scheme, |scheme|)
    && forall i :: 0 <= i < |scheme| && scheme[i].name in records ==> FieldsOk(scheme[i].rows, records[scheme[i].name])
  }

  /** The records of the first `i` types. */
  function FirstRecords(scheme: seq<RecordScheme>, records: Records, i: nat): Records
    requires i <= |scheme|
  {
    map name | name in records && name in RecordNames(scheme, i) :: records[name]
  }

  lemma FirstRecordsNext(scheme: seq<RecordScheme>, records: Records, i: nat)
    requires i < |scheme|
    ensures FirstRecords(scheme, records, i + 1) ==
            if scheme[i].name in records
            then FirstRecords(scheme, records, i)[scheme[i].name := records[scheme[i].name]]
            else FirstRecords(scheme, records, i)
  {
    assert RecordNames(scheme, i + 1) == RecordNames(scheme, i) + {scheme[i].name};
  }

  lemma {:induction false} FindAt(scheme: seq<RecordScheme>, i: nat)
    requires SchemeWellFormed(scheme) && i < |scheme|
    ensures Find(scheme, scheme[i].typ) == Some(i)
  {
    if i < |scheme| - 1 {
      var front := scheme[..|scheme| - 1];
      assert forall k :: 0 <= k < |front| ==> front[k] == scheme[k];
      FindAt(front, i);
    }
  }

  /** One record in front of a stream. */
  lemma ReadFirst(scheme: seq<RecordScheme>, i: nat, val: seq<byte>, rest: seq<byte>, last: int, records: Records)
    requires SchemeWellFormed(scheme) && i < |scheme| && last < scheme[i].typ &&
             WriteTlvRecord(scheme[i].typ, val).Some?
    ensures var r := ReadRecord(scheme[i].rows, val);
            ReadStream(scheme, WriteTlvRecord(scheme[i].typ, val).value + rest, last, records) ==
            match r
            case Bad(e) => Bad(e)
            case Read(fields, _) => ReadStream(scheme, rest, scheme[i].typ, records[scheme[i].name := fields])
  {
    TlvRecordRoundTrip(scheme[i].typ, val, rest);
    TlvRecordAccepted(WriteTlvRecord(scheme[i].typ, val).value + rest);
    FindAt(scheme, i);
  }

  /** The end of every field of the record of type `i`, if there is one, can be told. */
  predicate RecordEnds(scheme: seq<RecordScheme>, records: Records, i: nat)
    requires i < |scheme|
  {
    scheme[i].name in records ==> EndsFrom(scheme[i].rows, records[scheme[i].name], 0)
  }

  predicate RecordsEnd(scheme: seq<RecordScheme>, records: Records, i: nat)
    requires i <= |scheme|
  {
    forall k :: i <= k < |scheme| ==> RecordEnds(scheme, records, k)
  }

  /** What is read of earlier types stays as it is. */
  lemma {:induction false} EarlierStays(scheme: seq<RecordScheme>, i: nat, records: Records, last: int, before: Records,
                                        name: Name)
    requires SchemeWellFormed(scheme) && i <= |scheme| && (i < |scheme| ==> last < scheme[i].typ)
    requires WriteStream(scheme, i, records).Some? && name in before && name in RecordNames(scheme, i)
    ensures var r := ReadStream(scheme, WriteStream(scheme, i, records).value, last, before);
            r.Read? ==> name in r.value && r.value[name] == before[name]
    decreases |scheme| - i
  {
    if i < |scheme| {
      assert name != scheme[i].name;
      if scheme[i].name in records {
        var val := WriteRows(scheme[i].rows, 0, records[scheme[i].name]).value;
        var r := ReadRecord(scheme[i].rows, val);
        ReadFirst(scheme, i, val, WriteStream(scheme, i + 1, records).value, last, before);
        if r.Read? {
          EarlierStays(scheme, i + 1, records, scheme[i].typ, before[scheme[i].name := r.value], name);
        }
      } else {
        EarlierStays(scheme, i + 1, records, last, before, name);
      }
    }
  }

  /** A record that does not read back spoils the stream. */
  lemma FirstSpoils(scheme: seq<RecordScheme>, i: nat, records: Records, last: int, before: Records)
    requires SchemeWellFormed(scheme) && i < |scheme| && last < scheme[i].typ && scheme[i].name in records
    requires WriteStream(scheme, i, records).Some?
    requires ReadRecord(scheme[i].rows, WriteRows(scheme[i].rows, 0, records[scheme[i].name]).value) !=
             Read(records[scheme[i].name], [])
    ensures ReadStream(scheme, WriteStream(scheme, i, records).value, last, before) != Read(records, [])
  {
    var name, val := scheme[i].name, WriteRows(scheme[i].rows, 0, records[scheme[i].name]).value;
    var r := ReadRecord(scheme[i].rows, val);
    ReadFirst(scheme, i, val, WriteStream(scheme, i + 1, records).value, last, before);
    if r.Read? {
      EarlierStays(scheme, i + 1, records, scheme[i].typ, before[name := r.value], name);
    }
  }

  /** From type `i` on, the records read back exactly if the ends of all their fields can be told. */
  lemma {:induction false} RestReadsBack(scheme: seq<RecordScheme>, i: nat, records: Records, last: int)
    requires SchemeWellFormed(scheme) && RecordsOk(scheme, records) && i <= |scheme| &&
             (i < |scheme| ==> last < scheme[i].typ)
    requires WriteStream(scheme, i, records).Some?
    ensures ReadStream(scheme, WriteStream(scheme, i, records).value, last, FirstRecords(scheme, records, i)) ==
            Read(records, [])
            <==> RecordsEnd(scheme, records, i)
    decreases |scheme| - i
  {
    hide RecordNames, EndsFrom, WriteRows;
    if i == |scheme| {
      assert FirstRecords(scheme, records, i) == records;
    } else {
      FirstRecordsNext(scheme, records, i);
      assert RecordsEnd(scheme, records, i) <==> RecordEnds(scheme, records, i) && RecordsEnd(scheme, records, i + 1);
      if scheme[i].name in records {
        RecordReadsBackIff(scheme[i].rows, records[scheme[i].name]);
        if RecordEnds(scheme, records, i) {
          var val := WriteRows(scheme[i].rows, 0, records[scheme[i].name]).value;
          RestReadsBack(scheme, i + 1, records, scheme[i].typ);
          ReadFirst(scheme, i, val, WriteStream(scheme, i + 1, records).value, last, FirstRecords(scheme, records, i));
        } else {
          FirstSpoils(scheme, i, records, last, FirstRecords(scheme, records, i));
        }
      } else {
        RestReadsBack(scheme, i + 1, records, last);
      }
    }
  }

  /**
   Reading a stream undoes writing it if and only if the end of every field can be told: an open-ended field is followed
   by no bytes of its record, or is a truncated integer that needs all the bytes it may have.
   */
  lemma StreamReadsBackIff(scheme: seq<RecordScheme>, records: Records)
    requires SchemeWellFormed(scheme) && RecordsOk(scheme, records) && WriteStream(scheme, 0, records).Some?
    ensures ReadStream(scheme, WriteStream(scheme, 0, records).value, -1, map[]) == Read(records, []) <==>
            RecordsEnd(scheme, records, 0)
  {
    assert FirstRecords(scheme, records, 0) == map[];
    RestReadsBack(scheme, 0, records, -1);
  }

  /** Reading a stream undoes writing it, for every scheme in which only last fields are open-ended. */
  lemma StreamRoundTrip(scheme: seq<RecordScheme>, records: Records)
    requires SchemeOk(scheme) && RecordsOk(scheme, records) && WriteStream(scheme, 0, records).Some?
    ensures ReadStream(scheme, WriteStream(scheme, 0, records).value, -1, map[]) == Read(records, [])
  {
    StreamReadsBackIff(scheme, records);
    forall k | 0 <= k < |scheme|
      ensures RecordEnds(scheme, records, k)
    {
      if scheme[k].name in records {
        OnlyLastOpenEnded(scheme[k].rows, records[scheme[k].name]);
      }
    }
  }

  /** A record of an unknown odd type makes no difference but for the order of types. */
  lemma UnknownOddIgnored(scheme: seq<RecordScheme>, typ: nat, val: seq<byte>, rest: seq<byte>, last: int,
                          records: Records)
    requires Find(scheme, typ).None? && typ % 2 == 1 && last < typ && WriteTlvRecord(typ, val).Some?
    ensures ReadStream(scheme, WriteTlvRecord(typ, val).value + rest, last, records) ==
            ReadStream(scheme, rest, typ, records)
  {
    TlvRecordRoundTrip(typ, val, rest);
    TlvRecordAccepted(WriteTlvRecord(typ, val).value + rest);
  }

  /** A record of an unknown even type is refused, whatever follows. */
  lemma UnknownEvenRefused(scheme: seq<RecordScheme>, typ: nat, val: seq<byte>, rest: seq<byte>, last: int,
                           records: Records)
    requires Find(scheme, typ).None? && typ % 2 == 0 && last < typ && WriteTlvRecord(typ, val).Some?
    ensures ReadStream(scheme, WriteTlvRecord(typ, val).value + rest, last, records) == Bad(UnknownMandatoryRecordType)
  {
    TlvRecordRoundTrip(typ, val, rest);
    TlvRecordAccepted(WriteTlvRecord(typ, val).value + rest);
  }

  /** So is a record whose type is not above the ones before, whether it is known or not. */
  lemma DisorderRefused(scheme: seq<RecordScheme>, typ: nat, val: seq<byte>, rest: seq<byte>, last: int,
                        records: Records)
    requires typ <= last && WriteTlvRecord(typ, val).Some?
    ensures ReadStream(scheme, WriteTlvRecord(typ, val).value + rest, last, records) == Bad(InvalidFieldOrder)
  {
    TlvRecordRoundTrip(typ, val, rest);
    TlvRecordAccepted(WriteTlvRecord(typ, val).value + rest);
  }

  // ----- what is read

  /** The types of the records in a stream, as far as it can be cut into records. */
  function Types(b: seq<byte>): seq<nat>
    decreases |b|
  {
    if b == [] || ReadTlvRecord(b).Bad? then []
    else
      TlvRecordAccepted(b);
      [ReadTlvRecord(b).value.typ] + Types(ReadTlvRecord(b).rest)
  }

  /** In a stream that is accepted the types increase, and the even ones are known. */
  lemma {:induction false} TypesAccepted(scheme: seq<RecordScheme>, b: seq<byte>, last: int, records: Records)
    requires ReadStream(scheme, b, last, records).Read?
    ensures forall i :: 0 <= i < |Types(b)| ==> Types(b)[i] > last
    ensures forall i, j :: 0 <= i < j < |Types(b)| ==> Types(b)[i] < Types(b)[j]
    ensures forall i :: 0 <= i < |Types(b)| && Types(b)[i] % 2 == 0 ==>
              exists k :: 0 <= k < |scheme| && scheme[k].typ == Types(b)[i]
    decreases |b|
  {
    if b != [] {
      var r := ReadTlvRecord(b);
      TlvRecordAccepted(b);
      var i := Find(scheme, r.value.typ);
      var next := if i.None? then records
                  else records[scheme[i.value].name := ReadRecord(scheme[i.value].rows, r.value.val).value];
      TypesAccepted(scheme, r.rest, r.value.typ, next);
      var more := Types(r.rest);
      assert Types(b) == [r.value.typ] + more;
      assert i.Some? ==> scheme[i.value].typ == r.value.typ;
    }
  }

  /** The stream without its records of unknown types. */
  function KnownPart(scheme: seq<RecordScheme>, b: seq<byte>): seq<byte>
    decreases |b|
  {
    if b == [] || ReadTlvRecord(b).Bad? then []
    else
      TlvRecordAccepted(b);
      var r := ReadTlvRecord(b);
      (if Find(scheme, r.value.typ).Some? then WriteTlvRecord(r.value.typ, r.value.val).value else []) +
      KnownPart(scheme, r.rest)
  }

  /** Of a stream of known types nothing is left out. */
  lemma {:induction false} AllKnown(scheme: seq<RecordScheme>, b: seq<byte>, last: int, records: Records)
    requires ReadStream(scheme, b, last, records).Read?
    requires forall t :: t in Types(b) ==> exists k :: 0 <= k < |scheme| && scheme[k].typ == t
    ensures KnownPart(scheme, b) == b
    decreases |b|
  {
    if b != [] {
      var r := ReadTlvRecord(b);
      TlvRecordAccepted(b);
      assert r.value.typ in Types(b);
      assert forall t :: t in Types(r.rest) ==> t in Types(b);
      var i := Find(scheme, r.value.typ).value;
      AllKnown(scheme, r.rest, r.value.typ, records[scheme[i].name := ReadRecord(scheme[i].rows, r.value.val).value]);
    }
  }

  /** All types before `i` are at most `last`. */
  ghost predicate Past(scheme: seq<RecordScheme>, i: nat, last: int) {
    i <= |scheme| && forall k :: 0 <= k < i ==> scheme[k].typ <= last
  }

  /** Reading from type `i` on adds records of those types only, and writing these gives the bytes that were read. */
  ghost predicate StreamRead(scheme: seq<RecordScheme>, i: nat, b: seq<byte>, before: Records, records: Records)
    requires i <= |scheme|
  {
    && (forall name :: name in before ==> name in records && records[name] == before[name])
    && (forall name :: name in records && name !in before ==> exists k :: i <= k < |scheme| && scheme[k].name == name)
    && (forall k :: i <= k < |scheme| && scheme[k].name in records ==>
        FieldsOk(scheme[k].rows, records[scheme[k].name]))
    && WriteStream(scheme, i, records) == Some(b)
  }

  lemma {:induction false} NothingToWrite(scheme: seq<RecordScheme>, i: nat, j: nat, records: Records)
    requires i <= j <= |scheme| && forall k :: i <= k < j ==> scheme[k].name !in records
    ensures WriteStream(scheme, i, records) == WriteStream(scheme, j, records)
    decreases j - i
  {
    if i < j {
      NothingToWrite(scheme, i + 1, j, records);
    }
  }

  lemma {:induction false} StreamAcceptedFrom(scheme: seq<RecordScheme>, i: nat, b: seq<byte>, last: int,
                                              before: Records)
    requires SchemeWellFormed(scheme) && Past(scheme, i, last) && before.Keys <= RecordNames(scheme, i)
    requires ReadStream(scheme, b, last, before).Read?
    ensures StreamRead(scheme, i, KnownPart(scheme, b), before, ReadStream(scheme, b, last, before).value)
    decreases |b|
  {
    hide RecordNames, StreamRead, SchemeWellFormed, FieldsOk, WriteRows, WriteTlvRecord, ReadTlvRecord, ReadRecord;
    hide Find;
    if b == [] {
      NothingRead(scheme, i, before);
    } else {
      var r := ReadTlvRecord(b);
      TlvRecordAccepted(b);
      if Find(scheme, r.value.typ).None? {
        assert KnownPart(scheme, b) == KnownPart(scheme, r.rest);
        StreamAcceptedFrom(scheme, i, r.rest, r.value.typ, before);
      } else {
        var j, fields := NextRead(scheme, b, last, before);
        var next := before[scheme[j].name := fields];
        NamesNext(scheme, i, j, before, fields);
        StreamAcceptedFrom(scheme, j + 1, r.rest, r.value.typ, next);
        FirstAccepted(scheme, i, j, KnownPart(scheme, b), r.value.val, KnownPart(scheme, r.rest), before, fields,
                      ReadStream(scheme, r.rest, r.value.typ, next).value);
      }
    }
  }

  lemma NothingRead(scheme: seq<RecordScheme>, i: nat, before: Records)
    requires SchemeWellFormed(scheme) && i <= |scheme| && before.Keys <= RecordNames(scheme, i)
    ensures StreamRead(scheme, i, [], before, before)
  {
    forall k | i <= k < |scheme|
      ensures scheme[k].name !in before
    {
    }
    NothingToWrite(scheme, i, |scheme|, before);
  }

  lemma NamesNext(scheme: seq<RecordScheme>, i: nat, j: nat, before: Records, fields: Fields)
    requires SchemeWellFormed(scheme) && i <= j < |scheme| && before.Keys <= RecordNames(scheme, i)
    ensures before[scheme[j].name := fields].Keys <= RecordNames(scheme, j + 1) && Past(scheme, j + 1, scheme[j].typ)
  {
  }

  /** One known record is read, and the rest follows. */
  lemma NextRead(scheme: seq<RecordScheme>, b: seq<byte>, last: int, before: Records) returns (j: nat, fields: Fields)
    requires SchemeWellFormed(scheme) && b != [] && ReadStream(scheme, b, last, before).Read?
    requires Find(scheme, ReadTlvRecord(b).value.typ).Some?
    ensures j < |scheme|
    ensures var r := ReadTlvRecord(b);
            && scheme[j].typ == r.value.typ > last && FieldsOk(scheme[j].rows, fields) &&
               WriteRows(scheme[j].rows, 0, fields) == Some(r.value.val)
            && WriteTlvRecord(r.value.typ, r.value.val).Some? && |r.rest| < |b|
            && KnownPart(scheme, b) == WriteTlvRecord(r.value.typ, r.value.val).value + KnownPart(scheme, r.rest)
            && ReadStream(scheme, b, last, before) ==
               ReadStream(scheme, r.rest, r.value.typ, before[scheme[j].name := fields])
  {
    var r := ReadTlvRecord(b);
    TlvRecordAccepted(b);
    j := Find(scheme, r.value.typ).value;
    fields := ReadRecord(scheme[j].rows, r.value.val).value;
    RecordAccepted(scheme[j].rows, r.value.val);
  }

  lemma FirstAccepted(scheme: seq<RecordScheme>, i: nat, j: nat, b: seq<byte>, val: seq<byte>, rest: seq<byte>,
                      before: Records, fields: Fields, records: Records)
    requires SchemeWellFormed(scheme) && i <= j < |scheme| && before.Keys <= RecordNames(scheme, i)
    requires FieldsOk(scheme[j].rows, fields) && WriteRows(scheme[j].rows, 0, fields) == Some(val)
    requires WriteTlvRecord(scheme[j].typ, val).Some? && b == WriteTlvRecord(scheme[j].typ, val).value + rest
    requires StreamRead(scheme, j + 1, rest, before[scheme[j].name := fields], records)
    ensures StreamRead(scheme, i, b, before, records)
  {
    var name := scheme[j].name;
    assert name !in before;
    assert records[name] == fields;
    assert WriteStream(scheme, j, records) == Some(b);
    forall k | i <= k < j
      ensures scheme[k].name !in records
    {
      assert scheme[k].name !in before[name := fields];
    }
    NothingToWrite(scheme, i, j, records);
  }

  /**
   A stream is read only if, without its records of unknown types (which are odd), it is exactly what writing the
   records that are read gives.
   */
  lemma StreamAccepted(scheme: seq<RecordScheme>, b: seq<byte>)
    requires SchemeWellFormed(scheme) && ReadStream(scheme, b, -1, map[]).Read?
    ensures var records := ReadStream(scheme, b, -1, map[]).value;
            RecordsOk(scheme, records) && WriteStream(scheme, 0, records) == Some(KnownPart(scheme, b))
  {
    StreamAcceptedFrom(scheme, 0, b, -1, map[]);
  }

  /** A truncated integer that is not last swallows the next field: the number 5, then the byte 7, do not come back. */
  lemma TruncatedNotLast()
    ensures var rows := [Row(0, Truncated(2), One), Row(1, Byte, One)];
            var fields := map[0 := IntValue(5), 1 := BytesValue([7])];
            && FieldsOk(rows, fields) && WriteRows(rows, 0, fields) == Some([5, 7])
            && ReadRecord(rows, [5, 7]) == Bad(UnexpectedEndOfStream)
  {
    var rows := [Row(0, Truncated(2), One), Row(1, Byte, One)];
    var fields := map[0 := IntValue(5), 1 := BytesValue([7])];
    assert rows[0].name == 0 && rows[1].name == 1;
    assert Power256(2) == 0x1_0000;
    assert ToBytes(5, 2) == [0, 5] by {
      assert ToBytes(0, 1) == [0] by { assert ToBytes(0, 0) == []; }
    }
    assert StripZeros([0, 5]) == [5] by { assert [0, 5][1..] == [5]; }
    assert RowCanonical(rows, fields, 0) && RowCanonical(rows, fields, 1);
    assert WriteRows(rows, 2, fields) == Some([]);
    assert WriteField(IntValue(5), Truncated(2), Num(1)) == Some([5]);
    assert WriteRows(rows, 1, fields) == Some([7] + []);
    assert WriteRows(rows, 0, fields) == Some([5] + ([7] + []));
    assert [5] + ([7] + []) == [5, 7];
    assert NamesUpTo(rows, 2) == {0, 1};
  }
}
