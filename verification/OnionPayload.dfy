/**
 What hops are told is a stream of records. From the sender's records to those each hop ends up with, through the
 serializer, the onion and the way along the route.
 */
module OnionPayloads {
  import opened Options
  import opened Bytes
  import opened BigSize
  import opened TlvFields
  import opened TlvStreams
  import opened TlvRoundTrip
  import OnionSpec
  import OnionPackets

  /** The records a hop can be told: those of the onion's wire format, each with the number of its type as its name. */
  function PayloadScheme(): seq<RecordScheme> {
    [
      RecordScheme(2, 2, [Row(0, Truncated(8), One)]),
      RecordScheme(4, 4, [Row(0, Truncated(4), One)]),
      RecordScheme(6, 6, [Row(0, Blob(8), One)]),
      RecordScheme(8, 8, [Row(0, Byte, Literal(32)), Row(1, Truncated(8), One)]),
      RecordScheme(16, 16, [Row(0, Byte, Ellipsis)]),
      RecordScheme(66097, 66097, [Row(0, UInt(8), One)]),
      RecordScheme(66098, 66098, [Row(0, Byte, Literal(33))]),
      RecordScheme(66099, 66099, [Row(0, Byte, Ellipsis)]),
      RecordScheme(66100, 66100,
                   [Row(0, Byte, Literal(1)), Row(1, Byte, Literal(33)), Row(2, Byte, Literal(400)),
                    Row(3, Byte, Literal(32))])
    ]
  }

  lemma PayloadSchemeOk()
    ensures SchemeOk(PayloadScheme())
  {
    var scheme := PayloadScheme();
    forall i | 0 <= i < |scheme|
      ensures RowsOk(scheme[i].rows)
    {
      assert forall k :: 0 <= k < |scheme[i].rows| ==> RefersBack(scheme[i].rows, k);
    }
  }

  /** The records are canonical, and `bytes` is how they are written. */
  ghost predicate Serialized(records: Records, bytes: seq<byte>) {
    RecordsOk(PayloadScheme(), records) && WriteStream(PayloadScheme(), 0, records) == Some(bytes)
  }

  lemma SerializedIsRead(records: Records, bytes: seq<byte>)
    requires Serialized(records, bytes)
    ensures ReadStream(PayloadScheme(), bytes, -1, map[]) == Read(records, [])
  {
    PayloadSchemeOk();
    StreamRoundTrip(PayloadScheme(), records);
  }

  lemma RecordIsLong(typ: nat, val: seq<byte>)
    requires WriteTlvRecord(typ, val).Some?
    ensures |WriteTlvRecord(typ, val).value| >= 2
  {
  }

  /** Any record takes at least two bytes, and no records take none. */
  lemma {:induction false} StreamLength(scheme: seq<RecordScheme>, i: nat, records: Records)
    requires i <= |scheme| && WriteStream(scheme, i, records).Some?
    ensures WriteStream(scheme, i, records) == Some([]) || |WriteStream(scheme, i, records).value| >= 2
    ensures WriteStream(scheme, i, records) == Some([]) <==> forall k :: i <= k < |scheme| ==>
            scheme[k].name !in records
    decreases |scheme| - i
  {
    if i < |scheme| {
      StreamLength(scheme, i + 1, records);
      if scheme[i].name in records {
        RecordIsLong(scheme[i].typ, WriteRows(scheme[i].rows, 0, records[scheme[i].name]).value);
      }
    }
  }

  lemma SerializedLength(records: Records, bytes: seq<byte>)
    requires Serialized(records, bytes)
    ensures |bytes| >= 2 <==> records != map[]
    ensures |bytes| != 1
  {
    var scheme := PayloadScheme();
    StreamLength(scheme, 0, records);
    if records != map[] {
      var name :| name in records;
      assert name in RecordNames(scheme, |scheme|);
    }
  }

  // ----- along the route

  datatype Journey =
    | AllTold(records: seq<Records>)
    | Refused(records: seq<Records>, error: OnionSpec.OnionError)
    | Unreadable(records: seq<Records>, reason: ParseError)
    | NowhereToGo(records: seq<Records>)
  {
    function After(r: Records): Journey {
      match this
      case AllTold(rs) => AllTold([r] + rs)
      case Refused(rs, e) => Refused([r] + rs, e)
      case Unreadable(rs, e) => Unreadable([r] + rs, e)
      case NowhereToGo(rs) => NowhereToGo([r] + rs)
    }
  }

  /**
   Every hop peels its layer off, reads the records it is told, and passes the next packet on unless it is the last.
   */
  function Travel(c: OnionSpec.Crypto, packet: OnionSpec.OnionPacket, associatedData: seq<byte>, keys: seq<nat>,
                  trampoline: bool): Journey
    decreases |keys|
  {
    if keys == [] then NowhereToGo([])
    else
      match OnionSpec.ProcessOnionPacket(c, packet, associatedData, keys[0], trampoline)
      case Err(e) => Refused([], e)
      case Ok(done) =>
        match ReadStream(PayloadScheme(), done.payload, -1, map[])
        case Bad(e) => Unreadable([], e)
        case Read(records, _) =>
          if done.areWeFinal then AllTold([records])
          else Travel(c, done.nextPacket, associatedData, keys[1..], trampoline).After(records)
  }

  ghost predicate AllSerialized(told: seq<Records>, payloads: seq<seq<byte>>) {
    |told| == |payloads| && forall i :: 0 <= i < |told| ==> Serialized(told[i], payloads[i])
  }

  /** A trip on which the hops it reached were told `told`. */
  function JourneyOf(trip: OnionPackets.Trip, told: seq<Records>): Journey {
    match trip
    case Arrived(_) => AllTold(told)
    case Stopped(_, e) => Refused(told, e)
    case Homeless(_) => NowhereToGo(told)
  }

  lemma OneMoreHop(trip: OnionPackets.Trip, payload: seq<byte>, told: seq<Records>)
    requires AllSerialized(told, trip.After(payload).payloads)
    ensures told != [] && Serialized(told[0], payload) && AllSerialized(told[1..], trip.payloads)
    ensures JourneyOf(trip.After(payload), told) == JourneyOf(trip, told[1..]).After(told[0])
  {
    assert trip.After(payload).payloads[1..] == trip.payloads && told == [told[0]] + told[1..];
  }

  /** As far as the packet gets, hops read the records that were written for them. */
  lemma {:induction false} RecordsOfTrip(c: OnionSpec.Crypto, packet: OnionSpec.OnionPacket, associatedData: seq<byte>,
                                         keys: seq<nat>, trampoline: bool, told: seq<Records>)
    requires AllSerialized(told, OnionPackets.Travel(c, packet, associatedData, keys, trampoline).payloads)
    ensures Travel(c, packet, associatedData, keys, trampoline) ==
            JourneyOf(OnionPackets.Travel(c, packet, associatedData, keys, trampoline), told)
    decreases |keys|
  {
    hide Serialized, RecordsOk;
    if keys != [] {
      var result := OnionSpec.ProcessOnionPacket(c, packet, associatedData, keys[0], trampoline);
      if result.Ok? {
        var done := result.value;
        if done.areWeFinal {
          SerializedIsRead(told[0], done.payload);
        } else {
          OneMoreHop(OnionPackets.Travel(c, done.nextPacket, associatedData, keys[1..], trampoline), done.payload,
                     told);
          SerializedIsRead(told[0], done.payload);
          RecordsOfTrip(c, done.nextPacket, associatedData, keys[1..], trampoline, told[1..]);
        }
      }
    }
  }

  /** The first hop that is told nothing. */
  function FirstEmpty(told: seq<Records>): (n: nat)
    ensures n <= |told| && (forall i :: 0 <= i < n ==> told[i] != map[]) && (n < |told| ==> told[n] == map[])
  {
    if told == [] || told[0] == map[] then 0 else 1 + FirstEmpty(told[1..])
  }

  lemma {:induction false} ReadableAre(told: seq<Records>, payloads: seq<seq<byte>>)
    requires AllSerialized(told, payloads)
    ensures OnionPackets.Readable(payloads) == FirstEmpty(told)
  {
    if told != [] {
      SerializedLength(told[0], payloads[0]);
      ReadableAre(told[1..], payloads[1..]);
    }
  }

  lemma ExpectedTold(told: seq<Records>, payloads: seq<seq<byte>>)
    requires AllSerialized(told, payloads)
    ensures var n, trip := FirstEmpty(told), OnionPackets.Expected(payloads);
            && AllSerialized(told[..n], trip.payloads)
            && JourneyOf(trip, told[..n]) ==
               if n == |told| then AllTold(told) else Refused(told[..n], OnionSpec.LegacyHopData)
  {
    var n := FirstEmpty(told);
    ReadableAre(told, payloads);
    assert n == |told| ==> told[..n] == told;
    if n < |told| {
      SerializedLength(told[n], payloads[n]);
    }
  }

  /**
   Every hop of the route ends up with exactly the records that were written for it, if and only if every hop is told
   something; otherwise the packet is refused, as of the retired format, by the first hop that is told nothing.
   */
  lemma RouteTellsRecords(r: OnionSpec.Route, keys: seq<nat>, told: seq<Records>)
    requires OnionSpec.Laws(r.c) && r.Fits() && OnionPackets.KeysMatch(r, keys) && keys != []
    requires AllSerialized(told, r.payloads)
    ensures var journey := Travel(r.c, r.PacketAt(0), r.associatedData, keys, r.trampoline);
            && (journey == AllTold(told) <==> forall i :: 0 <= i < |told| ==> told[i] != map[])
            && (journey != AllTold(told) ==> journey == Refused(told[..FirstEmpty(told)], OnionSpec.LegacyHopData))
  {
    OnionPackets.WholeRoute(r, keys);
    ExpectedTold(told, r.payloads);
    RecordsOfTrip(r.c, r.PacketAt(0), r.associatedData, keys, r.trampoline, told[..FirstEmpty(told)]);
  }
}
