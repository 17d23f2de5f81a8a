/**
 The Sphinx onion (BOLT #4): how the packet is built from the last hop to the first, how the filler is
 generated from the first to the last, and how one hop peels its layer off.
 */
module OnionSpec {
  import opened Options
  import opened Bytes
  import opened BigSize
  import opened Primes

  const HOPS_DATA_SIZE: nat := 1300
  const TRAMPOLINE_HOPS_DATA_SIZE: nat := 400
  const PER_HOP_HMAC_SIZE: nat := 32

  datatype KeyType = RHO | MU | PAD

  /** The cryptographic primitives. Private keys are numbers; everything else is bytes. */
  datatype Crypto = Crypto(
    order: nat,
    publicKey: nat -> seq<byte>,
    isPublicKey: seq<byte> -> bool,
    ecdh: (nat, seq<byte>) -> seq<byte>,
    scale: (seq<byte>, nat) -> seq<byte>,
    blindingFactor: (seq<byte>, seq<byte>) -> nat,
    deriveKey: (KeyType, seq<byte>) -> seq<byte>,
    hmac: (seq<byte>, seq<byte>) -> seq<byte>,
    stream: (seq<byte>, nat) -> seq<byte>)

  /** Private keys are the numbers that are no multiple of the order of the group. */
  predicate IsKey(c: Crypto, k: nat) {
    c.order > 0 && k % c.order != 0
  }

  /**
   What the construction relies on: the group has a prime order, both ends agree on the shared secret, scaling a public
   key scales the private one, no blinding factor is zero, no code is all zeros, and short cipher streams are prefixes
   of long ones.
   */
  ghost predicate Laws(c: Crypto) {
    && IsPrime(c.order)
    && (forall a: nat, b: nat :: IsKey(c, a) && IsKey(c, b) ==> c.ecdh(a, c.publicKey(b)) == c.ecdh(b, c.publicKey(a)))
    && (forall k: nat, f: nat :: IsKey(c, k) && IsKey(c, f) ==>
        c.scale(c.publicKey(k), f) == c.publicKey(k * f % c.order))
    && (forall k: nat :: IsKey(c, k) ==> c.isPublicKey(c.publicKey(k)) && |c.publicKey(k)| == 33)
    && (forall b, s :: IsKey(c, c.blindingFactor(b, s)))
    && (forall k, m :: |c.hmac(k, m)| == PER_HOP_HMAC_SIZE && c.hmac(k, m) != Zeros(PER_HOP_HMAC_SIZE))
    && (forall k, n: nat :: |c.stream(k, n)| == n)
    && (forall k, m: nat, n: nat :: m <= n ==> c.stream(k, m) == c.stream(k, n)[..m])
  }

  /** Products of keys are keys. */
  lemma ProductIsKey(c: Crypto, a: nat, b: nat)
    requires IsPrime(c.order) && IsKey(c, a) && IsKey(c, b)
    ensures IsKey(c, a * b % c.order)
  {
    var n, product := c.order, a * b;
    Division(product, n);
    if product % n == 0 {
      var j := PrimeDivides(n, a, b, product / n);
      MultipleOf(b, n, j);
      assert false;
    }
    SmallRemainder(product % n, n);
  }

  function DataSize(trampoline: bool): nat {
    if trampoline then TRAMPOLINE_HOPS_DATA_SIZE else HOPS_DATA_SIZE
  }

  // ----- one hop's data

  /** The payload behind its length. A payload is far shorter than the 2^64 bytes that a length can express. */
  function Frame(payload: seq<byte>): seq<byte> {
    (if WriteBigSize(|payload|).Some? then WriteBigSize(|payload|).value else []) + payload
  }

  function Frames(payloads: seq<seq<byte>>): (f: seq<seq<byte>>)
    ensures |f| == |payloads|
    ensures forall i :: 0 <= i < |f| ==> f[i] == Frame(payloads[i])
  {
    seq(|payloads|, i requires 0 <= i < |payloads| => Frame(payloads[i]))
  }

  function HopSize(frame: seq<byte>): nat {
    |frame| + PER_HOP_HMAC_SIZE
  }

  /** Bytes taken by the first `i` hops. */
  function PrefixSize(frames: seq<seq<byte>>, i: nat): nat
    requires i <= |frames|
  {
    if i == 0 then 0 else PrefixSize(frames, i - 1) + HopSize(frames[i - 1])
  }

  lemma {:induction false} PrefixMonotone(frames: seq<seq<byte>>, i: nat, j: nat)
    requires i <= j <= |frames|
    ensures PrefixSize(frames, i) <= PrefixSize(frames, j)
    decreases j
  {
    if i < j {
      PrefixMonotone(frames, i, j - 1);
    }
  }

  lemma EachFits(frames: seq<seq<byte>>, size: nat)
    requires PrefixSize(frames, |frames|) <= size
    ensures forall i :: 0 <= i < |frames| ==> HopSize(frames[i]) <= size
  {
    forall i | 0 <= i < |frames|
      ensures HopSize(frames[i]) <= size
    {
      PrefixMonotone(frames, i + 1, |frames|);
    }
  }

  // ----- building

  /** A mix header and the code that authenticates it. */
  datatype Layer = Layer(header: seq<byte>, hmac: seq<byte>)

  /**
   One step of the filler: zeros for one more hop, then the mask that runs from the filler over the end of the packet.
   */
  function MaskedFiller(f: seq<byte>, stream: seq<byte>, size: nat, hop: nat): (r: seq<byte>)
    requires |f| <= size && hop <= size && |stream| == 2 * size
    ensures |r| == |f| + hop
  {
    Xor(f + Zeros(hop), stream[size - |f|..size + hop])
  }

  /** One layer: the hop's data pushed in front, masked, and for the last hop ended by the filler. */
  function MixOver(header: seq<byte>, hop: seq<byte>, stream: seq<byte>, filler: seq<byte>, last: bool): (r: seq<byte>)
    requires |hop| <= |header| == |stream| && |filler| <= |header|
    ensures |r| == |header|
  {
    var mixed := Xor(hop + header[..|header| - |hop|], stream);
    if last && |filler| != 0 then mixed[..|header| - |filler|] + filler else mixed
  }

  /** The bytes that the first `i` hops shift into the packet behind its end. */
  ghost function Filler(frames: seq<seq<byte>>, streams: seq<seq<byte>>, size: nat, i: nat): seq<byte>
    requires i <= |frames| == |streams| && PrefixSize(frames, |frames|) <= size
    requires forall j :: 0 <= j < |streams| ==> |streams[j]| == 2 * size
    ensures |Filler(frames, streams, size, i)| == PrefixSize(frames, i) <= size
  {
    PrefixMonotone(frames, i, |frames|);
    if i == 0 then []
    else
      MaskedFiller(Filler(frames, streams, size, i - 1), streams[i - 1], size, HopSize(frames[i - 1]))
  }

  /** What all hops but the last shift in. */
  ghost function WholeFiller(frames: seq<seq<byte>>, streams: seq<seq<byte>>, size: nat): (f: seq<byte>)
    requires |frames| == |streams| && PrefixSize(frames, |frames|) <= size
    requires forall j :: 0 <= j < |streams| ==> |streams[j]| == 2 * size
    ensures |f| <= size
  {
    Filler(frames, streams, size, if |frames| == 0 then 0 else |frames| - 1)
  }

  /** The bytes that go into an onion, whichever way the keys were agreed on; `filler` ends the last hop's header. */
  datatype Plan = Plan(size: nat, frames: seq<seq<byte>>, streams: seq<seq<byte>>,
                       macKeys: seq<seq<byte>>, mac: (seq<byte>, seq<byte>) -> seq<byte>, padding: seq<byte>,
                           filler: seq<byte>)
  {
    ghost predicate Ok() {
      && |streams| == |frames| == |macKeys|
      && |padding| == size && |filler| <= size
      && (forall i :: 0 <= i < |frames| ==> HopSize(frames[i]) <= size)
      && (forall i :: 0 <= i < |streams| ==> |streams[i]| == 2 * size)
      && (forall k, h :: |mac(k, h)| == PER_HOP_HMAC_SIZE)
    }

    /** The mix header that hop `i` receives and its code; past the last hop, the padding and zeros. */
    ghost function LayerAt(i: nat): (l: Layer)
      requires Ok() && i <= |frames|
      ensures |l.header| == size && |l.hmac| == PER_HOP_HMAC_SIZE
      decreases |frames| - i
    {
      if i == |frames| then Layer(padding, Zeros(PER_HOP_HMAC_SIZE))
      else
        var inner := LayerAt(i + 1);
        var header := MixOver(inner.header, frames[i] + inner.hmac, streams[i][..size], filler, i == |frames| - 1);
        Layer(header, mac(macKeys[i], header))
    }

    /** All hops fit, and the filler is what all hops but the last shift in. */
    ghost predicate FillerOk() {
      && Ok()
      && PrefixSize(frames, |frames|) <= size
      && filler == WholeFiller(frames, streams, size)
    }
  }

  /** A route to build an onion for: hop `i` has public key `pubkeys[i]` and is told `payloads[i]`. */
  datatype Route = Route(c: Crypto, sessionKey: seq<byte>, pubkeys: seq<seq<byte>>, payloads: seq<seq<byte>>,
                         associatedData: seq<byte>, trampoline: bool)
  {
    /** Number of bytes of every mix header. */
    function Size(): nat {
      DataSize(trampoline)
    }

    /** The private key behind the ephemeral public key that hop `i` sees. */
    function Ephemeral(i: nat): nat
      requires i <= |pubkeys| && c.order > 0
    {
      if i == 0 then FromBytes(sessionKey)
      else
        var e := Ephemeral(i - 1);
        e * c.blindingFactor(c.publicKey(e), c.ecdh(e, pubkeys[i - 1])) % c.order
    }

    function SharedSecret(i: nat): seq<byte>
      requires i < |pubkeys| && c.order > 0
    {
      c.ecdh(Ephemeral(i), pubkeys[i])
    }

    function Stream(i: nat, n: nat): seq<byte>
      requires i < |pubkeys| && c.order > 0
    {
      c.stream(c.deriveKey(RHO, SharedSecret(i)), n)
    }

    /** The session key is a private key, and the serialized hops fit in the packet. */
    ghost predicate Fits() {
      && IsKey(c, FromBytes(sessionKey))
      && |pubkeys| == |payloads| && PrefixSize(Frames(payloads), |payloads|) <= Size()
    }

    /** Each hop's cipher stream, as long as peeling needs it. */
    ghost function Streams(): (s: seq<seq<byte>>)
      requires Laws(c) && |pubkeys| == |payloads|
      ensures |s| == |payloads| && forall i :: 0 <= i < |s| ==> |s[i]| == 2 * Size() && s[i] == Stream(i, 2 * Size())
    {
      seq(|payloads|, i requires 0 <= i < |payloads| => Stream(i, 2 * Size()))
    }

    ghost function MacKeys(): (s: seq<seq<byte>>)
      requires Laws(c) && |pubkeys| == |payloads|
      ensures |s| == |payloads| && forall i :: 0 <= i < |s| ==> s[i] == c.deriveKey(MU, SharedSecret(i))
    {
      seq(|payloads|, i requires 0 <= i < |payloads| => c.deriveKey(MU, SharedSecret(i)))
    }

    /** A header is authenticated together with the associated data. */
    ghost function Mac(): (mac: (seq<byte>, seq<byte>) -> seq<byte>)
      requires Laws(c)
      ensures forall k, h :: |mac(k, h)| == PER_HOP_HMAC_SIZE && mac(k, h) == c.hmac(k, h + associatedData)
    {
      (key, header) => c.hmac(key, header + associatedData)
    }

    /** What the construction makes of the keys. */
    ghost function ToPlan(): (p: Plan)
      requires Laws(c) && Fits()
      ensures p.FillerOk()
    {
      EachFits(Frames(payloads), Size());
      Plan(Size(), Frames(payloads), Streams(), MacKeys(),
           Mac(), c.stream(c.deriveKey(PAD, sessionKey), Size()),
           WholeFiller(Frames(payloads), Streams(), Size()))
    }

    /** The packet that hop `i` receives. */
    ghost function PacketAt(i: nat): OnionPacket
      requires Laws(c) && Fits() && i <= |payloads|
    {
      OnionPacket(c.publicKey(Ephemeral(i)), ToPlan().LayerAt(i).header, ToPlan().LayerAt(i).hmac)
    }
  }

  // ----- peeling

  datatype OnionPacket = OnionPacket(publicKey: seq<byte>, hopsData: seq<byte>, hmac: seq<byte>)

  datatype OnionError =
    | InvalidOnionPubkey
    | InvalidOnionMac
    | LegacyHopData
    | UnsupportedPayloadLength
    | UnexpectedEof
    | MalformedLength
    | BadPacketSize

  datatype Result<+T> = Ok(value: T) | Err(error: OnionError)

  /** A hop's payload and authentication code, and the bytes after them. */
  datatype HopData = HopData(payload: seq<byte>, hmac: seq<byte>, rest: seq<byte>)

  function ReadHop(b: seq<byte>): Result<HopData> {
    if b == [] then Err(UnexpectedEof)
    else if b[0] == 0 then Err(LegacyHopData)
    else if b[0] == 1 then Err(UnsupportedPayloadLength)
    else ReadLengthAndPayload(b)
  }

  function ReadLengthAndPayload(b: seq<byte>): Result<HopData> {
    match ReadBigSize(b)
    case Bad(_) => Err(MalformedLength)
    case Read(None, _) => Err(UnexpectedEof)
    case Read(Some(n), rest) => ReadPayload(rest, n)
  }

  function ReadPayload(b: seq<byte>, n: nat): Result<HopData> {
    if |b| < n + PER_HOP_HMAC_SIZE then Err(UnexpectedEof)
    else Ok(HopData(b[..n], b[n..n + PER_HOP_HMAC_SIZE], b[n + PER_HOP_HMAC_SIZE..]))
  }

  /** What is read off a hop's data is exactly what a hop is sent that is told two bytes or more. */
  lemma HopAccepted(b: seq<byte>)
    requires ReadHop(b).Ok?
    ensures var hop := ReadHop(b).value;
            && |hop.payload| >= 2 && |hop.hmac| == PER_HOP_HMAC_SIZE
            && b == Frame(hop.payload) + hop.hmac + hop.rest
  {
    hide ReadBigSize, WriteBigSize;
    var n, rest := ReadBigSize(b).value.value, ReadBigSize(b).rest;
    LengthAtLeastTwo(b, n, rest);
    ReadIsWritten(b, n, rest);
    PartsJoined(b, WriteBigSize(n).value, rest, n, n + PER_HOP_HMAC_SIZE);
  }

  lemma LengthAtLeastTwo(b: seq<byte>, n: nat, rest: seq<byte>)
    requires b != [] && b[0] >= 2 && ReadBigSize(b) == Read(Some(n), rest)
    ensures n >= 2
  {
  }

  lemma PartsJoined(b: seq<byte>, front: seq<byte>, rest: seq<byte>, i: nat, j: nat)
    requires b == front + rest && i <= j <= |rest|
    ensures b == front + rest[..i] + rest[i..j] + rest[j..]
  {
  }

  /** The checks on constructing a packet. */
  function MakePacket(c: Crypto, publicKey: seq<byte>, hopsData: seq<byte>, hmac: seq<byte>): Result<OnionPacket> {
    if |publicKey| != 33 || (|hopsData| != HOPS_DATA_SIZE && |hopsData| != TRAMPOLINE_HOPS_DATA_SIZE) ||
        |hmac| != PER_HOP_HMAC_SIZE
    then Err(BadPacketSize)
    else if !c.isPublicKey(publicKey) then Err(InvalidOnionPubkey)
    else Ok(OnionPacket(publicKey, hopsData, hmac))
  }

  datatype Processed = Processed(areWeFinal: bool, payload: seq<byte>, nextPacket: OnionPacket)

  /** Reads the hop's data off the unmasked bytes and wraps up the packet for the next hop. */
  function Peel(c: Crypto, publicKey: seq<byte>, secret: seq<byte>, plain: seq<byte>, size: nat): Result<Processed> {
    match ReadHop(plain)
    case Err(e) => Err(e)
    case Ok(hop) =>
      var nextKey := c.scale(publicKey, c.blindingFactor(publicKey, secret));
      var nextData := if |hop.rest| < size then hop.rest else hop.rest[..size];
      match MakePacket(c, nextKey, nextData, hop.hmac)
      case Err(e) => Err(e)
      case Ok(next) => Ok(Processed(hop.hmac == Zeros(PER_HOP_HMAC_SIZE), hop.payload, next))
  }

  /** What the owner of `privateKey` makes of a packet. */
  function ProcessOnionPacket(c: Crypto, packet: OnionPacket, associatedData: seq<byte>, privateKey: nat,
                              trampoline: bool): Result<Processed>
  {
    if !c.isPublicKey(packet.publicKey) then Err(InvalidOnionPubkey)
    else
      var secret := c.ecdh(privateKey, packet.publicKey);
      if packet.hmac != c.hmac(c.deriveKey(MU, secret), packet.hopsData + associatedData) then Err(InvalidOnionMac)
      else
        var size := DataSize(trampoline);
        var padded := packet.hopsData + Zeros(size);
        var plain := Xor(padded, c.stream(c.deriveKey(RHO, secret), 2 * size));
        Peel(c, packet.publicKey, secret, plain, size)
  }
}
