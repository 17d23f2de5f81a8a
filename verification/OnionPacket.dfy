/** Building the onion in place, and sending it along the whole route. */
module OnionPackets {
  import opened Options
  import opened Bytes
  import opened BigSize
  import opened ByteStreams
  import opened OnionSpec
  import opened OnionProof

  /** The data for one hop. Its authentication code is filled in while the onion is built. */
  class OnionHopsDataSingle {
    const payload: seq<byte>
    var hmac: Option<seq<byte>>

    constructor (payload: seq<byte>)
      ensures this.payload == payload && hmac == None
    {
      this.payload := payload;
      hmac := None;
    }

    function ToBytes(): seq<byte>
      reads this
    {
      Frame(payload) + if hmac.Some? then hmac.value else Zeros(PER_HOP_HMAC_SIZE)
    }
  }

  function Payloads(hops: seq<OnionHopsDataSingle>): (p: seq<seq<byte>>)
    ensures |p| == |hops| && forall i :: 0 <= i < |p| ==> p[i] == hops[i].payload
  {
    seq(|hops|, i requires 0 <= i < |hops| => hops[i].payload)
  }

  method GetSharedSecretsAlongRoute(c: Crypto, pubkeys: seq<seq<byte>>, sessionKey: seq<byte>)
    returns (secrets: seq<seq<byte>>)
    requires c.order > 0
    ensures |secrets| == |pubkeys|
    ensures forall r: Route, i ::
            r.c == c && r.pubkeys == pubkeys && r.sessionKey == sessionKey && 0 <= i < |pubkeys| ==>
              secrets[i] == r.SharedSecret(i)
  {
    ghost var r0 := Route(c, sessionKey, pubkeys, [], [], false);
    secrets := [];
    var ephemeralKey := FromBytes(sessionKey);
    for i := 0 to |pubkeys|
      invariant |secrets| == i && ephemeralKey == r0.Ephemeral(i)
      invariant forall j :: 0 <= j < i ==> secrets[j] == r0.SharedSecret(j)
    {
      var secret := c.ecdh(ephemeralKey, pubkeys[i]);
      secrets := secrets + [secret];
      var blindingFactor := c.blindingFactor(c.publicKey(ephemeralKey), secret);
      ephemeralKey := ephemeralKey * blindingFactor % c.order;
    }
    forall r: Route, i | r.c == c && r.pubkeys == pubkeys && r.sessionKey == sessionKey && 0 <= i < |pubkeys|
      ensures secrets[i] == r.SharedSecret(i)
    {
      SameEphemeral(r0, r, i);
    }
  }

  lemma {:induction false} SameEphemeral(r: Route, r': Route, i: nat)
    requires r.c == r'.c && r.pubkeys == r'.pubkeys && r.sessionKey == r'.sessionKey && r.c.order > 0 &&
             i <= |r.pubkeys|
    ensures r.Ephemeral(i) == r'.Ephemeral(i)
  {
    if i > 0 {
      SameEphemeral(r, r', i - 1);
    }
  }

  /** The fillers of the first 0, 1, ... hops, each made from the one before. */
  ghost predicate FillChain(payloads: seq<seq<byte>>, streams: seq<seq<byte>>, size: nat, fills: seq<seq<byte>>) {
    && |streams| == |payloads| && |fills| == |payloads| + 1 && fills[0] == []
    && forall i :: 0 <= i < |payloads| ==> NextFill(Frame(payloads[i]), streams[i], size, fills[i], fills[i + 1])
  }

  ghost predicate NextFill(frame: seq<byte>, stream: seq<byte>, size: nat, fill: seq<byte>, next: seq<byte>) {
    && |stream| == 2 * size && |fill| + HopSize(frame) == |next| <= size
    && next == MaskedFiller(fill, stream, size, HopSize(frame))
  }

  lemma {:induction false} FillsGrow(payloads: seq<seq<byte>>, streams: seq<seq<byte>>, size: nat,
                                     fills: seq<seq<byte>>, i: nat, j: nat)
    requires FillChain(payloads, streams, size, fills) && i <= j < |fills|
    ensures |fills[i]| <= |fills[j]|
    decreases j
  {
    if i < j {
      FillsGrow(payloads, streams, size, fills, i, j - 1);
      assert NextFill(Frame(payloads[j - 1]), streams[j - 1], size, fills[j - 1], fills[j]);
    }
  }

  /** The number of bytes of the first `n` hops. */
  method TotalSize(hops: seq<OnionHopsDataSingle>, n: nat, ghost streams: seq<seq<byte>>, ghost dataSize: nat,
                   ghost fills: seq<seq<byte>>)
    returns (size: nat)
    requires n <= |hops| && FillChain(Payloads(hops), streams, dataSize, fills)
    requires forall i :: 0 <= i < |hops| ==> hops[i].hmac.Some? ==> |hops[i].hmac.value| == PER_HOP_HMAC_SIZE
    ensures size == |fills[n]|
  {
    size := 0;
    for i := 0 to n
      invariant size == |fills[i]|
    {
      assert NextFill(Frame(Payloads(hops)[i]), streams[i], dataSize, fills[i], fills[i + 1]);
      size := size + |hops[i].ToBytes()|;
    }
  }

  /** The filler, computed forward over the hops: zeros for all of them, masked piece by piece. */
  method GenerateFiller(c: Crypto, hops: seq<OnionHopsDataSingle>, secrets: seq<seq<byte>>, dataSize: nat,
                        ghost streams: seq<seq<byte>>, ghost fills: seq<seq<byte>>)
    returns (filler: seq<byte>)
    requires |hops| == |secrets| == |streams| && FillChain(Payloads(hops), streams, dataSize, fills)
    requires forall i :: 0 <= i < |hops| ==> streams[i] == c.stream(c.deriveKey(RHO, secrets[i]), 2 * dataSize)
    requires forall i :: 0 <= i < |hops| ==> hops[i].hmac.Some? ==> |hops[i].hmac.value| == PER_HOP_HMAC_SIZE
    ensures filler == fills[if |hops| == 0 then 0 else |hops| - 1]
  {
    hide Xor, Laws, Frame, Zeros;
    if |hops| == 0 {
      return [];
    }
    var fillerSize := TotalSize(hops, |hops| - 1, streams, dataSize, fills);
    filler := Zeros(fillerSize);
    for i := 0 to |hops| - 1
      invariant |fills[i]| <= fillerSize && filler == fills[i] + Zeros(fillerSize - |fills[i]|)
    {
      var used := TotalSize(hops, i, streams, dataSize, fills);
      var hop := |hops[i].ToBytes()|;
      assert NextFill(Frame(Payloads(hops)[i]), streams[i], dataSize, fills[i], fills[i + 1]);
      FillsGrow(Payloads(hops), streams, dataSize, fills, i + 1, |hops| - 1);
      FillerMask(fills[i], fillerSize, streams[i], dataSize, hop);
      var fillerStart := dataSize - used;
      var fillerEnd := dataSize + hop;
      var streamBytes := c.stream(c.deriveKey(RHO, secrets[i]), 2 * dataSize);
      filler := Xor(filler, streamBytes[fillerStart..fillerEnd]);
      assert filler == fills[i + 1];
      filler := filler + Zeros(fillerSize - |filler|);
    }
  }

  /** Masking the padded filler cuts it to the length of the mask, which is one hop more. */
  lemma FillerMask(f: seq<byte>, fillerSize: nat, s: seq<byte>, d: nat, hop: nat)
    requires |f| <= d && hop <= d && |s| == 2 * d && |f| + hop <= fillerSize
    ensures Xor(f + Zeros(fillerSize - |f|), s[d - |f|..d + hop]) == MaskedFiller(f, s, d, hop)
  {
  }

  /** Every hop has its own data object. */
  predicate Distinct(hops: seq<OnionHopsDataSingle>) {
    forall i, j :: 0 <= i < j < |hops| ==> hops[i] != hops[j]
  }

  /** `outer` is `inner` with one hop's data pushed in front, masked and authenticated. */
  ghost predicate LayerOver(c: Crypto, secret: seq<byte>, payload: seq<byte>, associatedData: seq<byte>, size: nat,
                            filler: seq<byte>, last: bool, outer: Layer, inner: Layer)
  {
    var hop, stream := Frame(payload) + inner.hmac, c.stream(c.deriveKey(RHO, secret), size);
    && |inner.header| == size == |stream| && |hop| <= size && |filler| <= size
    && outer.header == MixOver(inner.header, hop, stream, filler, last)
    && outer.hmac == c.hmac(c.deriveKey(MU, secret), outer.header + associatedData)
  }

  method PushHop(header: seq<byte>, hopDataBytes: seq<byte>, streamBytes: seq<byte>, filler: seq<byte>, last: bool)
    returns (mixHeader: seq<byte>)
    requires |hopDataBytes| <= |header| == |streamBytes| && |filler| <= |header|
    ensures mixHeader == MixOver(header, hopDataBytes, streamBytes, filler, last)
  {
    mixHeader := header[..|header| - |hopDataBytes|];
    mixHeader := hopDataBytes + mixHeader;
    mixHeader := Xor(mixHeader, streamBytes);
    if last && |filler| != 0 {
      mixHeader := mixHeader[..|mixHeader| - |filler|] + filler;
    }
  }

  /** From the last hop to the first: tell the hop its code, push its data in front, mask, authenticate. */
  method WrapHops(c: Crypto, hops: seq<OnionHopsDataSingle>, secrets: seq<seq<byte>>, associatedData: seq<byte>,
                  dataSize: nat,
                  filler: seq<byte>, padding: seq<byte>, ghost layers: seq<Layer>)
    returns (mixHeader: seq<byte>, nextHmac: seq<byte>)
    requires Distinct(hops) && |secrets| == |hops| && |layers| == |hops| + 1
    requires layers[|hops|] == Layer(padding, Zeros(PER_HOP_HMAC_SIZE))
    requires forall k :: 0 <= k < |hops| ==>
               LayerOver(c, secrets[k], hops[k].payload, associatedData, dataSize, filler, k == |hops| - 1, layers[k],
                         layers[k + 1])
    modifies hops
    ensures Layer(mixHeader, nextHmac) == layers[0]
    ensures forall k :: 0 <= k < |hops| ==> hops[k].hmac == Some(layers[k + 1].hmac)
  {
    nextHmac := Zeros(PER_HOP_HMAC_SIZE);
    mixHeader := padding;
    var i := |hops|;
    while i > 0
      invariant 0 <= i <= |hops|
      invariant Layer(mixHeader, nextHmac) == layers[i]
      invariant forall k :: i <= k < |hops| ==> hops[k].hmac == Some(layers[k + 1].hmac)
    {
      i := i - 1;
      assert LayerOver(c, secrets[i], hops[i].payload, associatedData, dataSize, filler, i == |hops| - 1, layers[i],
                       layers[i + 1]);
      var rhoKey := c.deriveKey(RHO, secrets[i]);
      var muKey := c.deriveKey(MU, secrets[i]);
      hops[i].hmac := Some(nextHmac);
      var streamBytes := c.stream(rhoKey, dataSize);
      mixHeader := PushHop(mixHeader, hops[i].ToBytes(), streamBytes, filler, i == |hops| - 1);
      nextHmac := c.hmac(muKey, mixHeader + associatedData);
    }
  }

  method NewOnionPacket(c: Crypto, pubkeys: seq<seq<byte>>, sessionKey: seq<byte>, hops: seq<OnionHopsDataSingle>,
                        associatedData: seq<byte>, trampoline: bool) returns (packet: Result<OnionPacket>)
    requires Laws(c) && Route(c, sessionKey, pubkeys, Payloads(hops), associatedData, trampoline).Fits()
    requires Distinct(hops) && forall i :: 0 <= i < |hops| ==> hops[i].hmac.Some? ==>
             |hops[i].hmac.value| == PER_HOP_HMAC_SIZE
    modifies hops
    ensures var r := Route(c, sessionKey, pubkeys, Payloads(hops), associatedData, trampoline);
            && packet == Ok(r.PacketAt(0))
            && forall i :: 0 <= i < |hops| ==> hops[i].hmac == Some(r.ToPlan().LayerAt(i + 1).hmac)
  {
    var r := Route(c, sessionKey, pubkeys, Payloads(hops), associatedData, trampoline);
    ghost var streams, fills, layers := r.Streams(), Fillers(r), Layers(r);
    Prepared(r);
    packet := BuildPacket(r, hops, streams, fills, layers);
  }

  method BuildPacket(r: Route, hops: seq<OnionHopsDataSingle>, ghost streams: seq<seq<byte>>,
                     ghost fills: seq<seq<byte>>, ghost layers: seq<Layer>)
    returns (packet: Result<OnionPacket>)
    requires r.payloads == Payloads(hops) && r.c.order > 0 && Buildable(r, Secrets(r), streams, fills, layers)
    requires Distinct(hops) && forall i :: 0 <= i < |hops| ==> hops[i].hmac.Some? ==>
             |hops[i].hmac.value| == PER_HOP_HMAC_SIZE
    modifies hops
    ensures packet == MakePacket(r.c, r.c.publicKey(FromBytes(r.sessionKey)), layers[0].header, layers[0].hmac)
    ensures forall i :: 0 <= i < |hops| ==> hops[i].hmac == Some(layers[i + 1].hmac)
  {
    var secrets := GetSharedSecretsAlongRoute(r.c, r.pubkeys, r.sessionKey);
    assert secrets == Secrets(r);
    var dataSize := DataSize(r.trampoline);
    var filler := GenerateFiller(r.c, hops, secrets, dataSize, streams, fills);
    var padKey := r.c.deriveKey(PAD, r.sessionKey);
    var mixHeader, nextHmac :=
        WrapHops(r.c, hops, secrets, r.associatedData, dataSize, filler, r.c.stream(padKey, dataSize), layers);
    packet := MakePacket(r.c, r.c.publicKey(FromBytes(r.sessionKey)), mixHeader, nextHmac);
  }

  lemma Prepared(r: Route)
    requires Laws(r.c) && r.Fits()
    ensures Buildable(r, Secrets(r), r.Streams(), Fillers(r), Layers(r))
    ensures MakePacket(r.c, r.c.publicKey(FromBytes(r.sessionKey)), Layers(r)[0].header, Layers(r)[0].hmac) ==
            Ok(r.PacketAt(0))
  {
    FillersChain(r);
    LayerSteps(r, Layers(r));
  }

  ghost function Fillers(r: Route): (f: seq<seq<byte>>)
    requires Laws(r.c) && r.Fits()
    ensures |f| == |r.payloads| + 1 && forall i :: 0 <= i < |f| ==> f[i] == Fill(r.ToPlan(), i)
  {
    seq(|r.payloads| + 1, i requires 0 <= i <= |r.payloads| => Fill(r.ToPlan(), i))
  }

  lemma FillersChain(r: Route)
    requires Laws(r.c) && r.Fits()
    ensures FillChain(r.payloads, r.Streams(), r.Size(), Fillers(r))
  {
    forall i | 0 <= i < |r.payloads|
      ensures NextFill(Frame(r.payloads[i]), r.Streams()[i], r.Size(), Fillers(r)[i], Fillers(r)[i + 1])
    {
      FillersStep(r.ToPlan(), i);
    }
  }

  lemma FillersStep(p: Plan, i: nat)
    requires p.FillerOk() && i < |p.frames|
    ensures NextFill(p.frames[i], p.streams[i], p.size, Fill(p, i), Fill(p, i + 1))
  {
    HopFits(p, i);
  }

  /** All that the two passes over the hops need to know about the keys and the layers. */
  ghost predicate Buildable(r: Route, secrets: seq<seq<byte>>, streams: seq<seq<byte>>, fills: seq<seq<byte>>,
                            layers: seq<Layer>)
  {
    var size := r.Size();
    && |secrets| == |streams| == |r.payloads| == |r.pubkeys| && |layers| == |r.payloads| + 1
    && FillChain(r.payloads, streams, size, fills)
    && (forall k :: 0 <= k < |secrets| ==> streams[k] == r.c.stream(r.c.deriveKey(RHO, secrets[k]), 2 * size))
    && layers[|layers| - 1] == Layer(r.c.stream(r.c.deriveKey(PAD, r.sessionKey), size), Zeros(PER_HOP_HMAC_SIZE))
    && (forall k :: 0 <= k < |secrets| ==>
          LayerOver(r.c, secrets[k], r.payloads[k], r.associatedData, size,
                    fills[if |secrets| == 0 then 0 else |secrets| - 1],
                    k == |secrets| - 1, layers[k], layers[k + 1]))
  }

  ghost function Secrets(r: Route): (s: seq<seq<byte>>)
    requires r.c.order > 0
    ensures |s| == |r.pubkeys| && forall i :: 0 <= i < |s| ==> s[i] == r.SharedSecret(i)
  {
    seq(|r.pubkeys|, i requires 0 <= i < |r.pubkeys| => r.SharedSecret(i))
  }

  ghost function Layers(r: Route): (l: seq<Layer>)
    requires Laws(r.c) && r.Fits()
    ensures |l| == |r.payloads| + 1 && forall i :: 0 <= i < |l| ==> l[i] == r.ToPlan().LayerAt(i)
  {
    seq(|r.payloads| + 1, i requires 0 <= i <= |r.payloads| => r.ToPlan().LayerAt(i))
  }

  lemma LayerSteps(r: Route, layers: seq<Layer>)
    requires Laws(r.c) && r.Fits() && layers == Layers(r)
    ensures forall k :: 0 <= k < |r.payloads| ==>
              LayerOver(r.c, Secrets(r)[k], r.payloads[k], r.associatedData, r.Size(),
                        WholeFiller(Frames(r.payloads), r.Streams(), r.Size()),
                        k == |r.payloads| - 1, layers[k], layers[k + 1])
  {
    forall k | 0 <= k < |r.payloads|
      ensures LayerOver(r.c, Secrets(r)[k], r.payloads[k], r.associatedData, r.Size(),
                        WholeFiller(Frames(r.payloads), r.Streams(), r.Size()),
                        k == |r.payloads| - 1, layers[k], layers[k + 1])
    {
      LayerStep(r, k, Secrets(r)[k]);
    }
  }

  /** One turn of the construction. */
  lemma LayerStep(r: Route, i: nat, secret: seq<byte>)
    requires Laws(r.c) && r.Fits() && i < |r.payloads| && secret == r.SharedSecret(i)
    ensures LayerOver(r.c, secret, r.payloads[i], r.associatedData, r.Size(), r.ToPlan().filler, i == |r.payloads| - 1,
                      r.ToPlan().LayerAt(i), r.ToPlan().LayerAt(i + 1))
  {
    assert r.Stream(i, r.Size()) == r.ToPlan().streams[i][..r.Size()];
  }

  /** The packet for a single hop, written out: nothing but its data, no further code, and padding, under one mask. */
  lemma OneHop(r: Route)
    requires Laws(r.c) && r.Fits() && |r.payloads| == 1
    ensures var secret := r.c.ecdh(FromBytes(r.sessionKey), r.pubkeys[0]);
            var told := Frame(r.payloads[0]) + Zeros(32);
            var padding := r.c.stream(r.c.deriveKey(PAD, r.sessionKey), r.Size());
            && |told| <= |padding| == r.Size() && r.PacketAt(0).publicKey == r.c.publicKey(FromBytes(r.sessionKey))
            && r.PacketAt(0).hopsData ==
               Xor(told + padding[..r.Size() - |told|], r.c.stream(r.c.deriveKey(RHO, secret), r.Size()))
            && r.PacketAt(0).hmac ==
               r.c.hmac(r.c.deriveKey(MU, secret), r.PacketAt(0).hopsData + r.associatedData)
  {
    hide Xor, Frame;
    var p := r.ToPlan();
    EachFits(p.frames, p.size);
    assert r.SharedSecret(0) == r.c.ecdh(FromBytes(r.sessionKey), r.pubkeys[0]);
    assert r.Stream(0, r.Size()) == p.streams[0][..r.Size()];
    assert p.filler == [] && p.LayerAt(1) == Layer(p.padding, Zeros(32));
  }

  // ----- peeling, with the bytes read off a stream

  method FromFd(fd: BytesIO) returns (hop: Result<HopData>)
    requires fd.Valid()
    modifies fd`pos
    ensures fd.Valid() && hop == ReadHop(old(fd.Rest())) && (hop.Ok? ==> fd.Rest() == hop.value.rest)
  {
    ghost var b := fd.Rest();
    var firstByte := fd.Read(1);
    if |firstByte| == 0 {
      return Err(UnexpectedEof);
    }
    fd.pos := fd.pos - 1;
    assert firstByte == [b[0]];
    if firstByte == [0] {
      return Err(LegacyHopData);
    } else if firstByte == [1] {
      return Err(UnsupportedPayloadLength);
    }
    assert fd.Rest() == b;
    var length := ReadBigsizeInt(fd);
    if length.Failed? {
      return Err(MalformedLength);
    } else if length.value.None? {
      return Err(UnexpectedEof);
    }
    hop := PayloadFromFd(fd, length.value.value);
  }

  method PayloadFromFd(fd: BytesIO, n: nat) returns (hop: Result<HopData>)
    requires fd.Valid()
    modifies fd`pos
    ensures fd.Valid() && hop == ReadPayload(old(fd.Rest()), n) && (hop.Ok? ==> fd.Rest() == hop.value.rest)
  {
    ghost var b := fd.Rest();
    var payload := fd.Read(n);
    if |payload| != n {
      return Err(UnexpectedEof);
    }
    var hmac := fd.Read(PER_HOP_HMAC_SIZE);
    if |hmac| != PER_HOP_HMAC_SIZE {
      return Err(UnexpectedEof);
    }
    assert b[n..][..|hmac|] == b[n..n + |hmac|] && b[n..][|hmac|..] == b[n + |hmac|..];
    hop := Ok(HopData(payload, hmac, fd.data[fd.pos..]));
  }

  /** The bytes of a packet under the mask of its receiver. */
  function Unmasked(c: Crypto, packet: OnionPacket, privateKey: nat, size: nat): seq<byte> {
    Xor(packet.hopsData + Zeros(size),
        c.stream(c.deriveKey(RHO, c.ecdh(privateKey, packet.publicKey)), 2 * size))
  }

  predicate IsTold(done: Processed, plain: seq<byte>) {
    && |done.payload| >= 2 && Frame(done.payload) + done.nextPacket.hmac <= plain
    && (done.areWeFinal <==> done.nextPacket.hmac == Zeros(PER_HOP_HMAC_SIZE))
  }

  lemma OnlyAuthentic(c: Crypto, packet: OnionPacket, associatedData: seq<byte>, privateKey: nat, trampoline: bool)
    ensures var result := ProcessOnionPacket(c, packet, associatedData, privateKey, trampoline);
            var muKey := c.deriveKey(MU, c.ecdh(privateKey, packet.publicKey));
            var authentic := packet.hmac == c.hmac(muKey, packet.hopsData + associatedData);
            && (!c.isPublicKey(packet.publicKey) ==> result == Err(InvalidOnionPubkey))
            && (result == Err(InvalidOnionMac) <==> c.isPublicKey(packet.publicKey) && !authentic)
            && (result.Ok? ==> c.isPublicKey(packet.publicKey) && authentic)
            && (result.Ok? ==> IsTold(result.value, Unmasked(c, packet, privateKey, DataSize(trampoline))))
  {
    hide Xor, Frame;
    var plain := Unmasked(c, packet, privateKey, DataSize(trampoline));
    if ReadHop(plain).Ok? {
      HopAccepted(plain);
      var hop := ReadHop(plain).value;
      assert plain[..|Frame(hop.payload) + hop.hmac|] == Frame(hop.payload) + hop.hmac;
    }
  }

  method ProcessPacket(c: Crypto, packet: OnionPacket, associatedData: seq<byte>, privateKey: nat, trampoline: bool)
    returns (result: Result<Processed>)
    ensures result == ProcessOnionPacket(c, packet, associatedData, privateKey, trampoline)
    // only packets with a valid key and the right code are looked into
    ensures !c.isPublicKey(packet.publicKey) ==> result == Err(InvalidOnionPubkey)
    ensures var muKey := c.deriveKey(MU, c.ecdh(privateKey, packet.publicKey));
            var authentic := packet.hmac == c.hmac(muKey, packet.hopsData + associatedData);
            && (result == Err(InvalidOnionMac) <==> c.isPublicKey(packet.publicKey) && !authentic)
            && (result.Ok? ==> c.isPublicKey(packet.publicKey) && authentic)
    // what the hop is told, and the next code, stand at the front of the unmasked bytes
    ensures result.Ok? ==> IsTold(result.value, Unmasked(c, packet, privateKey, DataSize(trampoline)))
  {
    hide Xor, ReadHop;
    OnlyAuthentic(c, packet, associatedData, privateKey, trampoline);
    if !c.isPublicKey(packet.publicKey) {
      return Err(InvalidOnionPubkey);
    }
    var secret := c.ecdh(privateKey, packet.publicKey);
    var muKey := c.deriveKey(MU, secret);
    if packet.hmac != c.hmac(muKey, packet.hopsData + associatedData) {
      return Err(InvalidOnionMac);
    }
    var rhoKey := c.deriveKey(RHO, secret);
    var dataSize := DataSize(trampoline);
    var nextHopsData := Xor(packet.hopsData + Zeros(dataSize), c.stream(rhoKey, 2 * dataSize));
    var fd := new BytesIO(nextHopsData);
    var hop := FromFd(fd);
    if hop.Err? {
      return Err(hop.error);
    }
    var nextKey := c.scale(packet.publicKey, c.blindingFactor(packet.publicKey, secret));
    var nextData := fd.Read(dataSize);
    assert nextData == if |hop.value.rest| < dataSize then hop.value.rest else hop.value.rest[..dataSize];
    var next := MakePacket(c, nextKey, nextData, hop.value.hmac);
    if next.Err? {
      return Err(next.error);
    }
    result := Ok(Processed(hop.value.hmac == Zeros(PER_HOP_HMAC_SIZE), hop.value.payload, next.value));
  }

  // ----- the whole route

  /** How a packet fares that is handed from hop to hop, and what the hops it reached were told. */
  datatype Trip = Arrived(payloads: seq<seq<byte>>) | Stopped(payloads: seq<seq<byte>>, error: OnionError) |
      Homeless(payloads: seq<seq<byte>>)
  {
    function After(payload: seq<byte>): Trip {
      match this
      case Arrived(p) => Arrived([payload] + p)
      case Stopped(p, e) => Stopped([payload] + p, e)
      case Homeless(p) => Homeless([payload] + p)
    }
  }

  /**
   Every hop processes the packet with its own key and passes the result on, until one finds itself to be the last.
   */
  function Travel(c: Crypto, packet: OnionPacket, associatedData: seq<byte>, keys: seq<nat>, trampoline: bool): Trip
    decreases |keys|
  {
    if keys == [] then Homeless([])
    else
      match ProcessOnionPacket(c, packet, associatedData, keys[0], trampoline)
      case Err(e) => Stopped([], e)
      case Ok(done) =>
        if done.areWeFinal then Arrived([done.payload])
        else Travel(c, done.nextPacket, associatedData, keys[1..], trampoline).After(done.payload)
  }

  /** How many payloads come before the first that is shorter than two bytes. */
  function Readable(payloads: seq<seq<byte>>): (n: nat)
    ensures n <= |payloads|
    ensures forall i :: 0 <= i < n ==> |payloads[i]| >= 2
    ensures n < |payloads| ==> |payloads[n]| < 2
  {
    if payloads == [] || |payloads[0]| < 2 then 0 else 1 + Readable(payloads[1..])
  }

  ghost predicate KeysMatch(r: Route, keys: seq<nat>) {
    |keys| == |r.pubkeys| && forall i :: 0 <= i < |keys| ==>
        IsKey(r.c, keys[i]) && r.pubkeys[i] == r.c.publicKey(keys[i])
  }

  /** What is left of the trip at hop `i`. */
  function Expected(payloads: seq<seq<byte>>): Trip {
    var n := Readable(payloads);
    if n == |payloads| then Arrived(payloads)
    else Stopped(payloads[..n], if |payloads[n]| == 0 then LegacyHopData else UnsupportedPayloadLength)
  }

  /** One leg of the trip. */
  lemma Leg(r: Route, keys: seq<nat>, i: nat)
    requires Laws(r.c) && r.Fits() && KeysMatch(r, keys) && i < |keys|
    ensures var payload := r.payloads[i];
            Travel(r.c, r.PacketAt(i), r.associatedData, keys[i..], r.trampoline) ==
            if |payload| == 0 then Stopped([], LegacyHopData)
            else if |payload| == 1 then Stopped([], UnsupportedPayloadLength)
            else if i == |keys| - 1 then Arrived([payload])
            else Travel(r.c, r.PacketAt(i + 1), r.associatedData, keys[i + 1..], r.trampoline).After(payload)
  {
    HopProcesses(r, i, keys[i]);
    assert keys[i..][0] == keys[i] && keys[i..][1..] == keys[i + 1..];
  }

  lemma {:induction false} RestOfRoute(r: Route, keys: seq<nat>, i: nat)
    requires Laws(r.c) && r.Fits() && KeysMatch(r, keys) && i < |keys|
    ensures Travel(r.c, r.PacketAt(i), r.associatedData, keys[i..], r.trampoline) == Expected(r.payloads[i..])
    decreases |keys| - i
  {
    Leg(r, keys, i);
    ExpectedStep(r.payloads[i..]);
    if |r.payloads[i]| >= 2 && i + 1 < |keys| {
      RestOfRoute(r, keys, i + 1);
      assert r.payloads[i..][1..] == r.payloads[i + 1..];
    }
  }

  lemma ExpectedStep(payloads: seq<seq<byte>>)
    requires payloads != []
    ensures Expected(payloads) ==
            if |payloads[0]| == 0 then Stopped([], LegacyHopData)
            else if |payloads[0]| == 1 then Stopped([], UnsupportedPayloadLength)
            else if |payloads| == 1 then Arrived([payloads[0]])
            else Expected(payloads[1..]).After(payloads[0])
  {
    var n := Readable(payloads[1..]);
    assert payloads == [payloads[0]] + payloads[1..];
    assert n < |payloads| ==> payloads[..n + 1] == [payloads[0]] + payloads[1..][..n];
  }

  /**
   The packet built for a route delivers every hop its payload, if and only if all payloads are at least two bytes long.
   */
  lemma WholeRoute(r: Route, keys: seq<nat>)
    requires Laws(r.c) && r.Fits() && KeysMatch(r, keys) && keys != []
    ensures var trip := Travel(r.c, r.PacketAt(0), r.associatedData, keys, r.trampoline);
            && trip == Expected(r.payloads)
            && (trip == Arrived(r.payloads) <==> forall i :: 0 <= i < |r.payloads| ==> |r.payloads[i]| >= 2)
  {
    RestOfRoute(r, keys, 0);
    assert keys[0..] == keys && r.payloads[0..] == r.payloads;
  }

  /** Primitives without any secrecy that obey the laws. */
  function Toy(): Crypto {
    Crypto(2, k => Zeros(33), b => b == Zeros(33), (k, b) => [], (b, k) => Zeros(33), (a, b) => 1,
           (t, b) => [], (k, m) => seq(PER_HOP_HMAC_SIZE, _ => 1), (k, n) => Zeros(n))
  }

  lemma ToyLaws()
    ensures Laws(Toy())
  {
    var c := Toy();
    forall k, m
      ensures |c.hmac(k, m)| == PER_HOP_HMAC_SIZE && c.hmac(k, m) != Zeros(PER_HOP_HMAC_SIZE)
    {
      assert c.hmac(k, m)[0] == 1;
    }
    forall k, m: nat, n: nat | m <= n
      ensures c.stream(k, m) == c.stream(k, n)[..m]
    {
    }
  }

  /** A route whose only hop is told nothing: the packet is built, but its hop takes it for the retired format. */
  lemma EmptyPayloadIsRefused()
    ensures var r := Route(Toy(), [1], [Zeros(33)], [[]], [], false);
            && Laws(r.c) && r.Fits() && KeysMatch(r, [1])
            && Travel(r.c, r.PacketAt(0), r.associatedData, [1], r.trampoline) == Stopped([], LegacyHopData)
  {
    hide Laws, Travel;
    ToyLaws();
    var r := Route(Toy(), [1], [Zeros(33)], [[]], [], false);
    assert Frames(r.payloads)[0] == Frame([]);
    PowerValues();
    assert PrefixSize(Frames(r.payloads), 0) == 0;
    assert WriteBigSize(0).Some?;
    assert |Frame([])| == 1;
    WholeRoute(r, [1]);
  }
}
