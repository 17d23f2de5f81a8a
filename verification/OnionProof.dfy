/** Every hop of a route recovers its own payload and passes on the packet built for the next hop. */
module OnionProof {
  import opened Options
  import opened Bytes
  import opened BigSize
  import opened OnionSpec

  /** The filler of the first `i` hops. */
  ghost function Fill(p: Plan, i: nat): seq<byte>
    requires p.FillerOk() && i <= |p.frames|
    ensures |Fill(p, i)| == PrefixSize(p.frames, i) <= p.size
  {
    Filler(p.frames, p.streams, p.size, i)
  }

  lemma HopFits(p: Plan, i: nat)
    requires p.FillerOk() && i < |p.frames|
    ensures PrefixSize(p.frames, i) + HopSize(p.frames[i]) == PrefixSize(p.frames, i + 1) <= p.size
  {
    PrefixMonotone(p.frames, i + 1, |p.frames|);
  }

  // ----- the filler

  /** The mask shows through where the zeros were. */
  lemma MaskedFillerParts(f: seq<byte>, s: seq<byte>, d: nat, hop: nat)
    requires |f| <= d && |s| == 2 * d && hop <= d
    ensures MaskedFiller(f, s, d, hop)[..|f|] == Xor(f, s[d - |f|..d])
    ensures MaskedFiller(f, s, d, hop)[|f|..] == s[d..d + hop]
  {
    hide Xor;
    var mask := s[d - |f|..d + hop];
    XorConcat(f, Zeros(hop), mask);
    assert mask[..|f|] == s[d - |f|..d];
    assert mask[|f|..|f| + hop] == s[d..d + hop];
    XorZeros(hop, s[d..d + hop]);
  }

  /** Masking the end of a header that is itself a masked filler uncovers the filler. */
  lemma UncoveredFiller(front: seq<byte>, n: nat, inner: seq<byte>, s: seq<byte>, f: seq<byte>, filler: seq<byte>,
                        d: nat)
    requires |inner| == d && |s| == 2 * d && |front| == n && n + |f| <= d && |filler| <= d
    requires inner[d - n - |f|..d - n] == Xor(f, s[d - |f|..d])
    ensures MixOver(inner, front, s[..d], filler, false)[d - |f|..] == f
  {
    var p := front + inner[..d - n];
    XorSlice(p, s[..d], d - |f|, d);
    assert p[d - |f|..d] == inner[d - n - |f|..d - n];
    assert s[..d][d - |f|..d] == s[d - |f|..d];
    XorTwice(f, s[d - |f|..d]);
  }

  lemma TailParts(inner: seq<byte>, tail: seq<byte>, used: nat, hop: nat)
    requires used + hop <= |inner| && inner[|inner| - (used + hop)..] == tail
    ensures inner[|inner| - hop - used..|inner| - hop] == tail[..used]
    ensures inner[|inner| - hop..] == tail[used..]
  {
  }

  /** `inner` ends in the filler of the first `i + 1` hops: in that of the first `i`, masked, and hop `i`'s own part. */
  lemma InnerTail(p: Plan, i: nat, inner: seq<byte>, f: seq<byte>, n: nat)
    requires p.FillerOk() && i < |p.frames| && |inner| == p.size && f == Fill(p, i) && n == HopSize(p.frames[i])
    requires PrefixSize(p.frames, i + 1) == |f| + n <= p.size && inner[p.size - (|f| + n)..] == Fill(p, i + 1)
    ensures n + |f| <= p.size
    ensures inner[p.size - n - |f|..p.size - n] == Xor(f, p.streams[i][p.size - |f|..p.size])
    ensures inner[p.size - n..] == p.streams[i][p.size..p.size + n]
  {
    hide MaskedFiller, PrefixSize;
    var d := p.size;
    MaskedFillerParts(f, p.streams[i], d, n);
    TailParts(inner, MaskedFiller(f, p.streams[i], d, n), |f|, n);
  }

  lemma TailOver(p: Plan, i: nat, inner: Layer, header: seq<byte>, f: seq<byte>)
    requires p.FillerOk() && i < |p.frames| && |inner.header| == p.size && |inner.hmac| == PER_HOP_HMAC_SIZE &&
             f == Fill(p, i)
    requires PrefixSize(p.frames, i + 1) == |f| + HopSize(p.frames[i]) <= p.size
    requires inner.header[p.size - PrefixSize(p.frames, i + 1)..] == Fill(p, i + 1)
    requires header == MixOver(inner.header, p.frames[i] + inner.hmac, p.streams[i][..p.size], p.filler, false)
    ensures |header| == p.size && header[p.size - |f|..] == f
  {
    hide Fill, MixOver, PrefixSize;
    var n := HopSize(p.frames[i]);
    InnerTail(p, i, inner.header, f, n);
    UncoveredFiller(p.frames[i] + inner.hmac, n, inner.header, p.streams[i], f, p.filler, p.size);
  }

  lemma TailStep(p: Plan, i: nat)
    requires p.FillerOk() && i < |p.frames| - 1
    requires p.LayerAt(i + 1).header[p.size - |Fill(p, i + 1)|..] == Fill(p, i + 1)
    ensures p.LayerAt(i).header[p.size - |Fill(p, i)|..] == Fill(p, i)
  {
    HopFits(p, i);
    TailOver(p, i, p.LayerAt(i + 1), p.LayerAt(i).header, Fill(p, i));
  }

  /** The end of every mix header is the filler that the earlier hops shift in. */
  lemma {:induction false} TailIsFiller(p: Plan, i: nat)
    requires p.FillerOk() && i < |p.frames|
    ensures p.LayerAt(i).header[p.size - |Fill(p, i)|..] == Fill(p, i)
    decreases |p.frames| - i
  {
    hide PrefixSize, Fill;
    if i < |p.frames| - 1 {
      TailIsFiller(p, i + 1);
      TailStep(p, i);
    } else {
      LastTail(p);
    }
  }

  lemma LastTail(p: Plan)
    requires p.FillerOk() && p.frames != []
    ensures var i := |p.frames| - 1; p.LayerAt(i).header[p.size - |Fill(p, i)|..] == Fill(p, i)
  {
    hide PrefixSize;
  }

  // ----- taking a layer off

  /** The whole masked header, unmasked with the long stream: the plain bytes, then the rest of the stream. */
  lemma Unmasked(plain: seq<byte>, s: seq<byte>, d: nat)
    requires |plain| == d && |s| == 2 * d
    ensures Xor(Xor(plain, s[..d]) + Zeros(d), s) == plain + s[d..]
  {
    var x := Xor(plain, s[..d]);
    XorConcat(x, Zeros(d), s);
    assert s[d..d + d] == s[d..];
    XorTwice(plain, s[..d]);
    XorZeros(d, s[d..]);
    assert s[d..][..d] == s[d..];
    assert Xor(x + Zeros(d), s) == Xor(x, s[..d]) + Xor(Zeros(d), s[d..]);
  }

  /** Unmasking a header whose front was masked uncovers the front. */
  lemma UnmaskedFront(header: seq<byte>, plain: seq<byte>, s: seq<byte>, d: nat, n: nat)
    requires |header| == d == |plain| && |s| == 2 * d && n <= d
    requires header[..n] == Xor(plain, s[..d])[..n]
    ensures Xor(header + Zeros(d), s)[..n] == plain[..n]
  {
    var x := Xor(plain, s[..d]);
    XorSlice(header + Zeros(d), s, 0, n);
    XorSlice(plain, s[..d], 0, n);
    assert (header + Zeros(d))[0..n] == header[..n] == x[0..n];
    assert s[..d][0..n] == s[0..n];
    XorTwice(plain[0..n], s[0..n]);
  }

  ghost function Unmask(p: Plan, i: nat): (u: seq<byte>)
    requires p.FillerOk() && i < |p.frames|
    ensures |u| == 2 * p.size
  {
    Xor(p.LayerAt(i).header + Zeros(p.size), p.streams[i])
  }

  /** The front of a layer is the masked hop, also when the filler ends it. */
  lemma MixedFront(header: seq<byte>, hop: seq<byte>, stream: seq<byte>, filler: seq<byte>, last: bool)
    requires |hop| + |filler| <= |header| == |stream|
    ensures MixOver(header, hop, stream, filler, last)[..|hop|] ==
            Xor(hop + header[..|header| - |hop|], stream)[..|hop|]
  {
  }

  /** The hop finds its own data in front. */
  lemma HopInFront(p: Plan, i: nat)
    requires p.FillerOk() && i < |p.frames|
    ensures var hop := p.frames[i] + p.LayerAt(i + 1).hmac;
            |hop| <= p.size && Unmask(p, i)[..|hop|] == hop
  {
    hide PrefixSize;
    var inner, d, s := p.LayerAt(i + 1), p.size, p.streams[i];
    var hop, last := p.frames[i] + inner.hmac, i == |p.frames| - 1;
    var plain := hop + inner.header[..d - |hop|];
    HopFits(p, i);
    MixedFront(inner.header, hop, s[..d], if last then p.filler else [], last);
    UnmaskedFront(p.LayerAt(i).header, plain, s, d, |hop|);
  }

  /** The end of the next header is what this hop's stream holds beyond the packet. */
  lemma NextEnd(p: Plan, i: nat, n: nat)
    requires p.FillerOk() && i < |p.frames| - 1 && n == HopSize(p.frames[i])
    ensures n <= p.size && p.LayerAt(i + 1).header[p.size - n..] == p.streams[i][p.size..p.size + n]
  {
    HopFits(p, i);
    TailIsFiller(p, i + 1);
    InnerTail(p, i, p.LayerAt(i + 1).header, Fill(p, i), n);
  }

  /** Behind it, a hop that is not the last finds exactly the header built for the next hop. */
  lemma NextBehind(p: Plan, i: nat, n: nat)
    requires p.FillerOk() && i < |p.frames| - 1 && n == HopSize(p.frames[i])
    ensures n <= p.size && Unmask(p, i)[n..n + p.size] == p.LayerAt(i + 1).header
  {
    NextEnd(p, i, n);
    NextUnmasked(p.frames[i] + p.LayerAt(i + 1).hmac, n, p.LayerAt(i + 1).header, p.streams[i], p.filler, p.size);
  }

  lemma NextUnmasked(front: seq<byte>, n: nat, inner: seq<byte>, s: seq<byte>, filler: seq<byte>, d: nat)
    requires |inner| == d && |s| == 2 * d && |front| == n <= d && |filler| <= d
    requires inner[d - n..] == s[d..d + n]
    ensures Xor(MixOver(inner, front, s[..d], filler, false) + Zeros(d), s)[n..n + d] == inner
  {
    Unmasked(front + inner[..d - |front|], s, d);
    ShiftedIn(front, inner, s, d);
  }

  /** Dropping the front of a header shifts in the start of the remaining stream. */
  lemma ShiftedIn(front: seq<byte>, inner: seq<byte>, s: seq<byte>, d: nat)
    requires |inner| == d && |s| == 2 * d && |front| <= d
    requires inner[d - |front|..] == s[d..d + |front|]
    ensures (front + inner[..d - |front|] + s[d..])[|front|..|front| + d] == inner
  {
    var all := front + inner[..d - |front|] + s[d..];
    assert all[|front|..|front| + d] == inner[..d - |front|] + s[d..d + |front|];
    assert inner == inner[..d - |front|] + inner[d - |front|..];
  }

  // ----- reading the hop's data back

  /** A serialized hop is read back, unless its payload is so short that its length reads as a legacy marker. */
  lemma ReadHopOfFrame(payload: seq<byte>, hmac: seq<byte>, rest: seq<byte>)
    requires WriteBigSize(|payload|).Some? && |hmac| == PER_HOP_HMAC_SIZE
    ensures ReadHop(Frame(payload) + hmac + rest) ==
            if |payload| == 0 then Err(LegacyHopData)
            else if |payload| == 1 then Err(UnsupportedPayloadLength)
            else Ok(HopData(payload, hmac, rest))
  {
    var prefix := WriteBigSize(|payload|).value;
    var b := Frame(payload) + hmac + rest;
    PrefixFirstByte(|payload|);
    var behind := payload + hmac + rest;
    assert b == prefix + behind;
    if |payload| >= 2 {
      WrittenIsRead(|payload|, behind);
      var n := |payload|;
      assert behind[..n] == payload;
      assert behind[n..n + PER_HOP_HMAC_SIZE] == hmac;
      assert behind[n + PER_HOP_HMAC_SIZE..] == rest;
    }
  }

  lemma PrefixFirstByte(n: nat)
    requires WriteBigSize(n).Some?
    ensures |WriteBigSize(n).value| >= 1
    ensures n < 0xfd ==> WriteBigSize(n).value == [n]
    ensures n >= 0xfd ==> WriteBigSize(n).value[0] >= 0xfd
  {
    PowerValues();
    if n < 0xfd {
      assert ToBytes(n / 256, 0) == [];
    }
  }

  // ----- the theorem

  lemma PayloadsFit(r: Route, i: nat)
    requires Laws(r.c) && r.Fits() && i < |r.payloads|
    ensures HopSize(Frame(r.payloads[i])) <= r.Size() && WriteBigSize(|r.payloads[i]|).Some?
  {
    HopFits(r.ToPlan(), i);
    PowerValues();
  }

  /** All ephemeral keys are private keys. */
  lemma {:induction false} EphemeralIsKey(r: Route, i: nat)
    requires Laws(r.c) && r.Fits() && i <= |r.payloads|
    ensures IsKey(r.c, r.Ephemeral(i))
  {
    if i > 0 {
      EphemeralIsKey(r, i - 1);
      var e := r.Ephemeral(i - 1);
      ProductIsKey(r.c, e, r.c.blindingFactor(r.c.publicKey(e), r.c.ecdh(e, r.pubkeys[i - 1])));
    }
  }

  /** The shared secret is the one the sender used, so the code checks and the mask is the right one. */
  lemma SecretShared(r: Route, i: nat, key: nat)
    requires Laws(r.c) && r.Fits() && i < |r.payloads| && IsKey(r.c, key) && r.pubkeys[i] == r.c.publicKey(key)
    ensures var e := r.PacketAt(i).publicKey;
            ProcessOnionPacket(r.c, r.PacketAt(i), r.associatedData, key, r.trampoline) ==
            Peel(r.c, e, r.c.ecdh(key, e), Unmask(r.ToPlan(), i), r.Size())
  {
    EphemeralIsKey(r, i);
  }

  /** The next ephemeral key that hop `i` computes is the one the sender used for hop `i + 1`. */
  lemma NextKey(r: Route, i: nat, key: nat)
    requires Laws(r.c) && r.Fits() && i < |r.payloads| && IsKey(r.c, key) && r.pubkeys[i] == r.c.publicKey(key)
    ensures var e := r.PacketAt(i).publicKey;
            r.c.scale(e, r.c.blindingFactor(e, r.c.ecdh(key, e))) == r.c.publicKey(r.Ephemeral(i + 1))
  {
    EphemeralIsKey(r, i);
  }

  /** What hop `i` unmasks, as its own data, its code and the rest. */
  lemma PlanParts(p: Plan, i: nat)
    requires p.FillerOk() && i < |p.frames|
    ensures var n, plain := HopSize(p.frames[i]), Unmask(p, i);
            && n <= p.size && |plain| == 2 * p.size
            && plain == p.frames[i] + p.LayerAt(i + 1).hmac + plain[n..]
  {
    HopInFront(p, i);
    var hop := p.frames[i] + p.LayerAt(i + 1).hmac;
    assert |hop| == HopSize(p.frames[i]);
    assert Unmask(p, i) == Unmask(p, i)[..|hop|] + Unmask(p, i)[|hop|..];
  }

  lemma UnmaskedParts(r: Route, i: nat)
    requires Laws(r.c) && r.Fits() && i < |r.payloads|
    ensures var p, frame := r.ToPlan(), Frame(r.payloads[i]);
            var n, plain := HopSize(frame), Unmask(p, i);
            && n <= r.Size() && |plain| == 2 * r.Size()
            && plain == frame + p.LayerAt(i + 1).hmac + plain[n..]
            && (i < |r.payloads| - 1 ==> plain[n..n + r.Size()] == p.LayerAt(i + 1).header)
  {
    PlanParts(r.ToPlan(), i);
    if i < |r.payloads| - 1 {
      NextBehind(r.ToPlan(), i, HopSize(Frame(r.payloads[i])));
    }
  }

  /** Intermediate hops are told a code, which is never all zeros; the last hop is told zeros. */
  lemma FinalIsZeros(r: Route, i: nat)
    requires Laws(r.c) && r.Fits() && i < |r.payloads|
    ensures r.ToPlan().LayerAt(i + 1).hmac == Zeros(PER_HOP_HMAC_SIZE) <==> i == |r.payloads| - 1
  {
    hide PrefixSize, FromBytes;
  }

  /** Peeling a hop whose data is in front of the unmasked bytes. */
  lemma PeelFrame(c: Crypto, publicKey: seq<byte>, secret: seq<byte>, nextKey: seq<byte>, payload: seq<byte>,
                  hmac: seq<byte>, plain: seq<byte>, size: nat)
    requires WriteBigSize(|payload|).Some? && |hmac| == PER_HOP_HMAC_SIZE
    requires HopSize(Frame(payload)) <= size && |plain| == 2 * size &&
             (size == HOPS_DATA_SIZE || size == TRAMPOLINE_HOPS_DATA_SIZE)
    requires plain == Frame(payload) + hmac + plain[HopSize(Frame(payload))..]
    requires c.scale(publicKey, c.blindingFactor(publicKey, secret)) == nextKey && |nextKey| == 33 &&
             c.isPublicKey(nextKey)
    ensures Peel(c, publicKey, secret, plain, size) ==
            if |payload| == 0 then Err(LegacyHopData)
            else if |payload| == 1 then Err(UnsupportedPayloadLength)
            else Ok(Processed(hmac == Zeros(PER_HOP_HMAC_SIZE), payload,
                              OnionPacket(nextKey, plain[HopSize(Frame(payload))..HopSize(Frame(payload)) + size],
                                          hmac)))
  {
    var n := HopSize(Frame(payload));
    ReadHopOfFrame(payload, hmac, plain[n..]);
    assert plain[n..][..size] == plain[n..n + size];
  }

  /** What hop `i` is to find: its payload, whether it is the last, and the packet for the next hop. */
  ghost predicate Delivered(r: Route, i: nat, got: Processed)
    requires Laws(r.c) && r.Fits() && i < |r.payloads|
  {
    && got.payload == r.payloads[i]
    && (got.areWeFinal <==> i == |r.payloads| - 1)
    && (i < |r.payloads| - 1 ==> got.nextPacket == r.PacketAt(i + 1))
  }

  /**
   Hop `i` recovers exactly its payload, learns whether it is the last, and passes on exactly the packet
   built for hop `i + 1` - if and only if its payload is at least two bytes long: a shorter one has a
   length byte that reads as the retired or the reserved format.
   */
  lemma HopProcesses(r: Route, i: nat, key: nat)
    requires Laws(r.c) && r.Fits() && i < |r.payloads| && IsKey(r.c, key) && r.pubkeys[i] == r.c.publicKey(key)
    ensures var result := ProcessOnionPacket(r.c, r.PacketAt(i), r.associatedData, key, r.trampoline);
            && (result.Ok? <==> |r.payloads[i]| >= 2)
            && (|r.payloads[i]| == 0 ==> result == Err(LegacyHopData))
            && (|r.payloads[i]| == 1 ==> result == Err(UnsupportedPayloadLength))
            && (result.Ok? ==> Delivered(r, i, result.value))
  {
    var p, payload, e := r.ToPlan(), r.payloads[i], r.PacketAt(i).publicKey;
    var hmac, plain, n := p.LayerAt(i + 1).hmac, Unmask(p, i), HopSize(Frame(payload));
    PayloadsFit(r, i);
    SecretShared(r, i, key);
    UnmaskedParts(r, i);
    NextKey(r, i, key);
    EphemeralIsKey(r, i + 1);
    FinalIsZeros(r, i);
    PeelFrame(r.c, e, r.c.ecdh(key, e), r.c.publicKey(r.Ephemeral(i + 1)), payload, hmac, plain, r.Size());
  }
}
