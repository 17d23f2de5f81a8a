/** Bitcoin's rules for targets and work, and that chains can rely on them. */
module Retargeting {
  import opened Options
  import opened Bytes
  import opened CompactTargets
  import opened Headers
  import opened Chainworks

  const TIMESPAN: nat := 1209600

  /** How long a chunk counts as having taken. */
  function Clamped(timespan: int): (s: nat)
    ensures TIMESPAN / 4 <= s <= 4 * TIMESPAN
  {
    var s := if timespan < TIMESPAN / 4 then TIMESPAN / 4 else timespan;
    if s > TIMESPAN * 4 then TIMESPAN * 4 else s
  }

  /** The target that a chunk's duration makes of the one it was mined with. */
  function Retarget(target: nat, timespan: int): nat {
    var t := target * Clamped(timespan) / TIMESPAN;
    if t > MAX_TARGET then MAX_TARGET else t
  }

  /** What a chunk's last header asks for, before rounding to a compact form. */
  function Asked(first: Header, last: Header): Option<nat> {
    match BitsToTarget(last.bits)
    case None => None
    case Some(target) => Some(Retarget(target, last.timestamp - first.timestamp))
  }

  function NextTarget(first: Header, last: Header): Option<nat> {
    match Asked(first, last)
    case None => None
    case Some(t) => BitsToTarget(TargetToBits(t))
  }

  /** The expected number of hashes to find one below the target. */
  function SingleWork(target: nat): nat {
    if target >= Power256(32) then 0 else Quotient(Power256(32) - target - 1, target + 1) + 1
  }

  function Quotient(a: nat, b: nat): nat
    requires b > 0
  {
    a / b
  }

  function Bitcoin(genesis: Header, testnet: bool): Net {
    Net(genesis, testnet, MAX_TARGET, NextTarget, TargetToBits, SingleWork)
  }

  lemma SevenBytes()
    ensures Power256(4) == 0x1_0000_0000 && Power256(7) == 0x100_0000_0000_0000
  {
    assert Power256(4) == 0x1_0000_0000;
  }

  lemma MaxTargetFits()
    ensures MAX_TARGET + 1 == Power256(28) < Power256(32)
  {
    hide Power256;
    SevenBytes();
    PowerAdd(7, 7);
    PowerAdd(14, 14);
    PowerAdd(28, 4);
  }

  lemma QuotientLe(a: nat, b: nat, d: nat, x: nat, y: nat)
    requires x * d <= a <= b < (y + 1) * d
    ensures x <= y
  {
    MulCancel(x, y + 1, d);
  }

  lemma DivLe(a: nat, b: nat, d: nat)
    requires a <= b && d > 0
    ensures a / d <= b / d
  {
    var x, y := a / d, b / d;
    DivBounds(a, d);
    DivBounds(b, d);
    QuotientLe(a, b, d, x, y);
  }

  lemma RetargetBounds(target: nat, timespan: int)
    ensures Retarget(target, timespan) <= MAX_TARGET && Retarget(target, timespan) <= 4 * target
    ensures Retarget(target, timespan) >= if target / 4 < MAX_TARGET then target / 4 else MAX_TARGET
  {
    var s := Clamped(timespan);
    MulLe(TIMESPAN / 4, s, target);
    MulLe(s, 4 * TIMESPAN, target);
    DivLe(target * s, 4 * target * TIMESPAN, TIMESPAN);
    DivLe(target * (TIMESPAN / 4), target * s, TIMESPAN);
  }

  /**
   A retargeted target is exactly representable, at most the limit, and apart from the rounding what was asked for.
   */
  lemma TargetExact(first: Header, last: Header)
    requires BitsToTarget(last.bits).Some?
    ensures Asked(first, last).Some? && NextTarget(first, last).Some?
    ensures var t, asked := NextTarget(first, last).value, Asked(first, last).value;
            t <= MAX_TARGET && BitsToTarget(TargetToBits(t)) == Some(t) && Rounded(asked, t)
  {
    CodedTarget(Asked(first, last).value);
  }

  /** It is at most four times the old target; before rounding at least a quarter of it, or the limit. */
  lemma TargetBounds(first: Header, last: Header)
    requires BitsToTarget(last.bits).Some?
    ensures Asked(first, last).Some? && NextTarget(first, last).Some?
    ensures var before, asked := BitsToTarget(last.bits).value, Asked(first, last).value;
            NextTarget(first, last).value <= 4 * before &&
            asked >= if before / 4 < MAX_TARGET then before / 4 else MAX_TARGET
  {
    var asked := Asked(first, last).value;
    TargetExact(first, last);
    RetargetBounds(BitsToTarget(last.bits).value, last.timestamp - first.timestamp);
    assert NextTarget(first, last).value <= asked;
  }

  lemma CodedTarget(t: nat)
    requires t <= MAX_TARGET
    ensures BitsToTarget(TargetToBits(t)).Some?
    ensures var d := BitsToTarget(TargetToBits(t)).value;
            d <= MAX_TARGET && Rounded(t, d) && BitsToTarget(TargetToBits(d)) == Some(d)
  {
    MaxTargetFits();
    CompactRoundTrip(t);
  }

  lemma RetargetMonotone(target: nat, timespan: int, timespan': int)
    requires timespan <= timespan'
    ensures Retarget(target, timespan) <= Retarget(target, timespan') <= MAX_TARGET
  {
    MulLe(Clamped(timespan), Clamped(timespan'), target);
    DivLe(target * Clamped(timespan), target * Clamped(timespan'), TIMESPAN);
  }

  /** A chunk that took longer, with the same target, does not lead to a lower one. */
  lemma LongerIsEasier(first: Header, last: Header, first': Header, last': Header)
    requires BitsToTarget(last.bits).Some? && last'.bits == last.bits
    requires last.timestamp - first.timestamp <= last'.timestamp - first'.timestamp
    ensures Asked(first, last).value <= Asked(first', last').value
    ensures NextTarget(first, last).Some? && NextTarget(first', last').Some?
    ensures NextTarget(first, last).value <= NextTarget(first', last').value
  {
    hide Power256, BitsToTarget, TargetToBits, Retarget, Rounded;
    var target := BitsToTarget(last.bits).value;
    RetargetMonotone(target, last.timestamp - first.timestamp, last'.timestamp - first'.timestamp);
    TargetExact(first, last);
    TargetExact(first', last');
    MaxTargetFits();
    RecodedMonotone(Asked(first, last).value, Asked(first', last').value);
  }

  /** A chunk that took exactly two weeks asks for the target that it had, up to the limit. */
  lemma TwoWeeksKeep(first: Header, last: Header)
    requires BitsToTarget(last.bits).Some? && last.timestamp - first.timestamp == 14 * 24 * 60 * 60
    ensures var before := BitsToTarget(last.bits).value;
            Asked(first, last) == Some(if before < MAX_TARGET then before else MAX_TARGET)
  {
    DivIs(BitsToTarget(last.bits).value * TIMESPAN, TIMESPAN, BitsToTarget(last.bits).value);
  }

  /** On a Bitcoin chain, a chunk from whose first to whose last header it is two weeks leaves the target as it is. */
  lemma SteadyChunk(genesis: Header, hs: seq<Header>, index: nat)
    requires Verified(Bitcoin(genesis, false), hs) && (index + 1) * 2016 <= |hs|
    requires hs[index * 2016 + 2015].timestamp - hs[index * 2016].timestamp == 14 * 24 * 60 * 60
    ensures GetTarget(Bitcoin(genesis, false), hs, index) == BitsToTarget(hs[index * 2016 + 2015].bits)
  {
    hide BitsToTarget, TargetToBits, NetOk, Power256, Rounded, Retarget;
    StatesTarget(genesis, hs, index);
    TwoWeeksKeep(hs[index * 2016], hs[index * 2016 + 2015]);
  }

  /** The last header of a chunk states a target that is representable and within the limit. */
  lemma StatesTarget(genesis: Header, hs: seq<Header>, index: nat)
    requires Verified(Bitcoin(genesis, false), hs) && (index + 1) * 2016 <= |hs|
    ensures var t := BitsToTarget(hs[index * 2016 + 2015].bits);
            t.Some? && t.value <= MAX_TARGET && BitsToTarget(TargetToBits(t.value)) == t
  {
    hide BitsToTarget, TargetToBits, NetOk, Power256, Rounded;
    var net, k := Bitcoin(genesis, false), index * 2016 + 2015;
    assert Checked(net, hs, k) && k / 2016 == index;
    TargetsKnown(net, hs, index - 1);
    CodedTarget(GetTarget(net, hs, index - 1).value);
  }

  // ----- work

  /** The work of a target is 2^256 divided by the number of hashes that meet it, rounded down. */
  lemma WorkExact(t: nat)
    requires t < Power256(32)
    ensures SingleWork(t) * (t + 1) <= Power256(32) < (SingleWork(t) + 1) * (t + 1)
  {
    hide Power256;
    DivBounds(Power256(32) - t - 1, t + 1);
    OneMore(Quotient(Power256(32) - t - 1, t + 1), t + 1, Power256(32));
  }

  lemma OneMore(q: nat, d: nat, p: nat)
    requires q * d <= p - d < (q + 1) * d
    ensures (q + 1) * d <= p < (q + 2) * d
  {
    assert (q + 1) * d == q * d + d && (q + 2) * d == (q + 1) * d + d;
  }

  /** A lower target takes at least as much work. */
  lemma LowerTakesMore(t: nat, t': nat)
    requires t <= t' < Power256(32)
    ensures SingleWork(t') <= SingleWork(t)
  {
    WorkExact(t);
    WorkExact(t');
    MulLe(t + 1, t' + 1, SingleWork(t) + 1);
    assert (SingleWork(t) + 1) * (t + 1) <= (SingleWork(t) + 1) * (t' + 1);
    MulCancel(SingleWork(t'), SingleWork(t) + 1, t' + 1);
  }

  /** On Bitcoin's networks. */
  lemma BitcoinWork(genesis: Header, testnet: bool, t: nat, t': nat)
    requires t <= t' <= Bitcoin(genesis, testnet).maxTarget
    ensures var work := Bitcoin(genesis, testnet).work;
            work(t) * (t + 1) <= Power256(32) < (work(t) + 1) * (t + 1) && work(t') <= work(t)
  {
    MaxTargetFits();
    WorkExact(t);
    LowerTakesMore(t, t');
  }

  /** A header at the limit, as all of the first chunk are, takes 2^32 hashes. */
  lemma WorkAtLimit()
    ensures MAX_TARGET + 1 == Power256(28) && SingleWork(MAX_TARGET) == 0x1_0000_0000
  {
    MaxTargetFits();
    assert Power256(4) == 0x1_0000_0000;
    PowerAdd(4, 28);
    WorkExact(MAX_TARGET);
    var w, d := SingleWork(MAX_TARGET), Power256(28);
    MulCancel(w, 0x1_0000_0001, d);
    MulCancel(0x1_0000_0000, w + 1, d);
  }

  /** The work of the first headers of every Bitcoin chain. */
  lemma FirstChunkWork(genesis: Header, hs: seq<Header>, height: nat)
    requires Verified(Bitcoin(genesis, false), hs) && height < 2016
    ensures ChainworkAt(Bitcoin(genesis, false), hs, height) == Some((height + 1) * 0x1_0000_0000)
  {
    WorkAtLimit();
  }

  /** An encoded target leads to a target again, and every header adds work. */
  lemma BitcoinOk(genesis: Header, testnet: bool)
    requires genesis.prev == Zero
    ensures NetOk(Bitcoin(genesis, testnet))
  {
    MaxTargetFits();
    var net := Bitcoin(genesis, testnet);
    forall first: Header, last: Header, t: nat | t <= net.maxTarget && last.bits == net.encode(t)
      ensures net.next(first, last).Some? && net.next(first, last).value <= net.maxTarget
    {
      CodedTarget(t);
      TargetExact(first, last);
    }
    forall t: nat | t <= net.maxTarget
      ensures net.work(t) >= 1
    {
      WorkPositive(t);
    }
  }

  lemma WorkPositive(t: nat)
    requires t < Power256(32)
    ensures SingleWork(t) >= 1
  {
  }
}
