/**
 When two logs describe the same commitment transaction: the same HTLCs, balances and fee rate.
 The two logs may be one node's before and after an action, or the two nodes' own views.
 */
module HtlcCommitment {
  import opened Options
  import opened HtlcLog
  import opened HtlcInvariant

  ghost predicate SameUpTo(m: map<int, Ctns>, o: Owner, m': map<int, Ctns>, o': Owner, n: int) {
    forall id :: InEffect(m, id, o, n) <==> InEffect(m', id, o', n)
  }

  predicate FeeInEffect(m: map<int, FeeUpdate>, k: int, o: Owner, n: int) {
    k in m && Le(m[k].ctns.At(o), n)
  }

  ghost predicate SameFees(m: map<int, FeeUpdate>, o: Owner, m': map<int, FeeUpdate>, o': Owner, n: int) {
    forall k :: (FeeInEffect(m, k, o, n) <==> FeeInEffect(m', k, o', n))
             && (FeeInEffect(m, k, o, n) ==> m[k].rate == m'[k].rate)
  }

  ghost predicate SameSide(s: SideLog, o: Owner, s': SideLog, o': Owner, n: int) {
    && SameUpTo(s.lockedIn, o, s'.lockedIn, o', n)
    && SameUpTo(s.settles, o, s'.settles, o', n)
    && SameUpTo(s.fails, o, s'.fails, o', n)
    && (forall id :: InEffect(s.lockedIn, id, o, n) ==> id in s.adds && id in s'.adds && s.adds[id] == s'.adds[id])
    && SameFees(s.feeUpdates, o, s'.feeUpdates, o', n)
  }

  /** `l`'s record of `o`'s transaction `n` and `l'`'s record of `o'`'s transaction `n` say the same. */
  ghost predicate SameCommitment(l: Log, o: Owner, l': Log, o': Owner, n: int) {
    && SameSide(l.Side(o), o, l'.Side(o'), o', n)
    && SameSide(l.Side(o.Inverted()), o, l'.Side(o'.Inverted()), o', n)
  }

  /** The party that plays in `o'`'s view the role `p` plays in `o`'s. */
  function Counterpart(p: Owner, o: Owner, o': Owner): Owner {
    if p == o then o' else o'.Inverted()
  }

  lemma SameSideTransitive(s: SideLog, s': SideLog, s'': SideLog, o: Owner, n: int)
    requires SameSide(s, o, s', o, n) && SameSide(s', o, s'', o, n)
    ensures SameSide(s, o, s'', o, n)
  {
  }

  // ----- the same HTLCs

  lemma SameHtlcs(l: Log, o: Owner, l': Log, o': Owner, n: int, p: Owner, id: int)
    requires Inv(l) && Inv(l') && SameCommitment(l, o, l', o', n)
    ensures var p' := Counterpart(p, o, o');
            && (IsActive(l, o, n, p, id) <==> IsActive(l', o', n, p', id))
            && (IsActive(l, o, n, p, id) ==>
                  id in l.Side(p).adds && id in l'.Side(p').adds && l.Side(p).adds[id] == l'.Side(p').adds[id])
  {
    var p' := Counterpart(p, o, o');
    assert SameSide(l.Side(p), o, l'.Side(p'), o', n);
    assert AddsOk(l.Side(p), p.Inverted()) && AddsOk(l'.Side(p'), p'.Inverted());
  }

  // ----- the same balances

  /** A removal is in effect only where the HTLC was locked in. */
  lemma SettledWasLocked(s: SideLog, o: Owner, n: int, id: int)
    requires RemovalsOk(s.settles, s.lockedIn) && InEffect(s.settles, id, o, n)
    ensures InEffect(s.lockedIn, id, o, n)
  {
    assert LifetimeOk(s.lockedIn[id], s.settles[id]);
  }

  lemma {:induction false} SameSums(s: SideLog, o: Owner, s': SideLog, o': Owner, n: int, k: nat)
    requires RemovalsOk(s.settles, s.lockedIn) && SameSide(s, o, s', o', n)
    ensures SettledSum(s, o, n, k) == SettledSum(s', o', n, k)
  {
    if k > 0 {
      SameSums(s, o, s', o', n, k - 1);
      if InEffect(s.settles, k - 1, o, n) {
        SettledWasLocked(s, o, n, k - 1);
      }
    }
  }

  /** Ids that were not handed out contribute nothing. */
  lemma {:induction false} SumBeyond(s: SideLog, f: Owner, o: Owner, n: int, k: nat)
    requires AddsOk(s, f) && k >= s.nextHtlcId
    ensures SettledSum(s, o, n, k) == SettledTotal(s, o, n)
  {
    if k > s.nextHtlcId {
      SumBeyond(s, f, o, n, k - 1);
    }
  }

  lemma SameTotals(s: SideLog, f: Owner, o: Owner, s': SideLog, f': Owner, o': Owner, n: int)
    requires AddsOk(s, f) && AddsOk(s', f')
    requires RemovalsOk(s.settles, s.lockedIn) && SameSide(s, o, s', o', n)
    ensures SettledTotal(s, o, n) == SettledTotal(s', o', n)
  {
    var k := if s.nextHtlcId > s'.nextHtlcId then s.nextHtlcId else s'.nextHtlcId;
    SumBeyond(s, f, o, n, k);
    SumBeyond(s', f', o', n, k);
    SameSums(s, o, s', o', n, k);
  }

  lemma SameBalances(l: Log, o: Owner, l': Log, o': Owner, n: int, whose: Owner, initial: int)
    requires Inv(l) && Inv(l') && SameCommitment(l, o, l', o', n)
    ensures Balance(l, whose, o, n, initial) == Balance(l', Counterpart(whose, o, o'), o', n, initial)
  {
    var q, q' := o.Inverted(), o'.Inverted();
    SameTotals(l.Side(o), q, o, l'.Side(o'), q', o', n);
    SameTotals(l.Side(q), o, o, l'.Side(q'), o', o', n);
  }

  // ----- the same fee rate

  predicate FeePayer(l: Log, payer: Owner) {
    |l.Side(payer.Inverted()).feeUpdates| == 1
  }

  lemma {:induction false} SameLastFee(m: map<int, FeeUpdate>, o: Owner, m': map<int, FeeUpdate>, o': Owner, n: int,
                                       k: nat)
    requires SameFees(m, o, m', o', n)
    ensures LastFee(m, o, n, k) == LastFee(m', o', n, k)
  {
    if k > 0 && !FeeInEffect(m, k, o, n) {
      SameLastFee(m, o, m', o', n, k - 1);
    }
  }

  lemma {:induction false} LastFeeBeyond(m: map<int, FeeUpdate>, o: Owner, n: int, k: nat)
    requires Contiguous(m) && k >= |m| - 1
    ensures LastFee(m, o, n, k) == LastFee(m, o, n, |m| - 1)
  {
    if k > |m| - 1 {
      LastFeeBeyond(m, o, n, k - 1);
    }
  }

  /** The looked-up update is in effect, and no later one is. */
  lemma {:induction false} LastFeeInEffect(m: map<int, FeeUpdate>, o: Owner, n: int, k: nat)
    requires 0 in m && m[0].ctns == Ctns(Some(0), Some(0)) && n >= 0
    ensures FeeInEffect(m, LastFee(m, o, n, k), o, n)
    ensures forall j :: LastFee(m, o, n, k) < j <= k ==> !FeeInEffect(m, j, o, n)
  {
    if k > 0 && !FeeInEffect(m, k, o, n) {
      LastFeeInEffect(m, o, n, k - 1);
    }
  }

  lemma SameRates(m: map<int, FeeUpdate>, o: Owner, m': map<int, FeeUpdate>, o': Owner, n: nat)
    requires Contiguous(m) && Contiguous(m') && SameFees(m, o, m', o', n)
    requires m[0].ctns == m'[0].ctns == Ctns(Some(0), Some(0))
    ensures FeerateOf(m, o, n) == FeerateOf(m', o', n)
  {
    var k := |m| + |m'|;
    LastFeeBeyond(m, o, n, k);
    LastFeeBeyond(m', o', n, k);
    SameLastFee(m, o, m', o', n, k);
    LastFeeInEffect(m, o, n, |m| - 1);
  }

  /** Which log the lookup picks never matters: it answers from the payer's. */
  lemma FeerateIsPayers(l: Log, payer: Owner, o: Owner, n: nat)
    requires Inv(l) && FeePayer(l, payer)
    ensures Feerate(l, o, n) == FeerateOf(l.Side(payer).feeUpdates, o, n)
  {
    assert Contiguous(l.local.feeUpdates) && Contiguous(l.remote.feeUpdates);
    if |l.Side(payer).feeUpdates| == 1 {
      assert FeerateOf(l.local.feeUpdates, o, n) == Some(l.local.feeUpdates[0].rate);
      assert FeerateOf(l.remote.feeUpdates, o, n) == Some(l.remote.feeUpdates[0].rate);
    }
  }

  lemma SameFeerate(l: Log, o: Owner, l': Log, o': Owner, n: int, payer: Owner)
    requires Inv(l) && Inv(l') && n >= 0 && SameCommitment(l, o, l', o', n)
    requires FeePayer(l, payer) && FeePayer(l', Counterpart(payer, o, o'))
    ensures Feerate(l, o, n) == Feerate(l', o', n)
  {
    var payer' := Counterpart(payer, o, o');
    FeerateIsPayers(l, payer, o, n);
    FeerateIsPayers(l', payer', o', n);
    assert SameSide(l.Side(payer), o, l'.Side(payer'), o', n);
    SameRates(l.Side(payer).feeUpdates, o, l'.Side(payer').feeUpdates, o', n);
  }
}
