/** What the log's queries and actions mean for the transactions of the two parties. */
module HtlcMeaning {
  import opened Options
  import opened HtlcLog
  import opened HtlcInvariant
  import opened HtlcCommitment

  // ----- irrevocable

  /** The HTLC was locked in when `o`'s oldest unrevoked transaction was made. */
  predicate LockedInBefore(l: Log, o: Owner, p: Owner, id: int) {
    InEffect(l.Side(p).lockedIn, id, o, l.CtnOldestUnrevoked(o))
  }

  /** From `o`'s oldest unrevoked transaction on, the HTLC is in none of `o`'s transactions. */
  ghost predicate InNoneAnyMore(l: Log, o: Owner, p: Owner, id: int) {
    forall n :: n >= l.CtnOldestUnrevoked(o) ==> !IsActive(l, o, n, p, id)
  }

  /**
   From `o`'s oldest unrevoked transaction on, the HTLC is in all of `o`'s transactions but those it is removed in.
   */
  ghost predicate InAllFromNow(l: Log, o: Owner, p: Owner, id: int) {
    forall n :: n >= l.CtnOldestUnrevoked(o) ==>
      IsActive(l, o, n, p, id) || InEffect(l.Side(p).settles, id, o, n) || InEffect(l.Side(p).fails, id, o, n)
  }

  lemma RemovedMeans(l: Log, o: Owner, p: Owner, id: int)
    requires Inv(l)
    ensures IrrevocablyRemoved(l, o, p, id) <==> LockedInBefore(l, o, p, id) && InNoneAnyMore(l, o, p, id)
  {
    var s, n := l.Side(p), l.CtnOldestUnrevoked(o);
    assert AddsOk(s, p.Inverted()) && RemovalsOk(s.settles, s.lockedIn) && RemovalsOk(s.fails, s.lockedIn);
    assert id in s.settles ==> LifetimeOk(s.lockedIn[id], s.settles[id]);
    assert id in s.fails ==> LifetimeOk(s.lockedIn[id], s.fails[id]);
    assert InNoneAnyMore(l, o, p, id) ==> !IsActive(l, o, n, p, id);
  }

  lemma AddedMeans(l: Log, o: Owner, p: Owner, id: int)
    requires Inv(l)
    ensures IrrevocablyAdded(l, o, p, id) <==> InAllFromNow(l, o, p, id)
  {
    var s, n := l.Side(p), l.CtnOldestUnrevoked(o);
    assert AddsOk(s, p.Inverted()) && RemovalsOk(s.settles, s.lockedIn) && RemovalsOk(s.fails, s.lockedIn);
    assert id in s.settles ==> LifetimeOk(s.lockedIn[id], s.settles[id]);
    assert id in s.fails ==> LifetimeOk(s.lockedIn[id], s.fails[id]);
    assert InAllFromNow(l, o, p, id) ==>
        IsActive(l, o, n, p, id) || InEffect(s.settles, id, o, n) || InEffect(s.fails, id, o, n);
  }

  // ----- which transactions an action changes

  /** A new HTLC is in the other party's transactions after the latest one, and in none of the offering party's yet. */
  lemma AddedNext(l: Log, p: Owner, h: UpdateAddHtlc, l': Log, n: int)
    requires Inv(l) && AddHtlc(l, p, h) == Some(l')
    ensures IsActive(l', p.Inverted(), n, p, h.htlcId) <==> n > l.CtnLatest(p.Inverted())
    ensures !IsActive(l', p, n, p, h.htlcId)
    ensures l'.Side(p).adds[h.htlcId] == h
  {
    var s := l.Side(p);
    assert AddsOk(s, p.Inverted()) && RemovalsOk(s.settles, s.lockedIn) && RemovalsOk(s.fails, s.lockedIn);
    assert h.htlcId !in s.lockedIn;
  }

  /**
   A removed HTLC was in the offering party's next transaction and is in none after the latest any more; the
   transactions up to there, and all of the other party's, stay as they are.
   */
  lemma RemovedNext(l: Log, p: Owner, k: RemoveKind, id: int, l': Log, n: int)
    requires Inv(l) && RemoveHtlc(l, p, k, id) == Some(l')
    ensures IsActive(l, p, l.CtnLatest(p) + 1, p, id)
    ensures IsActive(l', p, n, p, id) <==> n <= l.CtnLatest(p) && IsActive(l, p, n, p, id)
    ensures IsActive(l', p.Inverted(), n, p, id) <==> IsActive(l, p.Inverted(), n, p, id)
  {
    var s := l.Side(p);
    assert AllOk(s.settles, p, l.Unrevoked(p), l.Unrevoked(p.Inverted()));
    assert AllOk(s.fails, p, l.Unrevoked(p), l.Unrevoked(p.Inverted()));
  }

  /** What takes effect in `o`'s transaction `upTo` takes effect in the other party's transaction `n` at last. */
  ghost predicate TakenOver(m: map<int, Ctns>, o: Owner, upTo: int, n: int) {
    forall id :: id in m && Le(m[id].At(o), upTo) ==> Le(m[id].At(o.Inverted()), n)
  }

  lemma PromotedTakenOver(m: map<int, Ctns>, o: Owner, wo: Window, wq: Window)
    requires AllOk(m, o, wo, wq)
    ensures TakenOver(PromoteAll(m, o, wo.oldest + 1, wq.latest + 1), o, wo.oldest + 1, wq.latest + 1)
  {
    var m' := PromoteAll(m, o, wo.oldest + 1, wq.latest + 1);
    forall id | id in m' && Le(m'[id].At(o), wo.oldest + 1)
      ensures Le(m'[id].At(o.Inverted()), wq.latest + 1)
    {
      assert UpdateOk(m[id], o, wo, wq);
    }
  }

  /** A revocation moves `o` on by one transaction, and the other party takes over what `o` can no longer take back. */
  lemma RevokedNext(l: Log, o: Owner, l': Log)
    requires Inv(l) && Revoke(l, o) == Some(l')
    ensures l'.CtnOldestUnrevoked(o) == l.CtnOldestUnrevoked(o) + 1 == l'.CtnLatest(o) == l.CtnLatest(o)
    ensures l'.Unrevoked(o.Inverted()) == l.Unrevoked(o.Inverted())
    ensures var upTo, n := l'.CtnOldestUnrevoked(o), l'.CtnLatest(o.Inverted()) + 1;
            && TakenOver(l'.Side(o.Inverted()).lockedIn, o, upTo, n)
            && TakenOver(l'.Side(o).settles, o, upTo, n) && TakenOver(l'.Side(o).fails, o, upTo, n)
  {
    hide AllOk, TakenOver, PromoteAll;
    PromotedTakenOver(l.Side(o.Inverted()).lockedIn, o, l.Unrevoked(o), l.Unrevoked(o.Inverted()));
    PromotedTakenOver(l.Side(o).settles, o, l.Unrevoked(o), l.Unrevoked(o.Inverted()));
    PromotedTakenOver(l.Side(o).fails, o, l.Unrevoked(o), l.Unrevoked(o.Inverted()));
  }

  // ----- balances

  /** What one party has in a transaction the other one lacks. */
  lemma BalancesConserved(l: Log, o: Owner, n: int, local: int, remote: int)
    ensures Balance(l, LOCAL, o, n, local) + Balance(l, REMOTE, o, n, remote) == local + remote
  {
  }

  lemma {:induction false} SumWithRemoval(s: SideLog, s': SideLog, o: Owner, n: int, k: nat, id: int)
    requires s'.adds == s.adds && id in s.adds
    requires forall i :: i != id ==> (InEffect(s'.settles, i, o, n) <==> InEffect(s.settles, i, o, n))
    requires InEffect(s'.settles, id, o, n) && !InEffect(s.settles, id, o, n)
    ensures SettledSum(s', o, n, k) == SettledSum(s, o, n, k) + if 0 <= id < k then s.adds[id].amountMsat else 0
  {
    if k > 0 {
      SumWithRemoval(s, s', o, n, k - 1, id);
    }
  }

  lemma {:induction false} SumSame(s: SideLog, s': SideLog, o: Owner, n: int, k: nat)
    requires s'.adds == s.adds
    requires forall i :: InEffect(s'.settles, i, o, n) <==> InEffect(s.settles, i, o, n)
    ensures SettledSum(s', o, n, k) == SettledSum(s, o, n, k)
  {
    if k > 0 {
      SumSame(s, s', o, n, k - 1);
    }
  }

  /** What the removal of an HTLC that `p` offered is worth to the other party. */
  function Paid(h: UpdateAddHtlc, k: RemoveKind): int {
    if k.Settle? then h.amountMsat else 0
  }

  /**
   Settling an HTLC moves its amount from the party that offered it to the other one, in all transactions of the former
   after its latest; failing moves nothing.
   */
  lemma RemovalPays(l: Log, p: Owner, k: RemoveKind, id: int, l': Log, n: int, initial: int)
    requires Inv(l) && RemoveHtlc(l, p, k, id) == Some(l') && n > l.CtnLatest(p)
    ensures id in l.Side(p).adds
    ensures Balance(l', p, p, n, initial) == Balance(l, p, p, n, initial) - Paid(l.Side(p).adds[id], k)
    ensures Balance(l', p.Inverted(), p, n, initial) ==
            Balance(l, p.Inverted(), p, n, initial) + Paid(l.Side(p).adds[id], k)
  {
    hide RemovalsOk, FeesOk, FeesOrdered, Disjoint;
    var s, s' := l.Side(p), l'.Side(p);
    assert AddsOk(s, p.Inverted());
    assert AllOk(s.settles, p, l.Unrevoked(p), l.Unrevoked(p.Inverted()));
    if k.Settle? {
      SumWithRemoval(s, s', p, n, s.nextHtlcId, id);
    } else {
      SumSame(s, s', p, n, s.nextHtlcId);
    }
  }

  // ----- fee rates

  lemma FeeLogKnown(l: Log, p: Owner)
    requires Inv(l)
    ensures Contiguous(l.Side(p).feeUpdates) && l.Side(p).feeUpdates[0].ctns == Ctns(Some(0), Some(0))
    ensures l.CtnLatest(LOCAL) >= 0 && l.CtnLatest(REMOTE) >= 0
  {
    assert FeesOk(l.Side(p).feeUpdates, p.Inverted(), l.Unrevoked(p.Inverted()), l.Unrevoked(p));
  }

  lemma NotTheFirst(l: Log, m: map<int, FeeUpdate>)
    requires Contiguous(m) && m[0].ctns == Ctns(Some(0), Some(0)) && l.CtnLatest(LOCAL) >= 0
    ensures 1 <= FeeIndex(l, m) && |m| - 1 <= FeeIndex(l, m) <= |m|
  {
  }

  /** An update of the fee rate is what the other party's transactions after the latest one pay. */
  lemma FeeNext(l: Log, p: Owner, rate: int, l': Log, n: int)
    requires Inv(l) && FeePayer(l, p) && NewFee(l, p, rate) == Some(l') && n > l.CtnLatest(p.Inverted())
    ensures Feerate(l', p.Inverted(), n) == Some(rate)
  {
    hide Inv;
    var m, at := l.Side(p).feeUpdates, FeeIndex(l, l.Side(p).feeUpdates);
    FeeLogKnown(l, p);
    NotTheFirst(l, m);
    hide Uncommitted, FeeIndex;
    var m' := l'.Side(p).feeUpdates;
    assert m'.Keys == m.Keys + {at} && |m'| == at + 1;
    assert m' == FeeLog(l');
  }
}
