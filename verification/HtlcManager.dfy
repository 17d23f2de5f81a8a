/**
 The manager itself: the log, the sets of possibly active HTLCs and the running balance, updated in
 place. Each method does to the log exactly what `HtlcLog` specifies and leaves the cache exactly as a
 rebuild from the log would.
 */
module HtlcManager {
  import opened Options
  import opened HtlcLog
  import opened HtlcInvariant
  import opened HtlcDiscard
  import opened HtlcCommitment
  import opened HtlcCache
  import opened HtlcMeaning

  datatype Direction = SENT | RECEIVED

  lemma SomeElement(s: set<int>)
    requires s != {}
    ensures exists x :: x in s
  {
    if forall x :: x !in s {
      assert false;
    }
  }

  lemma AdditionKeepsAll(l: Log, p: Owner, h: UpdateAddHtlc)
    requires Inv(l) && AddHtlc(l, p, h).Some?
    ensures var l' := AddHtlc(l, p, h).value;
            && Inv(l')
            && MaybeActive(l', p) == MaybeActive(l, p) + {h.htlcId}
            && MaybeActive(l', p.Inverted()) == MaybeActive(l, p.Inverted())
            && BalanceDelta(l') == BalanceDelta(l)
  {
    AddKeeps(l, p, h, AddHtlc(l, p, h).value);
    ShapeOfInv(l);
    AddCache(l, p, h);
  }

  lemma RemovalWritten(l: Log, p: Owner, k: RemoveKind, id: int, c: Ctns)
    requires RemoveHtlc(l, p, k, id).Some? && c == Pending(p, l.CtnLatest(p) + 1)
    ensures var s := l.Side(p);
            RemoveHtlc(l, p, k, id).value ==
            l.With(p, if k.Settle? then s.(settles := s.settles[id := c]) else s.(fails := s.fails[id := c]))
  {
  }

  lemma RemovalKeepsAll(l: Log, p: Owner, k: RemoveKind, id: int)
    requires Inv(l) && RemoveHtlc(l, p, k, id).Some?
    ensures var l' := RemoveHtlc(l, p, k, id).value;
            && Inv(l')
            && (forall o: Owner :: MaybeActive(l', o) == MaybeActive(l, o))
            && BalanceDelta(l') == BalanceDelta(l)
  {
    RemoveKeeps(l, p, k, id, RemoveHtlc(l, p, k, id).value);
    RemovedOnce(l, p, id);
    ShapeOfInv(l);
    assert AddsOk(l.local, REMOTE) && AddsOk(l.remote, LOCAL);
    RemoveCache(l, p, k, id);
  }

  lemma FeeKeepsCache(l: Log, p: Owner, at: int, rate: int, n: int)
    requires Shape(l.local) && Shape(l.remote)
    ensures var l' := l.With(p, FeeSide(l.Side(p), p, at, rate, n));
            && (forall o: Owner :: MaybeActive(l', o) == MaybeActive(l, o))
            && BalanceDelta(l') == BalanceDelta(l)
  {
    HtlcsKeptCache(l, l.With(p, FeeSide(l.Side(p), p, at, rate, n)));
  }

  lemma FeeKeepsAll(l: Log, p: Owner, rate: int)
    requires Inv(l)
    ensures |l.Side(p).feeUpdates| - 1 in l.Side(p).feeUpdates && NewFee(l, p, rate).Some?
    ensures var l' := NewFee(l, p, rate).value;
            && Inv(l')
            && (forall o: Owner :: MaybeActive(l', o) == MaybeActive(l, o))
            && BalanceDelta(l') == BalanceDelta(l)
  {
    assert Contiguous(l.Side(p).feeUpdates);
    NewFeeKeeps(l, p, rate, NewFee(l, p, rate).value);
    ShapeOfInv(l);
    FeeKeepsCache(l, p, FeeIndex(l, l.Side(p).feeUpdates), rate, l.CtnLatest(p.Inverted()) + 1);
  }

  lemma SignKeepsAll(l: Log, o: Owner)
    requires Inv(l) && SignCtx(l, o).Some?
    ensures var l' := SignCtx(l, o).value;
            && Inv(l')
            && (forall p: Owner :: MaybeActive(l', p) == MaybeActive(l, p))
            && BalanceDelta(l') == BalanceDelta(l)
  {
    SignKeeps(l, o, SignCtx(l, o).value);
    ShapeOfInv(l);
    HtlcsKeptCache(l, SignCtx(l, o).value);
  }

  /** The fee updates complete the revocation. */
  lemma RevokedFees(l: Log, o: Owner, feeUpdates: map<int, FeeUpdate>, upTo: int, n: int)
    requires Inv(l) && l.Side(o).revackPending && upTo == l.Side(o).ctn + 1 && n == l.CtnLatest(o.Inverted()) + 1
    requires feeUpdates == PromoteFees(l.Side(o.Inverted()).feeUpdates, o, upTo, n)
    ensures var q, l1 := o.Inverted(), HtlcsRevoked(l, o, upTo, n);
            var l2 := l1.With(q, l1.Side(q).(feeUpdates := feeUpdates));
            && Revoke(l, o) == Some(l2)
            && Inv(l2)
            && (forall p: Owner :: MaybeActive(l2, p) == MaybeActive(l1, p))
            && BalanceDelta(l2) == BalanceDelta(l1)
  {
    hide Inv, BalanceDelta, PromoteFees;
    ShapeOfInv(l);
    RevokedCache(l, o, upTo, n);
    RevokeKeeps(l, o);
    var q, l1 := o.Inverted(), HtlcsRevoked(l, o, upTo, n);
    assert l1.Side(q).(feeUpdates := feeUpdates) == RevokedOtherSide(l.Side(q), o, upTo, n);
    assert l1.With(q, l1.Side(q).(feeUpdates := feeUpdates)) == RevokedLog(l, o, upTo, n);
  }

  // ----- discarding

  ghost predicate DiscardedExcept(m: map<int, Ctns>, r: map<int, Ctns>, todo: set<int>, latest: int) {
    && (forall id :: id in r <==> id in m && (id in todo || Le(m[id].local, latest)))
    && (forall id :: id in r ==> r[id] == m[id])
  }

  /** No comparison of a discard meets an unset number. */
  lemma RemoteUpdatesSet(l: Log)
    requires Inv(l)
    ensures forall id :: id in l.remote.lockedIn ==> l.remote.lockedIn[id].local.Some?
    ensures forall id :: id in l.local.settles ==> l.local.settles[id].local.Some?
    ensures forall id :: id in l.local.fails ==> l.local.fails[id].local.Some?
    ensures forall k :: k in l.remote.feeUpdates ==> l.remote.feeUpdates[k].ctns.local.Some?
  {
    RevokeReady(l, LOCAL);
  }

  lemma SignedMaps(l: Log, m: map<int, Ctns>, r: map<int, Ctns>)
    requires DiscardedExcept(m, r, {}, l.CtnLatest(LOCAL))
    ensures r == SignedOnly(l, m)
  {
    var kept := SignedOnly(l, m);
    assert forall id :: id in kept <==> id in r;
    assert forall id :: id in kept ==> kept[id] == r[id];
  }

  lemma DiscardKeepsOld(l: Log, p: Owner, id: int)
    requires Inv(l)
    ensures Old(l, p, id) <==> Old(DiscardUnsigned(l), p, id)
    ensures Old(l, p, id) ==> (id in l.Side(p).settles <==> id in DiscardUnsigned(l).Side(p).settles)
  {
    hide AddsOk, FeesOk, FeesOrdered, RemovalsOk;
    assert AllOk(l.local.settles, LOCAL, l.Unrevoked(LOCAL), l.Unrevoked(REMOTE));
    assert Disjoint(l.local);
  }

  lemma DiscardKeepsOldAdds(l: Log, p: Owner, id: int)
    requires Inv(l) && Inv(DiscardUnsigned(l)) && Old(l, p, id)
    ensures id in l.Side(p).adds && id in DiscardUnsigned(l).Side(p).adds
    ensures DiscardUnsigned(l).Side(p).adds[id] == l.Side(p).adds[id]
  {
    ShapeOfInv(l);
    ShapeOfInv(DiscardUnsigned(l));
    DiscardKeepsOld(l, p, id);
    OldIsAdded(l, p, id);
    OldIsAdded(DiscardUnsigned(l), p, id);
  }

  lemma DiscardCacheIds(l: Log)
    requires Inv(l) && Inv(DiscardUnsigned(l))
    ensures var l' := DiscardUnsigned(l);
            && MaybeActive(l', LOCAL) == MaybeActive(l, LOCAL)
            && MaybeActive(l', REMOTE) == MaybeActive(l, REMOTE) - (l.remote.lockedIn.Keys - l'.remote.lockedIn.Keys)
  {
    DiscardAdds(l);
    assert l.remote.adds.Keys == l.remote.lockedIn.Keys by {
      assert AddsOk(l.remote, LOCAL);
    }
    forall p, id
      ensures Old(l, p, id) <==> Old(DiscardUnsigned(l), p, id)
    {
      DiscardKeepsOld(l, p, id);
    }
  }

  lemma DiscardCache(l: Log)
    requires Inv(l) && Inv(DiscardUnsigned(l))
    ensures BalanceDelta(DiscardUnsigned(l)) == BalanceDelta(l)
  {
    var l' := DiscardUnsigned(l);
    ShapeOfInv(l);
    ShapeOfInv(l');
    forall p, id
      ensures Old(l, p, id) <==> Old(l', p, id)
      ensures Old(l, p, id) ==> (id in l.Side(p).settles <==> id in l'.Side(p).settles)
      ensures Old(l, p, id) ==>
              id in l.Side(p).adds && id in l'.Side(p).adds && l.Side(p).adds[id] == l'.Side(p).adds[id]
    {
      DiscardKeepsOld(l, p, id);
      if Old(l, p, id) {
        DiscardKeepsOldAdds(l, p, id);
      }
    }
    SameCache(l, l', LOCAL);
    SameCache(l, l', REMOTE);
  }

  lemma DiscardedLog(l: Log, lockedIn: map<int, Ctns>, adds: map<int, UpdateAddHtlc>, nextHtlcId: int,
                     settles: map<int, Ctns>, fails: map<int, Ctns>, feeUpdates: map<int, FeeUpdate>)
    requires DiscardedExcept(l.remote.lockedIn, lockedIn, {}, l.CtnLatest(LOCAL))
    requires adds == l.remote.adds - (l.remote.lockedIn.Keys - lockedIn.Keys)
    requires nextHtlcId == NextAfter(lockedIn.Keys)
    requires DiscardedExcept(l.local.settles, settles, {}, l.CtnLatest(LOCAL))
    requires DiscardedExcept(l.local.fails, fails, {}, l.CtnLatest(LOCAL))
    requires forall k :: k in feeUpdates <==>
             k in l.remote.feeUpdates && Le(l.remote.feeUpdates[k].ctns.local, l.CtnLatest(LOCAL))
    requires forall k :: k in feeUpdates ==> feeUpdates[k] == l.remote.feeUpdates[k]
    ensures Log(l.local.(settles := settles, fails := fails),
                l.remote.(lockedIn := lockedIn, adds := adds, nextHtlcId := nextHtlcId, feeUpdates := feeUpdates))
            == DiscardUnsigned(l)
  {
    SignedMaps(l, l.remote.lockedIn, lockedIn);
    SignedMaps(l, l.local.settles, settles);
    SignedMaps(l, l.local.fails, fails);
    var kept := DiscardUnsigned(l).remote.feeUpdates;
    assert forall k :: k in kept <==> k in feeUpdates;
    assert forall k :: k in kept ==> kept[k] == feeUpdates[k];
    assert kept == feeUpdates;
  }

  // ----- the fee log is sorted for the search

  lemma FeeLogSorted(l: Log, o: Owner)
    requires Inv(l)
    ensures var m := FeeLog(l);
            && Contiguous(m)
            && m[0].ctns == Ctns(Some(0), Some(0))
            && (forall i, j, n :: i in m && j in m && i < j && FeeInEffect(m, j, o, n) ==> FeeInEffect(m, i, o, n))
  {
    var f := if |l.remote.feeUpdates| > 1 then LOCAL else REMOTE;
    assert FeesOrdered(FeeLog(l), f) && Contiguous(FeeLog(l));
  }

  lemma {:induction false} LastFeeIs(m: map<int, FeeUpdate>, o: Owner, n: int, k: nat, i: nat)
    requires i <= k && FeeInEffect(m, i, o, n)
    requires forall j :: i < j <= k ==> !FeeInEffect(m, j, o, n)
    ensures LastFee(m, o, n, k) == i
  {
    assert FeeInEffect(m, k, o, n) <==> k == i;
    if k > i {
      LastFeeIs(m, o, n, k - 1, i);
    }
  }

  class HTLCManager {
    var log: Log
    var maybeActiveLocal: set<int>
    var maybeActiveRemote: set<int>
    var balanceDelta: int

    ghost predicate CacheExact()
      reads this
    {
      && maybeActiveLocal == MaybeActive(log, LOCAL)
      && maybeActiveRemote == MaybeActive(log, REMOTE)
      && balanceDelta == BalanceDelta(log)
    }

    ghost predicate Valid()
      reads this
    {
      Inv(log) && CacheExact()
    }

    /** The cache may still hold old HTLCs, and the running balance matches what it leaves out. */
    ghost predicate CacheSound()
      reads this
    {
      && Shape(log.local) && Shape(log.remote)
      && Sound(log, LOCAL, maybeActiveLocal)
      && Sound(log, REMOTE, maybeActiveRemote)
      && balanceDelta == DeltaOutside(log, maybeActiveLocal, maybeActiveRemote)
    }

    function MaybeActiveIds(p: Owner): set<int>
      reads this
    {
      if p.LOCAL? then maybeActiveLocal else maybeActiveRemote
    }

    /** Reload a stored log. */
    constructor (stored: Log)
      requires Inv(stored)
      ensures Valid() && log == stored
    {
      log := stored;
      maybeActiveLocal, maybeActiveRemote, balanceDelta := {}, {}, 0;
      new;
      InitMaybeActiveHtlcIds();
    }

    // ----- the cache

    method InitMaybeActiveHtlcIds()
      requires Inv(log)
      modifies `maybeActiveLocal, `maybeActiveRemote, `balanceDelta
      ensures CacheExact()
    {
      maybeActiveLocal, maybeActiveRemote := log.local.adds.Keys, log.remote.adds.Keys;
      balanceDelta := 0;
      ShapeOfInv(log);
      FullSumIsZero(log.local, log.local.nextHtlcId);
      FullSumIsZero(log.remote, log.remote.nextHtlcId);
      UpdateMaybeActiveHtlcIds();
    }

    method UpdateMaybeActiveHtlcIds()
      requires CacheSound()
      modifies `maybeActiveLocal, `maybeActiveRemote, `balanceDelta
      ensures CacheExact()
    {
      ghost var local0, remote0 := maybeActiveLocal, maybeActiveRemote;
      Prune(LOCAL, Settle);
      ghost var local1 := maybeActiveLocal;
      Prune(LOCAL, Fail);
      PrunedTwice(log, LOCAL, local0, local1, maybeActiveLocal);
      Prune(REMOTE, Settle);
      ghost var remote1 := maybeActiveRemote;
      Prune(REMOTE, Fail);
      PrunedTwice(log, REMOTE, remote0, remote1, maybeActiveRemote);
    }

    /** Drop the HTLCs of `p` whose settling (or failing) is old. */
    method Prune(p: Owner, k: RemoveKind)
      requires CacheSound()
      modifies `maybeActiveLocal, `maybeActiveRemote, `balanceDelta
      ensures CacheSound()
      ensures MaybeActiveIds(p.Inverted()) == old(MaybeActiveIds(p.Inverted()))
      ensures Pruned(log, p, k, old(MaybeActiveIds(p)), MaybeActiveIds(p))
    {
      var sanityMargin := 1;
      var todo := MaybeActiveIds(p);
      while todo != {}
        invariant todo <= MaybeActiveIds(p)
        invariant CacheSound()
        invariant MaybeActiveIds(p.Inverted()) == old(MaybeActiveIds(p.Inverted()))
        invariant forall id :: id in MaybeActiveIds(p) <==>
                    id in old(MaybeActiveIds(p)) && (id in todo || !OldRemoval(log, log.Side(p).Removals(k), id))
        decreases todo
      {
        SomeElement(todo);
        var id :| id in todo;
        todo := todo - {id};
        if id in log.Side(p).Removals(k) {
          var ctns := log.Side(p).Removals(k)[id];
          if && ctns.local.Some? && ctns.local.value <= log.CtnOldestUnrevoked(LOCAL) - sanityMargin
             && ctns.remote.Some? && ctns.remote.value <= log.CtnOldestUnrevoked(REMOTE) - sanityMargin
          {
            DropFromSum(log.Side(p), MaybeActiveIds(p), id, log.Side(p).nextHtlcId);
            if p.LOCAL? {
              maybeActiveLocal := maybeActiveLocal - {id};
            } else {
              maybeActiveRemote := maybeActiveRemote - {id};
            }
            if k.Settle? {
              balanceDelta := balanceDelta - log.Side(p).adds[id].amountMsat * p.Sign();
            }
          }
        }
      }
    }

    // ----- actions

    method SendHtlc(h: UpdateAddHtlc) returns (ok: bool)
      requires Valid()
      modifies this
      ensures Valid()
      ensures ok <==> AddHtlc(old(log), LOCAL, h).Some?
      ensures log == if ok then AddHtlc(old(log), LOCAL, h).value else old(log)
    {
      hide Inv;
      if h.htlcId != log.local.nextHtlcId {
        return false;
      }
      AdditionKeepsAll(log, LOCAL, h);
      var ctns := Ctns(None, Some(log.CtnLatest(REMOTE) + 1));
      log := log.(local := log.local.(
        adds := log.local.adds[h.htlcId := h],
        lockedIn := log.local.lockedIn[h.htlcId := ctns],
        nextHtlcId := log.local.nextHtlcId + 1));
      assert log.local == AddedSide(old(log).local, LOCAL, h, old(log).CtnLatest(REMOTE) + 1);
      assert log == AddHtlc(old(log), LOCAL, h).value;
      maybeActiveLocal := maybeActiveLocal + {h.htlcId};
      return true;
    }

    method RecvHtlc(h: UpdateAddHtlc) returns (ok: bool)
      requires Valid()
      modifies this
      ensures Valid()
      ensures ok <==> AddHtlc(old(log), REMOTE, h).Some?
      ensures log == if ok then AddHtlc(old(log), REMOTE, h).value else old(log)
    {
      if h.htlcId != log.remote.nextHtlcId {
        return false;
      }
      AdditionKeepsAll(log, REMOTE, h);
      var ctns := Ctns(Some(log.CtnLatest(LOCAL) + 1), None);
      log := log.(remote := log.remote.(
        adds := log.remote.adds[h.htlcId := h],
        lockedIn := log.remote.lockedIn[h.htlcId := ctns],
        nextHtlcId := log.remote.nextHtlcId + 1));
      assert log.remote == AddedSide(old(log).remote, REMOTE, h, old(log).CtnLatest(LOCAL) + 1);
      assert log == AddHtlc(old(log), REMOTE, h).value;
      maybeActiveRemote := maybeActiveRemote + {h.htlcId};
      return true;
    }

    /** `send_settle` and `send_fail`. */
    method SendRemove(k: RemoveKind, id: nat) returns (ok: bool)
      requires Valid()
      modifies `log
      ensures Valid()
      ensures ok <==> RemoveHtlc(old(log), REMOTE, k, id).Some?
      ensures log == if ok then RemoveHtlc(old(log), REMOTE, k, id).value else old(log)
    {
      hide Inv;
      var nextCtn := log.CtnLatest(REMOTE) + 1;
      var active := IsHtlcActiveAtCtn(REMOTE, nextCtn, REMOTE, id);
      if !active {
        return false;
      }
      ghost var removed := RemoveHtlc(log, REMOTE, k, id).value;
      RemovalKeepsAll(log, REMOTE, k, id);
      RemovalWritten(log, REMOTE, k, id, Ctns(None, Some(nextCtn)));
      if k.Settle? {
        log := log.(remote := log.remote.(settles := log.remote.settles[id := Ctns(None, Some(nextCtn))]));
      } else {
        log := log.(remote := log.remote.(fails := log.remote.fails[id := Ctns(None, Some(nextCtn))]));
      }
      assert log == removed;
      return true;
    }

    /** `recv_settle` and `recv_fail`. */
    method RecvRemove(k: RemoveKind, id: nat) returns (ok: bool)
      requires Valid()
      modifies `log
      ensures Valid()
      ensures ok <==> RemoveHtlc(old(log), LOCAL, k, id).Some?
      ensures log == if ok then RemoveHtlc(old(log), LOCAL, k, id).value else old(log)
    {
      var nextCtn := log.CtnLatest(LOCAL) + 1;
      var active := IsHtlcActiveAtCtn(LOCAL, nextCtn, LOCAL, id);
      if !active {
        return false;
      }
      ghost var removed := RemoveHtlc(log, LOCAL, k, id).value;
      RemovalKeepsAll(log, LOCAL, k, id);
      RemovalWritten(log, LOCAL, k, id, Ctns(Some(nextCtn), None));
      if k.Settle? {
        log := log.(local := log.local.(settles := log.local.settles[id := Ctns(Some(nextCtn), None)]));
      } else {
        log := log.(local := log.local.(fails := log.local.fails[id := Ctns(Some(nextCtn), None)]));
      }
      assert log == removed;
      return true;
    }

    method SendUpdateFee(rate: int)
      requires Valid()
      modifies `log
      ensures Valid()
      ensures NewFee(old(log), LOCAL, rate) == Some(log)
    {
      NewFeeupdate(FeeUpdate(rate, Ctns(None, Some(log.CtnLatest(REMOTE) + 1))), LOCAL);
    }

    method RecvUpdateFee(rate: int)
      requires Valid()
      modifies `log
      ensures Valid()
      ensures NewFee(old(log), REMOTE, rate) == Some(log)
    {
      NewFeeupdate(FeeUpdate(rate, Ctns(Some(log.CtnLatest(LOCAL) + 1), None)), REMOTE);
    }

    /** Overwrite the last fee update if nobody committed to it yet; otherwise append. */
    method NewFeeupdate(u: FeeUpdate, subject: Owner)
      requires Valid() && u.ctns == Pending(subject.Inverted(), log.CtnLatest(subject.Inverted()) + 1)
      modifies `log
      ensures Valid()
      ensures NewFee(old(log), subject, u.rate) == Some(log)
      // replaced, or appended if some party committed to the last update
      ensures var d := old(log.Side(subject).feeUpdates);
              |log.Side(subject).feeUpdates| ==
              if Le(d[|d| - 1].ctns.local, old(log).CtnLatest(LOCAL)) ||
                 Le(d[|d| - 1].ctns.remote, old(log).CtnLatest(REMOTE))
              then |d| + 1 else |d|
    {
      FeeKeepsAll(log, subject, u.rate);
      var d := log.Side(subject).feeUpdates;
      var n := |d|;
      var last := d[n - 1].ctns;
      var at := if (last.local.None? || last.local.value > log.CtnLatest(LOCAL))
                  && (last.remote.None? || last.remote.value > log.CtnLatest(REMOTE))
                then n - 1 else n;
      assert at == FeeIndex(log, d);
      ghost var s := log.Side(subject);
      log := log.With(subject, log.Side(subject).(feeUpdates := d[at := u]));
      assert s.(feeUpdates := d[at := u]) ==
             FeeSide(s, subject, at, u.rate, old(log).CtnLatest(subject.Inverted()) + 1);
      assert log == NewFee(old(log), subject, u.rate).value;
    }

    method SendCtx() returns (ok: bool)
      requires Valid()
      modifies `log
      ensures Valid()
      ensures ok <==> SignCtx(old(log), REMOTE).Some?
      ensures log == if ok then SignCtx(old(log), REMOTE).value else old(log)
    {
      if log.CtnLatest(REMOTE) != log.CtnOldestUnrevoked(REMOTE) {
        return false;
      }
      SignKeepsAll(log, REMOTE);
      log := log.(remote := log.remote.(revackPending := true));
      return true;
    }

    method RecvCtx() returns (ok: bool)
      requires Valid()
      modifies `log
      ensures Valid()
      ensures ok <==> SignCtx(old(log), LOCAL).Some?
      ensures log == if ok then SignCtx(old(log), LOCAL).value else old(log)
    {
      if log.CtnLatest(LOCAL) != log.CtnOldestUnrevoked(LOCAL) {
        return false;
      }
      SignKeepsAll(log, LOCAL);
      log := log.(local := log.local.(revackPending := true));
      return true;
    }

    method SendRev()
      requires Valid() && log.local.revackPending
      modifies this
      ensures Valid()
      ensures Revoke(old(log), LOCAL) == Some(log)
    {
      var upTo, next := log.local.ctn + 1, log.CtnLatest(REMOTE) + 1;
      ghost var l0 := log;
      RevokeReady(l0, LOCAL);
      // HTLCs
      var lockedIn := PromoteEach(log.remote.lockedIn, maybeActiveRemote, LOCAL, upTo, next);
      var settles := PromoteEach(log.local.settles, maybeActiveLocal, LOCAL, upTo, next);
      var fails := PromoteEach(log.local.fails, maybeActiveLocal, LOCAL, upTo, next);
      log := Log(log.local.(ctn := upTo, revackPending := false, settles := settles, fails := fails),
                 log.remote.(lockedIn := lockedIn));
      RevokedActive(l0, LOCAL, lockedIn, settles, fails, upTo, next);
      assert log == WithRevokedHtlcs(l0, LOCAL, upTo, lockedIn, settles, fails);
      UpdateMaybeActiveHtlcIds();
      // fee updates
      var feeUpdates := PromoteEachFee(log.remote.feeUpdates, LOCAL, upTo, next);
      log := log.(remote := log.remote.(feeUpdates := feeUpdates));
      RevokedFees(l0, LOCAL, feeUpdates, upTo, next);
    }

    method RecvRev()
      requires Valid() && log.remote.revackPending
      modifies this
      ensures Valid()
      ensures Revoke(old(log), REMOTE) == Some(log)
    {
      var upTo, next := log.remote.ctn + 1, log.CtnLatest(LOCAL) + 1;
      ghost var l0 := log;
      RevokeReady(l0, REMOTE);
      // HTLCs
      var lockedIn := PromoteEach(log.local.lockedIn, maybeActiveLocal, REMOTE, upTo, next);
      var settles := PromoteEach(log.remote.settles, maybeActiveRemote, REMOTE, upTo, next);
      var fails := PromoteEach(log.remote.fails, maybeActiveRemote, REMOTE, upTo, next);
      log := Log(log.local.(lockedIn := lockedIn),
                 log.remote.(ctn := upTo, revackPending := false, settles := settles, fails := fails));
      RevokedActive(l0, REMOTE, lockedIn, settles, fails, upTo, next);
      assert log == WithRevokedHtlcs(l0, REMOTE, upTo, lockedIn, settles, fails);
      UpdateMaybeActiveHtlcIds();
      // fee updates
      var feeUpdates := PromoteEachFee(log.local.feeUpdates, REMOTE, upTo, next);
      log := log.(local := log.local.(feeUpdates := feeUpdates));
      RevokedFees(l0, REMOTE, feeUpdates, upTo, next);
    }

    /** Of the updates in `m` look only at those in `ids`. */
    static method PromoteEach(m: map<int, Ctns>, ids: set<int>, o: Owner, upTo: int, next: int)
      returns (r: map<int, Ctns>)
      requires forall id :: id in m ==> m[id].At(o).Some?
      ensures r.Keys == m.Keys
      ensures forall id :: id in m ==> r[id] == if id in ids then Promote(m[id], o, upTo, next) else m[id]
    {
      r := m;
      var todo := ids;
      while todo != {}
        invariant todo <= ids && r.Keys == m.Keys
        invariant forall id :: id in m ==>
                  r[id] == if id in ids && id !in todo then Promote(m[id], o, upTo, next) else m[id]
        decreases todo
      {
        SomeElement(todo);
        var id :| id in todo;
        todo := todo - {id};
        if id in r {
          var ctns := r[id];
          if ctns.At(o.Inverted()).None? && ctns.At(o).value <= upTo {
            r := r[id := ctns.With(o.Inverted(), next)];
          }
        }
      }
    }

    static method PromoteEachFee(m: map<int, FeeUpdate>, o: Owner, upTo: int, next: int)
      returns (r: map<int, FeeUpdate>)
      requires forall k :: k in m ==> m[k].ctns.At(o).Some?
      ensures r == PromoteFees(m, o, upTo, next)
    {
      r := m;
      var todo := m.Keys;
      while todo != {}
        invariant todo <= m.Keys && r.Keys == m.Keys
        invariant forall k :: k in m ==>
                    r[k] == if k in todo then m[k] else m[k].(ctns := Promote(m[k].ctns, o, upTo, next))
        decreases todo
      {
        SomeElement(todo);
        var k :| k in todo;
        todo := todo - {k};
        var u := r[k];
        if u.ctns.At(o.Inverted()).None? && u.ctns.At(o).value <= upTo {
          r := r[k := u.(ctns := u.ctns.With(o.Inverted(), next))];
        }
      }
      ghost var all := PromoteFees(m, o, upTo, next);
      assert r.Keys == all.Keys;
      assert forall k :: k in m ==> r[k] == all[k];
    }

    method DiscardUnsignedRemoteUpdates()
      requires Valid()
      modifies this
      ensures Valid()
      ensures log == DiscardUnsigned(old(log))
    {
      var latest := log.CtnLatest(LOCAL);
      ghost var l0 := log;
      RemoteUpdatesSet(l0);
      var lockedIn, adds := DropUnsignedHtlcs(latest);
      var nextHtlcId := MaxPlusOne(lockedIn.Keys);
      // HTLCs removed
      var settles := KeepSigned(log.local.settles, latest);
      var fails := KeepSigned(log.local.fails, latest);
      // fee updates
      var feeUpdates := KeepSignedFees(log.remote.feeUpdates, latest);
      log := Log(log.local.(settles := settles, fails := fails),
                 log.remote.(lockedIn := lockedIn, adds := adds, nextHtlcId := nextHtlcId, feeUpdates := feeUpdates));
      DiscardedLog(l0, lockedIn, adds, nextHtlcId, settles, fails, feeUpdates);
      DiscardKeeps(l0);
      DiscardCacheIds(l0);
      DiscardCache(l0);
    }

    /** The received HTLCs the remote signed; the others leave the cache as well. */
    method DropUnsignedHtlcs(latest: int) returns (lockedIn: map<int, Ctns>, adds: map<int, UpdateAddHtlc>)
      requires forall id :: id in log.remote.lockedIn ==> log.remote.lockedIn[id].local.Some?
      modifies `maybeActiveRemote
      ensures DiscardedExcept(log.remote.lockedIn, lockedIn, {}, latest)
      ensures adds == log.remote.adds - (log.remote.lockedIn.Keys - lockedIn.Keys)
      ensures maybeActiveRemote == old(maybeActiveRemote) - (log.remote.lockedIn.Keys - lockedIn.Keys)
    {
      lockedIn, adds := log.remote.lockedIn, log.remote.adds;
      var todo := lockedIn.Keys;
      while todo != {}
        invariant todo <= log.remote.lockedIn.Keys
        invariant DiscardedExcept(log.remote.lockedIn, lockedIn, todo, latest)
        invariant adds == log.remote.adds - (log.remote.lockedIn.Keys - lockedIn.Keys)
        invariant maybeActiveRemote == old(maybeActiveRemote) - (log.remote.lockedIn.Keys - lockedIn.Keys)
        decreases todo
      {
        SomeElement(todo);
        var id :| id in todo;
        todo := todo - {id};
        if log.remote.lockedIn[id].local.value > latest {
          lockedIn := lockedIn - {id};
          adds := adds - {id};
          maybeActiveRemote := maybeActiveRemote - {id};
        }
      }
    }

    static method MaxPlusOne(keys: set<int>) returns (n: int)
      ensures n == NextAfter(keys)
    {
      if keys == {} {
        return 0;
      }
      SomeElement(keys);
      var max :| max in keys;
      var todo := keys - {max};
      while todo != {}
        invariant todo <= keys && max in keys
        invariant forall y :: y in keys && y !in todo ==> y <= max
        decreases todo
      {
        SomeElement(todo);
        var y :| y in todo;
        todo := todo - {y};
        max := if y > max then y else max;
      }
      return max + 1;
    }

    static method KeepSigned(m: map<int, Ctns>, latest: int) returns (r: map<int, Ctns>)
      requires forall id :: id in m ==> m[id].local.Some?
      ensures DiscardedExcept(m, r, {}, latest)
    {
      r := m;
      var todo := m.Keys;
      while todo != {}
        invariant todo <= m.Keys && DiscardedExcept(m, r, todo, latest)
        decreases todo
      {
        SomeElement(todo);
        var id :| id in todo;
        todo := todo - {id};
        if m[id].local.value > latest {
          r := r - {id};
        }
      }
    }

    static method KeepSignedFees(m: map<int, FeeUpdate>, latest: int) returns (r: map<int, FeeUpdate>)
      requires forall k :: k in m ==> m[k].ctns.local.Some?
      ensures forall k :: k in r <==> k in m && Le(m[k].ctns.local, latest)
      ensures forall k :: k in r ==> r[k] == m[k]
    {
      r := m;
      var todo := m.Keys;
      while todo != {}
        invariant todo <= m.Keys
        invariant forall k :: k in r <==> k in m && (k in todo || Le(m[k].ctns.local, latest))
        invariant forall k :: k in r ==> r[k] == m[k]
        decreases todo
      {
        SomeElement(todo);
        var k :| k in todo;
        todo := todo - {k};
        if m[k].ctns.local.value > latest {
          r := r - {k};
        }
      }
    }

    // ----- queries about HTLCs

    method IsHtlcActiveAtCtn(o: Owner, ctn: int, p: Owner, id: nat) returns (r: bool)
      requires Inv(log)
      ensures r == IsActive(log, o, ctn, p, id)
    {
      var s := log.Side(p);
      assert AddsOk(s, p.Inverted());
      if id >= s.nextHtlcId {
        return false;
      }
      var ctns := s.lockedIn[id];
      if ctns.At(o).Some? && ctns.At(o).value <= ctn {
        var notSettled := id !in s.settles || s.settles[id].At(o).None? || s.settles[id].At(o).value > ctn;
        var notFailed := id !in s.fails || s.fails[id].At(o).None? || s.fails[id].At(o).value > ctn;
        if notSettled && notFailed {
          return true;
        }
      }
      return false;
    }

    method IsIrrevocablyAdded(o: Owner, p: Owner, id: nat) returns (r: bool)
      requires Inv(log)
      ensures r == IrrevocablyAdded(log, o, p, id)
    {
      var s := log.Side(p);
      assert AddsOk(s, p.Inverted());
      if id >= s.nextHtlcId {
        return false;
      }
      var ctns := s.lockedIn[id];
      if ctns.At(o).None? {
        return false;
      }
      return ctns.At(o).value <= log.CtnOldestUnrevoked(o);
    }

    /** The manager takes the first number of the two that is neither unset nor zero; that is the one set, if any is. */
    method IsIrrevocablyRemoved(o: Owner, p: Owner, id: nat) returns (r: bool)
      requires Inv(log)
      ensures r == IrrevocablyRemoved(log, o, p, id)
    {
      var s := log.Side(p);
      assert RemovalsOk(s.settles, s.lockedIn) && RemovalsOk(s.fails, s.lockedIn) && Disjoint(s);
      if id >= s.nextHtlcId {
        return false;
      }
      var ctnOfSettle := if id in s.settles then s.settles[id].At(o) else None;
      var ctnOfFail := if id in s.fails then s.fails[id].At(o) else None;
      assert id in s.settles ==> LifetimeOk(s.lockedIn[id], s.settles[id]);
      assert id in s.fails ==> LifetimeOk(s.lockedIn[id], s.fails[id]);
      var ctnOfRm := if ctnOfSettle.Some? && ctnOfSettle.value != 0 then ctnOfSettle
                     else if ctnOfFail.Some? && ctnOfFail.value != 0 then ctnOfFail
                     else None;
      if ctnOfRm.None? {
        return false;
      }
      return ctnOfRm.value <= log.CtnOldestUnrevoked(o);
    }

    /** Whether adding the HTLC is irrevocable for a party, or for both. */
    method IsHtlcIrrevocablyAddedYet(ctxOwner: Option<Owner>, p: Owner, id: nat) returns (r: bool)
      requires Inv(log)
      ensures r == match ctxOwner
                   case Some(o) => IrrevocablyAdded(log, o, p, id)
                   case None => IrrevocablyAdded(log, LOCAL, p, id) && IrrevocablyAdded(log, REMOTE, p, id)
      ensures r <==> forall o: Owner :: ctxOwner.None? || ctxOwner.value == o ==> InAllFromNow(log, o, p, id)
    {
      AddedMeans(log, LOCAL, p, id);
      AddedMeans(log, REMOTE, p, id);
      var inLocal := IsIrrevocablyAdded(LOCAL, p, id);
      var inRemote := IsIrrevocablyAdded(REMOTE, p, id);
      match ctxOwner
      case None => return inLocal && inRemote;
      case Some(LOCAL) => return inLocal;
      case Some(REMOTE) => return inRemote;
    }

    /** Whether removing the HTLC is irrevocable for a party, or for both. */
    method IsHtlcIrrevocablyRemovedYet(ctxOwner: Option<Owner>, p: Owner, id: nat) returns (r: bool)
      requires Inv(log)
      ensures r == match ctxOwner
                   case Some(o) => IrrevocablyRemoved(log, o, p, id)
                   case None => IrrevocablyRemoved(log, LOCAL, p, id) && IrrevocablyRemoved(log, REMOTE, p, id)
      ensures r <==> forall o: Owner :: ctxOwner.None? || ctxOwner.value == o ==>
                       LockedInBefore(log, o, p, id) && InNoneAnyMore(log, o, p, id)
    {
      RemovedMeans(log, LOCAL, p, id);
      RemovedMeans(log, REMOTE, p, id);
      var inLocal := IsIrrevocablyRemoved(LOCAL, p, id);
      var inRemote := IsIrrevocablyRemoved(REMOTE, p, id);
      match ctxOwner
      case None => return inLocal && inRemote;
      case Some(LOCAL) => return inLocal;
      case Some(REMOTE) => return inRemote;
    }

    /** The HTLCs of one direction in `subject`'s transaction `ctn`; recent transactions are answered from the cache. */
    method HtlcsByDirection(subject: Owner, direction: Direction, ctn: int) returns (d: map<int, UpdateAddHtlc>)
      requires Valid()
      ensures var p := if direction.SENT? then subject else subject.Inverted();
              && (forall id :: id in d <==> IsActive(log, subject, ctn, p, id))
              && (forall id :: id in d ==> id in log.Side(p).adds && d[id] == log.Side(p).adds[id])
    {
      hide Le;
      var p := if direction.SENT? then subject else subject.Inverted();
      ShapeOfInv(log);
      assert AddsOk(log.Side(p), p.Inverted());
      var considered := if ctn >= log.CtnOldestUnrevoked(subject) then MaybeActiveIds(p) else log.Side(p).lockedIn.Keys;
      forall id | IsActive(log, subject, ctn, p, id)
        ensures id in considered
      {
        if ctn >= log.CtnOldestUnrevoked(subject) {
          OldIsInactive(log, p, subject, ctn, id);
        }
      }
      d := map[];
      var todo := considered;
      while todo != {}
        invariant todo <= considered
        invariant forall id :: id in d <==> id in considered && id !in todo && IsActive(log, subject, ctn, p, id)
        invariant forall id :: id in d ==> id in log.Side(p).adds && d[id] == log.Side(p).adds[id]
        decreases todo
      {
        SomeElement(todo);
        var id :| id in todo;
        todo := todo - {id};
        var active := IsHtlcActiveAtCtn(subject, ctn, p, id);
        if active {
          d := d[id := log.Side(p).adds[id]];
        }
      }
    }

    /** The balance of `whose` in `o`'s transaction `ctn`; recent transactions are answered from the cache. */
    method GetBalanceMsat(whose: Owner, o: Owner, ctn: int, initial: int) returns (balance: int)
      requires Valid()
      ensures balance == Balance(log, whose, o, ctn, initial)
    {
      var other := whose.Inverted();
      ShapeOfInv(log);
      balance := initial;
      var sentIds, recvIds;
      if ctn >= log.CtnOldestUnrevoked(o) {
        balance := balance + balanceDelta * whose.Sign();
        sentIds, recvIds := MaybeActiveIds(whose), MaybeActiveIds(other);
        FastBalance(log, whose, o, ctn, initial);
      } else {
        sentIds, recvIds := log.Side(whose).settles.Keys, log.Side(other).settles.Keys;
        AllActiveSum(log.Side(whose), o, ctn, log.Side(whose).nextHtlcId);
        AllActiveSum(log.Side(other), o, ctn, log.Side(other).nextHtlcId);
      }
      var sent := SettledAmount(log.Side(whose), sentIds, o, ctn);
      var recv := SettledAmount(log.Side(other), recvIds, o, ctn);
      balance := balance - sent + recv;
    }

    /** The amounts of the HTLCs among `ids` that are settled in `o`'s transaction `ctn`. */
    static method SettledAmount(s: SideLog, ids: set<int>, o: Owner, ctn: int) returns (sum: int)
      requires Shape(s)
      ensures sum == ActiveSettledSum(s, ids, o, ctn, s.nextHtlcId)
    {
      sum := 0;
      ghost var done := {};
      NoActiveSum(s, o, ctn, s.nextHtlcId);
      var todo := ids;
      while todo != {}
        invariant todo <= ids && done == ids - todo
        invariant sum == ActiveSettledSum(s, done, o, ctn, s.nextHtlcId)
        decreases todo
      {
        SomeElement(todo);
        var id :| id in todo;
        todo := todo - {id};
        ghost var before := done;
        done := done + {id};
        if 0 <= id < s.nextHtlcId {
          GrowActiveSum(s, before, id, o, ctn, s.nextHtlcId);
        } else {
          SameActiveSum(s, done, before, o, ctn, s.nextHtlcId);
        }
        if id in s.settles {
          var ctns := s.settles[id];
          if ctns.At(o).Some? && ctns.At(o).value <= ctn {
            sum := sum + s.adds[id].amountMsat;
          }
        }
      }
      assert done == ids;
    }

    // ----- fees

    /** The fee rate in `subject`'s transaction `n`, by binary search in the fee log. */
    method GetFeerate(subject: Owner, n: int) returns (rate: int)
      requires Inv(log)
      requires |log.local.feeUpdates| == 1 || |log.remote.feeUpdates| == 1
      ensures Feerate(log, subject, n) == Some(rate)
      ensures n < 0 ==> Feerate(log, subject, 0) == Some(rate)
    {
      hide SideOk;
      var ctn := if n < 0 then 0 else n;
      var feeLog := log.local.feeUpdates;
      if |log.remote.feeUpdates| > 1 {
        feeLog := log.remote.feeUpdates;
      }
      FeeLogSorted(log, subject);
      var left, right := 0, |feeLog|;
      var i := (left + right) / 2;
      while right - left > 1
        invariant 0 <= left < right <= |feeLog| && i == (left + right) / 2
        invariant FeeInEffect(feeLog, left, subject, ctn)
        invariant forall j :: right <= j < |feeLog| ==> !FeeInEffect(feeLog, j, subject, ctn)
      {
        var ctnAtI := feeLog[i].ctns.At(subject);
        if ctnAtI.None? {
          right := i;
        } else if ctnAtI.value <= ctn {
          left := i;
        } else {
          right := i;
        }
        i := (left + right) / 2;
      }
      LastFeeIs(feeLog, subject, ctn, |feeLog| - 1, i);
      return feeLog[i].rate;
    }
  }
}
