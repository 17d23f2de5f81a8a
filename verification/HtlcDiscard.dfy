/** Discarding, on reconnection, the remote's updates that the remote never signed. */
module HtlcDiscard {
  import opened Options
  import opened HtlcLog
  import opened HtlcInvariant

  /** How many of the ids below `k` survive: everything up to the last signed one. */
  function SignedCount(l: Log, m: map<int, Ctns>, k: nat): (n: nat)
    ensures n <= k
  {
    if k == 0 then 0
    else if k - 1 in m && Signed(l, m[k - 1]) then k
    else SignedCount(l, m, k - 1)
  }

  /** Keys 0 to n-1, entering the local transactions in key order. */
  ghost predicate InOrder(m: map<int, Ctns>, n: nat) {
    && (forall i :: i in m <==> 0 <= i < n)
    && (forall i, j :: i in m && j in m && i < j ==> m[j].local.Some? && Le(m[i].local, m[j].local.value))
  }

  /** The survivors are exactly the ids below `SignedCount`: what is discarded is a suffix. */
  lemma {:induction false} SignedPrefix(l: Log, m: map<int, Ctns>, n: nat, k: nat)
    requires InOrder(m, n) && k <= n
    ensures forall i :: 0 <= i < k ==> i in m && (Signed(l, m[i]) <==> i < SignedCount(l, m, k))
  {
    if k > 0 {
      SignedPrefix(l, m, n, k - 1);
    }
  }

  lemma NextAfterPrefix(keys: set<int>, n: nat)
    requires forall i :: i in keys <==> 0 <= i < n
    ensures NextAfter(keys) == n
  {
    if n > 0 {
      assert n - 1 in keys;
    }
  }

  lemma {:induction false} PrefixSize(keys: set<int>, n: nat)
    requires forall i :: i in keys <==> 0 <= i < n
    ensures |keys| == n
  {
    if n == 0 {
      assert forall i :: i !in keys;
    } else {
      assert n - 1 in keys;
      PrefixSize(keys - {n - 1}, n - 1);
    }
  }

  /** Adds, lock-ins and ids after a discard: the first `SignedCount` ids, and they are all that is left. */
  lemma DiscardAdds(l: Log)
    requires Inv(l)
    ensures var n := SignedCount(l, l.remote.lockedIn, l.remote.nextHtlcId);
            var r := DiscardUnsigned(l).remote;
            && r.nextHtlcId == n
            && (forall i :: i in r.lockedIn <==> 0 <= i < n)
            && (forall i :: i in r.adds <==> 0 <= i < n)
            && (forall i :: i in r.lockedIn ==> r.lockedIn[i] == l.remote.lockedIn[i] && r.adds[i] == l.remote.adds[i])
  {
    assert AddsOk(l.remote, LOCAL);
    var n := SignedCount(l, l.remote.lockedIn, l.remote.nextHtlcId);
    SignedPrefix(l, l.remote.lockedIn, l.remote.nextHtlcId, l.remote.nextHtlcId);
    NextAfterPrefix(SignedOnly(l, l.remote.lockedIn).Keys, n);
  }

  /** The fee log after a discard: a non-empty prefix of the old one. */
  lemma DiscardFees(l: Log)
    requires Inv(l)
    ensures var m := DiscardUnsigned(l).remote.feeUpdates;
            && 1 <= |m| <= |l.remote.feeUpdates|
            && (forall k :: k in m <==> 0 <= k < |m|)
            && (forall k :: k in m ==> k in l.remote.feeUpdates && m[k] == l.remote.feeUpdates[k])
  {
    var m, c := l.remote.feeUpdates, CtnsOf(l.remote.feeUpdates);
    assert FeesOk(m, LOCAL, l.Unrevoked(LOCAL), l.Unrevoked(REMOTE)) && FeesOrdered(m, LOCAL);
    SignedPrefix(l, c, |m|, |m|);
    assert Signed(l, c[0]);
    var m' := DiscardUnsigned(l).remote.feeUpdates;
    assert forall k :: k in m' <==> 0 <= k < SignedCount(l, c, |m|);
    PrefixSize(m'.Keys, SignedCount(l, c, |m|));
  }

  function CtnsOf(m: map<int, FeeUpdate>): map<int, Ctns> {
    map k | k in m :: m[k].ctns
  }

  /** Nothing we settled or failed is discarded with it: we only remove what the remote can no longer take back. */
  lemma DiscardKeepsRemovable(l: Log, m: map<int, Ctns>)
    requires Inv(l)
    requires RemovalsOk(m, l.remote.lockedIn) && AllOk(m, REMOTE, l.Unrevoked(REMOTE), l.Unrevoked(LOCAL))
    ensures RemovalsOk(m, DiscardUnsigned(l).remote.lockedIn)
  {
    forall i | i in m
      ensures Signed(l, l.remote.lockedIn[i])
    {
      assert UpdateOk(l.remote.lockedIn[i], LOCAL, l.Unrevoked(LOCAL), l.Unrevoked(REMOTE));
      assert UpdateOk(m[i], REMOTE, l.Unrevoked(REMOTE), l.Unrevoked(LOCAL));
      assert LifetimeOk(l.remote.lockedIn[i], m[i]);
      assert Le(l.remote.lockedIn[i].At(REMOTE), m[i].At(REMOTE).value);
    }
  }

  lemma DiscardRemoteSide(l: Log)
    requires Inv(l)
    ensures SideOk(DiscardUnsigned(l).remote, REMOTE, l.Unrevoked(REMOTE), l.Unrevoked(LOCAL))
    ensures 0 in DiscardUnsigned(l).remote.feeUpdates &&
            DiscardUnsigned(l).remote.feeUpdates[0] == l.remote.feeUpdates[0]
  {
    DiscardAdds(l);
    DiscardFees(l);
    DiscardKeepsRemovable(l, l.remote.settles);
    DiscardKeepsRemovable(l, l.remote.fails);
    var r := DiscardUnsigned(l).remote;
    assert AddsOk(r, LOCAL);
    assert FeesOk(r.feeUpdates, LOCAL, l.Unrevoked(LOCAL), l.Unrevoked(REMOTE));
    assert FeesOrdered(r.feeUpdates, LOCAL);
  }

  lemma DiscardLocalSide(l: Log)
    requires Inv(l)
    ensures SideOk(DiscardUnsigned(l).local, LOCAL, l.Unrevoked(LOCAL), l.Unrevoked(REMOTE))
  {
    hide FeesOk, FeesOrdered;
  }

  lemma DiscardKeeps(l: Log)
    requires Inv(l)
    ensures Inv(DiscardUnsigned(l))
  {
    hide SideOk;
    DiscardRemoteSide(l);
    DiscardLocalSide(l);
    var l' := DiscardUnsigned(l);
    assert l'.Unrevoked(LOCAL) == l.Unrevoked(LOCAL) && l'.Unrevoked(REMOTE) == l.Unrevoked(REMOTE);
    assert l'.local.feeUpdates == l.local.feeUpdates;
  }
}
