/** What the cache of possibly active HTLCs and the running balance have to be, given the log. */
module HtlcCache {
  import opened Options
  import opened HtlcLog
  import opened HtlcInvariant

  /** The removal of the HTLC was revoked from both parties' transactions at least one number ago. */
  predicate OldRemoval(l: Log, m: map<int, Ctns>, id: int) {
    InEffect(m, id, LOCAL, l.CtnOldestUnrevoked(LOCAL) - 1) && InEffect(m, id, REMOTE, l.CtnOldestUnrevoked(REMOTE) - 1)
  }

  predicate Old(l: Log, p: Owner, id: int) {
    OldRemoval(l, l.Side(p).settles, id) || OldRemoval(l, l.Side(p).fails, id)
  }

  /** Amounts settled by the HTLCs below id `k` that are not in `active`. */
  function InactiveSum(s: SideLog, active: set<int>, k: nat): int {
    if k == 0 then 0
    else
      InactiveSum(s, active, k - 1) +
      if k - 1 !in active && k - 1 in s.settles && k - 1 in s.adds then s.adds[k - 1].amountMsat else 0
  }

  function InactiveTotal(s: SideLog, active: set<int>): int {
    InactiveSum(s, active, if s.nextHtlcId < 0 then 0 else s.nextHtlcId)
  }

  /** The change of the local balance by the HTLCs outside the two sets. */
  function DeltaOutside(l: Log, activeLocal: set<int>, activeRemote: set<int>): int {
    -InactiveTotal(l.local, activeLocal) + InactiveTotal(l.remote, activeRemote)
  }

  /** The two values a rebuild from the log arrives at. */
  function MaybeActive(l: Log, p: Owner): set<int> {
    set id | id in l.Side(p).adds && !Old(l, p, id)
  }

  function BalanceDelta(l: Log): int {
    DeltaOutside(l, MaybeActive(l, LOCAL), MaybeActive(l, REMOTE))
  }

  /** `active` leaves out only old HTLCs, but maybe not all of them. */
  predicate Sound(l: Log, p: Owner, active: set<int>) {
    active <= l.Side(p).adds.Keys && forall id :: id in l.Side(p).adds && id !in active ==> Old(l, p, id)
  }

  /** `after` is `before` without the HTLCs whose settling (or failing) is old. */
  ghost predicate Pruned(l: Log, p: Owner, k: RemoveKind, before: set<int>, after: set<int>) {
    forall id :: id in after <==> id in before && !OldRemoval(l, l.Side(p).Removals(k), id)
  }

  lemma PrunedTwice(l: Log, p: Owner, active0: set<int>, active1: set<int>, active2: set<int>)
    requires Sound(l, p, active2) && Pruned(l, p, Settle, active0, active1) && Pruned(l, p, Fail, active1, active2)
    ensures active2 == MaybeActive(l, p)
  {
  }

  lemma {:induction false} DropFromSum(s: SideLog, active: set<int>, id: int, k: nat)
    requires id in active && id in s.adds && 0 <= id
    ensures InactiveSum(s, active - {id}, k) ==
            InactiveSum(s, active, k) + if id < k && id in s.settles then s.adds[id].amountMsat else 0
  {
    if k > 0 {
      DropFromSum(s, active, id, k - 1);
    }
  }

  lemma {:induction false} FullSumIsZero(s: SideLog, k: nat)
    ensures InactiveSum(s, s.adds.Keys, k) == 0
  {
    if k > 0 {
      FullSumIsZero(s, k - 1);
    }
  }

  /** Sides that settle the same inactive HTLCs have the same sum. */
  lemma {:induction false} SameInactiveSum(s: SideLog, s': SideLog, active: set<int>, active': set<int>, k: nat)
    requires forall i :: 0 <= i < k ==>
               ((i !in active && i in s.settles && i in s.adds) <==> (i !in active' && i in s'.settles && i in s'.adds))
    requires forall i :: 0 <= i < k && i !in active && i in s.adds && i in s'.adds ==> s.adds[i] == s'.adds[i]
    ensures InactiveSum(s, active, k) == InactiveSum(s', active', k)
  {
    if k > 0 {
      SameInactiveSum(s, s', active, active', k - 1);
    }
  }

  // ----- the fast path answers as the whole log does

  lemma OldInEffect(l: Log, p: Owner, o: Owner, n: int, id: int)
    requires Old(l, p, id) && n >= l.CtnOldestUnrevoked(o)
    ensures InEffect(l.Side(p).settles, id, o, n) || InEffect(l.Side(p).fails, id, o, n)
  {
  }

  lemma OldIsInactive(l: Log, p: Owner, o: Owner, n: int, id: int)
    requires n >= l.CtnOldestUnrevoked(o) && IsActive(l, o, n, p, id)
    requires l.Side(p).adds.Keys == l.Side(p).lockedIn.Keys
    ensures id in MaybeActive(l, p)
  {
    if Old(l, p, id) {
      OldInEffect(l, p, o, n, id);
    }
  }

  /** Amounts settled in `o`'s transaction `n` by the HTLCs below `k` in `active`. */
  function ActiveSettledSum(s: SideLog, active: set<int>, o: Owner, n: int, k: nat): int {
    if k == 0 then 0
    else
      ActiveSettledSum(s, active, o, n, k - 1) +
      if k - 1 in active && InEffect(s.settles, k - 1, o, n) && k - 1 in s.adds then s.adds[k - 1].amountMsat else 0
  }

  lemma {:induction false} SplitSum(l: Log, p: Owner, o: Owner, n: int, k: nat)
    requires Disjoint(l.Side(p)) && n >= l.CtnOldestUnrevoked(o)
    requires forall i :: 0 <= i < k ==> i in l.Side(p).adds
    ensures SettledSum(l.Side(p), o, n, k) ==
            InactiveSum(l.Side(p), MaybeActive(l, p), k) + ActiveSettledSum(l.Side(p), MaybeActive(l, p), o, n, k)
  {
    if k > 0 {
      SplitSum(l, p, o, n, k - 1);
      if Old(l, p, k - 1) {
        OldInEffect(l, p, o, n, k - 1);
      }
    }
  }

  /** The balance from the running delta and the possibly active HTLCs equals the one from the whole log. */
  lemma FastBalance(l: Log, whose: Owner, o: Owner, n: int, initial: int)
    requires Inv(l) && n >= l.CtnOldestUnrevoked(o)
    ensures var q := whose.Inverted();
            Balance(l, whose, o, n, initial) ==
            initial + BalanceDelta(l) * whose.Sign()
            - ActiveSettledSum(l.Side(whose), MaybeActive(l, whose), o, n, l.Side(whose).nextHtlcId)
            + ActiveSettledSum(l.Side(q), MaybeActive(l, q), o, n, l.Side(q).nextHtlcId)
  {
    assert AddsOk(l.local, REMOTE) && AddsOk(l.remote, LOCAL);
    SplitSum(l, LOCAL, o, n, l.local.nextHtlcId);
    SplitSum(l, REMOTE, o, n, l.remote.nextHtlcId);
  }

  // ----- what the in-place algorithms need

  /** The part of the invariant the cache depends on; it also holds between the steps of a revocation. */
  ghost predicate Shape(s: SideLog) {
    && s.nextHtlcId >= 0
    && (forall i :: i in s.adds <==> 0 <= i < s.nextHtlcId)
    && s.settles.Keys <= s.adds.Keys
    && s.fails.Keys <= s.adds.Keys
    && Disjoint(s)
  }

  lemma ShapeOfInv(l: Log)
    requires Inv(l)
    ensures Shape(l.local) && Shape(l.remote)
  {
    assert AddsOk(l.local, REMOTE) && AddsOk(l.remote, LOCAL);
  }

  lemma {:induction false} GrowActiveSum(s: SideLog, done: set<int>, id: int, o: Owner, n: int, k: nat)
    requires id !in done && 0 <= id < k
    ensures ActiveSettledSum(s, done + {id}, o, n, k) ==
            ActiveSettledSum(s, done, o, n, k) +
            if InEffect(s.settles, id, o, n) && id in s.adds then s.adds[id].amountMsat else 0
  {
    if k - 1 == id {
      SameActiveSum(s, done + {id}, done, o, n, k - 1);
    } else {
      GrowActiveSum(s, done, id, o, n, k - 1);
    }
  }

  lemma {:induction false} SameActiveSum(s: SideLog, a: set<int>, b: set<int>, o: Owner, n: int, k: nat)
    requires forall i :: 0 <= i < k ==> (i in a <==> i in b)
    ensures ActiveSettledSum(s, a, o, n, k) == ActiveSettledSum(s, b, o, n, k)
  {
    if k > 0 {
      SameActiveSum(s, a, b, o, n, k - 1);
    }
  }

  lemma {:induction false} NoActiveSum(s: SideLog, o: Owner, n: int, k: nat)
    ensures ActiveSettledSum(s, {}, o, n, k) == 0
  {
    if k > 0 {
      NoActiveSum(s, o, n, k - 1);
    }
  }

  lemma {:induction false} AllActiveSum(s: SideLog, o: Owner, n: int, k: nat)
    ensures ActiveSettledSum(s, s.settles.Keys, o, n, k) == SettledSum(s, o, n, k)
  {
    if k > 0 {
      AllActiveSum(s, o, n, k - 1);
    }
  }

  // ----- the cache across the actions

  /** Two logs with the same old HTLCs, settles of old HTLCs and amounts have the same cache, up to new ids. */
  lemma SameCache(l: Log, l': Log, p: Owner)
    requires Shape(l.Side(p)) && Shape(l'.Side(p))
    requires forall id :: Old(l, p, id) <==> Old(l', p, id)
    requires forall id :: Old(l, p, id) ==> (id in l.Side(p).settles <==> id in l'.Side(p).settles)
    requires forall id :: Old(l, p, id) ==>
             id in l.Side(p).adds && id in l'.Side(p).adds && l.Side(p).adds[id] == l'.Side(p).adds[id]
    ensures InactiveTotal(l.Side(p), MaybeActive(l, p)) == InactiveTotal(l'.Side(p), MaybeActive(l', p))
  {
    var s, s' := l.Side(p), l'.Side(p);
    var k := if s.nextHtlcId > s'.nextHtlcId then s.nextHtlcId else s'.nextHtlcId;
    InactiveBeyond(s, MaybeActive(l, p), k);
    InactiveBeyond(s', MaybeActive(l', p), k);
    SameInactiveSum(s, s', MaybeActive(l, p), MaybeActive(l', p), k);
  }

  lemma {:induction false} InactiveBeyond(s: SideLog, active: set<int>, k: nat)
    requires Shape(s) && k >= s.nextHtlcId
    ensures InactiveSum(s, active, k) == InactiveTotal(s, active)
  {
    if k > s.nextHtlcId {
      InactiveBeyond(s, active, k - 1);
    }
  }

  lemma OldIsAdded(l: Log, p: Owner, id: int)
    requires Shape(l.Side(p)) && Old(l, p, id)
    ensures id in l.Side(p).adds
  {
  }

  lemma AddOld(l: Log, p: Owner, h: UpdateAddHtlc, o: Owner, i: int)
    requires AddHtlc(l, p, h).Some?
    ensures Old(AddHtlc(l, p, h).value, o, i) <==> Old(l, o, i)
  {
  }

  lemma AddCache(l: Log, p: Owner, h: UpdateAddHtlc)
    requires AddHtlc(l, p, h).Some? && Shape(l.local) && Shape(l.remote)
    ensures MaybeActive(AddHtlc(l, p, h).value, p) == MaybeActive(l, p) + {h.htlcId}
    ensures MaybeActive(AddHtlc(l, p, h).value, p.Inverted()) == MaybeActive(l, p.Inverted())
    ensures BalanceDelta(AddHtlc(l, p, h).value) == BalanceDelta(l)
  {
    var l' := AddHtlc(l, p, h).value;
    forall o, i
      ensures Old(l', o, i) <==> Old(l, o, i)
    {
      AddOld(l, p, h, o, i);
    }
    SameCache(l, l', LOCAL);
    SameCache(l, l', REMOTE);
  }

  lemma RemoveOld(l: Log, p: Owner, k: RemoveKind, id: int, o: Owner, i: int)
    requires RemoveHtlc(l, p, k, id).Some? && id !in l.Side(p).settles && id !in l.Side(p).fails
    ensures Old(RemoveHtlc(l, p, k, id).value, o, i) <==> Old(l, o, i)
    ensures Old(l, o, i) ==> (i in l.Side(o).settles <==> i in RemoveHtlc(l, p, k, id).value.Side(o).settles)
  {
  }

  lemma RemoveShape(l: Log, p: Owner, k: RemoveKind, id: int, o: Owner)
    requires RemoveHtlc(l, p, k, id).Some? && id !in l.Side(p).settles && id !in l.Side(p).fails
    requires Shape(l.Side(o)) && id in l.Side(p).adds
    ensures var s := RemoveHtlc(l, p, k, id).value.Side(o); Shape(s) && s.adds == l.Side(o).adds
  {
  }

  lemma RemoveCache(l: Log, p: Owner, k: RemoveKind, id: int)
    requires RemoveHtlc(l, p, k, id).Some? && id !in l.Side(p).settles && id !in l.Side(p).fails
    requires Shape(l.local) && Shape(l.remote) && id in l.Side(p).adds
    ensures forall o: Owner :: MaybeActive(RemoveHtlc(l, p, k, id).value, o) == MaybeActive(l, o)
    ensures BalanceDelta(RemoveHtlc(l, p, k, id).value) == BalanceDelta(l)
  {
    hide RemoveHtlc, Shape;
    var l' := RemoveHtlc(l, p, k, id).value;
    RemoveCacheAt(l, l', p, k, id, LOCAL);
    RemoveCacheAt(l, l', p, k, id, REMOTE);
  }

  lemma RemoveCacheAt(l: Log, l': Log, p: Owner, k: RemoveKind, id: int, o: Owner)
    requires RemoveHtlc(l, p, k, id) == Some(l') && id !in l.Side(p).settles && id !in l.Side(p).fails
    requires Shape(l.Side(o)) && id in l.Side(p).adds
    ensures MaybeActive(l', o) == MaybeActive(l, o)
    ensures InactiveTotal(l'.Side(o), MaybeActive(l', o)) == InactiveTotal(l.Side(o), MaybeActive(l, o))
  {
    hide RemoveHtlc, Shape, InactiveTotal;
    forall i
      ensures Old(l', o, i) <==> Old(l, o, i)
      ensures Old(l, o, i) ==> (i in l.Side(o).settles <==> i in l'.Side(o).settles)
      ensures Old(l, o, i) ==> i in l.Side(o).adds
    {
      RemoveOld(l, p, k, id, o, i);
      if Old(l, o, i) {
        OldIsAdded(l, o, i);
      }
    }
    RemoveShape(l, p, k, id, o);
    SameCache(l, l', o);
  }

  /** Fee updates and signatures do not touch the HTLCs. */
  lemma HtlcsKeptCache(l: Log, l': Log)
    requires Shape(l.local) && Shape(l.remote) && Shape(l'.local) && Shape(l'.remote)
    requires forall o: Owner :: l'.Side(o).adds == l.Side(o).adds && l'.Side(o).settles == l.Side(o).settles
                             && l'.Side(o).fails == l.Side(o).fails && l'.Side(o).ctn == l.Side(o).ctn
    ensures forall o: Owner :: MaybeActive(l', o) == MaybeActive(l, o)
    ensures BalanceDelta(l') == BalanceDelta(l)
  {
    assert forall o: Owner, id :: Old(l, o, id) <==> Old(l', o, id);
    SameCache(l, l', LOCAL);
    SameCache(l, l', REMOTE);
  }

  // ----- the cache across a revocation

  function LockedInRevoked(s: SideLog, o: Owner, upTo: int, n: int): SideLog {
    s.(lockedIn := PromoteAll(s.lockedIn, o, upTo, n))
  }

  /** The log between the two parts of a revocation: the HTLCs are done, the fee updates are not. */
  function HtlcsRevoked(l: Log, o: Owner, upTo: int, n: int): Log {
    var q := o.Inverted();
    l.With(o, RevokedOwnSide(l.Side(o), o, upTo, n)).With(q, LockedInRevoked(l.Side(q), o, upTo, n))
  }

  /** No comparison of a revocation meets an unset number. */
  lemma RevokeReady(l: Log, o: Owner)
    requires Inv(l)
    ensures forall id :: id in l.Side(o.Inverted()).lockedIn ==> l.Side(o.Inverted()).lockedIn[id].At(o).Some?
    ensures forall id :: id in l.Side(o).settles ==> l.Side(o).settles[id].At(o).Some?
    ensures forall id :: id in l.Side(o).fails ==> l.Side(o).fails[id].At(o).Some?
    ensures forall k :: k in l.Side(o.Inverted()).feeUpdates ==> l.Side(o.Inverted()).feeUpdates[k].ctns.At(o).Some?
  {
    var q := o.Inverted();
    assert AllOk(l.Side(q).lockedIn, o, l.Unrevoked(o), l.Unrevoked(q));
    assert AllOk(l.Side(o).settles, o, l.Unrevoked(o), l.Unrevoked(q));
    assert AllOk(l.Side(o).fails, o, l.Unrevoked(o), l.Unrevoked(q));
    assert FeesOk(l.Side(q).feeUpdates, o, l.Unrevoked(o), l.Unrevoked(q));
  }

  /** An old HTLC has nothing left to promote. */
  lemma OldIsSettled(l: Log, p: Owner, id: int, o: Owner)
    requires Disjoint(l.Side(p)) && RemovalsOk(l.Side(p).settles, l.Side(p).lockedIn) &&
             RemovalsOk(l.Side(p).fails, l.Side(p).lockedIn)
    requires Old(l, p, id)
    ensures id in l.Side(p).lockedIn && l.Side(p).lockedIn[id].At(o).Some?
    ensures id in l.Side(p).settles ==> l.Side(p).settles[id].At(o).Some?
    ensures id in l.Side(p).fails ==> l.Side(p).fails[id].At(o).Some?
  {
    var s := l.Side(p);
    if OldRemoval(l, s.settles, id) {
      assert LifetimeOk(s.lockedIn[id], s.settles[id]);
      assert InEffect(s.settles, id, o, l.CtnOldestUnrevoked(o) - 1);
    } else {
      assert LifetimeOk(s.lockedIn[id], s.fails[id]);
      assert InEffect(s.fails, id, o, l.CtnOldestUnrevoked(o) - 1);
    }
  }

  ghost predicate PromotedActive(m: map<int, Ctns>, r: map<int, Ctns>, active: set<int>, o: Owner, upTo: int, n: int) {
    r.Keys == m.Keys && forall id :: id in m ==> r[id] == if id in active then Promote(m[id], o, upTo, n) else m[id]
  }

  lemma PromotedActiveIsAll(m: map<int, Ctns>, r: map<int, Ctns>, active: set<int>, o: Owner, upTo: int, n: int)
    requires PromotedActive(m, r, active, o, upTo, n)
    requires forall id :: id in m && id !in active ==> m[id].At(o.Inverted()).Some?
    ensures r == PromoteAll(m, o, upTo, n)
  {
    var all := PromoteAll(m, o, upTo, n);
    assert all.Keys == m.Keys;
    assert forall id :: id in m ==> r[id] == all[id];
  }

  /** Looking only at the possibly active HTLCs promotes all there is to promote. */
  lemma RevokePromotesAll(l: Log, o: Owner, lockedIn: map<int, Ctns>, settles: map<int, Ctns>, fails: map<int, Ctns>,
                          upTo: int, n: int)
    requires Inv(l)
    requires PromotedActive(l.Side(o.Inverted()).lockedIn, lockedIn, MaybeActive(l, o.Inverted()), o, upTo, n)
    requires PromotedActive(l.Side(o).settles, settles, MaybeActive(l, o), o, upTo, n)
    requires PromotedActive(l.Side(o).fails, fails, MaybeActive(l, o), o, upTo, n)
    ensures lockedIn == PromoteAll(l.Side(o.Inverted()).lockedIn, o, upTo, n)
    ensures settles == PromoteAll(l.Side(o).settles, o, upTo, n)
    ensures fails == PromoteAll(l.Side(o).fails, o, upTo, n)
  {
    var q := o.Inverted();
    var sq, so := l.Side(q), l.Side(o);
    Disassemble(l, o, so, l.Unrevoked(o), sq, l.Unrevoked(q));
    forall id | id in sq.lockedIn && id !in MaybeActive(l, q)
      ensures sq.lockedIn[id].At(q).Some?
    {
      OldIsSettled(l, q, id, q);
    }
    forall id | id in so.adds && id !in MaybeActive(l, o)
      ensures id in so.settles ==> so.settles[id].At(q).Some?
      ensures id in so.fails ==> so.fails[id].At(q).Some?
    {
      OldIsSettled(l, o, id, q);
    }
    PromotedActiveIsAll(sq.lockedIn, lockedIn, MaybeActive(l, q), o, upTo, n);
    PromotedActiveIsAll(so.settles, settles, MaybeActive(l, o), o, upTo, n);
    PromotedActiveIsAll(so.fails, fails, MaybeActive(l, o), o, upTo, n);
  }

  lemma HtlcsRevokedSides(l: Log, o: Owner, upTo: int, n: int, p: Owner)
    ensures var s, s' := l.Side(p), HtlcsRevoked(l, o, upTo, n).Side(p);
            && s'.adds == s.adds && s'.nextHtlcId == s.nextHtlcId
            && s'.settles.Keys == s.settles.Keys && s'.fails.Keys == s.fails.Keys
  {
  }

  /** Old stays old: set numbers are kept and the windows only move forward. */
  lemma RevokeKeepsOld(l: Log, o: Owner, n: int, p: Owner, id: int)
    requires Old(l, p, id)
    ensures Old(HtlcsRevoked(l, o, l.Side(o).ctn + 1, n), p, id)
  {
  }

  lemma RevokeSound(l: Log, o: Owner)
    requires Shape(l.local) && Shape(l.remote)
    ensures var l' := HtlcsRevoked(l, o, l.Side(o).ctn + 1, l.CtnLatest(o.Inverted()) + 1);
            && Shape(l'.local) && Shape(l'.remote)
            && Sound(l', LOCAL, MaybeActive(l, LOCAL)) && Sound(l', REMOTE, MaybeActive(l, REMOTE))
            && DeltaOutside(l', MaybeActive(l, LOCAL), MaybeActive(l, REMOTE)) == BalanceDelta(l)
  {
    var upTo, n := l.Side(o).ctn + 1, l.CtnLatest(o.Inverted()) + 1;
    var l' := HtlcsRevoked(l, o, upTo, n);
    HtlcsRevokedSides(l, o, upTo, n, LOCAL);
    HtlcsRevokedSides(l, o, upTo, n, REMOTE);
    forall p, id | Old(l, p, id)
      ensures Old(l', p, id)
    {
      RevokeKeepsOld(l, o, n, p, id);
    }
    SameInactiveSum(l.local, l'.local, MaybeActive(l, LOCAL), MaybeActive(l, LOCAL), l.local.nextHtlcId);
    SameInactiveSum(l.remote, l'.remote, MaybeActive(l, REMOTE), MaybeActive(l, REMOTE), l.remote.nextHtlcId);
  }

  /** The fee updates do not matter to the cache. */
  lemma RevokedCache(l: Log, o: Owner, upTo: int, n: int)
    requires Shape(l.local) && Shape(l.remote)
    ensures var l1, l2 := HtlcsRevoked(l, o, upTo, n), RevokedLog(l, o, upTo, n);
            && (forall p: Owner :: MaybeActive(l2, p) == MaybeActive(l1, p))
            && BalanceDelta(l2) == BalanceDelta(l1)
  {
    hide MaybeActive, BalanceDelta, Shape, HtlcsRevoked, RevokedLog;
    RevokedShape(l, o, upTo, n, LOCAL);
    RevokedShape(l, o, upTo, n, REMOTE);
    HtlcsKeptCache(HtlcsRevoked(l, o, upTo, n), RevokedLog(l, o, upTo, n));
  }

  /** The fee updates, which come last, are no part of what the cache is about. */
  lemma RevokedShape(l: Log, o: Owner, upTo: int, n: int, p: Owner)
    requires Shape(l.Side(p))
    ensures var s, s' := HtlcsRevoked(l, o, upTo, n).Side(p), RevokedLog(l, o, upTo, n).Side(p);
            && Shape(s) && Shape(s')
            && s'.adds == s.adds && s'.settles == s.settles && s'.fails == s.fails && s'.ctn == s.ctn
  {
    HtlcsRevokedSides(l, o, upTo, n, p);
  }

  /** The log as a revocation of `o`'s has just rewritten its HTLCs, field by field. */
  function WithRevokedHtlcs(l: Log, o: Owner, upTo: int, lockedIn: map<int, Ctns>, settles: map<int, Ctns>,
                            fails: map<int, Ctns>): Log
  {
    var q := o.Inverted();
    l.With(o, l.Side(o).(ctn := upTo, revackPending := false, settles := settles, fails := fails))
     .With(q, l.Side(q).(lockedIn := lockedIn))
  }

  /** Rewriting only the possibly active HTLCs revokes them all, and the cache misses nothing that is not old. */
  lemma RevokedActive(l: Log, o: Owner, lockedIn: map<int, Ctns>, settles: map<int, Ctns>, fails: map<int, Ctns>,
                      upTo: int, n: int)
    requires Inv(l) && upTo == l.Side(o).ctn + 1 && n == l.CtnLatest(o.Inverted()) + 1
    requires PromotedActive(l.Side(o.Inverted()).lockedIn, lockedIn, MaybeActive(l, o.Inverted()), o, upTo, n)
    requires PromotedActive(l.Side(o).settles, settles, MaybeActive(l, o), o, upTo, n)
    requires PromotedActive(l.Side(o).fails, fails, MaybeActive(l, o), o, upTo, n)
    ensures var l' := WithRevokedHtlcs(l, o, upTo, lockedIn, settles, fails);
            && l' == HtlcsRevoked(l, o, upTo, n)
            && Shape(l'.local) && Shape(l'.remote)
            && Sound(l', LOCAL, MaybeActive(l, LOCAL)) && Sound(l', REMOTE, MaybeActive(l, REMOTE))
            && DeltaOutside(l', MaybeActive(l, LOCAL), MaybeActive(l, REMOTE)) == BalanceDelta(l)
  {
    ShapeOfInv(l);
    RevokePromotesAll(l, o, lockedIn, settles, fails, upTo, n);
    RevokeSound(l, o);
  }
}
