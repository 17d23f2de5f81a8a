/**
 What every action keeps, and what follows for every run of one node: the handshake order of
 updates, the lifetime of HTLCs, and the order of the fee log.
 */
module HtlcInvariant {
  import opened Options
  import opened HtlcLog

  /** An update that first enters `f`'s transactions, and the other party's once irrevocable in `f`'s. */
  predicate UpdateOk(c: Ctns, f: Owner, wf: Window, wg: Window) {
    && c.At(f).Some?
    && 0 <= c.At(f).value <= wf.latest + 1
    && (c.At(f.Inverted()).Some? <==> c.At(f).value <= wf.oldest)
    && (c.At(f.Inverted()).Some? ==> 0 <= c.At(f.Inverted()).value <= wg.latest + 1)
  }

  ghost predicate AllOk(m: map<int, Ctns>, f: Owner, wf: Window, wg: Window) {
    forall i :: i in m ==> UpdateOk(m[i], f, wf, wg)
  }

  /** Ids are handed out in order, without gaps, and enter `f`'s transactions in that order. */
  ghost predicate AddsOk(s: SideLog, f: Owner) {
    && s.nextHtlcId >= 0
    && (forall i :: i in s.lockedIn <==> 0 <= i < s.nextHtlcId)
    && s.adds.Keys == s.lockedIn.Keys
    && (forall i :: i in s.adds ==> s.adds[i].htlcId == i)
    && (forall i, j :: i in s.lockedIn && j in s.lockedIn && i < j ==>
          s.lockedIn[j].At(f).Some? && Le(s.lockedIn[i].At(f), s.lockedIn[j].At(f).value))
  }

  /** Wherever the removal takes effect the lock-in has taken effect before, and never in the opening transaction. */
  predicate LifetimeOk(added: Ctns, removed: Ctns) {
    forall o: Owner :: removed.At(o).Some? ==> removed.At(o).value >= 1 && Le(added.At(o), removed.At(o).value)
  }

  ghost predicate RemovalsOk(m: map<int, Ctns>, lockedIn: map<int, Ctns>) {
    forall i :: i in m ==> i in lockedIn && LifetimeOk(lockedIn[i], m[i])
  }

  predicate Disjoint(s: SideLog) {
    s.settles.Keys !! s.fails.Keys
  }

  ghost predicate Contiguous(m: map<int, FeeUpdate>) {
    |m| >= 1 && forall k :: k in m <==> 0 <= k < |m|
  }

  ghost predicate FeesOk(m: map<int, FeeUpdate>, f: Owner, wf: Window, wg: Window) {
    && Contiguous(m)
    && m[0].ctns == Ctns(Some(0), Some(0))
    && (forall i :: i in m ==> UpdateOk(m[i].ctns, f, wf, wg))
  }

  /** The fee log is ordered in both parties' numbers, with the unset ones at the right end. */
  ghost predicate FeesOrdered(m: map<int, FeeUpdate>, f: Owner) {
    forall i, j :: i in m && j in m && i < j ==>
      && m[j].ctns.At(f).Some? && Le(m[i].ctns.At(f), m[j].ctns.At(f).value - 1)
      && (m[j].ctns.At(f.Inverted()).Some? ==>
            Le(m[i].ctns.At(f.Inverted()), m[j].ctns.At(f.Inverted()).value))
  }

  /** Everything about what party `p` offered; `q` is the other party. */
  ghost predicate SideOk(s: SideLog, p: Owner, wp: Window, wq: Window) {
    var q := p.Inverted();
    && AddsOk(s, q)
    && AllOk(s.lockedIn, q, wq, wp)
    && AllOk(s.settles, p, wp, wq)
    && AllOk(s.fails, p, wp, wq)
    && RemovalsOk(s.settles, s.lockedIn)
    && RemovalsOk(s.fails, s.lockedIn)
    && Disjoint(s)
    && FeesOk(s.feeUpdates, q, wq, wp)
    && FeesOrdered(s.feeUpdates, q)
  }

  ghost predicate Inv(l: Log) {
    && l.local.ctn >= 0
    && l.remote.ctn >= 0
    && 0 in l.local.feeUpdates && 0 in l.remote.feeUpdates
    && l.local.feeUpdates[0].rate == l.remote.feeUpdates[0].rate
    && SideOk(l.local, LOCAL, l.Unrevoked(LOCAL), l.Unrevoked(REMOTE))
    && SideOk(l.remote, REMOTE, l.Unrevoked(REMOTE), l.Unrevoked(LOCAL))
  }

  lemma OpenedSide(rate: int, p: Owner)
    ensures SideOk(Opened(rate).Side(p), p, Window(0, 0), Window(0, 0))
  {
    var s := Opened(rate).Side(p);
    assert s.feeUpdates.Keys == {0};
    assert Contiguous(s.feeUpdates);
  }

  lemma OpenedInv(rate: int)
    ensures Inv(Opened(rate))
  {
    OpenedSide(rate, LOCAL);
    OpenedSide(rate, REMOTE);
  }

  // ----- a new HTLC

  lemma AddedSideOk(s: SideLog, p: Owner, wp: Window, wq: Window, h: UpdateAddHtlc)
    requires SideOk(s, p, wp, wq) && h.htlcId == s.nextHtlcId
    requires 0 <= wq.oldest <= wq.latest
    ensures SideOk(AddedSide(s, p, h, wq.latest + 1), p, wp, wq)
  {
  }

  // ----- settling and failing

  lemma RemovedSideOk(s: SideLog, p: Owner, wp: Window, wq: Window, k: RemoveKind, id: int)
    requires SideOk(s, p, wp, wq)
    requires 0 <= wp.oldest <= wp.latest
    requires id in s.lockedIn && Le(s.lockedIn[id].At(p), wp.latest + 1) && id !in s.settles && id !in s.fails
    ensures SideOk(RemovedSide(s, p, k, id, wp.latest + 1), p, wp, wq)
  {
  }

  // ----- a new fee rate

  lemma FeeSideOk(s: SideLog, p: Owner, wp: Window, wq: Window, rate: int, at: int)
    requires SideOk(s, p, wp, wq)
    requires 0 <= wq.oldest <= wq.latest
    requires FeePlace(s.feeUpdates, p.Inverted(), wq.latest, at)
    ensures SideOk(FeeSide(s, p, at, rate, wq.latest + 1), p, wp, wq) && at != 0
  {
    var q := p.Inverted();
    var m := s.feeUpdates;
    var m' := m[at := FeeUpdate(rate, Pending(q, wq.latest + 1))];
    assert at != 0;
    assert Contiguous(m');
    assert FeesOk(m', q, wq, wp);
    FeesStayOrdered(m, q, wq, wp, at, FeeUpdate(rate, Pending(q, wq.latest + 1)));
  }

  lemma FeesStayOrdered(m: map<int, FeeUpdate>, f: Owner, wf: Window, wg: Window, at: int, u: FeeUpdate)
    requires FeesOk(m, f, wf, wg) && FeesOrdered(m, f)
    requires u.ctns == Pending(f, wf.latest + 1)
    requires FeePlace(m, f, wf.latest, at)
    ensures FeesOrdered(m[at := u], f)
  {
    var m' := m[at := u];
    forall i, j | i in m' && j in m' && i < j
      ensures m'[j].ctns.At(f).Some? && Le(m'[i].ctns.At(f), m'[j].ctns.At(f).value - 1)
      ensures m'[j].ctns.At(f.Inverted()).Some? ==>
                Le(m'[i].ctns.At(f.Inverted()), m'[j].ctns.At(f.Inverted()).value)
    {
      assert i in m;
      if j == at && at < |m| {
        assert m[at].ctns.At(f).value == wf.latest + 1;
      } else if j == at {
        assert i == at - 1 || Le(m[i].ctns.At(f), m[at - 1].ctns.At(f).value - 1);
      }
    }
  }

  // ----- a new signature only widens a window

  predicate Widened(w: Window, w': Window) {
    w'.oldest == w.oldest && w'.latest >= w.latest
  }

  lemma WidenSide(s: SideLog, p: Owner, wp: Window, wq: Window, wp': Window, wq': Window)
    requires SideOk(s, p, wp, wq) && Widened(wp, wp') && Widened(wq, wq')
    ensures SideOk(s, p, wp', wq')
  {
  }

  // ----- a revocation

  predicate Advanced(w: Window, w': Window) {
    w.latest == w.oldest + 1 && w' == Window(w.latest, w.latest)
  }

  lemma PromoteOk(c: Ctns, o: Owner, wo: Window, wq: Window, wo': Window)
    requires UpdateOk(c, o, wo, wq) && Advanced(wo, wo') && wq.latest >= 0
    ensures UpdateOk(Promote(c, o, wo.latest, wq.latest + 1), o, wo', wq)
  {
  }

  lemma PromoteKeepsRemovals(m: map<int, Ctns>, lockedIn: map<int, Ctns>, o: Owner, wo: Window, wq: Window)
    requires RemovalsOk(m, lockedIn) && AllOk(lockedIn, o.Inverted(), wq, wo)
    requires wq.latest >= 0
    ensures RemovalsOk(PromoteAll(m, o, wo.latest, wq.latest + 1), lockedIn)
  {
  }

  lemma PromoteKeepsLifetimes(m: map<int, Ctns>, lockedIn: map<int, Ctns>, o: Owner, upTo: int, n: int)
    requires RemovalsOk(m, lockedIn)
    requires forall i :: i in m ==> m[i].At(o.Inverted()).Some?
    ensures RemovalsOk(m, PromoteAll(lockedIn, o, upTo, n))
  {
    var locked' := PromoteAll(lockedIn, o, upTo, n);
    forall i | i in m
      ensures LifetimeOk(locked'[i], m[i])
    {
      assert LifetimeOk(lockedIn[i], m[i]);
      assert Le(lockedIn[i].At(o.Inverted()), m[i].At(o.Inverted()).value);
    }
  }

  lemma PromoteAllOk(m: map<int, Ctns>, o: Owner, wo: Window, wq: Window, wo': Window)
    requires AllOk(m, o, wo, wq) && Advanced(wo, wo') && wo.oldest >= 0 && wq.latest >= 0
    ensures AllOk(PromoteAll(m, o, wo.latest, wq.latest + 1), o, wo', wq)
  {
    forall i | i in m
      ensures UpdateOk(Promote(m[i], o, wo.latest, wq.latest + 1), o, wo', wq)
    {
      assert UpdateOk(m[i], o, wo, wq);
      PromoteOk(m[i], o, wo, wq, wo');
    }
  }

  /** The revoking party's own side: settles and fails of what it offered are now final in its transactions. */
  lemma RevokedOwnSideOk(s: SideLog, o: Owner, wo: Window, wq: Window, wo': Window, upTo: int, n: int)
    requires upTo == wo.latest && n == wq.latest + 1
    requires SideOk(s, o, wo, wq) && Advanced(wo, wo') && wo.oldest >= 0 && wq.latest >= 0
    ensures SideOk(RevokedOwnSide(s, o, upTo, n), o, wo', wq)
  {
    hide AllOk, RemovalsOk, AddsOk, FeesOk, FeesOrdered;
    PromoteKeepsRemovals(s.settles, s.lockedIn, o, wo, wq);
    PromoteKeepsRemovals(s.fails, s.lockedIn, o, wo, wq);
    PromoteAllOk(s.settles, o, wo, wq, wo');
    PromoteAllOk(s.fails, o, wo, wq, wo');
    LaterOk(s.lockedIn, o.Inverted(), wq, wo, wo');
    LaterFeesOk(s.feeUpdates, o.Inverted(), wq, wo, wo');
    SameAdds(s, RevokedOwnSide(s, o, upTo, n), o.Inverted());
  }

  /** When a window moves forward, what was set stays within it. */
  lemma LaterOk(m: map<int, Ctns>, f: Owner, wf: Window, wg: Window, wg': Window)
    requires AllOk(m, f, wf, wg) && Advanced(wg, wg')
    ensures AllOk(m, f, wf, wg')
  {
    forall i | i in m
      ensures UpdateOk(m[i], f, wf, wg')
    {
      assert UpdateOk(m[i], f, wf, wg);
    }
  }

  lemma LaterFeesOk(m: map<int, FeeUpdate>, f: Owner, wf: Window, wg: Window, wg': Window)
    requires FeesOk(m, f, wf, wg) && Advanced(wg, wg')
    ensures FeesOk(m, f, wf, wg')
  {
    forall i | i in m
      ensures UpdateOk(m[i].ctns, f, wf, wg')
    {
      assert UpdateOk(m[i].ctns, f, wf, wg);
    }
  }

  lemma SameAdds(s: SideLog, s': SideLog, f: Owner)
    requires AddsOk(s, f) && s'.adds == s.adds && s'.lockedIn == s.lockedIn && s'.nextHtlcId == s.nextHtlcId
    ensures AddsOk(s', f)
  {
  }

  lemma PromoteFeesOk(m: map<int, FeeUpdate>, o: Owner, wo: Window, wq: Window, wo': Window)
    requires FeesOk(m, o, wo, wq) && Advanced(wo, wo') && wo.oldest >= 0 && wq.latest >= 0
    ensures FeesOk(PromoteFees(m, o, wo.latest, wq.latest + 1), o, wo', wq)
  {
    var m' := PromoteFees(m, o, wo.latest, wq.latest + 1);
    assert m'.Keys == m.Keys;
    assert |m'| == |m'.Keys| == |m|;
    forall i | i in m'
      ensures UpdateOk(m'[i].ctns, o, wo', wq)
    {
      PromoteOk(m[i].ctns, o, wo, wq, wo');
    }
  }

  lemma PromoteFeesOrdered(m: map<int, FeeUpdate>, o: Owner, wo: Window, wq: Window, wo': Window)
    requires FeesOk(m, o, wo, wq) && FeesOrdered(m, o) && Advanced(wo, wo') && wo.oldest >= 0 && wq.latest >= 0
    ensures FeesOrdered(PromoteFees(m, o, wo.latest, wq.latest + 1), o)
  {
    var m' := PromoteFees(m, o, wo.latest, wq.latest + 1);
    forall i, j | i in m' && j in m' && i < j
      ensures m'[j].ctns.At(o).Some? && Le(m'[i].ctns.At(o), m'[j].ctns.At(o).value - 1)
      ensures m'[j].ctns.At(o.Inverted()).Some? ==>
                Le(m'[i].ctns.At(o.Inverted()), m'[j].ctns.At(o.Inverted()).value)
    {
      assert UpdateOk(m[i].ctns, o, wo, wq) && UpdateOk(m[j].ctns, o, wo, wq);
    }
  }

  lemma PromoteKeepsRemoved(m: map<int, Ctns>, lockedIn: map<int, Ctns>, o: Owner, wo: Window, wq: Window)
    requires RemovalsOk(m, lockedIn) && AllOk(m, o.Inverted(), wq, wo)
    ensures RemovalsOk(m, PromoteAll(lockedIn, o, wo.latest, wq.latest + 1))
  {
    hide RemovalsOk;
    PromoteKeepsLifetimes(m, lockedIn, o, wo.latest, wq.latest + 1);
  }

  /** The other party's side: what it offered is now final in the revoking party's transactions. */
  lemma RevokedOtherSideOk(s: SideLog, o: Owner, wo: Window, wq: Window, wo': Window, upTo: int, n: int)
    requires upTo == wo.latest && n == wq.latest + 1
    requires SideOk(s, o.Inverted(), wq, wo) && Advanced(wo, wo') && wo.oldest >= 0 && wq.latest >= 0
    ensures SideOk(RevokedOtherSide(s, o, upTo, n), o.Inverted(), wq, wo')
  {
    hide AllOk, RemovalsOk, AddsOk, FeesOk, FeesOrdered;
    PromoteAddsOk(s, o, wo, wq);
    PromoteAllOk(s.lockedIn, o, wo, wq, wo');
    LaterOk(s.settles, o.Inverted(), wq, wo, wo');
    LaterOk(s.fails, o.Inverted(), wq, wo, wo');
    PromoteKeepsRemoved(s.settles, s.lockedIn, o, wo, wq);
    PromoteKeepsRemoved(s.fails, s.lockedIn, o, wo, wq);
    PromoteFeesOk(s.feeUpdates, o, wo, wq, wo');
    PromoteFeesOrdered(s.feeUpdates, o, wo, wq, wo');
  }

  lemma PromoteAddsOk(s: SideLog, o: Owner, wo: Window, wq: Window)
    requires AddsOk(s, o)
    ensures AddsOk(RevokedOtherSide(s, o, wo.latest, wq.latest + 1), o)
  {
  }

  // ----- every action

  /** `Inv` from its two sides, whichever party they are named from. */
  lemma Assemble(l: Log, p: Owner, sp: SideLog, wp: Window, sq: SideLog, wq: Window)
    requires l.Side(p) == sp && l.Side(p.Inverted()) == sq
    requires l.Unrevoked(p) == wp && l.Unrevoked(p.Inverted()) == wq
    requires wp.oldest >= 0 && wq.oldest >= 0
    requires SideOk(sp, p, wp, wq) && SideOk(sq, p.Inverted(), wq, wp)
    requires sp.feeUpdates[0].rate == sq.feeUpdates[0].rate
    ensures Inv(l)
  {
  }

  lemma Disassemble(l: Log, p: Owner, sp: SideLog, wp: Window, sq: SideLog, wq: Window)
    requires Inv(l)
    requires sp == l.Side(p) && sq == l.Side(p.Inverted())
    requires wp == l.Unrevoked(p) && wq == l.Unrevoked(p.Inverted())
    ensures 0 <= wp.oldest <= wp.latest && 0 <= wq.oldest <= wq.latest
    ensures SideOk(sp, p, wp, wq) && SideOk(sq, p.Inverted(), wq, wp)
    ensures sp.feeUpdates[0].rate == sq.feeUpdates[0].rate
  {
  }

  lemma AddKeeps(l: Log, p: Owner, h: UpdateAddHtlc, l': Log)
    requires Inv(l) && AddHtlc(l, p, h) == Some(l')
    ensures Inv(l')
  {
    var sp, wp, sq, wq := l.Side(p), l.Unrevoked(p), l.Side(p.Inverted()), l.Unrevoked(p.Inverted());
    Disassemble(l, p, sp, wp, sq, wq);
    AddedSideOk(sp, p, wp, wq, h);
    WithSide(l, p, AddedSide(sp, p, h, wq.latest + 1));
    Assemble(l', p, AddedSide(sp, p, h, wq.latest + 1), wp, sq, wq);
  }

  lemma RemoveKeeps(l: Log, p: Owner, k: RemoveKind, id: int, l': Log)
    requires Inv(l) && RemoveHtlc(l, p, k, id) == Some(l')
    ensures Inv(l')
  {
    var sp, wp, sq, wq := l.Side(p), l.Unrevoked(p), l.Side(p.Inverted()), l.Unrevoked(p.Inverted());
    Disassemble(l, p, sp, wp, sq, wq);
    RemovedSideOk(sp, p, wp, wq, k, id);
    WithSide(l, p, RemovedSide(sp, p, k, id, wp.latest + 1));
    Assemble(l', p, RemovedSide(sp, p, k, id, wp.latest + 1), wp, sq, wq);
  }

  /** The place of a fee update, told from the numbers of the party it enters first alone. */
  predicate FeePlace(m: map<int, FeeUpdate>, f: Owner, latest: int, at: int) {
    if at == |m| then at - 1 in m && Le(m[at - 1].ctns.At(f), latest)
    else at == |m| - 1 && at in m && !Le(m[at].ctns.At(f), latest)
  }

  lemma FeeIndexPlace(l: Log, m: map<int, FeeUpdate>, f: Owner, wf: Window, wg: Window)
    requires wf == l.Unrevoked(f) && wg == l.Unrevoked(f.Inverted())
    requires FeesOk(m, f, wf, wg) && wf.oldest <= wf.latest
    ensures FeePlace(m, f, wf.latest, FeeIndex(l, m))
  {
    assert UpdateOk(m[|m| - 1].ctns, f, wf, wg);
  }

  lemma NewFeeKeeps(l: Log, p: Owner, rate: int, l': Log)
    requires Inv(l) && NewFee(l, p, rate) == Some(l')
    ensures Inv(l')
  {
    hide SideOk, Inv;
    var sp, wp, sq, wq := l.Side(p), l.Unrevoked(p), l.Side(p.Inverted()), l.Unrevoked(p.Inverted());
    Disassemble(l, p, sp, wp, sq, wq);
    FeeIndexPlace(l, sp.feeUpdates, p.Inverted(), wq, wp);
    var at := FeeIndex(l, sp.feeUpdates);
    FeeSideOk(sp, p, wp, wq, rate, at);
    WithSide(l, p, FeeSide(sp, p, at, rate, wq.latest + 1));
    Assemble(l', p, FeeSide(sp, p, at, rate, wq.latest + 1), wp, sq, wq);
  }

  lemma SignKeeps(l: Log, o: Owner, l': Log)
    requires Inv(l) && SignCtx(l, o) == Some(l')
    ensures Inv(l')
  {
    var so, wo, sq, wq := l.Side(o), l.Unrevoked(o), l.Side(o.Inverted()), l.Unrevoked(o.Inverted());
    Disassemble(l, o, so, wo, sq, wq);
    WidenSide(l'.Side(o), o, wo, wq, l'.Unrevoked(o), wq);
    WidenSide(sq, o.Inverted(), wq, wo, wq, l'.Unrevoked(o));
    Assemble(l', o, l'.Side(o), l'.Unrevoked(o), sq, wq);
  }

  lemma RevokedLogOk(l: Log, o: Owner, wo: Window, wq: Window, upTo: int, n: int)
    requires wo == l.Unrevoked(o) && wq == l.Unrevoked(o.Inverted()) && upTo == wo.oldest + 1
    requires wo.oldest >= 0 && wq.oldest >= 0
    requires SideOk(RevokedOwnSide(l.Side(o), o, upTo, n), o, Window(upTo, upTo), wq)
    requires SideOk(RevokedOtherSide(l.Side(o.Inverted()), o, upTo, n), o.Inverted(), wq, Window(upTo, upTo))
    requires l.local.feeUpdates[0].rate == l.remote.feeUpdates[0].rate
    ensures Inv(RevokedLog(l, o, upTo, n))
  {
    hide AllOk, RemovalsOk, FeesOrdered, AddsOk, Disjoint;
  }

  lemma RevokeKeeps(l: Log, o: Owner)
    requires Inv(l) && Revoke(l, o).Some?
    ensures Inv(Revoke(l, o).value)
  {
    var q := o.Inverted();
    var wo, wq := l.Unrevoked(o), l.Unrevoked(q);
    var upTo, n := l.Side(o).ctn + 1, l.CtnLatest(q) + 1;
    Disassemble(l, o, l.Side(o), wo, l.Side(q), wq);
    RevokedOwnSideOk(l.Side(o), o, wo, wq, Window(upTo, upTo), upTo, n);
    RevokedOtherSideOk(l.Side(q), o, wo, wq, Window(upTo, upTo), upTo, n);
    RevokedLogOk(l, o, wo, wq, upTo, n);
  }

  lemma ApplyKeeps(l: Log, o: Owner, m: Msg)
    requires Inv(l) && Apply(l, o, m).Some?
    ensures Inv(Apply(l, o, m).value)
  {
    match m
    case AddMsg(h) => AddKeeps(l, o, h, Apply(l, o, m).value);
    case RemoveMsg(k, id) => RemoveKeeps(l, o.Inverted(), k, id, Apply(l, o, m).value);
    case FeeMsg(rate) => NewFeeKeeps(l, o, rate, Apply(l, o, m).value);
    case CtxMsg => SignKeeps(l, o.Inverted(), Apply(l, o, m).value);
    case RevMsg => RevokeKeeps(l, o);
  }

  /** An HTLC active in the next transaction has not been removed before, in no transaction. */
  lemma RemovedOnce(l: Log, p: Owner, id: int)
    requires Inv(l) && IsActive(l, p, l.CtnLatest(p) + 1, p, id)
    ensures id !in l.Side(p).settles && id !in l.Side(p).fails
  {
    assert AllOk(l.Side(p).settles, p, l.Unrevoked(p), l.Unrevoked(p.Inverted()));
    assert AllOk(l.Side(p).fails, p, l.Unrevoked(p), l.Unrevoked(p.Inverted()));
  }
}
