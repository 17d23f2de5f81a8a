/** The log is at all times the one its two message histories determine. */
module HtlcReplay {
  import opened Options
  import opened HtlcLog
  import opened HtlcInvariant
  import opened HtlcHistory

  // ----- one more message

  lemma Snoc(h: History, m: Msg)
    ensures (h + [m])[..|h + [m]| - 1] == h && (h + [m])[|h + [m]| - 1] == m
  {
  }

  lemma SnocCounts(h: History, m: Msg)
    ensures CtxCount(h + [m]) == CtxCount(h) + (if m.CtxMsg? then 1 else 0)
    ensures RevCount(h + [m]) == RevCount(h) + (if m.RevMsg? then 1 else 0)
    ensures AddCount(h + [m]) == AddCount(h) + (if m.AddMsg? then 1 else 0)
  {
    Snoc(h, m);
  }

  lemma SnocAdd(h: History, m: Msg, i: int)
    ensures AddedAt(h + [m], i) ==
            if AddedAt(h, i).None? && m.AddMsg? && AddCount(h) == i
            then Some((m.htlc, CtxCount(h) + 1))
            else AddedAt(h, i)
  {
    Snoc(h, m);
  }

  lemma SnocRemove(h: History, m: Msg, k: RemoveKind, id: int)
    ensures RemoveCtn(h + [m], k, id) ==
            if RemoveCtn(h, k, id).None? && m == RemoveMsg(k, id) then Some(CtxCount(h) + 1) else RemoveCtn(h, k, id)
  {
    Snoc(h, m);
  }

  lemma SnocRev(h: History, m: Msg, k: int)
    ensures RevCtn(h + [m], k) ==
            if RevCtn(h, k).None? && m.RevMsg? && RevCount(h) + 1 == k then Some(CtxCount(h) + 1) else RevCtn(h, k)
  {
    Snoc(h, m);
  }

  /** A message that is no revocation promotes nothing. */
  lemma NoRev(h: History, m: Msg)
    requires !m.RevMsg?
    ensures forall k :: RevCtn(h + [m], k) == RevCtn(h, k)
  {
    forall k ensures RevCtn(h + [m], k) == RevCtn(h, k) { SnocRev(h, m, k); }
  }

  lemma NoAdd(h: History, m: Msg)
    requires !m.AddMsg?
    ensures AddCount(h + [m]) == AddCount(h)
    ensures forall i :: AddedAt(h + [m], i) == AddedAt(h, i)
  {
    Snoc(h, m);
    forall i ensures AddedAt(h + [m], i) == AddedAt(h, i) { SnocAdd(h, m, i); }
  }

  lemma NoRemove(h: History, m: Msg, k: RemoveKind)
    requires !m.RemoveMsg? || m.kind != k
    ensures forall id :: RemoveCtn(h + [m], k, id) == RemoveCtn(h, k, id)
  {
    forall id ensures RemoveCtn(h + [m], k, id) == RemoveCtn(h, k, id) { SnocRemove(h, m, k, id); }
  }

  /** A revocation promotes exactly the pending updates that are now irrevocable with its sender. */
  lemma RevPromotes(c: Ctns, f: Owner, first: Option<int>, revs: History)
    requires Places(c, f, first, revs)
    ensures Places(Promote(c, f, RevCount(revs) + 1, CtxCount(revs) + 1), f, first, revs + [RevMsg])
  {
    SnocRev(revs, RevMsg, first.value);
    RevKnown(revs, first.value);
  }

  // ----- the side of the party that emits

  lemma OwnQuiet(s: SideLog, p: Owner, hp: History, hq: History, rate0: int, m: Msg)
    requires SideMatches(s, p, hp, hq, rate0) && (m.RemoveMsg? || m.CtxMsg?)
    ensures SideMatches(s, p, hp + [m], hq, rate0)
  {
    NoRev(hp, m);
    NoAdd(hp, m);
    Snoc(hp, m);
  }

  lemma AddsAfterAdd(s: SideLog, p: Owner, hp: History, hq: History, h: UpdateAddHtlc)
    requires AddsMatch(s, p, hp, hq) && h.htlcId == s.nextHtlcId && RevCount(hq) <= CtxCount(hp)
    ensures AddsMatch(AddedSide(s, p, h, CtxCount(hp) + 1), p, hp + [AddMsg(h)], hq)
  {
    var m := AddMsg(h);
    SnocCounts(hp, m);
    RevKnown(hq, CtxCount(hp) + 1);
    forall i
      ensures AddedAt(hp + [m], i) == if i == AddCount(hp) then Some((h, CtxCount(hp) + 1)) else AddedAt(hp, i)
    {
      SnocAdd(hp, m, i);
      AddKnown(hp, i);
    }
  }

  lemma OwnAdd(s: SideLog, p: Owner, hp: History, hq: History, rate0: int, h: UpdateAddHtlc)
    requires SideMatches(s, p, hp, hq, rate0) && h.htlcId == s.nextHtlcId && RevCount(hq) <= CtxCount(hp)
    ensures SideMatches(AddedSide(s, p, h, CtxCount(hp) + 1), p, hp + [AddMsg(h)], hq, rate0)
  {
    AddsAfterAdd(s, p, hp, hq, h);
    NoRev(hp, AddMsg(h));
    Snoc(hp, AddMsg(h));
  }

  lemma FeesAfterFee(m: map<int, FeeUpdate>, p: Owner, f: seq<(int, int)>, hq: History, rate: int, n: int, at: int,
                     m': map<int, FeeUpdate>, f': seq<(int, int)>)
    requires FeesMatch(m, p, f, hq) && RevCount(hq) < n
    requires at == |f| || at == |f| - 1 >= 0
    requires m' == m[at := FeeUpdate(rate, Pending(p.Inverted(), n))]
    requires f' == if at == |f| then f + [(rate, n)] else f[at := (rate, n)]
    ensures FeesMatch(m', p, f', hq)
  {
    RevKnown(hq, n);
  }

  lemma SnocFee(h: History, rate: int, rate0: int)
    ensures var f, n := Fees(h, rate0), CtxCount(h) + 1;
            Fees(h + [FeeMsg(rate)], rate0) == if f[|f| - 1].1 == n then f[|f| - 1 := (rate, n)] else f + [(rate, n)]
  {
    Snoc(h, FeeMsg(rate));
  }

  lemma FeePlaced(m: map<int, FeeUpdate>, p: Owner, f: seq<(int, int)>, hp: History, hq: History, at: int)
    requires FeesMatch(m, p, f, hq) && |f| > 0 && f[|f| - 1].1 <= CtxCount(hp) + 1
    requires FeePlace(m, p.Inverted(), CtxCount(hp), at)
    ensures at == if f[|f| - 1].1 == CtxCount(hp) + 1 then |f| - 1 else |f|
  {
  }

  lemma FeesAfterFeeMsg(s: SideLog, p: Owner, hp: History, hq: History, rate0: int, rate: int, at: int)
    requires FeesMatch(s.feeUpdates, p, Fees(hp, rate0), hq) && RevCount(hq) <= CtxCount(hp)
    requires FeePlace(s.feeUpdates, p.Inverted(), CtxCount(hp), at)
    ensures FeesMatch(FeeSide(s, p, at, rate, CtxCount(hp) + 1).feeUpdates, p, Fees(hp + [FeeMsg(rate)], rate0), hq)
  {
    hide FeesMatch;
    var f := Fees(hp, rate0);
    FeePlaced(s.feeUpdates, p, f, hp, hq, at);
    SnocFee(hp, rate, rate0);
    FeesAfterFee(s.feeUpdates, p, f, hq, rate, CtxCount(hp) + 1, at,
                 FeeSide(s, p, at, rate, CtxCount(hp) + 1).feeUpdates, Fees(hp + [FeeMsg(rate)], rate0));
  }

  lemma OwnFee(s: SideLog, p: Owner, hp: History, hq: History, rate0: int, rate: int, at: int)
    requires SideMatches(s, p, hp, hq, rate0) && RevCount(hq) <= CtxCount(hp)
    requires FeePlace(s.feeUpdates, p.Inverted(), CtxCount(hp), at)
    ensures SideMatches(FeeSide(s, p, at, rate, CtxCount(hp) + 1), p, hp + [FeeMsg(rate)], hq, rate0)
  {
    hide FeesMatch;
    FeesAfterFeeMsg(s, p, hp, hq, rate0, rate, at);
    NoRev(hp, FeeMsg(rate));
    NoAdd(hp, FeeMsg(rate));
  }

  lemma RemovalsAfterRev(m: map<int, Ctns>, p: Owner, k: RemoveKind, hp: History, hq: History)
    requires RemovalsMatch(m, p, k, hp, hq)
    ensures RemovalsMatch(PromoteAll(m, p, RevCount(hp) + 1, CtxCount(hp) + 1), p, k, hp + [RevMsg], hq)
  {
    forall i | i in m
      ensures Places(Promote(m[i], p, RevCount(hp) + 1, CtxCount(hp) + 1), p, RemoveCtn(hq, k, i), hp + [RevMsg])
    {
      RevPromotes(m[i], p, RemoveCtn(hq, k, i), hp);
    }
  }

  lemma AddsQuiet(s: SideLog, s': SideLog, p: Owner, hp: History, hq: History)
    requires AddsMatch(s, p, hp, hq) && s'.adds == s.adds && s'.lockedIn == s.lockedIn && s'.nextHtlcId == s.nextHtlcId
    ensures AddsMatch(s', p, hp + [RevMsg], hq)
  {
    NoAdd(hp, RevMsg);
  }

  lemma OwnRev(s: SideLog, p: Owner, upTo: int, n: int, hp: History, hq: History, rate0: int)
    requires SideMatches(s, p, hp, hq, rate0) && upTo == RevCount(hp) + 1 && n == CtxCount(hp) + 1
    ensures SideMatches(RevokedOwnSide(s, p, upTo, n), p, hp + [RevMsg], hq, rate0)
  {
    hide AddsMatch, RemovalsMatch, FeesMatch;
    RemovalsAfterRev(s.settles, p, Settle, hp, hq);
    RemovalsAfterRev(s.fails, p, Fail, hp, hq);
    AddsQuiet(s, RevokedOwnSide(s, p, upTo, n), p, hp, hq);
    Snoc(hp, RevMsg);
  }

  // ----- the side of the other party

  lemma OtherQuiet(s: SideLog, p: Owner, hp: History, hq: History, rate0: int, m: Msg)
    requires SideMatches(s, p, hp, hq, rate0) && !m.RemoveMsg? && !m.RevMsg?
    ensures SideMatches(s, p, hp, hq + [m], rate0)
  {
    NoRev(hq, m);
    NoRemove(hq, m, Settle);
    NoRemove(hq, m, Fail);
  }

  lemma RemovalsAfterRemove(m: map<int, Ctns>, p: Owner, hp: History, hq: History, k: RemoveKind, id: int)
    requires RemovalsMatch(m, p, k, hp, hq) && id !in m && RevCount(hp) <= CtxCount(hq)
    ensures RemovalsMatch(m[id := Pending(p, CtxCount(hq) + 1)], p, k, hp, hq + [RemoveMsg(k, id)])
  {
    var n := CtxCount(hq) + 1;
    var m', hq' := m[id := Pending(p, n)], hq + [RemoveMsg(k, id)];
    RevKnown(hp, n);
    forall i
      ensures i in m' <==> RemoveCtn(hq', k, i).Some?
      ensures i in m' ==> Places(m'[i], p, RemoveCtn(hq', k, i), hp)
    {
      SnocRemove(hq, RemoveMsg(k, id), k, i);
    }
  }

  lemma OtherRemove(s: SideLog, p: Owner, hp: History, hq: History, rate0: int, k: RemoveKind, id: int)
    requires SideMatches(s, p, hp, hq, rate0) && id !in s.Removals(k) && RevCount(hp) <= CtxCount(hq)
    ensures SideMatches(RemovedSide(s, p, k, id, CtxCount(hq) + 1), p, hp, hq + [RemoveMsg(k, id)], rate0)
  {
    RemovalsAfterRemove(s.Removals(k), p, hp, hq, k, id);
    NoRev(hq, RemoveMsg(k, id));
    NoRemove(hq, RemoveMsg(k, id), if k.Settle? then Fail else Settle);
  }

  lemma AddsAfterRev(s: SideLog, p: Owner, r: Owner, s': SideLog, hp: History, hq: History)
    requires AddsMatch(s, p, hp, hq) && r == p.Inverted()
    requires s' == RevokedOtherSide(s, r, RevCount(hq) + 1, CtxCount(hq) + 1)
    ensures AddsMatch(s', p, hp, hq + [RevMsg])
  {
    forall i | i in s.lockedIn
      ensures Places(Promote(s.lockedIn[i], r, RevCount(hq) + 1, CtxCount(hq) + 1), r, AddCtn(hp, i), hq + [RevMsg])
    {
      RevPromotes(s.lockedIn[i], r, AddCtn(hp, i), hq);
    }
  }

  lemma FeesAfterRev(m: map<int, FeeUpdate>, p: Owner, f: seq<(int, int)>, hq: History)
    requires FeesMatch(m, p, f, hq)
    ensures FeesMatch(PromoteFees(m, p.Inverted(), RevCount(hq) + 1, CtxCount(hq) + 1), p, f, hq + [RevMsg])
  {
    var m' := PromoteFees(m, p.Inverted(), RevCount(hq) + 1, CtxCount(hq) + 1);
    assert m'.Keys == m.Keys;
    assert |m'| == |m'.Keys| == |m|;
    forall j | j in m
      ensures Places(m'[j].ctns, p.Inverted(), Some(f[j].1), hq + [RevMsg])
    {
      RevPromotes(m[j].ctns, p.Inverted(), Some(f[j].1), hq);
    }
  }

  lemma RemovalsQuiet(m: map<int, Ctns>, p: Owner, k: RemoveKind, hp: History, hq: History)
    requires RemovalsMatch(m, p, k, hp, hq)
    ensures RemovalsMatch(m, p, k, hp, hq + [RevMsg])
  {
    NoRemove(hq, RevMsg, k);
  }

  lemma OtherRev(s: SideLog, p: Owner, r: Owner, s': SideLog, hp: History, hq: History, rate0: int)
    requires SideMatches(s, p, hp, hq, rate0) && r == p.Inverted()
    requires s' == RevokedOtherSide(s, r, RevCount(hq) + 1, CtxCount(hq) + 1)
    ensures SideMatches(s', p, hp, hq + [RevMsg], rate0)
  {
    hide AddsMatch, RemovalsMatch, FeesMatch;
    AddsAfterRev(s, p, r, s', hp, hq);
    FeesAfterRev(s.feeUpdates, p, Fees(hp, rate0), hq);
    RemovalsQuiet(s.settles, p, Settle, hp, hq);
    RemovalsQuiet(s.fails, p, Fail, hp, hq);
  }

  // ----- every message

  lemma MatchesFlip(l: Log, p: Owner, hp: History, hq: History, rate0: int)
    requires Matches(l, p, hp, hq, rate0)
    ensures Matches(l, p.Inverted(), hq, hp, rate0)
  {
    hide SideMatches;
  }

  lemma ApplyCounters(l: Log, o: Owner, m: Msg, ho: History, hq: History)
    requires CountersMatch(l, o, ho, hq) && CountersMatch(l, o.Inverted(), hq, ho) && Apply(l, o, m).Some?
    ensures CountersMatch(Apply(l, o, m).value, o, ho + [m], hq)
    ensures CountersMatch(Apply(l, o, m).value, o.Inverted(), hq, ho + [m])
  {
    hide SideMatches, Inv;
    SnocCounts(ho, m);
  }

  lemma OwnSideWith(l: Log, o: Owner, so: SideLog, ho: History, hq: History, rate0: int)
    requires SideMatches(so, o, ho, hq, rate0)
    requires SideMatches(l.Side(o.Inverted()), o.Inverted(), hq, ho, rate0)
    ensures SidesMatch(l.With(o, so), o, ho, hq, rate0)
  {
    hide SideMatches;
  }

  lemma OtherSideWith(l: Log, o: Owner, sq: SideLog, ho: History, hq: History, rate0: int)
    requires SideMatches(l.Side(o), o, ho, hq, rate0)
    requires SideMatches(sq, o.Inverted(), hq, ho, rate0)
    ensures SidesMatch(l.With(o.Inverted(), sq), o, ho, hq, rate0)
  {
    hide SideMatches;
  }

  lemma BothSidesWith(l: Log, o: Owner, so: SideLog, sq: SideLog, ho: History, hq: History, rate0: int)
    requires SideMatches(so, o, ho, hq, rate0)
    requires SideMatches(sq, o.Inverted(), hq, ho, rate0)
    ensures SidesMatch(l.With(o, so).With(o.Inverted(), sq), o, ho, hq, rate0)
  {
    hide SideMatches;
  }

  lemma AddMatches(l: Log, o: Owner, h: UpdateAddHtlc, ho: History, hq: History, rate0: int)
    requires Matches(l, o, ho, hq, rate0) && AddHtlc(l, o, h).Some?
    ensures SidesMatch(AddHtlc(l, o, h).value, o, ho + [AddMsg(h)], hq, rate0)
  {
    hide SideMatches;
    var n := l.CtnLatest(o.Inverted()) + 1;
    OwnAdd(l.Side(o), o, ho, hq, rate0, h);
    OtherQuiet(l.Side(o.Inverted()), o.Inverted(), hq, ho, rate0, AddMsg(h));
    OwnSideWith(l, o, AddedSide(l.Side(o), o, h, n), ho + [AddMsg(h)], hq, rate0);
  }

  lemma RemoveMatches(l: Log, o: Owner, k: RemoveKind, id: int, ho: History, hq: History, rate0: int)
    requires Matches(l, o, ho, hq, rate0) && RemoveHtlc(l, o.Inverted(), k, id).Some?
    requires id !in l.Side(o.Inverted()).Removals(k)
    ensures SidesMatch(RemoveHtlc(l, o.Inverted(), k, id).value, o, ho + [RemoveMsg(k, id)], hq, rate0)
  {
    hide SideMatches;
    var q := o.Inverted();
    OwnQuiet(l.Side(o), o, ho, hq, rate0, RemoveMsg(k, id));
    OtherRemove(l.Side(q), q, hq, ho, rate0, k, id);
    OtherSideWith(l, o, RemovedSide(l.Side(q), q, k, id, l.CtnLatest(q) + 1), ho + [RemoveMsg(k, id)], hq, rate0);
  }

  lemma FeeMatches(l: Log, o: Owner, rate: int, ho: History, hq: History, rate0: int)
    requires Matches(l, o, ho, hq, rate0) && NewFee(l, o, rate).Some?
    requires FeePlace(l.Side(o).feeUpdates, o.Inverted(), l.CtnLatest(o.Inverted()), FeeIndex(l, l.Side(o).feeUpdates))
    ensures SidesMatch(NewFee(l, o, rate).value, o, ho + [FeeMsg(rate)], hq, rate0)
  {
    hide SideMatches;
    var q, m := o.Inverted(), l.Side(o).feeUpdates;
    OwnFee(l.Side(o), o, ho, hq, rate0, rate, FeeIndex(l, m));
    OtherQuiet(l.Side(q), q, hq, ho, rate0, FeeMsg(rate));
    OwnSideWith(l, o, FeeSide(l.Side(o), o, FeeIndex(l, m), rate, l.CtnLatest(q) + 1), ho + [FeeMsg(rate)], hq, rate0);
  }

  lemma SignMatches(l: Log, o: Owner, ho: History, hq: History, rate0: int)
    requires Matches(l, o, ho, hq, rate0) && SignCtx(l, o.Inverted()).Some?
    ensures SidesMatch(SignCtx(l, o.Inverted()).value, o, ho + [CtxMsg], hq, rate0)
  {
    OwnQuiet(l.Side(o), o, ho, hq, rate0, CtxMsg);
    OtherQuiet(l.Side(o.Inverted()), o.Inverted(), hq, ho, rate0, CtxMsg);
  }

  lemma RevokedLogMatches(l: Log, o: Owner, upTo: int, n: int, ho: History, hq: History, rate0: int)
    requires SidesMatch(l, o, ho, hq, rate0) && upTo == RevCount(ho) + 1 && n == CtxCount(ho) + 1
    ensures SidesMatch(RevokedLog(l, o, upTo, n), o, ho + [RevMsg], hq, rate0)
  {
    hide SideMatches;
    var q := o.Inverted();
    OwnRev(l.Side(o), o, upTo, n, ho, hq, rate0);
    OtherRev(l.Side(q), q, o, RevokedOtherSide(l.Side(q), o, upTo, n), hq, ho, rate0);
    BothSidesWith(l, o, RevokedOwnSide(l.Side(o), o, upTo, n), RevokedOtherSide(l.Side(q), o, upTo, n), ho + [RevMsg],
                  hq, rate0);
  }

  lemma RevokeMatches(l: Log, o: Owner, ho: History, hq: History, rate0: int)
    requires Matches(l, o, ho, hq, rate0) && Revoke(l, o).Some?
    ensures SidesMatch(Revoke(l, o).value, o, ho + [RevMsg], hq, rate0)
  {
    hide SideMatches;
    RevokedLogMatches(l, o, l.Side(o).ctn + 1, l.CtnLatest(o.Inverted()) + 1, ho, hq, rate0);
  }

  lemma NextFeePlace(l: Log, o: Owner)
    requires Inv(l)
    ensures FeePlace(l.Side(o).feeUpdates, o.Inverted(), l.CtnLatest(o.Inverted()), FeeIndex(l, l.Side(o).feeUpdates))
  {
    var q := o.Inverted();
    Disassemble(l, o, l.Side(o), l.Unrevoked(o), l.Side(q), l.Unrevoked(q));
    FeeIndexPlace(l, l.Side(o).feeUpdates, q, l.Unrevoked(q), l.Unrevoked(o));
  }

  /** The transition of the log is exactly one more message in the history. */
  lemma ApplyMatches(l: Log, o: Owner, m: Msg, ho: History, hq: History, rate0: int)
    requires Inv(l) && Matches(l, o, ho, hq, rate0) && Apply(l, o, m).Some?
    ensures Matches(Apply(l, o, m).value, o, ho + [m], hq, rate0)
  {
    hide SideMatches, Inv;
    ApplyCounters(l, o, m, ho, hq);
    match m
    case AddMsg(h) => AddMatches(l, o, h, ho, hq, rate0);
    case RemoveMsg(k, id) =>
      RemovedOnce(l, o.Inverted(), id);
      RemoveMatches(l, o, k, id, ho, hq, rate0);
    case FeeMsg(rate) =>
      NextFeePlace(l, o);
      FeeMatches(l, o, rate, ho, hq, rate0);
    case CtxMsg => SignMatches(l, o, ho, hq, rate0);
    case RevMsg => RevokeMatches(l, o, ho, hq, rate0);
  }

  lemma OpenedMatches(rate: int, p: Owner)
    ensures Matches(Opened(rate), p, [], [], rate)
  {
    hide SideMatches;
    OpenedSideMatches(rate, p);
    OpenedSideMatches(rate, p.Inverted());
  }

  lemma OpenedSideMatches(rate: int, p: Owner)
    ensures SideMatches(Opened(rate).Side(p), p, [], [], rate)
  {
    var s := Opened(rate).Side(p);
    assert AddsMatch(s, p, [], []);
    assert Fees([], rate) == [(rate, 0)];
    assert FeesMatch(s.feeUpdates, p, [(rate, 0)], []);
  }
}
