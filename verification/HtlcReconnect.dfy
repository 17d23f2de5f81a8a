/**
 Losing the connection: what was under way is lost, both nodes discard what the other one did not sign, and each sends
 again what the other one is missing.
 */
module HtlcReconnect {
  import opened Options
  import opened HtlcLog
  import opened HtlcInvariant
  import opened HtlcDiscard
  import opened HtlcHistory
  import opened HtlcReplay

  // ----- histories that say the same

  /** The updates and signatures of a history, and its signatures and revocations. */
  function Updates(h: History): History {
    if h == [] then []
    else
      var init, last := Updates(h[..|h| - 1]), h[|h| - 1];
      if last.RevMsg? then init else init + [last]
  }

  function Promises(h: History): History {
    if h == [] then []
    else
      var init, last := Promises(h[..|h| - 1]), h[|h| - 1];
      if last.RevMsg? || last.CtxMsg? then init + [last] else init
  }

  /** Only the order of revocations among updates differs, and that does not matter. */
  predicate Same(h: History, h': History) {
    Updates(h) == Updates(h') && Promises(h) == Promises(h')
  }

  lemma SnocViews(h: History, m: Msg)
    ensures Updates(h + [m]) == if m.RevMsg? then Updates(h) else Updates(h) + [m]
    ensures Promises(h + [m]) == if m.RevMsg? || m.CtxMsg? then Promises(h) + [m] else Promises(h)
  {
    Snoc(h, m);
  }

  lemma {:induction false} ViewsJoin(h: History, q: History)
    ensures Updates(h + q) == Updates(h) + Updates(q) && Promises(h + q) == Promises(h) + Promises(q)
  {
    if q == [] {
      assert h + q == h;
    } else {
      var init, last := q[..|q| - 1], q[|q| - 1];
      ViewsJoin(h, init);
      assert h + q == (h + init) + [last] && q == init + [last];
      SnocViews(h + init, last);
    }
  }

  lemma {:induction false} UpdatesTellCounts(h: History)
    ensures CtxCount(Updates(h)) == CtxCount(h) && AddCount(Updates(h)) == AddCount(h)
  {
    if h != [] {
      UpdatesTellCounts(h[..|h| - 1]);
      SnocCounts(Updates(h[..|h| - 1]), h[|h| - 1]);
    }
  }

  lemma {:induction false} UpdatesTellAdd(h: History, i: int)
    ensures AddedAt(Updates(h), i) == AddedAt(h, i)
  {
    if h != [] {
      UpdatesTellAdd(h[..|h| - 1], i);
      UpdatesTellCounts(h[..|h| - 1]);
      SnocAdd(Updates(h[..|h| - 1]), h[|h| - 1], i);
    }
  }

  lemma {:induction false} UpdatesTellRemove(h: History, k: RemoveKind, id: int)
    ensures RemoveCtn(Updates(h), k, id) == RemoveCtn(h, k, id)
  {
    if h != [] {
      UpdatesTellRemove(h[..|h| - 1], k, id);
      UpdatesTellCounts(h[..|h| - 1]);
      SnocRemove(Updates(h[..|h| - 1]), h[|h| - 1], k, id);
    }
  }

  lemma {:induction false} UpdatesTellFees(h: History, rate0: int)
    ensures Fees(Updates(h), rate0) == Fees(h, rate0)
  {
    if h != [] {
      UpdatesTellFees(h[..|h| - 1], rate0);
      UpdatesTellCounts(h[..|h| - 1]);
      Snoc(Updates(h[..|h| - 1]), h[|h| - 1]);
    }
  }

  lemma {:induction false} PromisesTellCounts(h: History)
    ensures CtxCount(Promises(h)) == CtxCount(h) && RevCount(Promises(h)) == RevCount(h)
  {
    if h != [] {
      PromisesTellCounts(h[..|h| - 1]);
      SnocCounts(Promises(h[..|h| - 1]), h[|h| - 1]);
    }
  }

  lemma {:induction false} PromisesTellRev(h: History, k: int)
    ensures RevCtn(Promises(h), k) == RevCtn(h, k)
  {
    if h != [] {
      PromisesTellRev(h[..|h| - 1], k);
      PromisesTellCounts(h[..|h| - 1]);
      SnocRev(Promises(h[..|h| - 1]), h[|h| - 1], k);
    }
  }

  /** All that matters about a history. */
  ghost predicate SameReadings(h: History, h': History) {
    && CtxCount(h) == CtxCount(h') && AddCount(h) == AddCount(h') && RevCount(h) == RevCount(h')
    && (forall i :: AddedAt(h, i) == AddedAt(h', i))
    && (forall k, id :: RemoveCtn(h, k, id) == RemoveCtn(h', k, id))
    && (forall k :: RevCtn(h, k) == RevCtn(h', k))
    && (forall rate0 :: Fees(h, rate0) == Fees(h', rate0))
  }

  lemma SameTells(h: History, h': History)
    requires Same(h, h')
    ensures SameReadings(h, h')
  {
    UpdatesTellCounts(h);
    UpdatesTellCounts(h');
    PromisesTellCounts(h);
    PromisesTellCounts(h');
    forall i ensures AddedAt(h, i) == AddedAt(h', i) {
      UpdatesTellAdd(h, i);
      UpdatesTellAdd(h', i);
    }
    forall k, id ensures RemoveCtn(h, k, id) == RemoveCtn(h', k, id) {
      UpdatesTellRemove(h, k, id);
      UpdatesTellRemove(h', k, id);
    }
    forall k ensures RevCtn(h, k) == RevCtn(h', k) {
      PromisesTellRev(h, k);
      PromisesTellRev(h', k);
    }
    forall rate0 ensures Fees(h, rate0) == Fees(h', rate0) {
      UpdatesTellFees(h, rate0);
      UpdatesTellFees(h', rate0);
    }
  }

  lemma SameAdds(s: SideLog, p: Owner, hp: History, hq: History, hp': History, hq': History)
    requires AddsMatch(s, p, hp, hq) && SameReadings(hp, hp') && SameReadings(hq, hq')
    ensures AddsMatch(s, p, hp', hq')
  {
  }

  lemma SameRemovals(m: map<int, Ctns>, p: Owner, k: RemoveKind, hp: History, hq: History, hp': History, hq': History)
    requires RemovalsMatch(m, p, k, hp, hq) && SameReadings(hp, hp') && SameReadings(hq, hq')
    ensures RemovalsMatch(m, p, k, hp', hq')
  {
  }

  lemma SameFeeLog(m: map<int, FeeUpdate>, p: Owner, hp: History, hq: History, hp': History, hq': History, rate0: int)
    requires FeesMatch(m, p, Fees(hp, rate0), hq) && SameReadings(hp, hp') && SameReadings(hq, hq')
    ensures FeesMatch(m, p, Fees(hp', rate0), hq')
  {
    assert Fees(hp, rate0) == Fees(hp', rate0);
  }

  lemma SameSides(s: SideLog, p: Owner, hp: History, hq: History, hp': History, hq': History, rate0: int)
    requires SideMatches(s, p, hp, hq, rate0) && SameReadings(hp, hp') && SameReadings(hq, hq')
    ensures SideMatches(s, p, hp', hq', rate0)
  {
    hide AddsMatch, RemovalsMatch, FeesMatch, SameReadings;
    SameAdds(s, p, hp, hq, hp', hq');
    SameRemovals(s.settles, p, Settle, hp, hq, hp', hq');
    SameRemovals(s.fails, p, Fail, hp, hq, hp', hq');
    SameFeeLog(s.feeUpdates, p, hp, hq, hp', hq', rate0);
  }

  /** The log matches any histories that say the same. */
  lemma MatchesSame(l: Log, p: Owner, hp: History, hq: History, hp': History, hq': History, rate0: int)
    requires Matches(l, p, hp, hq, rate0) && Same(hp, hp') && Same(hq, hq')
    ensures Matches(l, p, hp', hq', rate0)
  {
    SameTells(hp, hp');
    SameTells(hq, hq');
    SameSides(l.Side(p), p, hp, hq, hp', hq', rate0);
    SameSides(l.Side(p.Inverted()), p.Inverted(), hq, hp, hq', hp', rate0);
  }

  // ----- discarding

  /** The history without the updates after its last signature. */
  function Trimmed(h: History): History {
    if h == [] then []
    else if h[|h| - 1].CtxMsg? then h
    else if h[|h| - 1].RevMsg? then Trimmed(h[..|h| - 1]) + [RevMsg]
    else Trimmed(h[..|h| - 1])
  }

  lemma {:induction false} TrimmedViews(h: History)
    ensures Promises(Trimmed(h)) == Promises(h)
    ensures CtxCount(Trimmed(h)) == CtxCount(h) && RevCount(Trimmed(h)) == RevCount(h)
    ensures forall k :: RevCtn(Trimmed(h), k) == RevCtn(h, k)
  {
    if h != [] && !h[|h| - 1].CtxMsg? {
      var init := Trimmed(h[..|h| - 1]);
      TrimmedViews(h[..|h| - 1]);
      SnocViews(init, RevMsg);
    }
    PromisesTellCounts(h);
    PromisesTellCounts(Trimmed(h));
    forall k ensures RevCtn(Trimmed(h), k) == RevCtn(h, k) {
      PromisesTellRev(h, k);
      PromisesTellRev(Trimmed(h), k);
    }
  }

  /** What is kept of an update that enters the receiver's transaction `x`: it was signed. */
  function Kept(x: Option<int>, signed: int): Option<int> {
    if x.Some? && x.value <= signed then x else None
  }

  lemma {:induction false} TrimmedAdd(h: History, i: int)
    ensures AddCtn(Trimmed(h), i) == Kept(AddCtn(h, i), CtxCount(h))
    ensures AddedAt(Trimmed(h), i).Some? ==> AddedAt(Trimmed(h), i) == AddedAt(h, i)
  {
    AddKnown(h, i);
    if h != [] {
      var init, last := h[..|h| - 1], h[|h| - 1];
      AddKnown(init, i);
      if !last.CtxMsg? {
        TrimmedAdd(init, i);
        SnocAdd(Trimmed(init), RevMsg, i);
      }
    }
  }

  lemma {:induction false} RemoveKnown(h: History, k: RemoveKind, id: int)
    ensures RemoveCtn(h, k, id).Some? ==> RemoveCtn(h, k, id).value <= CtxCount(h) + 1
  {
    if h != [] {
      RemoveKnown(h[..|h| - 1], k, id);
    }
  }

  lemma {:induction false} TrimmedRemove(h: History, k: RemoveKind, id: int)
    ensures RemoveCtn(Trimmed(h), k, id) == Kept(RemoveCtn(h, k, id), CtxCount(h))
  {
    RemoveKnown(h, k, id);
    if h != [] {
      var init, last := h[..|h| - 1], h[|h| - 1];
      RemoveKnown(init, k, id);
      if !last.CtxMsg? {
        TrimmedRemove(init, k, id);
        SnocRemove(Trimmed(init), RevMsg, k, id);
      }
    }
  }

  /** A fee update that is not signed is the last one. */
  function KeptFees(f: seq<(int, int)>, signed: int): seq<(int, int)> {
    if f != [] && f[|f| - 1].1 > signed then f[..|f| - 1] else f
  }

  lemma {:induction false} TrimmedFees(h: History, rate0: int)
    ensures Fees(Trimmed(h), rate0) == KeptFees(Fees(h, rate0), CtxCount(h))
  {
    if h != [] {
      var init, last := h[..|h| - 1], h[|h| - 1];
      var f, n := Fees(init, rate0), CtxCount(init) + 1;
      if !last.CtxMsg? {
        TrimmedFees(init, rate0);
        Snoc(Trimmed(init), RevMsg);
        assert f[|f| - 1 := (0, n)][..|f| - 1] == f[..|f| - 1] && (f + [(0, n)])[..|f|] == f;
      }
    }
  }

  lemma {:induction false} FeesAscend(h: History, rate0: int, i: nat, j: nat)
    requires i < j < |Fees(h, rate0)|
    ensures Fees(h, rate0)[i].1 < Fees(h, rate0)[j].1
  {
    if h != [] {
      var init := h[..|h| - 1];
      if j < |Fees(init, rate0)| {
        FeesAscend(init, rate0, i, j);
      } else if i < |Fees(init, rate0)| - 1 {
        FeesAscend(init, rate0, i, j - 1);
      }
    }
  }

  lemma TrimmedAddsMatch(s: SideLog, r: SideLog, hp: History, hq: History)
    requires AddsMatch(s, REMOTE, hq, hp) && r.nextHtlcId >= 0 && r.adds.Keys == r.lockedIn.Keys
    requires forall i :: i in r.lockedIn <==> 0 <= i < r.nextHtlcId
    requires forall i :: i in r.lockedIn <==> i in s.lockedIn && Le(s.lockedIn[i].local, CtxCount(hq))
    requires forall i :: i in r.lockedIn ==> r.lockedIn[i] == s.lockedIn[i] && r.adds[i] == s.adds[i]
    ensures AddsMatch(r, REMOTE, Trimmed(hq), hp)
  {
    hide AddCount, Trimmed, CtxCount;
    forall i
      ensures i in r.lockedIn <==> 0 <= i < AddCount(Trimmed(hq))
      ensures i in r.lockedIn ==> AddedAt(Trimmed(hq), i) == AddedAt(hq, i)
    {
      AddKnown(hq, i);
      AddKnown(Trimmed(hq), i);
      TrimmedAdd(hq, i);
    }
    SameBound(r.lockedIn.Keys, r.nextHtlcId, AddCount(Trimmed(hq)));
  }

  lemma DiscardAddsMatch(l: Log, hp: History, hq: History)
    requires Inv(l) && AddsMatch(l.remote, REMOTE, hq, hp) && l.CtnLatest(LOCAL) == CtxCount(hq)
    ensures AddsMatch(DiscardUnsigned(l).remote, REMOTE, Trimmed(hq), hp)
  {
    DiscardAdds(l);
    TrimmedAddsMatch(l.remote, DiscardUnsigned(l).remote, hp, hq);
  }

  lemma SameBound(keys: set<int>, m: nat, n: nat)
    requires m >= 0 && n >= 0
    requires forall i :: i in keys <==> 0 <= i < m
    requires forall i :: i in keys <==> 0 <= i < n
    ensures m == n
  {
    assert m < n ==> m !in keys;
    assert n < m ==> n !in keys;
  }

  lemma DiscardRemovalsMatch(l: Log, m: map<int, Ctns>, k: RemoveKind, hp: History, hq: History)
    requires RemovalsMatch(m, LOCAL, k, hp, hq) && l.CtnLatest(LOCAL) == CtxCount(hq)
    ensures RemovalsMatch(SignedOnly(l, m), LOCAL, k, hp, Trimmed(hq))
  {
    forall i
      ensures RemoveCtn(Trimmed(hq), k, i) == Kept(RemoveCtn(hq, k, i), CtxCount(hq))
    {
      TrimmedRemove(hq, k, i);
    }
  }

  lemma KeptFeesMatch(m: map<int, FeeUpdate>, m': map<int, FeeUpdate>, f: seq<(int, int)>, signed: int, hp: History)
    requires FeesMatch(m, REMOTE, f, hp) && (forall j :: j in m' <==> 0 <= j < |m'|)
    requires forall j :: 0 <= j < |f| - 1 ==> f[j].1 <= signed
    requires forall j :: j in m' <==> j in m && Le(m[j].ctns.local, signed)
    requires forall j :: j in m' ==> m'[j] == m[j]
    ensures FeesMatch(m', REMOTE, KeptFees(f, signed), hp)
  {
    SameBound(m'.Keys, |m'|, |KeptFees(f, signed)|);
  }

  lemma SignedButLast(h: History, rate0: int, j: nat)
    requires j < |Fees(h, rate0)| - 1
    ensures Fees(h, rate0)[j].1 <= CtxCount(h)
  {
    FeesAscend(h, rate0, j, |Fees(h, rate0)| - 1);
  }

  lemma TrimmedFeesMatch(m: map<int, FeeUpdate>, m': map<int, FeeUpdate>, hp: History, hq: History, rate0: int)
    requires FeesMatch(m, REMOTE, Fees(hq, rate0), hp) && (forall j :: j in m' <==> 0 <= j < |m'|)
    requires forall j :: j in m' <==> j in m && Le(m[j].ctns.local, CtxCount(hq))
    requires forall j :: j in m' ==> m'[j] == m[j]
    ensures FeesMatch(m', REMOTE, Fees(Trimmed(hq), rate0), hp)
  {
    hide Trimmed, CtxCount, FeesMatch, KeptFees, Fees;
    TrimmedFees(hq, rate0);
    forall j | 0 <= j < |Fees(hq, rate0)| - 1
      ensures Fees(hq, rate0)[j].1 <= CtxCount(hq)
    {
      SignedButLast(hq, rate0, j);
    }
    KeptFeesMatch(m, m', Fees(hq, rate0), CtxCount(hq), hp);
  }

  lemma DiscardFeesMatch(l: Log, hp: History, hq: History, rate0: int)
    requires Inv(l) && FeesMatch(l.remote.feeUpdates, REMOTE, Fees(hq, rate0), hp) && l.CtnLatest(LOCAL) == CtxCount(hq)
    ensures FeesMatch(DiscardUnsigned(l).remote.feeUpdates, REMOTE, Fees(Trimmed(hq), rate0), hp)
  {
    hide Inv, FeesMatch;
    DiscardFees(l);
    TrimmedFeesMatch(l.remote.feeUpdates, DiscardUnsigned(l).remote.feeUpdates, hp, hq, rate0);
  }

  /** The log after a discard is the one that the trimmed history determines. */
  lemma DiscardMatches(l: Log, hp: History, hq: History, rate0: int)
    requires Inv(l) && Matches(l, LOCAL, hp, hq, rate0)
    ensures Matches(DiscardUnsigned(l), LOCAL, hp, Trimmed(hq), rate0)
  {
    hide Inv, AddsMatch, RemovalsMatch, FeesMatch, Trimmed;
    TrimmedViews(hq);
    DiscardRemovalsMatch(l, l.local.settles, Settle, hp, hq);
    DiscardRemovalsMatch(l, l.local.fails, Fail, hp, hq);
    DiscardAddsMatch(l, hp, hq);
    DiscardFeesMatch(l, hp, hq, rate0);
    DiscardOwnSide(l, hp, hq, rate0);
    DiscardOtherSide(l, hp, hq, rate0);
  }

  lemma DiscardOwnSide(l: Log, hp: History, hq: History, rate0: int)
    requires SideMatches(l.local, LOCAL, hp, hq, rate0) && (forall k :: RevCtn(Trimmed(hq), k) == RevCtn(hq, k))
    requires RemovalsMatch(SignedOnly(l, l.local.settles), LOCAL, Settle, hp, Trimmed(hq))
    requires RemovalsMatch(SignedOnly(l, l.local.fails), LOCAL, Fail, hp, Trimmed(hq))
    ensures SideMatches(DiscardUnsigned(l).local, LOCAL, hp, Trimmed(hq), rate0)
  {
  }

  lemma DiscardOtherSide(l: Log, hp: History, hq: History, rate0: int)
    requires SideMatches(l.remote, REMOTE, hq, hp, rate0) && (forall k :: RevCtn(Trimmed(hq), k) == RevCtn(hq, k))
    requires AddsMatch(DiscardUnsigned(l).remote, REMOTE, Trimmed(hq), hp)
    requires FeesMatch(DiscardUnsigned(l).remote.feeUpdates, REMOTE, Fees(Trimmed(hq), rate0), hp)
    ensures SideMatches(DiscardUnsigned(l).remote, REMOTE, Trimmed(hq), hp, rate0)
  {
  }

  // ----- sending again

  /** The updates and signatures for all transactions after the receiver's `k`-th. */
  function Replay(h: History, k: nat): History {
    if h == [] then []
    else
      var init, last := h[..|h| - 1], h[|h| - 1];
      if !last.RevMsg? && CtxCount(init) >= k then Replay(init, k) + [last] else Replay(init, k)
  }

  /** A revocation is the last of the signatures and revocations sent. */
  function WasRevokeLast(h: History): bool {
    h != [] && (h[|h| - 1].RevMsg? || (!h[|h| - 1].CtxMsg? && WasRevokeLast(h[..|h| - 1])))
  }

  /** What is sent again to a peer that has `rcvd`: the revocation it lacks, if any, first or last, and the updates. */
  function Retransmitted(sent: History, rcvd: History): History {
    var replay := Replay(sent, CtxCount(rcvd));
    if RevCount(sent) <= RevCount(rcvd) then replay
    else if WasRevokeLast(sent) then replay + [RevMsg]
    else [RevMsg] + replay
  }

  lemma {:induction false} ReplayNothing(h: History, k: nat)
    requires CtxCount(h) < k
    ensures Replay(h, k) == []
  {
    if h != [] {
      ReplayNothing(h[..|h| - 1], k);
    }
  }

  /** What the peer discards is replayed. */
  lemma {:induction false} DiscardedIsReplayed(rcvd: History)
    ensures Updates(Trimmed(rcvd)) + Replay(rcvd, CtxCount(rcvd)) == Updates(rcvd)
  {
    if rcvd != [] {
      var init, last := rcvd[..|rcvd| - 1], rcvd[|rcvd| - 1];
      if last.CtxMsg? {
        ReplayNothing(init, CtxCount(rcvd));
      } else {
        DiscardedIsReplayed(init);
        SnocViews(Trimmed(init), RevMsg);
      }
    }
  }

  lemma SnocReplay(h: History, m: Msg, k: nat)
    requires CtxCount(h) >= k
    ensures Replay(h + [m], k) == if m.RevMsg? then Replay(h, k) else Replay(h, k) + [m]
  {
    Snoc(h, m);
  }

  /** Nothing is lost: what the peer keeps and what is replayed are all updates. */
  lemma {:induction false} ReplayCompletes(rcvd: History, q: History)
    ensures Updates(Trimmed(rcvd)) + Replay(rcvd + q, CtxCount(rcvd)) == Updates(rcvd + q)
    decreases |q|
  {
    hide Updates, Replay, Trimmed;
    if q == [] {
      assert rcvd + q == rcvd;
      DiscardedIsReplayed(rcvd);
    } else {
      var init, last := q[..|q| - 1], q[|q| - 1];
      ReplayCompletes(rcvd, init);
      assert rcvd + q == (rcvd + init) + [last];
      CountsGrow(rcvd, rcvd + init);
      SnocReplay(rcvd + init, last, CtxCount(rcvd));
      SnocViews(rcvd + init, last);
    }
  }

  lemma {:induction false} ReplayCounts(h: History, k: nat)
    ensures RevCount(Replay(h, k)) == 0 && Updates(Replay(h, k)) == Replay(h, k)
    ensures CtxCount(Replay(h, k)) == if CtxCount(h) < k then 0 else CtxCount(h) - k
  {
    if h != [] {
      ReplayCounts(h[..|h| - 1], k);
      SnocCounts(Replay(h[..|h| - 1], k), h[|h| - 1]);
      SnocViews(Replay(h[..|h| - 1], k), h[|h| - 1]);
    }
  }

  lemma {:induction false} PromisesLength(h: History)
    ensures |Promises(h)| == CtxCount(h) + RevCount(h)
    ensures forall i :: 0 <= i < |Promises(h)| ==> Promises(h)[i] == CtxMsg || Promises(h)[i] == RevMsg
    ensures WasRevokeLast(h) <==> Promises(h) != [] && Promises(h)[|Promises(h)| - 1] == RevMsg
  {
    if h != [] {
      PromisesLength(h[..|h| - 1]);
    }
  }

  /** At most one signature and one revocation: only their order is open. */
  lemma FewPromises(h: History)
    requires CtxCount(h) <= 1 && RevCount(h) <= 1
    ensures Promises(h) ==
            if CtxCount(h) == 1 && RevCount(h) == 1
            then (if WasRevokeLast(h) then [CtxMsg, RevMsg] else [RevMsg, CtxMsg])
            else if CtxCount(h) == 1 then [CtxMsg]
            else if RevCount(h) == 1 then [RevMsg]
            else []
  {
    var p := Promises(h);
    PromisesLength(h);
    PromisesTellCounts(h);
    if |p| == 1 {
      assert p == [] + [p[0]];
      SnocCounts([], p[0]);
    } else if |p| == 2 {
      assert p == ([] + [p[0]]) + [p[1]];
      SnocCounts([], p[0]);
      SnocCounts([] + [p[0]], p[1]);
    }
  }

  lemma {:induction false} CountsJoin(h: History, q: History)
    ensures CtxCount(h + q) == CtxCount(h) + CtxCount(q) && RevCount(h + q) == RevCount(h) + RevCount(q)
  {
    if q == [] {
      assert h + q == h;
    } else {
      CountsJoin(h, q[..|q| - 1]);
      assert h + q == (h + q[..|q| - 1]) + [q[|q| - 1]];
      SnocCounts(h + q[..|q| - 1], q[|q| - 1]);
    }
  }

  lemma RevokeOnly()
    ensures Promises([RevMsg]) == [RevMsg] && Updates([RevMsg]) == [] && RevCount([RevMsg]) == 1 &&
            CtxCount([RevMsg]) == 0
  {
    assert [] + [RevMsg] == [RevMsg];
    SnocViews([], RevMsg);
    SnocCounts([], RevMsg);
  }

  /** The promises sent again are those that were lost, in the same order. */
  lemma SamePromises(rcvd: History, q: History)
    requires CtxCount(q) <= 1 && RevCount(q) <= 1
    ensures Promises(Retransmitted(rcvd + q, rcvd)) == Promises(q)
  {
    var sent, replay := rcvd + q, Replay(rcvd + q, CtxCount(rcvd));
    CountsJoin(rcvd, q);
    ReplayCounts(sent, CtxCount(rcvd));
    FewPromises(replay);
    FewPromises(q);
    RevokeOnly();
    ViewsJoin(replay, [RevMsg]);
    ViewsJoin([RevMsg], replay);
    ViewsJoin(rcvd, q);
    PromisesLength(sent);
    PromisesLength(q);
  }

  lemma SameUpdates(rcvd: History, q: History)
    ensures Updates(rcvd + q) == Updates(Trimmed(rcvd) + Retransmitted(rcvd + q, rcvd))
  {
    hide Updates, Promises, Replay, CtxCount, RevCount, Trimmed, WasRevokeLast;
    var replay := Replay(rcvd + q, CtxCount(rcvd));
    ViewsJoin(Trimmed(rcvd), Retransmitted(rcvd + q, rcvd));
    ReplayCompletes(rcvd, q);
    ReplayCounts(rcvd + q, CtxCount(rcvd));
    RevokeOnly();
    ViewsJoin(replay, [RevMsg]);
    ViewsJoin([RevMsg], replay);
  }

  /** What the peer keeps, and what is sent again, says the same as what was sent. */
  lemma RetransmittedSame(rcvd: History, q: History)
    requires CtxCount(q) <= 1 && RevCount(q) <= 1
    ensures Same(rcvd + q, Trimmed(rcvd) + Retransmitted(rcvd + q, rcvd))
  {
    SameUpdates(rcvd, q);
    SamePromises(rcvd, q);
    TrimmedViews(rcvd);
    ViewsJoin(Trimmed(rcvd), Retransmitted(rcvd + q, rcvd));
    ViewsJoin(rcvd, q);
  }

  // ----- where a message stands

  lemma {:induction false} UpdateAt(h: History, n: nat) returns (k: nat)
    requires n < |Updates(h)|
    ensures k < |h| && h[k] == Updates(h)[n] && !h[k].RevMsg? && Updates(h[..k]) == Updates(h)[..n]
  {
    var init := h[..|h| - 1];
    if n < |Updates(init)| {
      k := UpdateAt(init, n);
      assert h[..k] == init[..k];
    } else {
      k := |init|;
    }
  }

  lemma {:induction false} IndexOfUpdate(h: History, k: nat)
    requires k < |h| && !h[k].RevMsg?
    ensures var n := |Updates(h[..k])|;
            n < |Updates(h)| && Updates(h)[n] == h[k] && Updates(h)[..n] == Updates(h[..k])
  {
    var init := h[..|h| - 1];
    if k < |init| {
      IndexOfUpdate(init, k);
      assert h[..k] == init[..k];
    }
  }

  lemma {:induction false} PromiseAt(h: History, n: nat) returns (k: nat)
    requires n < |Promises(h)|
    ensures k < |h| && h[k] == Promises(h)[n] && Promises(h[..k]) == Promises(h)[..n]
  {
    var init := h[..|h| - 1];
    if n < |Promises(init)| {
      k := PromiseAt(init, n);
      assert h[..k] == init[..k];
    } else {
      k := |init|;
    }
  }

  lemma {:induction false} IndexOfPromise(h: History, k: nat)
    requires k < |h| && h[k].RevMsg?
    ensures var n := |Promises(h[..k])|;
            n < |Promises(h)| && Promises(h)[n] == h[k] && Promises(h)[..n] == Promises(h[..k])
  {
    var init := h[..|h| - 1];
    if k < |init| {
      IndexOfPromise(init, k);
      assert h[..k] == init[..k];
    }
  }

  /** What comes before a message in one history and in another one that says the same. */
  predicate SameBefore(before: History, before': History, m: Msg) {
    if m.RevMsg? then Promises(before) == Promises(before') else Updates(before) == Updates(before')
  }

  lemma SamePlace(h: History, h': History, k': nat) returns (k: nat)
    requires Same(h, h') && k' < |h'|
    ensures k < |h| && h[k] == h'[k'] && SameBefore(h[..k], h'[..k'], h'[k'])
  {
    if h'[k'].RevMsg? {
      IndexOfPromise(h', k');
      k := PromiseAt(h, |Promises(h'[..k'])|);
    } else {
      IndexOfUpdate(h', k');
      k := UpdateAt(h, |Updates(h'[..k'])|);
    }
  }

  /** The lost revocation is sent again behind the updates. */
  predicate RevokesLast(sent: History, rcvd: History) {
    RevCount(sent) > RevCount(rcvd) && WasRevokeLast(sent)
  }

  /** Updates that the peer keeps stand where they stood. */
  lemma {:induction false} TrimmedPlace(h: History, k: nat)
    requires k < |Trimmed(h)| && !Trimmed(h)[k].RevMsg?
    ensures k < |h| && Trimmed(h)[k] == h[k] && Trimmed(h)[..k] == h[..k]
  {
    var init, last := h[..|h| - 1], h[|h| - 1];
    if !last.CtxMsg? {
      assert k < |Trimmed(init)|;
      TrimmedPlace(init, k);
      assert Trimmed(h)[..k] == Trimmed(init)[..k] && h[..k] == init[..k];
    }
  }

  /** Updates that are sent again come before the lost revocation, or after it. */
  lemma ReplayedPart(sent: History, rcvd: History, j: nat)
    requires j < |Retransmitted(sent, rcvd)| && !Retransmitted(sent, rcvd)[j].RevMsg?
    ensures var replay, again := Replay(sent, CtxCount(rcvd)), Retransmitted(sent, rcvd);
            if RevCount(sent) > RevCount(rcvd) && !WasRevokeLast(sent)
            then j > 0 && j - 1 < |replay| && again[j] == replay[j - 1] && again[..j] == [RevMsg] + replay[..j - 1]
            else j < |replay| && again[j] == replay[j] && again[..j] == replay[..j]
  {
  }

  lemma NoneRevoked(h: History, k: nat, i: nat)
    requires i <= |Replay(h, k)|
    ensures RevCount(Replay(h, k)[..i]) == 0
  {
    ReplayCounts(h, k);
    CountsGrow(Replay(h, k)[..i], Replay(h, k));
  }

  /** How many revocations come before an update that is sent again. */
  lemma RevokedInPart(sent: History, rcvd: History, j: nat)
    requires j < |Retransmitted(sent, rcvd)| && !Retransmitted(sent, rcvd)[j].RevMsg?
    ensures Retransmitted(sent, rcvd)[j] in Replay(sent, CtxCount(rcvd))
    ensures RevCount(Retransmitted(sent, rcvd)[..j]) ==
            if RevCount(sent) > RevCount(rcvd) && !WasRevokeLast(sent) then 1 else 0
  {
    var k := CtxCount(rcvd);
    ReplayedPart(sent, rcvd, j);
    if RevCount(sent) > RevCount(rcvd) && !WasRevokeLast(sent) {
      NoneRevoked(sent, k, j - 1);
      RevokeOnly();
      CountsJoin([RevMsg], Replay(sent, k)[..j - 1]);
    } else {
      NoneRevoked(sent, k, j);
    }
  }

  /** Updates that are sent again come after the peer's revocations, and after the lost one unless that is sent last. */
  lemma ReplayedPlace(rcvd: History, q: History, j: nat)
    requires RevCount(q) <= 1 && j < |Retransmitted(rcvd + q, rcvd)| && !Retransmitted(rcvd + q, rcvd)[j].RevMsg?
    ensures var sent := rcvd + q;
            && Retransmitted(sent, rcvd)[j] in Replay(sent, CtxCount(rcvd))
            && RevCount(Trimmed(rcvd) + Retransmitted(sent, rcvd)[..j]) ==
               if RevokesLast(sent, rcvd) then RevCount(rcvd) else RevCount(sent)
  {
    hide Retransmitted, Replay, Trimmed, RevCount, CtxCount, WasRevokeLast;
    TrimmedViews(rcvd);
    CountsJoin(rcvd, q);
    RevokedInPart(rcvd + q, rcvd, j);
    CountsJoin(Trimmed(rcvd), Retransmitted(rcvd + q, rcvd)[..j]);
  }
}
