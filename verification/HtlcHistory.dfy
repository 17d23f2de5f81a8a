/**
 A node's log is a function of two message histories: what it emitted and what it received.
 An update enters the other party's transactions at the number after the signatures sent before
 it, and its sender's own at the number after the signatures sent before the matching revocation.
 */
module HtlcHistory {
  import opened Options
  import opened HtlcLog
  import opened HtlcInvariant

  type History = seq<Msg>

  function CtxCount(h: History): nat {
    if h == [] then 0 else CtxCount(h[..|h| - 1]) + if h[|h| - 1].CtxMsg? then 1 else 0
  }

  function RevCount(h: History): nat {
    if h == [] then 0 else RevCount(h[..|h| - 1]) + if h[|h| - 1].RevMsg? then 1 else 0
  }

  function AddCount(h: History): nat {
    if h == [] then 0 else AddCount(h[..|h| - 1]) + if h[|h| - 1].AddMsg? then 1 else 0
  }

  /** The HTLC with the `i`-th id, and the number of the receiver's transaction it enters. */
  function AddedAt(h: History, i: int): Option<(UpdateAddHtlc, int)> {
    if h == [] then None
    else
      var init, last := h[..|h| - 1], h[|h| - 1];
      if AddedAt(init, i).Some? then AddedAt(init, i)
      else if last.AddMsg? && AddCount(init) == i then Some((last.htlc, CtxCount(init) + 1))
      else None
  }

  function AddCtn(h: History, i: int): Option<int> {
    if AddedAt(h, i).Some? then Some(AddedAt(h, i).value.1) else None
  }

  function RemoveCtn(h: History, k: RemoveKind, id: int): Option<int> {
    if h == [] then None
    else
      var init, last := h[..|h| - 1], h[|h| - 1];
      if RemoveCtn(init, k, id).Some? then RemoveCtn(init, k, id)
      else if last == RemoveMsg(k, id) then Some(CtxCount(init) + 1)
      else None
  }

  /** The number of the receiver's transaction that the `k`-th revocation promotes updates to. */
  function RevCtn(h: History, k: int): Option<int> {
    if k <= 0 then Some(0)
    else if h == [] then None
    else
      var init, last := h[..|h| - 1], h[|h| - 1];
      if RevCtn(init, k).Some? then RevCtn(init, k)
      else if last.RevMsg? && RevCount(init) + 1 == k then Some(CtxCount(init) + 1)
      else None
  }

  /**
   The fee rates sent, each with the receiver's transaction it enters; only the last one sent before a signature counts.
   */
  function Fees(h: History, rate0: int): (f: seq<(int, int)>)
    ensures |f| >= 1 && f[|f| - 1].1 <= CtxCount(h) + 1
  {
    if h == [] then [(rate0, 0)]
    else
      var f, last := Fees(h[..|h| - 1], rate0), h[|h| - 1];
      var n := CtxCount(h[..|h| - 1]) + 1;
      if !last.FeeMsg? then f
      else if f[|f| - 1].1 == n then f[|f| - 1 := (last.rate, n)]
      else f + [(last.rate, n)]
  }

  // ----- basic laws

  lemma {:induction false} RevKnown(h: History, k: int)
    ensures RevCtn(h, k).Some? <==> k <= RevCount(h)
    ensures RevCtn(h, k).Some? ==> RevCtn(h, k).value <= CtxCount(h) + 1
  {
    if h != [] {
      RevKnown(h[..|h| - 1], k);
    }
  }

  lemma {:induction false} AddKnown(h: History, i: int)
    ensures AddCtn(h, i).Some? <==> 0 <= i < AddCount(h)
    ensures AddCtn(h, i).Some? ==> 1 <= AddCtn(h, i).value <= CtxCount(h) + 1
  {
    if h != [] {
      AddKnown(h[..|h| - 1], i);
    }
  }

  // ----- longer histories

  lemma {:induction false} CountsGrow(q: History, h: History)
    requires q <= h
    ensures CtxCount(q) <= CtxCount(h) && RevCount(q) <= RevCount(h) && AddCount(q) <= AddCount(h)
    decreases |h|
  {
    if q != h {
      CountsGrow(q, h[..|h| - 1]);
    }
  }

  /** Up to the signatures counted in the shorter history, both histories place every update alike. */
  predicate Alike(x: Option<int>, y: Option<int>, upTo: int) {
    (x.Some? ==> y == x) && (y.Some? && x.None? ==> y.value > upTo)
  }

  lemma {:induction false} AddsAlike(q: History, h: History, i: int)
    requires q <= h
    ensures Alike(AddCtn(q, i), AddCtn(h, i), CtxCount(q))
    ensures AddedAt(q, i).Some? ==> AddedAt(h, i) == AddedAt(q, i)
    decreases |h|
  {
    if q != h {
      AddsAlike(q, h[..|h| - 1], i);
      CountsGrow(q, h[..|h| - 1]);
    }
  }

  lemma {:induction false} RemovesAlike(q: History, h: History, k: RemoveKind, id: int)
    requires q <= h
    ensures Alike(RemoveCtn(q, k, id), RemoveCtn(h, k, id), CtxCount(q))
    decreases |h|
  {
    if q != h {
      RemovesAlike(q, h[..|h| - 1], k, id);
      CountsGrow(q, h[..|h| - 1]);
    }
  }

  lemma {:induction false} RevsAlike(q: History, h: History, k: int)
    requires q <= h
    ensures Alike(RevCtn(q, k), RevCtn(h, k), CtxCount(q))
    decreases |h|
  {
    if q != h {
      RevsAlike(q, h[..|h| - 1], k);
      CountsGrow(q, h[..|h| - 1]);
    }
  }

  predicate FeesAlike(f: seq<(int, int)>, g: seq<(int, int)>, upTo: int) {
    && |f| <= |g|
    && (forall j :: 0 <= j < |f| && f[j].1 <= upTo ==> g[j] == f[j])
    && (forall j :: 0 <= j < |g| && g[j].1 <= upTo ==> j < |f| && f[j] == g[j])
  }

  lemma {:induction false} FeeLogsAlike(q: History, h: History, rate0: int)
    requires q <= h
    ensures FeesAlike(Fees(q, rate0), Fees(h, rate0), CtxCount(q))
    decreases |h|
  {
    if q != h {
      FeeLogsAlike(q, h[..|h| - 1], rate0);
      CountsGrow(q, h[..|h| - 1]);
    }
  }

  // ----- the log that the histories determine

  /** `c` enters `f`'s transactions at `first`, and the other party's with `f`'s `first`-th revocation in `revs`. */
  predicate Places(c: Ctns, f: Owner, first: Option<int>, revs: History) {
    && first.Some?
    && c.At(f) == first
    && c.At(f.Inverted()) == RevCtn(revs, first.value)
  }

  ghost predicate AddsMatch(s: SideLog, p: Owner, hp: History, hq: History) {
    && s.nextHtlcId == AddCount(hp)
    && s.adds.Keys == s.lockedIn.Keys
    && (forall i :: i in s.lockedIn <==> 0 <= i < AddCount(hp))
    && (forall i :: i in s.lockedIn ==>
          && Places(s.lockedIn[i], p.Inverted(), AddCtn(hp, i), hq)
          && s.adds[i] == AddedAt(hp, i).value.0)
  }

  ghost predicate RemovalsMatch(m: map<int, Ctns>, p: Owner, k: RemoveKind, hp: History, hq: History) {
    && (forall i :: i in m <==> RemoveCtn(hq, k, i).Some?)
    && (forall i :: i in m ==> Places(m[i], p, RemoveCtn(hq, k, i), hp))
  }

  ghost predicate FeesMatch(m: map<int, FeeUpdate>, p: Owner, f: seq<(int, int)>, hq: History) {
    && |m| == |f|
    && (forall j :: j in m <==> 0 <= j < |f|)
    && (forall j :: j in m ==> m[j].rate == f[j].0 && Places(m[j].ctns, p.Inverted(), Some(f[j].1), hq))
  }

  /** What `p` offered, as told by the messages `hp` that `p` emitted and `hq` that the other party did. */
  ghost predicate SideMatches(s: SideLog, p: Owner, hp: History, hq: History, rate0: int) {
    && AddsMatch(s, p, hp, hq)
    && RemovalsMatch(s.settles, p, Settle, hp, hq)
    && RemovalsMatch(s.fails, p, Fail, hp, hq)
    && FeesMatch(s.feeUpdates, p, Fees(hp, rate0), hq)
  }

  ghost predicate CountersMatch(l: Log, o: Owner, ho: History, hq: History) {
    && l.CtnOldestUnrevoked(o) == RevCount(ho)
    && l.CtnLatest(o) == CtxCount(hq)
  }

  ghost predicate SidesMatch(l: Log, p: Owner, hp: History, hq: History, rate0: int) {
    && SideMatches(l.Side(p), p, hp, hq, rate0)
    && SideMatches(l.Side(p.Inverted()), p.Inverted(), hq, hp, rate0)
  }

  ghost predicate Matches(l: Log, p: Owner, hp: History, hq: History, rate0: int) {
    && CountersMatch(l, p, hp, hq)
    && CountersMatch(l, p.Inverted(), hq, hp)
    && SidesMatch(l, p, hp, hq, rate0)
  }
}
