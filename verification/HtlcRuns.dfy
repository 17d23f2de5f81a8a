/**
 Every run of one node after the channel opened: the invariant holds, signed commitments are
 frozen, and irrevocable updates stay so.
 */
module HtlcRuns {
  import opened Options
  import opened HtlcLog
  import opened HtlcInvariant
  import opened HtlcDiscard
  import opened HtlcCommitment

  datatype Action = Emit(o: Owner, m: Msg) | DiscardUnsignedRemoteUpdates

  /** One action; only `payer` updates fees. None when the action raises an exception. */
  ghost function Step(l: Log, payer: Owner, a: Action): Option<Log> {
    match a
    case Emit(o, m) => if m.FeeMsg? && o != payer then None else Apply(l, o, m)
    case DiscardUnsignedRemoteUpdates => Some(DiscardUnsigned(l))
  }

  /** The log after the actions; an action that raises leaves the log as it was. */
  ghost function Run(l: Log, payer: Owner, actions: seq<Action>): Log
    decreases |actions|
  {
    if actions == [] then l
    else
      var r := Step(l, payer, actions[0]);
      Run(if r.Some? then r.value else l, payer, actions[1..])
  }

  // ----- what was signed stays as it was signed, one side of the log at a time

  lemma AddFrozen(s: SideLog, p: Owner, h: UpdateAddHtlc, next: int, o: Owner, n: int)
    requires AddsOk(s, p.Inverted()) && h.htlcId == s.nextHtlcId
    requires o == p.Inverted() ==> n < next
    ensures SameSide(s, o, AddedSide(s, p, h, next), o, n)
  {
  }

  lemma RemoveFrozen(s: SideLog, p: Owner, k: RemoveKind, id: int, next: int, o: Owner, n: int)
    requires AddsOk(s, p.Inverted())
    requires id !in s.settles && id !in s.fails
    requires o == p ==> n < next
    ensures SameSide(s, o, RemovedSide(s, p, k, id, next), o, n)
  {
  }

  lemma FeeFrozen(s: SideLog, p: Owner, at: int, rate: int, next: int, o: Owner, n: int)
    requires AddsOk(s, p.Inverted())
    requires FeePlace(s.feeUpdates, p.Inverted(), next - 1, at) && |s.feeUpdates| !in s.feeUpdates
    requires at in s.feeUpdates ==> s.feeUpdates[at].ctns.At(p).None?
    requires o == p.Inverted() ==> n < next
    ensures SameSide(s, o, FeeSide(s, p, at, rate, next), o, n)
  {
  }

  lemma PromoteFrozen(m: map<int, Ctns>, r: Owner, upTo: int, next: int, o: Owner, n: int)
    requires o == r.Inverted() ==> n < next
    ensures SameUpTo(m, o, PromoteAll(m, r, upTo, next), o, n)
  {
  }

  lemma PromoteFeesFrozen(m: map<int, FeeUpdate>, r: Owner, upTo: int, next: int, o: Owner, n: int)
    requires o == r.Inverted() ==> n < next
    ensures SameFees(m, o, PromoteFees(m, r, upTo, next), o, n)
  {
  }

  lemma RevokedSidesFrozen(s: SideLog, f: Owner, r: Owner, upTo: int, next: int, o: Owner, n: int)
    requires AddsOk(s, f)
    requires o == r.Inverted() ==> n < next
    ensures SameSide(s, o, RevokedOwnSide(s, r, upTo, next), o, n)
    ensures SameSide(s, o, RevokedOtherSide(s, r, upTo, next), o, n)
  {
    PromoteFrozen(s.lockedIn, r, upTo, next, o, n);
    PromoteFrozen(s.settles, r, upTo, next, o, n);
    PromoteFrozen(s.fails, r, upTo, next, o, n);
    PromoteFeesFrozen(s.feeUpdates, r, upTo, next, o, n);
  }

  lemma SameSideReflexive(s: SideLog, f: Owner, o: Owner, n: int)
    requires AddsOk(s, f)
    ensures SameSide(s, o, s, o, n)
  {
  }

  // ----- every action

  lemma CommitmentSides(l: Log, l': Log, p: Owner, sp: SideLog, sp': SideLog, sq: SideLog, sq': SideLog, o: Owner,
                        n: int)
    requires l.Side(p) == sp && l'.Side(p) == sp' && l.Side(p.Inverted()) == sq && l'.Side(p.Inverted()) == sq'
    requires SameSide(sp, o, sp', o, n) && SameSide(sq, o, sq', o, n)
    ensures SameCommitment(l, o, l', o, n)
  {
  }

  lemma AddHtlcFrozen(l: Log, p: Owner, h: UpdateAddHtlc, l': Log, o: Owner, n: int)
    requires Inv(l) && AddHtlc(l, p, h) == Some(l') && n <= l.CtnLatest(o)
    ensures SameCommitment(l, o, l', o, n)
  {
    var sp, wp, sq, wq := l.Side(p), l.Unrevoked(p), l.Side(p.Inverted()), l.Unrevoked(p.Inverted());
    Disassemble(l, p, sp, wp, sq, wq);
    AddFrozen(sp, p, h, wq.latest + 1, o, n);
    WithSide(l, p, AddedSide(sp, p, h, wq.latest + 1));
    SameSideReflexive(sq, p, o, n);
    CommitmentSides(l, l', p, sp, AddedSide(sp, p, h, wq.latest + 1), sq, sq, o, n);
  }

  lemma RemoveHtlcFrozen(l: Log, p: Owner, k: RemoveKind, id: int, l': Log, o: Owner, n: int)
    requires Inv(l) && RemoveHtlc(l, p, k, id) == Some(l') && n <= l.CtnLatest(o)
    ensures SameCommitment(l, o, l', o, n)
  {
    var sp, wp, sq, wq := l.Side(p), l.Unrevoked(p), l.Side(p.Inverted()), l.Unrevoked(p.Inverted());
    Disassemble(l, p, sp, wp, sq, wq);
    RemovedOnce(l, p, id);
    RemoveFrozen(sp, p, k, id, wp.latest + 1, o, n);
    WithSide(l, p, RemovedSide(sp, p, k, id, wp.latest + 1));
    SameSideReflexive(sq, p, o, n);
    CommitmentSides(l, l', p, sp, RemovedSide(sp, p, k, id, wp.latest + 1), sq, sq, o, n);
  }

  /** A fee update that gets overwritten is in effect nowhere yet. */
  lemma FeeIndexFree(l: Log, m: map<int, FeeUpdate>, f: Owner)
    requires FeesOk(m, f, l.Unrevoked(f), l.Unrevoked(f.Inverted())) && l.Unrevoked(f).oldest <= l.Unrevoked(f).latest
    ensures FeePlace(m, f, l.Unrevoked(f).latest, FeeIndex(l, m)) && |m| !in m
    ensures FeeIndex(l, m) in m ==> m[FeeIndex(l, m)].ctns.At(f.Inverted()).None?
  {
    FeeIndexPlace(l, m, f, l.Unrevoked(f), l.Unrevoked(f.Inverted()));
    var at := FeeIndex(l, m);
    assert at in m ==> UpdateOk(m[at].ctns, f, l.Unrevoked(f), l.Unrevoked(f.Inverted()));
  }

  lemma NewFeeFrozen(l: Log, p: Owner, rate: int, l': Log, o: Owner, n: int)
    requires Inv(l) && NewFee(l, p, rate) == Some(l') && n <= l.CtnLatest(o)
    ensures SameCommitment(l, o, l', o, n)
  {
    hide Inv, SideOk, SameSide, SameCommitment, FeeIndex, FeePlace;
    var sp, wp, sq, wq := l.Side(p), l.Unrevoked(p), l.Side(p.Inverted()), l.Unrevoked(p.Inverted());
    Disassemble(l, p, sp, wp, sq, wq);
    FeeIndexFree(l, sp.feeUpdates, p.Inverted());
    var at := FeeIndex(l, sp.feeUpdates);
    FeeFrozen(sp, p, at, rate, wq.latest + 1, o, n);
    WithSide(l, p, FeeSide(sp, p, at, rate, wq.latest + 1));
    SameSideReflexive(sq, p, o, n);
    CommitmentSides(l, l', p, sp, FeeSide(sp, p, at, rate, wq.latest + 1), sq, sq, o, n);
  }

  lemma SignCtxFrozen(l: Log, r: Owner, l': Log, o: Owner, n: int)
    requires Inv(l) && SignCtx(l, r) == Some(l')
    ensures SameCommitment(l, o, l', o, n)
  {
    SameSideReflexive(l.local, REMOTE, o, n);
    SameSideReflexive(l.remote, LOCAL, o, n);
  }

  lemma BothSidesFrozen(l: Log, r: Owner, sr': SideLog, sq': SideLog, o: Owner, n: int)
    requires SameSide(l.Side(r), o, sr', o, n) && SameSide(l.Side(r.Inverted()), o, sq', o, n)
    ensures SameCommitment(l, o, l.With(r, sr').With(r.Inverted(), sq'), o, n)
  {
  }

  lemma AddsOfSides(l: Log, p: Owner)
    requires Inv(l)
    ensures AddsOk(l.Side(p), p.Inverted()) && AddsOk(l.Side(p.Inverted()), p)
  {
  }

  lemma RevokedLogFrozen(l: Log, r: Owner, sr: SideLog, sq: SideLog, upTo: int, next: int, l': Log, o: Owner, n: int)
    requires sr == l.Side(r) && sq == l.Side(r.Inverted()) && AddsOk(sr, r.Inverted()) && AddsOk(sq, r)
    requires l' == RevokedLog(l, r, upTo, next)
    requires o == r.Inverted() ==> n < next
    ensures SameCommitment(l, o, l', o, n)
  {
    RevokedSidesFrozen(sr, r.Inverted(), r, upTo, next, o, n);
    RevokedSidesFrozen(sq, r, r, upTo, next, o, n);
    BothSidesFrozen(l, r, RevokedOwnSide(sr, r, upTo, next), RevokedOtherSide(sq, r, upTo, next), o, n);
  }

  lemma RevokeFrozen(l: Log, r: Owner, l': Log, o: Owner, n: int)
    requires AddsOk(l.Side(r), r.Inverted()) && AddsOk(l.Side(r.Inverted()), r)
    requires Revoke(l, r) == Some(l') && n <= l.CtnLatest(o)
    ensures SameCommitment(l, o, l', o, n)
  {
    var q := r.Inverted();
    RevokedLogFrozen(l, r, l.Side(r), l.Side(q), l.Side(r).ctn + 1, l.CtnLatest(q) + 1, l', o, n);
  }

  lemma ApplyFrozen(l: Log, r: Owner, m: Msg, o: Owner, n: int)
    requires Inv(l) && Apply(l, r, m).Some? && n <= l.CtnLatest(o)
    ensures SameCommitment(l, o, Apply(l, r, m).value, o, n)
  {
    match m
    case AddMsg(h) => AddHtlcFrozen(l, r, h, Apply(l, r, m).value, o, n);
    case RemoveMsg(k, id) => RemoveHtlcFrozen(l, r.Inverted(), k, id, Apply(l, r, m).value, o, n);
    case FeeMsg(rate) => NewFeeFrozen(l, r, rate, Apply(l, r, m).value, o, n);
    case CtxMsg => SignCtxFrozen(l, r.Inverted(), Apply(l, r, m).value, o, n);
    case RevMsg =>
      AddsOfSides(l, r);
      RevokeFrozen(l, r, Apply(l, r, m).value, o, n);
  }

  lemma DiscardFrozen(l: Log, o: Owner, n: int)
    requires Inv(l) && n <= l.CtnLatest(o)
    ensures SameCommitment(l, o, DiscardUnsigned(l), o, n)
  {
    DiscardAdds(l);
    UnsignedNotInEffect(l, l.remote.lockedIn, o, n);
    UnsignedNotInEffect(l, l.local.settles, o, n);
    UnsignedNotInEffect(l, l.local.fails, o, n);
    UnsignedNotInEffect(l, CtnsOf(l.remote.feeUpdates), o, n);
    SignedPrefix(l, l.remote.lockedIn, l.remote.nextHtlcId, l.remote.nextHtlcId);
    var l' := DiscardUnsigned(l);
    assert SameUpTo(l.remote.lockedIn, o, l'.remote.lockedIn, o, n);
    assert SameUpTo(l.local.settles, o, l'.local.settles, o, n);
    assert SameUpTo(l.local.fails, o, l'.local.fails, o, n);
    assert SameFees(l.remote.feeUpdates, o, l'.remote.feeUpdates, o, n) by {
      assert forall k :: FeeInEffect(l.remote.feeUpdates, k, o, n) <==> InEffect(CtnsOf(l.remote.feeUpdates), k, o, n);
    }
  }

  /** An update of the remote that is not signed is in effect in no signed transaction. */
  lemma UnsignedNotInEffect(l: Log, m: map<int, Ctns>, o: Owner, n: int)
    requires AllOk(m, LOCAL, l.Unrevoked(LOCAL), l.Unrevoked(REMOTE)) && n <= l.CtnLatest(o)
    requires l.CtnOldestUnrevoked(LOCAL) <= l.CtnLatest(LOCAL)
    ensures forall id :: InEffect(m, id, o, n) ==> Signed(l, m[id])
  {
    forall id | InEffect(m, id, o, n)
      ensures Signed(l, m[id])
    {
      assert UpdateOk(m[id], LOCAL, l.Unrevoked(LOCAL), l.Unrevoked(REMOTE));
    }
  }

  // ----- every run

  lemma StepKeeps(l: Log, payer: Owner, a: Action)
    requires Inv(l) && Step(l, payer, a).Some?
    ensures Inv(Step(l, payer, a).value)
  {
    match a
    case Emit(o, m) => ApplyKeeps(l, o, m);
    case DiscardUnsignedRemoteUpdates => DiscardKeeps(l);
  }

  lemma StepFrozen(l: Log, payer: Owner, a: Action, o: Owner, n: int)
    requires Inv(l) && Step(l, payer, a).Some? && n <= l.CtnLatest(o)
    ensures SameCommitment(l, o, Step(l, payer, a).value, o, n)
  {
    match a
    case Emit(r, m) => ApplyFrozen(l, r, m, o, n);
    case DiscardUnsignedRemoteUpdates => DiscardFrozen(l, o, n);
  }

  lemma ApplyCounters(l: Log, r: Owner, m: Msg, o: Owner)
    requires Apply(l, r, m).Some?
    ensures l.CtnOldestUnrevoked(o) <= Apply(l, r, m).value.CtnOldestUnrevoked(o)
    ensures l.CtnLatest(o) <= Apply(l, r, m).value.CtnLatest(o)
  {
  }

  lemma StepCounters(l: Log, payer: Owner, a: Action, o: Owner)
    requires Step(l, payer, a).Some?
    ensures l.CtnOldestUnrevoked(o) <= Step(l, payer, a).value.CtnOldestUnrevoked(o)
    ensures l.CtnLatest(o) <= Step(l, payer, a).value.CtnLatest(o)
  {
    if a.Emit? {
      ApplyCounters(l, a.o, a.m, o);
    }
  }

  lemma StepPayer(l: Log, payer: Owner, a: Action)
    requires Inv(l) && FeePayer(l, payer) && Step(l, payer, a).Some?
    ensures FeePayer(Step(l, payer, a).value, payer)
  {
    if a.Emit? && a.m.RevMsg? {
      var q := payer.Inverted();
      var m := l.Side(q).feeUpdates;
      assert PromoteFees(m, a.o, l.Side(a.o).ctn + 1, l.CtnLatest(a.o.Inverted()) + 1).Keys == m.Keys;
    } else if a.DiscardUnsignedRemoteUpdates? {
      DiscardFees(l);
    }
  }

  lemma {:induction false} RunKeeps(l: Log, payer: Owner, actions: seq<Action>)
    requires Inv(l) && FeePayer(l, payer)
    ensures Inv(Run(l, payer, actions)) && FeePayer(Run(l, payer, actions), payer)
    decreases |actions|
  {
    if actions != [] {
      var r := Step(l, payer, actions[0]);
      if r.Some? {
        StepKeeps(l, payer, actions[0]);
        StepPayer(l, payer, actions[0]);
      }
      RunKeeps(if r.Some? then r.value else l, payer, actions[1..]);
    }
  }

  lemma {:induction false} RunCounters(l: Log, payer: Owner, actions: seq<Action>, o: Owner)
    requires Inv(l)
    ensures l.CtnOldestUnrevoked(o) <= Run(l, payer, actions).CtnOldestUnrevoked(o)
    ensures l.CtnLatest(o) <= Run(l, payer, actions).CtnLatest(o)
    decreases |actions|
  {
    if actions != [] {
      var r := Step(l, payer, actions[0]);
      if r.Some? {
        StepKeeps(l, payer, actions[0]);
        StepCounters(l, payer, actions[0], o);
      }
      RunCounters(if r.Some? then r.value else l, payer, actions[1..], o);
    }
  }

  lemma {:induction false} RunSame(l: Log, payer: Owner, actions: seq<Action>, o: Owner, n: int)
    requires Inv(l) && n <= l.CtnLatest(o)
    ensures SameCommitment(l, o, Run(l, payer, actions), o, n)
    decreases |actions|
  {
    if actions == [] {
      SameSideReflexive(l.local, REMOTE, o, n);
      SameSideReflexive(l.remote, LOCAL, o, n);
    } else {
      var r := Step(l, payer, actions[0]);
      if r.Some? {
        StepKeeps(l, payer, actions[0]);
        StepCounters(l, payer, actions[0], o);
        StepFrozen(l, payer, actions[0], o, n);
        RunSame(r.value, payer, actions[1..], o, n);
        var l'' := Run(r.value, payer, actions[1..]);
        SameSideTransitive(l.Side(o), r.value.Side(o), l''.Side(o), o, n);
        SameSideTransitive(l.Side(o.Inverted()), r.value.Side(o.Inverted()), l''.Side(o.Inverted()), o, n);
      } else {
        RunSame(l, payer, actions[1..], o, n);
      }
    }
  }

  /** Whatever happens after a transaction was signed, its HTLCs, balances and fee rate read the same. */
  lemma SignedCommitmentsAreFrozen(l: Log, payer: Owner, actions: seq<Action>, o: Owner, n: int)
    requires Inv(l) && FeePayer(l, payer) && n <= l.CtnLatest(o)
    ensures var l' := Run(l, payer, actions);
            && (forall p, id :: IsActive(l', o, n, p, id) <==> IsActive(l, o, n, p, id))
            && (forall p, id :: IsActive(l, o, n, p, id) ==>
                  id in l.Side(p).adds && id in l'.Side(p).adds && l'.Side(p).adds[id] == l.Side(p).adds[id])
            && (forall whose, initial :: Balance(l', whose, o, n, initial) == Balance(l, whose, o, n, initial))
            && Feerate(l', o, n) == Feerate(l, o, n)
  {
    var l' := Run(l, payer, actions);
    RunKeeps(l, payer, actions);
    RunSame(l, payer, actions, o, n);
    forall p, id
      ensures IsActive(l', o, n, p, id) <==> IsActive(l, o, n, p, id)
      ensures IsActive(l, o, n, p, id) ==>
                id in l.Side(p).adds && id in l'.Side(p).adds && l'.Side(p).adds[id] == l.Side(p).adds[id]
    {
      SameHtlcs(l, o, l', o, n, p, id);
    }
    forall whose, initial
      ensures Balance(l', whose, o, n, initial) == Balance(l, whose, o, n, initial)
    {
      SameBalances(l, o, l', o, n, whose, initial);
    }
    var n0 := if n < 0 then 0 else n;
    RunSame(l, payer, actions, o, n0);
    SameFeerate(l, o, l', o, n0, payer);
  }

  /** Irrevocably added or removed, once true, stays true. */
  lemma IrrevocableForever(l: Log, payer: Owner, actions: seq<Action>, o: Owner, p: Owner, id: int)
    requires Inv(l) && FeePayer(l, payer)
    ensures IrrevocablyAdded(l, o, p, id) ==> IrrevocablyAdded(Run(l, payer, actions), o, p, id)
    ensures IrrevocablyRemoved(l, o, p, id) ==> IrrevocablyRemoved(Run(l, payer, actions), o, p, id)
  {
    var l', n := Run(l, payer, actions), l.CtnOldestUnrevoked(o);
    RunKeeps(l, payer, actions);
    RunCounters(l, payer, actions, o);
    RunSame(l, payer, actions, o, n);
    assert SameSide(l.Side(p), o, l'.Side(p), o, n);
    assert AddsOk(l'.Side(p), p.Inverted());
    if IrrevocablyRemoved(l, o, p, id) {
      var m' := if InEffect(l.Side(p).settles, id, o, n) then l'.Side(p).settles else l'.Side(p).fails;
      assert InEffect(m', id, o, n);
      assert RemovalsOk(l'.Side(p).settles, l'.Side(p).lockedIn) && RemovalsOk(l'.Side(p).fails, l'.Side(p).lockedIn);
    }
  }
}
