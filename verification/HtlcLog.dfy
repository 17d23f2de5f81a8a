/**
 The log of the Lightning commitment-number state machine and its transitions, as values.

 Every action of the manager comes in a `send_` and a `recv_` form. Seen from the log both
 are "owner `o` emits message `m`": sending is the LOCAL owner emitting, receiving is the REMOTE
 owner emitting. `Apply` is that one transition; `HtlcManager.HTLCManager` holds the in-place methods.
 */
module HtlcLog {
  import opened Options

  datatype Owner = LOCAL | REMOTE {
    function Inverted(): Owner {
      if LOCAL? then REMOTE else LOCAL
    }
    /** Electrum uses the owner as the number +1 or -1. */
    function Sign(): int {
      if LOCAL? then 1 else -1
    }
  }

  datatype UpdateAddHtlc = UpdateAddHtlc(htlcId: int, amountMsat: int, paymentHash: seq<int>, cltvAbs: int)

  /** In which commitment number of each party's transaction an update takes effect. */
  datatype Ctns = Ctns(local: Option<int>, remote: Option<int>) {
    function At(o: Owner): Option<int> {
      if o.LOCAL? then local else remote
    }
    function With(o: Owner, n: int): Ctns {
      if o.LOCAL? then this.(local := Some(n)) else this.(remote := Some(n))
    }
  }

  /** An update that so far only takes effect in `o`'s transactions, from number `n` on. */
  function Pending(o: Owner, n: int): Ctns {
    Ctns(None, None).With(o, n)
  }

  datatype FeeUpdate = FeeUpdate(rate: int, ctns: Ctns)

  datatype RemoveKind = Settle | Fail

  datatype SideLog = SideLog(
    adds: map<int, UpdateAddHtlc>,
    lockedIn: map<int, Ctns>,
    settles: map<int, Ctns>,
    fails: map<int, Ctns>,
    feeUpdates: map<int, FeeUpdate>,
    revackPending: bool,
    nextHtlcId: int,
    ctn: int)
  {
    function Removals(k: RemoveKind): map<int, Ctns> {
      if k.Settle? then settles else fails
    }
    function WithRemovals(k: RemoveKind, m: map<int, Ctns>): SideLog {
      if k.Settle? then this.(settles := m) else this.(fails := m)
    }
  }

  /** The unrevoked transactions of one party: numbers `oldest` to `latest`. */
  datatype Window = Window(oldest: int, latest: int)

  datatype Log = Log(local: SideLog, remote: SideLog) {
    function Side(o: Owner): SideLog {
      if o.LOCAL? then local else remote
    }
    function With(o: Owner, s: SideLog): Log {
      if o.LOCAL? then this.(local := s) else this.(remote := s)
    }
    function CtnOldestUnrevoked(o: Owner): int {
      Side(o).ctn
    }
    function CtnLatest(o: Owner): int {
      Side(o).ctn + if Side(o).revackPending then 1 else 0
    }
    function Unrevoked(o: Owner): Window {
      Window(CtnOldestUnrevoked(o), CtnLatest(o))
    }
  }

  lemma WithSide(l: Log, p: Owner, s: SideLog)
    ensures l.With(p, s).Side(p) == s && l.With(p, s).Side(p.Inverted()) == l.Side(p.Inverted())
    ensures s.ctn == l.Side(p).ctn && s.revackPending == l.Side(p).revackPending ==>
              forall o: Owner :: l.With(p, s).Unrevoked(o) == l.Unrevoked(o)
  {
  }

  datatype Msg =
    | AddMsg(htlc: UpdateAddHtlc)
    | RemoveMsg(kind: RemoveKind, id: int)
    | FeeMsg(rate: int)
    | CtxMsg
    | RevMsg

  // ----- queries

  /** The update recorded for `id` takes effect in `o`'s transaction number `n` (and so in all later ones). */
  predicate InEffect(m: map<int, Ctns>, id: int, o: Owner, n: int) {
    id in m && Le(m[id].At(o), n)
  }

  /** Is the HTLC `id` offered by `p` part of `o`'s transaction number `n`? */
  predicate IsActive(l: Log, o: Owner, n: int, p: Owner, id: int) {
    var s := l.Side(p);
    && id < s.nextHtlcId
    && InEffect(s.lockedIn, id, o, n)
    && !InEffect(s.settles, id, o, n)
    && !InEffect(s.fails, id, o, n)
  }

  predicate IrrevocablyAdded(l: Log, o: Owner, p: Owner, id: int) {
    id < l.Side(p).nextHtlcId && InEffect(l.Side(p).lockedIn, id, o, l.CtnOldestUnrevoked(o))
  }

  predicate IrrevocablyRemoved(l: Log, o: Owner, p: Owner, id: int) {
    && id < l.Side(p).nextHtlcId
    && (InEffect(l.Side(p).settles, id, o, l.CtnOldestUnrevoked(o)) ||
        InEffect(l.Side(p).fails, id, o, l.CtnOldestUnrevoked(o)))
  }

  /** Total amount of the HTLCs below id `k` in `s` that are settled in `o`'s transaction `n`. */
  function SettledSum(s: SideLog, o: Owner, n: int, k: nat): int {
    if k == 0 then 0
    else
      SettledSum(s, o, n, k - 1) +
      if InEffect(s.settles, k - 1, o, n) && k - 1 in s.adds then s.adds[k - 1].amountMsat else 0
  }

  function SettledTotal(s: SideLog, o: Owner, n: int): int {
    SettledSum(s, o, n, if s.nextHtlcId < 0 then 0 else s.nextHtlcId)
  }

  /** Balance of `whose` in `o`'s transaction `n`, computed from the whole log. */
  function Balance(l: Log, whose: Owner, o: Owner, n: int, initial: int): int {
    initial - SettledTotal(l.Side(whose), o, n) + SettledTotal(l.Side(whose.Inverted()), o, n)
  }

  /** The largest index up to `k` whose fee update takes effect in `o`'s transaction `n` (index 0 otherwise). */
  function LastFee(m: map<int, FeeUpdate>, o: Owner, n: int, k: nat): (i: nat)
    ensures i <= k
  {
    if k == 0 then 0
    else if k in m && Le(m[k].ctns.At(o), n) then k
    else LastFee(m, o, n, k - 1)
  }

  /** The log of the only party that updates fees, as the manager picks it. */
  function FeeLog(l: Log): map<int, FeeUpdate> {
    if |l.remote.feeUpdates| > 1 then l.remote.feeUpdates else l.local.feeUpdates
  }

  function FeerateOf(m: map<int, FeeUpdate>, o: Owner, n: int): Option<int> {
    if m == map[] then None
    else
      var i := LastFee(m, o, n, |m| - 1);
      if i in m then Some(m[i].rate) else None
  }

  /** Fee rate of `o`'s transaction `n`; negative numbers count as 0. */
  function Feerate(l: Log, o: Owner, n: int): Option<int> {
    FeerateOf(FeeLog(l), o, if n < 0 then 0 else n)
  }

  // ----- transitions

  function AddedSide(s: SideLog, p: Owner, h: UpdateAddHtlc, n: int): SideLog {
    s.(adds := s.adds[h.htlcId := h],
       lockedIn := s.lockedIn[h.htlcId := Pending(p.Inverted(), n)],
       nextHtlcId := s.nextHtlcId + 1)
  }

  function AddHtlc(l: Log, p: Owner, h: UpdateAddHtlc): Option<Log> {
    if h.htlcId != l.Side(p).nextHtlcId then None
    else Some(l.With(p, AddedSide(l.Side(p), p, h, l.CtnLatest(p.Inverted()) + 1)))
  }

  function RemovedSide(s: SideLog, p: Owner, k: RemoveKind, id: int, n: int): SideLog {
    s.WithRemovals(k, s.Removals(k)[id := Pending(p, n)])
  }

  /** Settle or fail an HTLC offered by `p`; the other party is the one that removes it. */
  function RemoveHtlc(l: Log, p: Owner, k: RemoveKind, id: int): Option<Log> {
    var next := l.CtnLatest(p) + 1;
    if !IsActive(l, p, next, p, id) then None
    else Some(l.With(p, RemovedSide(l.Side(p), p, k, id, next)))
  }

  predicate Uncommitted(l: Log, c: Ctns) {
    forall o: Owner :: !Le(c.At(o), l.CtnLatest(o))
  }

  function FeeSide(s: SideLog, p: Owner, at: int, rate: int, n: int): SideLog {
    s.(feeUpdates := s.feeUpdates[at := FeeUpdate(rate, Pending(p.Inverted(), n))])
  }

  /** A fee update replaces the last one as long as nobody has committed to that one. */
  function FeeIndex(l: Log, m: map<int, FeeUpdate>): int
    requires |m| - 1 in m
  {
    if Uncommitted(l, m[|m| - 1].ctns) then |m| - 1 else |m|
  }

  function NewFee(l: Log, p: Owner, rate: int): Option<Log> {
    if |l.Side(p).feeUpdates| - 1 !in l.Side(p).feeUpdates then None
    else Some(l.With(p, FeeSide(l.Side(p), p, FeeIndex(l, l.Side(p).feeUpdates), rate, l.CtnLatest(p.Inverted()) + 1)))
  }

  /** `o` is handed a signature for its next transaction. */
  function SignCtx(l: Log, o: Owner): Option<Log> {
    if l.CtnLatest(o) != l.CtnOldestUnrevoked(o) then None
    else Some(l.With(o, l.Side(o).(revackPending := true)))
  }

  function Promote(c: Ctns, o: Owner, upTo: int, n: int): Ctns {
    if c.At(o.Inverted()).None? && Le(c.At(o), upTo) then c.With(o.Inverted(), n) else c
  }

  function PromoteAll(m: map<int, Ctns>, o: Owner, upTo: int, n: int): map<int, Ctns> {
    map id | id in m :: Promote(m[id], o, upTo, n)
  }

  function PromoteFees(m: map<int, FeeUpdate>, o: Owner, upTo: int, n: int): map<int, FeeUpdate> {
    map k | k in m :: m[k].(ctns := Promote(m[k].ctns, o, upTo, n))
  }

  function RevokedOwnSide(s: SideLog, o: Owner, upTo: int, n: int): SideLog {
    s.(ctn := upTo,
       revackPending := false,
       settles := PromoteAll(s.settles, o, upTo, n),
       fails := PromoteAll(s.fails, o, upTo, n))
  }

  function RevokedOtherSide(s: SideLog, o: Owner, upTo: int, n: int): SideLog {
    s.(lockedIn := PromoteAll(s.lockedIn, o, upTo, n),
       feeUpdates := PromoteFees(s.feeUpdates, o, upTo, n))
  }

  function RevokedLog(l: Log, o: Owner, upTo: int, n: int): Log {
    var q := o.Inverted();
    l.With(o, RevokedOwnSide(l.Side(o), o, upTo, n)).With(q, RevokedOtherSide(l.Side(q), o, upTo, n))
  }

  /** `o` revokes its oldest transaction; what `o` can no longer take back enters the other party's next transaction. */
  function Revoke(l: Log, o: Owner): Option<Log> {
    if !l.Side(o).revackPending then None
    else
      Some(RevokedLog(l, o, l.Side(o).ctn + 1, l.CtnLatest(o.Inverted()) + 1))
  }

  /** Owner `o` emits `m`: `send_*` for LOCAL, `recv_*` for REMOTE. None is a raised exception. */
  function Apply(l: Log, o: Owner, m: Msg): Option<Log> {
    match m
    case AddMsg(h) => AddHtlc(l, o, h)
    case RemoveMsg(k, id) => RemoveHtlc(l, o.Inverted(), k, id)
    case FeeMsg(rate) => NewFee(l, o, rate)
    case CtxMsg => SignCtx(l, o.Inverted())
    case RevMsg => Revoke(l, o)
  }

  // ----- discarding what the remote did not sign

  predicate Signed(l: Log, c: Ctns) {
    Le(c.local, l.CtnLatest(LOCAL))
  }

  function SignedOnly(l: Log, m: map<int, Ctns>): map<int, Ctns> {
    map id | id in m && Signed(l, m[id]) :: m[id]
  }

  /** One more than the greatest key, or 0. */
  ghost function NextAfter(keys: set<int>): (n: int)
  {
    if keys == {} then 0
    else if exists x :: x in keys && forall y :: y in keys ==> y <= x
    then (var x :| x in keys && forall y :: y in keys ==> y <= x; x + 1)
    else 0
  }

  ghost function DiscardUnsigned(l: Log): Log {
    var kept := SignedOnly(l, l.remote.lockedIn);
    l.(local := l.local.(
       settles := SignedOnly(l, l.local.settles),
       fails := SignedOnly(l, l.local.fails)),
       remote := l.remote.(
       lockedIn := kept,
       adds := l.remote.adds - (l.remote.lockedIn.Keys - kept.Keys),
       nextHtlcId := NextAfter(kept.Keys),
       feeUpdates := map k | k in l.remote.feeUpdates && Signed(l, l.remote.feeUpdates[k].ctns)
                     :: l.remote.feeUpdates[k]))
  }

  /** The log right after the channel was opened. */
  function Opened(initialFeerate: int): Log {
    var s := SideLog(map[], map[], map[], map[], map[0 := FeeUpdate(initialFeerate, Ctns(Some(0), Some(0)))],
                     false, 0, 0);
    Log(s, s)
  }
}
