/** In every reachable state of the channel the two nodes agree on every signed transaction. */
module HtlcAgreement {
  import opened Options
  import opened HtlcLog
  import opened HtlcInvariant
  import opened HtlcCommitment
  import opened HtlcHistory
  import opened HtlcReplay
  import opened HtlcChannel

  // In this module `x` signs `y`'s transactions: `x.log` records them under REMOTE, `y.log` under LOCAL.

  ghost predicate Linked(x: Node, y: Node) {
    && y.rcvd <= x.sent && x.rcvd <= y.sent
    && RevCount(x.sent) <= CtxCount(x.rcvd)
  }

  /** The transaction of `y` that an update enters second, by a revocation of `x`'s. */
  function Second(first: Option<int>, revs: History): Option<int> {
    if first.None? then None else RevCtn(revs, first.value)
  }

  /**
   `x` knows the update as `fx` among what it received, `y` as `fy` among what it sent; both place its
   promotion alike as far as `y` has received `x`'s signatures.
   */
  lemma SecondAlike(x: Node, y: Node, fx: Option<int>, fy: Option<int>, n: int)
    requires Linked(x, y) && Alike(fx, fy, CtxCount(x.rcvd)) && n <= CtxCount(y.rcvd)
    ensures Le(Second(fy, y.rcvd), n) <==> Le(Second(fx, x.sent), n)
  {
    CountsGrow(y.rcvd, x.sent);
    if fy.Some? {
      RevKnown(y.rcvd, fy.value);
      RevKnown(x.sent, fy.value);
      RevsAlike(y.rcvd, x.sent, fy.value);
    }
  }

  // ----- what `y` offered

  lemma AddsOfY(x: Node, y: Node, n: int, id: int)
    requires Linked(x, y) && n <= CtxCount(y.rcvd)
    requires AddsMatch(y.log.local, LOCAL, y.sent, y.rcvd) && AddsMatch(x.log.remote, REMOTE, x.rcvd, x.sent)
    ensures InEffect(x.log.remote.lockedIn, id, REMOTE, n) <==> InEffect(y.log.local.lockedIn, id, LOCAL, n)
    ensures InEffect(x.log.remote.lockedIn, id, REMOTE, n) ==>
              id in x.log.remote.adds && id in y.log.local.adds && x.log.remote.adds[id] == y.log.local.adds[id]
  {
    AddKnown(x.rcvd, id);
    AddKnown(y.sent, id);
    AddsAlike(x.rcvd, y.sent, id);
    SecondAlike(x, y, AddCtn(x.rcvd, id), AddCtn(y.sent, id), n);
  }

  lemma RemovalsOfY(x: Node, y: Node, k: RemoveKind, n: int, id: int)
    requires Linked(x, y) && n <= CtxCount(y.rcvd)
    requires RemovalsMatch(y.log.local.Removals(k), LOCAL, k, y.sent, y.rcvd)
    requires RemovalsMatch(x.log.remote.Removals(k), REMOTE, k, x.rcvd, x.sent)
    ensures InEffect(x.log.remote.Removals(k), id, REMOTE, n) <==> InEffect(y.log.local.Removals(k), id, LOCAL, n)
  {
    RemovesAlike(y.rcvd, x.sent, k, id);
  }

  lemma FeesOfY(x: Node, y: Node, rate0: int, n: int, k: int)
    requires Linked(x, y) && n <= CtxCount(y.rcvd)
    requires FeesMatch(y.log.local.feeUpdates, LOCAL, Fees(y.sent, rate0), y.rcvd)
    requires FeesMatch(x.log.remote.feeUpdates, REMOTE, Fees(x.rcvd, rate0), x.sent)
    ensures FeeInEffect(x.log.remote.feeUpdates, k, REMOTE, n) <==> FeeInEffect(y.log.local.feeUpdates, k, LOCAL, n)
    ensures FeeInEffect(x.log.remote.feeUpdates, k, REMOTE, n) ==>
              x.log.remote.feeUpdates[k].rate == y.log.local.feeUpdates[k].rate
  {
    var fx, fy := Fees(x.rcvd, rate0), Fees(y.sent, rate0);
    FeeLogsAlike(x.rcvd, y.sent, rate0);
    CountsGrow(y.rcvd, x.sent);
    if 0 <= k < |fy| {
      RevKnown(y.rcvd, fy[k].1);
      RevsAlike(y.rcvd, x.sent, fy[k].1);
    }
    if 0 <= k < |fx| {
      RevKnown(x.sent, fx[k].1);
    }
  }

  // ----- what `x` offered

  lemma AddsOfX(x: Node, y: Node, n: int, id: int)
    requires Linked(x, y) && n <= CtxCount(y.rcvd)
    requires AddsMatch(x.log.local, LOCAL, x.sent, x.rcvd) && AddsMatch(y.log.remote, REMOTE, y.rcvd, y.sent)
    ensures InEffect(x.log.local.lockedIn, id, REMOTE, n) <==> InEffect(y.log.remote.lockedIn, id, LOCAL, n)
    ensures InEffect(x.log.local.lockedIn, id, REMOTE, n) ==>
              id in x.log.local.adds && id in y.log.remote.adds && x.log.local.adds[id] == y.log.remote.adds[id]
  {
    AddKnown(y.rcvd, id);
    AddKnown(x.sent, id);
    AddsAlike(y.rcvd, x.sent, id);
  }

  lemma RemovalsOfX(x: Node, y: Node, k: RemoveKind, n: int, id: int)
    requires Linked(x, y) && n <= CtxCount(y.rcvd)
    requires RemovalsMatch(x.log.local.Removals(k), LOCAL, k, x.sent, x.rcvd)
    requires RemovalsMatch(y.log.remote.Removals(k), REMOTE, k, y.rcvd, y.sent)
    ensures InEffect(x.log.local.Removals(k), id, REMOTE, n) <==> InEffect(y.log.remote.Removals(k), id, LOCAL, n)
  {
    RemovesAlike(x.rcvd, y.sent, k, id);
    SecondAlike(x, y, RemoveCtn(x.rcvd, k, id), RemoveCtn(y.sent, k, id), n);
  }

  lemma FeesOfX(x: Node, y: Node, rate0: int, n: int, k: int)
    requires Linked(x, y) && n <= CtxCount(y.rcvd)
    requires FeesMatch(x.log.local.feeUpdates, LOCAL, Fees(x.sent, rate0), x.rcvd)
    requires FeesMatch(y.log.remote.feeUpdates, REMOTE, Fees(y.rcvd, rate0), y.sent)
    ensures FeeInEffect(x.log.local.feeUpdates, k, REMOTE, n) <==> FeeInEffect(y.log.remote.feeUpdates, k, LOCAL, n)
    ensures FeeInEffect(x.log.local.feeUpdates, k, REMOTE, n) ==>
              x.log.local.feeUpdates[k].rate == y.log.remote.feeUpdates[k].rate
  {
    FeeLogsAlike(y.rcvd, x.sent, rate0);
  }

  // ----- the whole transaction

  lemma SideOfY(x: Node, y: Node, rate0: int, n: int)
    requires Linked(x, y) && n <= CtxCount(y.rcvd)
    requires SideMatches(x.log.remote, REMOTE, x.rcvd, x.sent, rate0) &&
             SideMatches(y.log.local, LOCAL, y.sent, y.rcvd, rate0)
    ensures SameSide(x.log.remote, REMOTE, y.log.local, LOCAL, n)
  {
    forall id
      ensures InEffect(x.log.remote.lockedIn, id, REMOTE, n) <==> InEffect(y.log.local.lockedIn, id, LOCAL, n)
      ensures InEffect(x.log.remote.settles, id, REMOTE, n) <==> InEffect(y.log.local.settles, id, LOCAL, n)
      ensures InEffect(x.log.remote.fails, id, REMOTE, n) <==> InEffect(y.log.local.fails, id, LOCAL, n)
      ensures InEffect(x.log.remote.lockedIn, id, REMOTE, n) ==>
                id in x.log.remote.adds && id in y.log.local.adds && x.log.remote.adds[id] == y.log.local.adds[id]
    {
      AddsOfY(x, y, n, id);
      RemovalsOfY(x, y, Settle, n, id);
      RemovalsOfY(x, y, Fail, n, id);
    }
    forall k
      ensures FeeInEffect(x.log.remote.feeUpdates, k, REMOTE, n) <==> FeeInEffect(y.log.local.feeUpdates, k, LOCAL, n)
      ensures FeeInEffect(x.log.remote.feeUpdates, k, REMOTE, n) ==>
                x.log.remote.feeUpdates[k].rate == y.log.local.feeUpdates[k].rate
    {
      FeesOfY(x, y, rate0, n, k);
    }
  }

  lemma SideOfX(x: Node, y: Node, rate0: int, n: int)
    requires Linked(x, y) && n <= CtxCount(y.rcvd)
    requires SideMatches(x.log.local, LOCAL, x.sent, x.rcvd, rate0) &&
             SideMatches(y.log.remote, REMOTE, y.rcvd, y.sent, rate0)
    ensures SameSide(x.log.local, REMOTE, y.log.remote, LOCAL, n)
  {
    forall id
      ensures InEffect(x.log.local.lockedIn, id, REMOTE, n) <==> InEffect(y.log.remote.lockedIn, id, LOCAL, n)
      ensures InEffect(x.log.local.settles, id, REMOTE, n) <==> InEffect(y.log.remote.settles, id, LOCAL, n)
      ensures InEffect(x.log.local.fails, id, REMOTE, n) <==> InEffect(y.log.remote.fails, id, LOCAL, n)
      ensures InEffect(x.log.local.lockedIn, id, REMOTE, n) ==>
                id in x.log.local.adds && id in y.log.remote.adds && x.log.local.adds[id] == y.log.remote.adds[id]
    {
      AddsOfX(x, y, n, id);
      RemovalsOfX(x, y, Settle, n, id);
      RemovalsOfX(x, y, Fail, n, id);
    }
    forall k
      ensures FeeInEffect(x.log.local.feeUpdates, k, REMOTE, n) <==> FeeInEffect(y.log.remote.feeUpdates, k, LOCAL, n)
      ensures FeeInEffect(x.log.local.feeUpdates, k, REMOTE, n) ==>
                x.log.local.feeUpdates[k].rate == y.log.remote.feeUpdates[k].rate
    {
      FeesOfX(x, y, rate0, n, k);
    }
  }

  lemma SidesAgree(x: Node, y: Node, rate0: int, n: int)
    requires Matches(x.log, LOCAL, x.sent, x.rcvd, rate0) && Matches(y.log, LOCAL, y.sent, y.rcvd, rate0)
    requires y.rcvd <= x.sent && x.rcvd <= y.sent && n <= y.log.CtnLatest(LOCAL)
    ensures SameCommitment(x.log, REMOTE, y.log, LOCAL, n)
  {
    SideOfX(x, y, rate0, n);
    SideOfY(x, y, rate0, n);
  }

  /** The party `b` of the channel and the peer `a` that signs for it agree on `b`'s signed transactions. */
  lemma PeersAgree(c: Channel, payer: Party, b: Party, rate0: int, n: int)
    requires ChannelOk(c, payer, rate0) && n <= c.At(b).log.CtnLatest(LOCAL)
    ensures SameCommitment(c.At(b.Peer()).log, REMOTE, c.At(b).log, LOCAL, n)
    ensures Inv(c.At(b).log) && Inv(c.At(b.Peer()).log)
    ensures FeePayer(c.At(b).log, Role(b, payer)) && FeePayer(c.At(b.Peer()).log, Role(b.Peer(), payer))
  {
    Decompose(c, b, payer, rate0);
    SidesAgree(c.At(b.Peer()), c.At(b), rate0, n);
  }

  /** `theirs` and `own` give the owner of `own` the same HTLCs, balances and fee rate in its transaction `n`. */
  ghost predicate AgreeOn(theirs: Log, own: Log, n: int) {
    && (forall p, id :: IsActive(theirs, REMOTE, n, p, id) <==> IsActive(own, LOCAL, n, p.Inverted(), id))
    && (forall p, id :: IsActive(theirs, REMOTE, n, p, id) ==>
          && id in theirs.Side(p).adds && id in own.Side(p.Inverted()).adds
          && theirs.Side(p).adds[id] == own.Side(p.Inverted()).adds[id])
    && (forall whose, initial ::
          Balance(theirs, whose, REMOTE, n, initial) == Balance(own, whose.Inverted(), LOCAL, n, initial))
    && Feerate(theirs, REMOTE, n) == Feerate(own, LOCAL, n)
  }

  lemma SameIsAgreed(theirs: Log, own: Log, n: int, n0: nat, payer: Owner)
    requires Inv(theirs) && Inv(own) && FeePayer(theirs, payer) && FeePayer(own, payer.Inverted())
    requires SameCommitment(theirs, REMOTE, own, LOCAL, n)
    requires SameCommitment(theirs, REMOTE, own, LOCAL, n0) && n0 == (if n < 0 then 0 else n)
    ensures AgreeOn(theirs, own, n)
  {
    hide Inv, SideOk;
    forall p, id
      ensures IsActive(theirs, REMOTE, n, p, id) <==> IsActive(own, LOCAL, n, p.Inverted(), id)
      ensures IsActive(theirs, REMOTE, n, p, id) ==>
                && id in theirs.Side(p).adds && id in own.Side(p.Inverted()).adds
                && theirs.Side(p).adds[id] == own.Side(p.Inverted()).adds[id]
    {
      SameHtlcs(theirs, REMOTE, own, LOCAL, n, p, id);
    }
    forall whose, initial
      ensures Balance(theirs, whose, REMOTE, n, initial) == Balance(own, whose.Inverted(), LOCAL, n, initial)
    {
      SameBalances(theirs, REMOTE, own, LOCAL, n, whose, initial);
    }
    SameFeerate(theirs, REMOTE, own, LOCAL, n0, payer);
  }

  /**
   Two-party agreement: after any events, for every transaction `n` of `b`'s that has been signed, `b`'s
   own record and its peer's have the same HTLCs, balances and fee rate.
   */
  lemma TwoPartyAgreement(rate: int, payer: Party, events: seq<Event>, b: Party, n: int)
    requires n <= Run(OpenedChannel(rate), payer, events).At(b).log.CtnLatest(LOCAL)
    ensures var c := Run(OpenedChannel(rate), payer, events);
            AgreeOn(c.At(b.Peer()).log, c.At(b).log, n)
  {
    OpenedOk(rate, payer);
    RunOk(OpenedChannel(rate), payer, events, rate);
    SignedAgreed(Run(OpenedChannel(rate), payer, events), payer, b, rate, n);
  }

  lemma SignedAgreed(c: Channel, payer: Party, b: Party, rate0: int, n: int)
    requires ChannelOk(c, payer, rate0) && n <= c.At(b).log.CtnLatest(LOCAL)
    ensures AgreeOn(c.At(b.Peer()).log, c.At(b).log, n)
  {
    var n0 := if n < 0 then 0 else n;
    PeersAgree(c, payer, b, rate0, n);
    PeersAgree(c, payer, b, rate0, n0);
    SameIsAgreed(c.At(b.Peer()).log, c.At(b).log, n, n0, Role(b.Peer(), payer));
  }
}
