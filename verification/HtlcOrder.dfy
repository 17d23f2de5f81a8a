/** The order in which updates enter the two parties' transactions, in every state that a node can reach. */
module HtlcOrder {
  import opened Options
  import opened HtlcLog
  import opened HtlcInvariant
  import opened HtlcCommitment
  import opened HtlcRuns

  lemma OpenedPayer(rate: int, payer: Owner)
    ensures FeePayer(Opened(rate), payer)
  {
  }

  /** `m` are removals of HTLCs that `p` offered; `oldest` is `p`'s oldest unrevoked transaction. */
  ghost predicate RemovedInOrder(m: map<int, Ctns>, lockedIn: map<int, Ctns>, p: Owner, oldest: int, id: int) {
    && (forall n :: InEffect(m, id, p.Inverted(), n) ==> InEffect(m, id, p, oldest))
    && (forall o: Owner, n :: InEffect(m, id, o, n) ==> n >= 1 && InEffect(lockedIn, id, o, n))
  }

  lemma RemovalOrder(m: map<int, Ctns>, lockedIn: map<int, Ctns>, p: Owner, wp: Window, wq: Window, id: int)
    requires AllOk(m, p, wp, wq) && RemovalsOk(m, lockedIn)
    ensures RemovedInOrder(m, lockedIn, p, wp.oldest, id)
  {
    forall o: Owner, n | InEffect(m, id, o, n)
      ensures n >= 1 && InEffect(lockedIn, id, o, n)
    {
      assert LifetimeOk(lockedIn[id], m[id]);
    }
  }

  /**
   An HTLC offered by `p` enters `p`'s transactions only once it is irrevocable in the other party's, and leaves
   the other party's only once its removal is irrevocable in `p`'s. It is in effect wherever its removal is, which
   is never the opening transaction, and it is not both settled and failed.
   */
  lemma HandshakeOrder(rate: int, payer: Owner, actions: seq<Action>, p: Owner, id: int)
    ensures var l := Run(Opened(rate), payer, actions);
            && !(id in l.Side(p).settles && id in l.Side(p).fails)
            && (forall n :: InEffect(l.Side(p).lockedIn, id, p, n) ==> IrrevocablyAdded(l, p.Inverted(), p, id))
            && RemovedInOrder(l.Side(p).settles, l.Side(p).lockedIn, p, l.CtnOldestUnrevoked(p), id)
            && RemovedInOrder(l.Side(p).fails, l.Side(p).lockedIn, p, l.CtnOldestUnrevoked(p), id)
  {
    var l := Run(Opened(rate), payer, actions);
    OpenedInv(rate);
    OpenedPayer(rate, payer);
    RunKeeps(Opened(rate), payer, actions);
    var s, q := l.Side(p), p.Inverted();
    assert SideOk(s, p, l.Unrevoked(p), l.Unrevoked(q));
    RemovalOrder(s.settles, s.lockedIn, p, l.Unrevoked(p), l.Unrevoked(q), id);
    RemovalOrder(s.fails, s.lockedIn, p, l.Unrevoked(p), l.Unrevoked(q), id);
  }
}
