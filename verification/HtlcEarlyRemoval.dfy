/**
 A removal sent again too early. The guards of the manager let a node settle an HTLC as soon as it has revoked; when
 both messages are lost, the revocation is sent again last, and the peer refuses the removal. Callers wait until the
 HTLC is irrevocable on both sides, and then this does not happen.
 */
module HtlcEarlyRemoval {
  import opened Options
  import opened Folding
  import opened HtlcLog
  import opened HtlcInvariant
  import opened HtlcCommitment
  import opened HtlcHistory
  import opened HtlcReplay
  import opened HtlcDiscard
  import opened HtlcReconnect
  import opened HtlcChannel

  // ----- when a message that is sent again is refused

  /** A removal whose HTLC the receiver has not locked in is refused. */
  lemma RefusedTooEarly(y: Node, id: int, payer: Owner, rate0: int, k: RemoveKind)
    requires NodeOk(y, payer, rate0) && AddCtn(y.sent, id).Some? && RevCtn(y.rcvd, AddCtn(y.sent, id).value).None?
    ensures ReceiveMsg(y, RemoveMsg(k, id)).None? && Apply(DiscardUnsigned(y.log), REMOTE, RemoveMsg(k, id)).None?
  {
    AddKnown(y.sent, id);
    assert AddsMatch(y.log.local, LOCAL, y.sent, y.rcvd);
  }

  /** The messages under way to `y` pass its guards, one after the other. */
  ghost predicate AllAccepted(y: Node, q: History)
    decreases |q|
  {
    q == [] || (ReceiveMsg(y, q[0]).Some? && AllAccepted(ReceiveMsg(y, q[0]).value, q[1..]))
  }

  lemma {:induction false} LinkAccepted(x: Node, y: Node, q: History, payer: Owner, rate0: int, xPays: bool)
    requires NodeOk(y, payer, rate0) && LinkOk(x, y, q, xPays) && (xPays ==> payer == REMOTE)
    ensures AllAccepted(y, q)
    decreases |q|
  {
    hide NodeOk, LinkOk, ReceiveMsg;
    if q != [] {
      HeadReceivable(x, y, q, payer, rate0, xPays);
      NodeReceives(y, q[0], payer, rate0);
      LinkAccepted(x, ReceiveMsg(y, q[0]).value, q[1..], payer, rate0, xPays);
    }
  }

  lemma Received(y: Node, m: Msg)
    requires ReceiveMsg(y, m).Some?
    ensures ReceiveMsg(y, m).value.sent == y.sent && ReceiveMsg(y, m).value.rcvd == y.rcvd + [m]
  {
  }

  /** A removal that comes before the revocation it relies on is refused, if not an earlier message is. */
  lemma {:induction false} EarlyRefused(y: Node, q: History, j: nat, payer: Owner, rate0: int)
    requires NodeOk(y, payer, rate0) && (forall m :: m in q && m.FeeMsg? ==> payer == REMOTE)
    requires j < |q| && q[j].RemoveMsg? && AddCtn(y.sent, q[j].id).Some?
    requires AddCtn(y.sent, q[j].id).value > RevCount(y.rcvd + q[..j])
    ensures !AllAccepted(y, q)
    decreases j
  {
    hide NodeOk, ReceiveMsg, AddCtn;
    if j == 0 {
      assert y.rcvd + q[..j] == y.rcvd;
      RevKnown(y.rcvd, AddCtn(y.sent, q[j].id).value);
      RefusedTooEarly(y, q[j].id, payer, rate0, q[j].kind);
    } else if ReceiveMsg(y, q[0]).Some? {
      NodeReceives(y, q[0], payer, rate0);
      Received(y, q[0]);
      assert y.rcvd + [q[0]] + q[1..][..j - 1] == y.rcvd + q[..j];
      EarlyRefused(ReceiveMsg(y, q[0]).value, q[1..], j - 1, payer, rate0);
    }
  }

  /** Some removal out of order is refused. */
  lemma ResentTooEarly(x: Node, y: Node, q: History, y': Node, payer: Owner, rate0: int, xPays: bool)
    requires LinkOk(x, y, q, xPays) && CtxCount(q) <= 1 && RevCount(q) <= 1 && !RemovalsInTime(x, y)
    requires NodeOk(y', payer, rate0) && Same(y.sent, y'.sent) && y'.rcvd == Trimmed(y.rcvd)
    requires xPays ==> payer == REMOTE
    ensures !AllAccepted(y', Retransmitted(x.sent, y.rcvd))
  {
    hide NodeOk, LinkOk, Same, SentOk;
    var again, t := Retransmitted(x.sent, y.rcvd), Trimmed(y.rcvd);
    var h' := Reestablished(x, y).sent;
    var j := ResentPlace(x, y);
    assert h'[|t| + j] == again[j] && h'[..|t| + j] == t + again[..j];
    MsgOkIff(x, y, q, y'.sent, |t| + j, xPays);
    RevokedBefore(x, y, q, |t| + j, xPays);
    SameTells(y.sent, y'.sent);
    FeesPaid(x, y, q, y'.sent, xPays);
    EarlyRefused(y', again, j, payer, rate0);
  }

  lemma ResentPlace(x: Node, y: Node) returns (j: nat)
    requires !RemovalsInTime(x, y)
    ensures var again := Retransmitted(x.sent, y.rcvd);
            && j < |again| && again[j].RemoveMsg? && RevokesLast(x.sent, y.rcvd)
            && AddCtn(y.sent, again[j].id).Some? && AddCtn(y.sent, again[j].id).value > RevCount(y.rcvd)
  {
    var kind, id :| RemoveMsg(kind, id) in Replay(x.sent, CtxCount(y.rcvd)) && AddCtn(y.sent, id).Some? &&
                    AddCtn(y.sent, id).value > RevCount(y.rcvd);
    var again := Retransmitted(x.sent, y.rcvd);
    assert RemoveMsg(kind, id) in again;
    j :| 0 <= j < |again| && again[j] == RemoveMsg(kind, id);
  }

  lemma FeesPaid(x: Node, y: Node, q: History, peer': History, xPays: bool)
    requires LinkOk(x, y, q, xPays) && CtxCount(q) <= 1 && RevCount(q) <= 1 && Same(y.sent, peer')
    ensures forall m :: m in Retransmitted(x.sent, y.rcvd) && m.FeeMsg? ==> xPays
  {
    var again, t := Retransmitted(x.sent, y.rcvd), Trimmed(y.rcvd);
    forall m | m in again && m.FeeMsg?
      ensures xPays
    {
      var j :| 0 <= j < |again| && again[j] == m;
      assert Reestablished(x, y).sent[|t| + j] == m;
      MsgOkIff(x, y, q, peer', |t| + j, xPays);
    }
  }

  /** What a node sends again is accepted, message by message, if and only if its removals are in time. */
  lemma ResentAcceptedIff(c: Channel, p: Party, payer: Party, rate0: int)
    requires ChannelOk(c, payer, rate0)
    ensures AllAccepted(Reconnected(c).At(p.Peer()), Reconnected(c).Inbox(p.Peer())) <==>
            RemovalsInTime(c.At(p), c.At(p.Peer()))
  {
    hide PartyOk, NodeOk, LinkOk, Same, AllAccepted, RemovalsInTime, Trimmed, Retransmitted;
    var x, y := c.At(p), c.At(p.Peer());
    var x', y' := Reestablished(x, y), Reestablished(y, x);
    Decompose(c, p, payer, rate0);
    ReestablishedSame(y, x, c.Inbox(p), Role(p, payer), rate0, p.Peer() == payer);
    NodeReestablished(y, y'.sent, Role(p.Peer(), payer), rate0);
    PartyReestablished(c, p, payer, rate0);
    if RemovalsInTime(x, y) {
      LinkOfParty(Reconnected(c), p, payer, rate0);
      LinkAccepted(x', y', Reconnected(c).Inbox(p.Peer()), Role(p.Peer(), payer), rate0, p == payer);
    } else {
      FewUnderWay(x, y, c.Inbox(p.Peer()), Role(p.Peer(), payer), rate0, p == payer);
      ResentTooEarly(x, y, c.Inbox(p.Peer()), y', Role(p.Peer(), payer), rate0, p == payer);
    }
  }

  lemma LinkOfParty(c: Channel, p: Party, payer: Party, rate0: int)
    requires PartyOk(c, p, payer, rate0)
    ensures LinkOk(c.At(p), c.At(p.Peer()), c.Inbox(p.Peer()), p == payer)
  {
  }

  lemma BothAcceptedIff(c: Channel, payer: Party, rate0: int)
    requires ChannelOk(c, payer, rate0)
    ensures AllInTime(c) <==> forall p: Party :: AllAccepted(Reconnected(c).At(p), Reconnected(c).Inbox(p))
  {
    hide ChannelOk, Reconnected, AllAccepted, RemovalsInTime;
    ResentAcceptedIff(c, A, payer, rate0);
    ResentAcceptedIff(c, B, payer, rate0);
    assert A.Peer() == B && B.Peer() == A;
  }

  /**
   After every run: if the connection breaks, all that is sent again is accepted by both nodes, if and only if all
   removals are in time. Otherwise a `recv_` guard fires.
   */
  lemma NothingRefusedIff(rate: int, payer: Party, events: seq<Event>)
    ensures var c := Run(OpenedChannel(rate), payer, events);
            AllInTime(c) <==> forall p: Party :: AllAccepted(Reconnected(c).At(p), Reconnected(c).Inbox(p))
  {
    hide ChannelOk, Run, AllInTime, Reconnected, AllAccepted;
    OpenedOk(rate, payer);
    RunOk(OpenedChannel(rate), payer, events, rate);
    BothAcceptedIff(Run(OpenedChannel(rate), payer, events), payer, rate);
  }

  // ----- a run in which it happens

  /** The sender's guards, as seen in the messages that a node sent and received. */
  predicate CanSend(sent: History, m: Msg, rcvd: History) {
    match m
    case AddMsg(h) => h.htlcId == AddCount(sent)
    case RemoveMsg(_, id) =>
      && RemoveCtn(sent, Settle, id).None? && RemoveCtn(sent, Fail, id).None?
      && AddCtn(rcvd, id).Some? && RevCtn(sent, AddCtn(rcvd, id).value).Some?
    case FeeMsg(_) => false
    case CtxMsg => CtxCount(sent) == RevCount(rcvd)
    case RevMsg => RevCount(sent) < CtxCount(rcvd)
  }

  lemma Sendable(x: Node, m: Msg, payer: Owner, rate0: int)
    requires NodeOk(x, payer, rate0) && CanSend(x.sent, m, x.rcvd)
    ensures Apply(x.log, LOCAL, m).Some?
  {
    assert CountersMatch(x.log, LOCAL, x.sent, x.rcvd) && CountersMatch(x.log, REMOTE, x.rcvd, x.sent);
    if m.RemoveMsg? {
      AddKnown(x.rcvd, m.id);
      RevKnown(x.sent, AddCtn(x.rcvd, m.id).value);
      assert AddsMatch(x.log.remote, REMOTE, x.rcvd, x.sent);
      assert RemovalsMatch(x.log.remote.settles, REMOTE, Settle, x.rcvd, x.sent);
      assert RemovalsMatch(x.log.remote.fails, REMOTE, Fail, x.rcvd, x.sent);
    }
  }

  /** Which messages the nodes sent and received, and which are under way. */
  datatype Traffic = Traffic(sentA: History, rcvdA: History, sentB: History, rcvdB: History, toA: History, toB: History)

  ghost function Good(c: Channel, payer: Party, rate: int): Fact {
    Fact(forall n {:trigger Unfold(n)} :: Folded(n) ==> ChannelOk(c, payer, rate))
  }

  ghost predicate Shows(c: Channel, payer: Party, rate: int, t: Traffic) {
    && Good(c, payer, rate).holds
    && t == Traffic(c.a.sent, c.a.rcvd, c.b.sent, c.b.rcvd, c.toA, c.toB)
  }

  lemma GoodStep(c: Channel, payer: Party, rate: int, e: Event)
    requires Good(c, payer, rate).holds && Step(c, payer, e).Some?
    ensures Good(Step(c, payer, e).value, payer, rate).holds
  {
    assert Unfold(0);
    StepOk(c, payer, e, rate);
  }

  lemma GoodSend(c: Channel, payer: Party, rate: int, p: Party, m: Msg)
    requires Good(c, payer, rate).holds && CanSend(c.At(p).sent, m, c.At(p).rcvd)
    ensures Step(c, payer, Send(p, m)).Some?
  {
    assert Unfold(0);
    Decompose(c, p, payer, rate);
    Sendable(c.At(p), m, Role(p, payer), rate);
  }

  lemma GoodDeliver(c: Channel, payer: Party, rate: int, p: Party)
    requires Good(c, payer, rate).holds
    ensures Step(c, payer, Deliver(p)).Some?
  {
    assert Unfold(0);
    DeliverySucceeds(c, payer, p, rate);
  }

  lemma SendA(c: Channel, payer: Party, rate: int, t: Traffic, m: Msg) returns (c': Channel)
    requires Shows(c, payer, rate, t) && CanSend(t.sentA, m, t.rcvdA)
    ensures Step(c, payer, Send(A, m)) == Some(c')
    ensures Shows(c', payer, rate, t.(sentA := t.sentA + [m], toB := t.toB + [m]))
  {
    GoodSend(c, payer, rate, A, m);
    GoodStep(c, payer, rate, Send(A, m));
    c' := Step(c, payer, Send(A, m)).value;
  }

  lemma SendB(c: Channel, payer: Party, rate: int, t: Traffic, m: Msg) returns (c': Channel)
    requires Shows(c, payer, rate, t) && CanSend(t.sentB, m, t.rcvdB)
    ensures Step(c, payer, Send(B, m)) == Some(c')
    ensures Shows(c', payer, rate, t.(sentB := t.sentB + [m], toA := t.toA + [m]))
  {
    GoodSend(c, payer, rate, B, m);
    GoodStep(c, payer, rate, Send(B, m));
    c' := Step(c, payer, Send(B, m)).value;
  }

  lemma DeliverA(c: Channel, payer: Party, rate: int, t: Traffic) returns (c': Channel)
    requires Shows(c, payer, rate, t) && t.toA != []
    ensures Step(c, payer, Deliver(A)) == Some(c')
    ensures Shows(c', payer, rate, t.(rcvdA := t.rcvdA + [t.toA[0]], toA := t.toA[1..]))
  {
    GoodDeliver(c, payer, rate, A);
    GoodStep(c, payer, rate, Deliver(A));
    c' := Step(c, payer, Deliver(A)).value;
  }

  function Offer(): Msg {
    AddMsg(UpdateAddHtlc(0, 1000, [], 0))
  }

  /** `B` offers an HTLC and signs for it; `A` revokes and settles at once. */
  function Events(): seq<Event> {
    [Send(B, Offer()), Deliver(A), Send(B, CtxMsg), Deliver(A), Send(A, RevMsg), Send(A, RemoveMsg(Settle, 0))]
  }

  lemma NothingSent()
    ensures CtxCount([]) == 0 && RevCount([]) == 0 && AddCount([]) == 0
    ensures forall k, id :: RemoveCtn([], k, id).None?
    ensures AddedAt([], 0).None? && RevCtn([], 1).None?
  {
  }

  lemma OfferReadings()
    ensures CtxCount([]) == 0 && RevCount([]) == 0 && AddCount([]) == 0
    ensures CtxCount([Offer()]) == 0 && AddCtn([Offer(), CtxMsg], 0) == Some(1)
    ensures CtxCount([Offer(), CtxMsg]) == 1 && RevCount([RevMsg]) == 1 && CtxCount([RevMsg]) == 0
    ensures RevCtn([RevMsg], 1) == Some(1) && RemoveCtn([RevMsg], Settle, 0).None? && RemoveCtn([RevMsg], Fail, 0).None?
  {
    hide CtxCount, RevCount, AddCount, AddedAt, RevCtn, RemoveCtn;
    var o := Offer();
    assert [o, CtxMsg] == [o] + [CtxMsg] && [] + [o] == [o] && [] + [RevMsg] == [RevMsg];
    NothingSent();
    SnocCounts([], o);
    SnocAdd([], o, 0);
    SnocCounts([o], CtxMsg);
    SnocAdd([o], CtxMsg, 0);
    SnocCounts([], RevMsg);
    SnocRev([], RevMsg, 1);
    SnocRemove([], RevMsg, Settle, 0);
    SnocRemove([], RevMsg, Fail, 0);
  }

  lemma {:induction false} RunFurther(c: Channel, payer: Party, events: seq<Event>, c': Channel)
    requires events != [] && Step(c, payer, events[0]) == Some(c')
    ensures Run(c, payer, events) == Run(c', payer, events[1..])
  {
  }

  lemma StartGood(rate: int, payer: Party)
    ensures Shows(OpenedChannel(rate), payer, rate, Traffic([], [], [], [], [], []))
  {
    OpenedOk(rate, payer);
  }

  lemma OfferSigned(rate: int, payer: Party) returns (c1: Channel, c2: Channel, c3: Channel, c4: Channel)
    ensures Step(OpenedChannel(rate), payer, Send(B, Offer())) == Some(c1) && Step(c1, payer, Deliver(A)) == Some(c2)
    ensures Step(c2, payer, Send(B, CtxMsg)) == Some(c3) && Step(c3, payer, Deliver(A)) == Some(c4)
    ensures Shows(c4, payer, rate, Traffic([], [Offer(), CtxMsg], [Offer(), CtxMsg], [], [], []))
  {
    var o := Offer();
    StartGood(rate, payer);
    OfferReadings();
    assert [] + [o] == [o] && [o][1..] == [] && [o] + [CtxMsg] == [o, CtxMsg] && [] + [CtxMsg] == [CtxMsg] &&
           [CtxMsg][1..] == [];
    c1 := SendB(OpenedChannel(rate), payer, rate, Traffic([], [], [], [], [], []), o);
    c2 := DeliverA(c1, payer, rate, Traffic([], [], [o], [], [o], []));
    c3 := SendB(c2, payer, rate, Traffic([], [o], [o], [], [], []), CtxMsg);
    c4 := DeliverA(c3, payer, rate, Traffic([], [o], [o, CtxMsg], [], [CtxMsg], []));
  }

  lemma Settled(c4: Channel, rate: int, payer: Party) returns (c5: Channel, c6: Channel)
    requires Shows(c4, payer, rate, Traffic([], [Offer(), CtxMsg], [Offer(), CtxMsg], [], [], []))
    ensures Step(c4, payer, Send(A, RevMsg)) == Some(c5) && Step(c5, payer, Send(A, RemoveMsg(Settle, 0))) == Some(c6)
    ensures Shows(c6, payer, rate, Traffic([RevMsg, RemoveMsg(Settle, 0)], [Offer(), CtxMsg], [Offer(), CtxMsg], [], [],
                                           [RevMsg, RemoveMsg(Settle, 0)]))
  {
    var o, r := Offer(), RemoveMsg(Settle, 0);
    OfferReadings();
    assert [] + [RevMsg] == [RevMsg] && [RevMsg] + [r] == [RevMsg, r];
    c5 := SendA(c4, payer, rate, Traffic([], [o, CtxMsg], [o, CtxMsg], [], [], []), RevMsg);
    c6 := SendA(c5, payer, rate, Traffic([RevMsg], [o, CtxMsg], [o, CtxMsg], [], [], [RevMsg]), r);
  }

  /** After these events the revocation and the removal are under way. */
  lemma BothUnderWay(rate: int, payer: Party)
    ensures Shows(Run(OpenedChannel(rate), payer, Events()), payer, rate,
                  Traffic([RevMsg, RemoveMsg(Settle, 0)], [Offer(), CtxMsg], [Offer(), CtxMsg], [], [],
                          [RevMsg, RemoveMsg(Settle, 0)]))
  {
    hide Shows, OpenedChannel, Offer, Run;
    var c1, c2, c3, c4 := OfferSigned(rate, payer);
    var c5, c6 := Settled(c4, rate, payer);
    RunSix(OpenedChannel(rate), c1, c2, c3, c4, c5, c6, payer, Events());
  }

  lemma RunSix(c0: Channel, c1: Channel, c2: Channel, c3: Channel, c4: Channel, c5: Channel, c6: Channel, payer: Party,
               e: seq<Event>)
    requires |e| == 6 && Step(c0, payer, e[0]) == Some(c1) && Step(c1, payer, e[1]) == Some(c2)
    requires Step(c2, payer, e[2]) == Some(c3) && Step(c3, payer, e[3]) == Some(c4)
    requires Step(c4, payer, e[4]) == Some(c5) && Step(c5, payer, e[5]) == Some(c6)
    ensures Run(c0, payer, e) == c6
  {
    RunFurther(c0, payer, e, c1);
    RunFurther(c1, payer, e[1..], c2);
    RunFurther(c2, payer, e[1..][1..], c3);
    RunFurther(c3, payer, e[1..][1..][1..], c4);
    RunFurther(c4, payer, e[1..][1..][1..][1..], c5);
    RunFurther(c5, payer, e[1..][1..][1..][1..][1..], c6);
    assert e[1..][1..][1..][1..][1..][1..] == [];
  }

  lemma SentAgain()
    ensures var sent := [RevMsg, RemoveMsg(Settle, 0)];
            && RevokesLast(sent, []) && Replay(sent, 0) == [RemoveMsg(Settle, 0)]
            && Retransmitted(sent, []) == [RemoveMsg(Settle, 0), RevMsg]
  {
    var r := RemoveMsg(Settle, 0);
    var sent := [RevMsg, r];
    assert sent[..1] == [RevMsg] && [RevMsg][..0] == [];
    assert sent == [RevMsg] + [r] && [] + [RevMsg] == [RevMsg];
    SnocCounts([RevMsg], r);
    SnocCounts([], RevMsg);
    assert Replay([RevMsg], 0) == [] && Replay(sent, 0) == [] + [r];
    assert WasRevokeLast([RevMsg]);
  }

  /**
   If the connection breaks now, the removal goes first, and the guard of its receiver fires: this is the reason why
   `Reconnect` asks for removals to be in order.
   */
  lemma RemovalTooEarly(rate: int, payer: Party)
    ensures var c := Run(OpenedChannel(rate), payer, Events());
            && !AllInTime(c) && Reconnected(c).toB == [RemoveMsg(Settle, 0), RevMsg]
            && Step(Reconnected(c), payer, Deliver(B)).None?
  {
    BothUnderWay(rate, payer);
    RefusedAfter(Run(OpenedChannel(rate), payer, Events()), rate, payer);
  }

  lemma RefusedAfter(c: Channel, rate: int, payer: Party)
    requires Shows(c, payer, rate, Traffic([RevMsg, RemoveMsg(Settle, 0)], [Offer(), CtxMsg], [Offer(), CtxMsg], [], [],
                                           [RevMsg, RemoveMsg(Settle, 0)]))
    ensures !AllInTime(c) && Reconnected(c).toB == [RemoveMsg(Settle, 0), RevMsg]
    ensures Step(Reconnected(c), payer, Deliver(B)).None?
  {
    OfferReadings();
    SentAgain();
    RevKnown([], 1);
    assert RemoveMsg(Settle, 0) in Replay(c.a.sent, CtxCount(c.b.rcvd));
    assert !RemovalsInTime(c.a, c.b);
    RefusedByB(c, rate, payer);
  }

  lemma RefusedByB(c: Channel, rate: int, payer: Party)
    requires Good(c, payer, rate).holds && c.b.sent == [Offer(), CtxMsg] && c.b.rcvd == []
    ensures Apply(DiscardUnsigned(c.b.log), REMOTE, RemoveMsg(Settle, 0)).None?
  {
    assert Unfold(0);
    OfferReadings();
    RevKnown([], 1);
    Decompose(c, B, payer, rate);
    RefusedTooEarly(c.b, 0, Role(B, payer), rate, Settle);
  }
}
