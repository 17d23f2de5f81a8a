/**
 Two nodes joined by FIFO queues that may lose what is under way: every message that could be sent can be received,
 and the two nodes agree on every transaction that has been signed.
 */
module HtlcChannel {
  import opened Options
  import opened HtlcLog
  import opened HtlcInvariant
  import opened HtlcCommitment
  import opened HtlcRuns
  import opened HtlcHistory
  import opened HtlcReplay
  import opened HtlcDiscard
  import opened HtlcReconnect

  /** A node's log, with the messages it sent and received so far; after a reconnection, those that count. */
  datatype Node = Node(log: Log, sent: History, rcvd: History)

  datatype Party = A | B {
    function Peer(): Party {
      if A? then B else A
    }
  }

  /** `toA` and `toB` hold the messages under way, oldest first. */
  datatype Channel = Channel(a: Node, b: Node, toA: History, toB: History) {
    function At(p: Party): Node {
      if p.A? then a else b
    }
    function Inbox(p: Party): History {
      if p.A? then toA else toB
    }
    /** The channel with node `p` replaced and the queues towards `p` and towards its peer set. */
    function With(p: Party, x: Node, to: History, from: History): Channel {
      if p.A? then Channel(x, b, to, from) else Channel(a, x, from, to)
    }
  }

  /** `Reconnect`: all that is under way is lost, and the nodes re-establish the channel. */
  datatype Event = Send(p: Party, m: Msg) | Deliver(p: Party) | Reconnect

  function SendMsg(x: Node, m: Msg): Option<Node> {
    var r := Apply(x.log, LOCAL, m);
    if r.None? then None else Some(Node(r.value, x.sent + [m], x.rcvd))
  }

  function ReceiveMsg(x: Node, m: Msg): Option<Node> {
    var r := Apply(x.log, REMOTE, m);
    if r.None? then None else Some(Node(r.value, x.sent, x.rcvd + [m]))
  }

  /** The node discards what its peer `y` did not sign; of what it sent, what `y` kept and what is sent again counts. */
  ghost function Reestablished(x: Node, y: Node): Node {
    Node(DiscardUnsigned(x.log), Trimmed(y.rcvd) + Retransmitted(x.sent, y.rcvd), Trimmed(x.rcvd))
  }

  ghost function Reconnected(c: Channel): Channel {
    Channel(Reestablished(c.a, c.b), Reestablished(c.b, c.a), Retransmitted(c.b.sent, c.a.rcvd),
            Retransmitted(c.a.sent, c.b.rcvd))
  }

  /** No removal is sent again before the revocation that the removed HTLC's adding relied on. */
  ghost predicate RemovalsInTime(x: Node, y: Node) {
    RevokesLast(x.sent, y.rcvd) ==>
      forall k, id :: RemoveMsg(k, id) in Replay(x.sent, CtxCount(y.rcvd)) && AddCtn(y.sent, id).Some? ==>
        AddCtn(y.sent, id).value <= RevCount(y.rcvd)
  }

  ghost predicate AllInTime(c: Channel) {
    RemovalsInTime(c.a, c.b) && RemovalsInTime(c.b, c.a)
  }

  /**
   None if a guard or assertion of the node that acts fires, if it is not `payer` that sends a fee update, or if the
   nodes would have to send a removal again too early.
   */
  ghost function Step(c: Channel, payer: Party, e: Event): Option<Channel> {
    match e
    case Send(p, m) =>
      var r := SendMsg(c.At(p), m);
      if r.None? || (m.FeeMsg? && p != payer) then None
      else Some(c.With(p, r.value, c.Inbox(p), c.Inbox(p.Peer()) + [m]))
    case Deliver(p) =>
      if |c.Inbox(p)| == 0 then Some(c)
      else
        var r := ReceiveMsg(c.At(p), c.Inbox(p)[0]);
        if r.None? then None
        else Some(c.With(p, r.value, c.Inbox(p)[1..], c.Inbox(p.Peer())))
    case Reconnect => if AllInTime(c) then Some(Reconnected(c)) else None
  }

  /** The channel after the events; a refused event changes nothing. */
  ghost function Run(c: Channel, payer: Party, events: seq<Event>): Channel
    decreases |events|
  {
    if events == [] then c
    else
      var r := Step(c, payer, events[0]);
      Run(if r.Some? then r.value else c, payer, events[1..])
  }

  function OpenedChannel(rate: int): Channel {
    Channel(Node(Opened(rate), [], []), Node(Opened(rate), [], []), [], [])
  }

  // ----- what was sent could be sent

  /**
   The sender's guards, as seen in the histories: `before` is what the sender emitted before `m`, `peer` what the peer
   did.
   */
  predicate MsgOk(before: History, m: Msg, peer: History, paysFees: bool) {
    match m
    case AddMsg(h) => h.htlcId == AddCount(before)
    case RemoveMsg(_, id) =>
      && RemoveCtn(before, Settle, id).None? && RemoveCtn(before, Fail, id).None?
      && AddCtn(peer, id).Some? && RevCtn(before, AddCtn(peer, id).value).Some?
    case FeeMsg(_) => paysFees
    case CtxMsg => CtxCount(before) <= RevCount(peer)
    case RevMsg => RevCount(before) < CtxCount(peer)
  }

  ghost predicate SentOk(h: History, peer: History, paysFees: bool) {
    forall k :: 0 <= k < |h| ==> MsgOk(h[..k], h[k], peer, paysFees)
  }

  function Role(p: Party, payer: Party): Owner {
    if p == payer then LOCAL else REMOTE
  }

  ghost predicate NodeOk(x: Node, payer: Owner, rate0: int) {
    Inv(x.log) && FeePayer(x.log, payer) && Matches(x.log, LOCAL, x.sent, x.rcvd, rate0)
  }

  /** Everything `x` sent is received by `y` or still under way, and passed `x`'s guards. */
  ghost predicate LinkOk(x: Node, y: Node, q: History, xPays: bool) {
    x.sent == y.rcvd + q && SentOk(x.sent, y.sent, xPays)
  }

  ghost predicate PartyOk(c: Channel, p: Party, payer: Party, rate0: int) {
    && NodeOk(c.At(p), Role(p, payer), rate0)
    && LinkOk(c.At(p), c.At(p.Peer()), c.Inbox(p.Peer()), p == payer)
  }

  ghost predicate ChannelOk(c: Channel, payer: Party, rate0: int) {
    PartyOk(c, A, payer, rate0) && PartyOk(c, B, payer, rate0)
  }

  lemma OpenedNode(rate: int, payer: Owner)
    ensures NodeOk(Node(Opened(rate), [], []), payer, rate)
  {
    OpenedInv(rate);
    OpenedMatches(rate, LOCAL);
    assert |map[0 := FeeUpdate(rate, Ctns(Some(0), Some(0)))]| == 1;
  }

  lemma OpenedOk(rate: int, payer: Party)
    ensures ChannelOk(OpenedChannel(rate), payer, rate)
  {
    OpenedNode(rate, LOCAL);
    OpenedNode(rate, REMOTE);
  }

  // ----- sending

  lemma PeerGrows(before: History, m: Msg, peer: History, peer': History, paysFees: bool)
    requires MsgOk(before, m, peer, paysFees) && peer <= peer'
    ensures MsgOk(before, m, peer', paysFees)
  {
    CountsGrow(peer, peer');
    if m.RemoveMsg? {
      AddsAlike(peer, peer', m.id);
    }
  }

  lemma SentOkPeerGrows(h: History, peer: History, peer': History, paysFees: bool)
    requires SentOk(h, peer, paysFees) && peer <= peer'
    ensures SentOk(h, peer', paysFees)
  {
    forall k | 0 <= k < |h|
      ensures MsgOk(h[..k], h[k], peer', paysFees)
    {
      PeerGrows(h[..k], h[k], peer, peer', paysFees);
    }
  }

  lemma SentOkSnoc(h: History, m: Msg, peer: History, paysFees: bool)
    requires SentOk(h, peer, paysFees) && MsgOk(h, m, peer, paysFees)
    ensures SentOk(h + [m], peer, paysFees)
  {
    var h' := h + [m];
    forall k | 0 <= k < |h'|
      ensures MsgOk(h'[..k], h'[k], peer, paysFees)
    {
      if k < |h| {
        assert h'[..k] == h[..k];
      } else {
        assert h'[..k] == h;
      }
    }
  }

  /** A message that passed the sender's guards is well-formed against what the sender received. */
  lemma GuardsSeen(x: Node, m: Msg, payer: Owner, rate0: int)
    requires NodeOk(x, payer, rate0) && Apply(x.log, LOCAL, m).Some?
    ensures MsgOk(x.sent, m, x.rcvd, m.FeeMsg?)
  {
    if m.RemoveMsg? {
      RemovedOnce(x.log, REMOTE, m.id);
      assert RemovalsMatch(x.log.remote.settles, REMOTE, Settle, x.rcvd, x.sent);
      assert RemovalsMatch(x.log.remote.fails, REMOTE, Fail, x.rcvd, x.sent);
      assert AddsMatch(x.log.remote, REMOTE, x.rcvd, x.sent);
    }
  }

  lemma NodeSends(x: Node, m: Msg, payer: Owner, rate0: int)
    requires NodeOk(x, payer, rate0) && SendMsg(x, m).Some? && (m.FeeMsg? ==> payer == LOCAL)
    ensures NodeOk(SendMsg(x, m).value, payer, rate0)
  {
    ApplyKeeps(x.log, LOCAL, m);
    ApplyMatches(x.log, LOCAL, m, x.sent, x.rcvd, rate0);
    StepPayer(x.log, payer, Emit(LOCAL, m));
  }

  lemma LinkSends(x: Node, y: Node, toY: History, toX: History, m: Msg, payer: Owner, rate0: int, xPays: bool)
    requires NodeOk(x, payer, rate0) && SendMsg(x, m).Some? && (m.FeeMsg? ==> xPays)
    requires LinkOk(x, y, toY, xPays) && LinkOk(y, x, toX, !xPays)
    ensures LinkOk(SendMsg(x, m).value, y, toY + [m], xPays) && LinkOk(y, SendMsg(x, m).value, toX, !xPays)
  {
    GuardsSeen(x, m, payer, rate0);
    assert x.rcvd <= y.sent;
    PeerGrows(x.sent, m, x.rcvd, y.sent, m.FeeMsg?);
    SentOkSnoc(x.sent, m, y.sent, xPays);
    SentOkPeerGrows(y.sent, x.sent, x.sent + [m], !xPays);
  }

  // ----- receiving

  /** Whatever passed the sender's guards passes the receiver's. */
  lemma Receivable(y: Node, m: Msg, payer: Owner, rate0: int)
    requires NodeOk(y, payer, rate0) && MsgOk(y.rcvd, m, y.sent, true)
    requires m.RevMsg? ==> y.log.Side(REMOTE).revackPending
    ensures Apply(y.log, REMOTE, m).Some?
  {
    match m {
      case RemoveMsg(k, id) =>
        AddKnown(y.sent, id);
        assert AddsMatch(y.log.local, LOCAL, y.sent, y.rcvd);
        assert RemovalsMatch(y.log.local.settles, LOCAL, Settle, y.sent, y.rcvd);
        assert RemovalsMatch(y.log.local.fails, LOCAL, Fail, y.sent, y.rcvd);
        assert AllOk(y.log.local.lockedIn, REMOTE, y.log.Unrevoked(REMOTE), y.log.Unrevoked(LOCAL));
      case FeeMsg(_) =>
        assert Contiguous(y.log.remote.feeUpdates);
      case _ =>
    }
  }

  lemma NodeReceives(y: Node, m: Msg, payer: Owner, rate0: int)
    requires NodeOk(y, payer, rate0) && ReceiveMsg(y, m).Some? && (m.FeeMsg? ==> payer == REMOTE)
    ensures NodeOk(ReceiveMsg(y, m).value, payer, rate0)
  {
    ApplyKeeps(y.log, REMOTE, m);
    MatchesFlip(y.log, LOCAL, y.sent, y.rcvd, rate0);
    ApplyMatches(y.log, REMOTE, m, y.rcvd, y.sent, rate0);
    MatchesFlip(ReceiveMsg(y, m).value.log, REMOTE, y.rcvd + [m], y.sent, rate0);
    StepPayer(y.log, payer, Emit(REMOTE, m));
  }

  /** The head of the queue can be received. */
  lemma HeadReceivable(x: Node, y: Node, toY: History, payer: Owner, rate0: int, xPays: bool)
    requires NodeOk(y, payer, rate0) && toY != [] && LinkOk(x, y, toY, xPays)
    ensures ReceiveMsg(y, toY[0]).Some?
    ensures toY[0].FeeMsg? ==> xPays
    ensures LinkOk(x, ReceiveMsg(y, toY[0]).value, toY[1..], xPays)
  {
    var k := |y.rcvd|;
    assert x.sent[..k] == y.rcvd && x.sent[k] == toY[0];
    assert MsgOk(x.sent[..k], x.sent[k], y.sent, xPays);
    assert CountersMatch(y.log, REMOTE, y.rcvd, y.sent);
    Receivable(y, toY[0], payer, rate0);
    assert x.sent == (y.rcvd + [toY[0]]) + toY[1..];
  }

  // ----- reconnecting

  lemma Decompose(c: Channel, p: Party, payer: Party, rate0: int)
    requires ChannelOk(c, payer, rate0)
    ensures NodeOk(c.At(p), Role(p, payer), rate0)
    ensures NodeOk(c.At(p.Peer()), Role(p.Peer(), payer), rate0)
    ensures LinkOk(c.At(p), c.At(p.Peer()), c.Inbox(p.Peer()), p == payer)
    ensures LinkOk(c.At(p.Peer()), c.At(p), c.Inbox(p), p.Peer() == payer)
  {
  }

  /** A node signs at most one transaction more than its peer revoked, and revokes no more than its peer signed. */
  lemma {:induction false} SentBounds(h: History, peer: History, paysFees: bool)
    requires SentOk(h, peer, paysFees)
    ensures CtxCount(h) <= RevCount(peer) + 1 && RevCount(h) <= CtxCount(peer)
    decreases |h|
  {
    if h != [] {
      var init := h[..|h| - 1];
      assert MsgOk(h[..|h| - 1], h[|h| - 1], peer, paysFees);
      forall k | 0 <= k < |init|
        ensures MsgOk(init[..k], init[k], peer, paysFees)
      {
        assert init[..k] == h[..k] && MsgOk(h[..k], h[k], peer, paysFees);
      }
      SentBounds(init, peer, paysFees);
    }
  }

  /** At most one signature and one revocation are under way. */
  lemma FewUnderWay(x: Node, y: Node, toY: History, payer: Owner, rate0: int, xPays: bool)
    requires NodeOk(y, payer, rate0) && LinkOk(x, y, toY, xPays)
    ensures CtxCount(toY) <= 1 && RevCount(toY) <= 1
  {
    SentBounds(x.sent, y.sent, xPays);
    CountsJoin(y.rcvd, toY);
    assert CountersMatch(y.log, LOCAL, y.sent, y.rcvd) && CountersMatch(y.log, REMOTE, y.rcvd, y.sent);
  }

  lemma UpdateOkSame(before: History, m: Msg, peer: History, before': History, peer': History, paysFees: bool)
    requires MsgOk(before, m, peer, paysFees) && SameReadings(peer, peer') && !m.RevMsg? &&
             Updates(before) == Updates(before')
    ensures m.RemoveMsg? ==> AddCtn(peer', m.id).Some? && AddCtn(peer', m.id) == AddCtn(peer, m.id)
    ensures MsgOk(before', m, peer', paysFees) <==> m.RemoveMsg? ==> AddCtn(peer', m.id).value <= RevCount(before')
  {
    UpdatesTellCounts(before);
    UpdatesTellCounts(before');
    if m.RemoveMsg? {
      UpdatesTellRemove(before, Settle, m.id);
      UpdatesTellRemove(before', Settle, m.id);
      UpdatesTellRemove(before, Fail, m.id);
      UpdatesTellRemove(before', Fail, m.id);
      RevKnown(before', AddCtn(peer', m.id).value);
    }
  }

  lemma RevokeOkSame(before: History, peer: History, before': History, peer': History, paysFees: bool)
    requires MsgOk(before, RevMsg, peer, paysFees) && SameReadings(peer, peer') && Promises(before) == Promises(before')
    ensures MsgOk(before', RevMsg, peer', paysFees)
  {
    PromisesTellCounts(before);
    PromisesTellCounts(before');
  }

  /** Every message of the new history passed the guards, but for removals that now come too early. */
  lemma MsgOkIff(x: Node, y: Node, q: History, peer': History, k': nat, xPays: bool)
    requires LinkOk(x, y, q, xPays) && CtxCount(q) <= 1 && RevCount(q) <= 1 && Same(y.sent, peer')
    requires k' < |Reestablished(x, y).sent|
    ensures var h', m := Reestablished(x, y).sent, Reestablished(x, y).sent[k'];
            && (m.RemoveMsg? ==> AddCtn(y.sent, m.id).Some?)
            && (MsgOk(h'[..k'], m, peer', xPays) <==> m.RemoveMsg? ==> AddCtn(y.sent, m.id).value <= RevCount(h'[..k']))
  {
    var h, h' := x.sent, Reestablished(x, y).sent;
    RetransmittedSame(y.rcvd, q);
    SameTells(y.sent, peer');
    var k := SamePlace(h, h', k');
    assert MsgOk(h[..k], h[k], y.sent, xPays);
    if h[k].RevMsg? {
      RevokeOkSame(h[..k], y.sent, h'[..k'], peer', xPays);
    } else {
      UpdateOkSame(h[..k], h[k], y.sent, h'[..k'], peer', xPays);
    }
  }

  /** How many revocations come before an update in the new history. */
  lemma RevokedBefore(x: Node, y: Node, q: History, k': nat, xPays: bool)
    requires LinkOk(x, y, q, xPays) && RevCount(q) <= 1
    requires k' < |Reestablished(x, y).sent| && Reestablished(x, y).sent[k'].RemoveMsg?
    ensures var h', m := Reestablished(x, y).sent, Reestablished(x, y).sent[k'];
            && (k' < |Trimmed(y.rcvd)| ==> k' < |x.sent| && h'[..k'] == x.sent[..k'] && m == x.sent[k'])
            && (k' >= |Trimmed(y.rcvd)| ==>
                  && m in Replay(x.sent, CtxCount(y.rcvd))
                  && RevCount(h'[..k']) == if RevokesLast(x.sent, y.rcvd) then RevCount(y.rcvd) else RevCount(x.sent))
  {
    var t, again := Trimmed(y.rcvd), Retransmitted(x.sent, y.rcvd);
    if k' < |t| {
      TrimmedPlace(y.rcvd, k');
      assert (t + again)[..k'] == t[..k'] && x.sent[..k'] == y.rcvd[..k'];
    } else {
      assert (t + again)[..k'] == t + again[..k' - |t|];
      ReplayedPlace(y.rcvd, q, k' - |t|);
    }
  }

  lemma RemovalInTime(x: Node, y: Node, q: History, k': nat, xPays: bool)
    requires LinkOk(x, y, q, xPays) && CtxCount(q) <= 1 && RevCount(q) <= 1 && RemovalsInTime(x, y)
    requires k' < |Reestablished(x, y).sent| && Reestablished(x, y).sent[k'].RemoveMsg?
    ensures var h', m := Reestablished(x, y).sent, Reestablished(x, y).sent[k'];
            AddCtn(y.sent, m.id).Some? && AddCtn(y.sent, m.id).value <= RevCount(h'[..k'])
  {
    var h, h', m := x.sent, Reestablished(x, y).sent, Reestablished(x, y).sent[k'];
    RetransmittedSame(y.rcvd, q);
    var k := SamePlace(h, h', k');
    assert MsgOk(h[..k], m, y.sent, xPays);
    var a := AddCtn(y.sent, m.id).value;
    RevKnown(h[..k], a);
    CountsGrow(h[..k], h);
    RevokedBefore(x, y, q, k', xPays);
    if k' < |Trimmed(y.rcvd)| {
      assert MsgOk(h[..k'], m, y.sent, xPays);
      RevKnown(h[..k'], a);
    }
  }

  /** In order, everything that is sent again passes the guards. */
  lemma SentOkAgain(x: Node, y: Node, q: History, peer': History, xPays: bool)
    requires LinkOk(x, y, q, xPays) && CtxCount(q) <= 1 && RevCount(q) <= 1 && Same(y.sent, peer') &&
             RemovalsInTime(x, y)
    ensures SentOk(Reestablished(x, y).sent, peer', xPays)
  {
    var h' := Reestablished(x, y).sent;
    forall k' | 0 <= k' < |h'|
      ensures MsgOk(h'[..k'], h'[k'], peer', xPays)
    {
      MsgOkIff(x, y, q, peer', k', xPays);
      if h'[k'].RemoveMsg? {
        RemovalInTime(x, y, q, k', xPays);
      }
    }
  }

  /** Out of order, some removal does not. */
  lemma SentTooEarly(x: Node, y: Node, q: History, peer': History, xPays: bool)
    requires LinkOk(x, y, q, xPays) && CtxCount(q) <= 1 && RevCount(q) <= 1 && Same(y.sent, peer') &&
             !RemovalsInTime(x, y)
    ensures !SentOk(Reestablished(x, y).sent, peer', xPays)
  {
    var kind, id :| RemoveMsg(kind, id) in Replay(x.sent, CtxCount(y.rcvd)) && AddCtn(y.sent, id).Some? &&
                    AddCtn(y.sent, id).value > RevCount(y.rcvd);
    var again := Retransmitted(x.sent, y.rcvd);
    assert RemoveMsg(kind, id) in again;
    var j :| 0 <= j < |again| && again[j] == RemoveMsg(kind, id);
    var k' := |Trimmed(y.rcvd)| + j;
    assert Reestablished(x, y).sent[k'] == RemoveMsg(kind, id);
    MsgOkIff(x, y, q, peer', k', xPays);
    RevokedBefore(x, y, q, k', xPays);
  }

  lemma ReestablishedSame(x: Node, y: Node, toY: History, payer: Owner, rate0: int, xPays: bool)
    requires NodeOk(y, payer, rate0) && LinkOk(x, y, toY, xPays)
    ensures Same(x.sent, Reestablished(x, y).sent)
  {
    FewUnderWay(x, y, toY, payer, rate0, xPays);
    RetransmittedSame(y.rcvd, toY);
  }

  lemma PayerKept(l: Log, payer: Owner)
    requires Inv(l) && FeePayer(l, payer)
    ensures FeePayer(DiscardUnsigned(l), payer)
  {
    StepPayer(l, payer, DiscardUnsignedRemoteUpdates);
  }

  lemma NodeReestablished(x: Node, sent: History, payer: Owner, rate0: int)
    requires NodeOk(x, payer, rate0) && Same(x.sent, sent)
    ensures NodeOk(Node(DiscardUnsigned(x.log), sent, Trimmed(x.rcvd)), payer, rate0)
  {
    PayerKept(x.log, payer);
    DiscardKeeps(x.log);
    DiscardMatches(x.log, x.sent, x.rcvd, rate0);
    MatchesSame(DiscardUnsigned(x.log), LOCAL, x.sent, Trimmed(x.rcvd), sent, Trimmed(x.rcvd), rate0);
  }

  lemma PartyReestablished(c: Channel, p: Party, payer: Party, rate0: int)
    requires ChannelOk(c, payer, rate0)
    ensures PartyOk(Reconnected(c), p, payer, rate0) <==> RemovalsInTime(c.At(p), c.At(p.Peer()))
  {
    var x, y := c.At(p), c.At(p.Peer());
    var x', y' := Reestablished(x, y), Reestablished(y, x);
    Decompose(c, p, payer, rate0);
    ReestablishedSame(x, y, c.Inbox(p.Peer()), Role(p.Peer(), payer), rate0, p == payer);
    ReestablishedSame(y, x, c.Inbox(p), Role(p, payer), rate0, p.Peer() == payer);
    FewUnderWay(x, y, c.Inbox(p.Peer()), Role(p.Peer(), payer), rate0, p == payer);
    NodeReestablished(x, x'.sent, Role(p, payer), rate0);
    if RemovalsInTime(x, y) {
      SentOkAgain(x, y, c.Inbox(p.Peer()), y'.sent, p == payer);
    } else {
      SentTooEarly(x, y, c.Inbox(p.Peer()), y'.sent, p == payer);
    }
  }

  /** Re-establishing the channel keeps all that was so, if and only if no removal is sent again too early. */
  lemma ReconnectKeepsIff(c: Channel, payer: Party, rate0: int)
    requires ChannelOk(c, payer, rate0)
    ensures ChannelOk(Reconnected(c), payer, rate0) <==> AllInTime(c)
  {
    PartyReestablished(c, A, payer, rate0);
    PartyReestablished(c, B, payer, rate0);
  }

  /** A node whose removals under way are all of HTLCs that are irrevocable on both sides is in order. */
  lemma IrrevocableInTime(x: Node, y: Node, toX: History, toY: History, px: Owner, py: Owner, rate0: int, xPays: bool)
    requires NodeOk(x, px, rate0) && NodeOk(y, py, rate0) && LinkOk(x, y, toY, xPays) && LinkOk(y, x, toX, !xPays)
    requires forall k, id :: RemoveMsg(k, id) in Replay(x.sent, CtxCount(y.rcvd)) ==>
               IrrevocablyAdded(x.log, LOCAL, REMOTE, id) && IrrevocablyAdded(x.log, REMOTE, REMOTE, id)
    ensures RemovalsInTime(x, y)
  {
    forall k, id | RemoveMsg(k, id) in Replay(x.sent, CtxCount(y.rcvd)) && AddCtn(y.sent, id).Some?
      ensures AddCtn(y.sent, id).value <= RevCount(y.rcvd)
    {
      assert IrrevocablyAdded(x.log, REMOTE, REMOTE, id);
      AddRevoked(x, y, toX, toY, px, py, rate0, xPays, id);
    }
  }

  lemma AddRevoked(x: Node, y: Node, toX: History, toY: History, px: Owner, py: Owner, rate0: int, xPays: bool, id: int)
    requires NodeOk(x, px, rate0) && NodeOk(y, py, rate0) && LinkOk(x, y, toY, xPays) && LinkOk(y, x, toX, !xPays)
    requires IrrevocablyAdded(x.log, REMOTE, REMOTE, id) && AddCtn(y.sent, id).Some?
    ensures AddCtn(y.sent, id).value <= RevCount(y.rcvd)
  {
    hide Inv, FeePayer, RevCount;
    var a := AddCtn(y.sent, id).value;
    assert AddsMatch(x.log.remote, REMOTE, x.rcvd, x.sent);
    assert CountersMatch(x.log, REMOTE, x.rcvd, x.sent) && CountersMatch(y.log, LOCAL, y.sent, y.rcvd);
    AddsAlike(x.rcvd, y.sent, id);
    CountsGrow(x.rcvd, y.sent);
    RevsAlike(y.rcvd, x.sent, a);
    RevKnown(y.rcvd, a);
  }

  // ----- every run

  lemma Replace(c: Channel, p: Party, x: Node, y: Node, to: History, from: History, payer: Party, rate0: int)
    requires y == c.At(p.Peer())
    requires NodeOk(x, Role(p, payer), rate0) && NodeOk(y, Role(p.Peer(), payer), rate0)
    requires LinkOk(x, y, from, p == payer) && LinkOk(y, x, to, p.Peer() == payer)
    ensures ChannelOk(c.With(p, x, to, from), payer, rate0)
  {
  }

  lemma SendKeeps(c: Channel, payer: Party, p: Party, m: Msg, rate0: int)
    requires ChannelOk(c, payer, rate0) && Step(c, payer, Send(p, m)).Some?
    ensures ChannelOk(Step(c, payer, Send(p, m)).value, payer, rate0)
  {
    var x, y := c.At(p), c.At(p.Peer());
    Decompose(c, p, payer, rate0);
    NodeSends(x, m, Role(p, payer), rate0);
    LinkSends(x, y, c.Inbox(p.Peer()), c.Inbox(p), m, Role(p, payer), rate0, p == payer);
    Replace(c, p, SendMsg(x, m).value, y, c.Inbox(p), c.Inbox(p.Peer()) + [m], payer, rate0);
  }

  /** The head of an inbox passes the guards of its receiver. */
  lemma HeadAccepted(c: Channel, payer: Party, p: Party, rate0: int)
    requires ChannelOk(c, payer, rate0) && |c.Inbox(p)| > 0
    ensures ReceiveMsg(c.At(p), c.Inbox(p)[0]).Some?
  {
    Decompose(c, p, payer, rate0);
    HeadReceivable(c.At(p.Peer()), c.At(p), c.Inbox(p), Role(p, payer), rate0, p.Peer() == payer);
  }

  /** No guard or assertion of a receiver ever fires. */
  lemma DeliverySucceeds(c: Channel, payer: Party, p: Party, rate0: int)
    requires ChannelOk(c, payer, rate0)
    ensures Step(c, payer, Deliver(p)).Some?
  {
    hide PartyOk;
    if |c.Inbox(p)| > 0 {
      HeadAccepted(c, payer, p, rate0);
    }
  }

  lemma HeadKeeps(c: Channel, payer: Party, p: Party, rate0: int)
    requires ChannelOk(c, payer, rate0) && |c.Inbox(p)| > 0 && ReceiveMsg(c.At(p), c.Inbox(p)[0]).Some?
    ensures ChannelOk(c.With(p, ReceiveMsg(c.At(p), c.Inbox(p)[0]).value, c.Inbox(p)[1..], c.Inbox(p.Peer())), payer,
                      rate0)
  {
    var x, y, q := c.At(p.Peer()), c.At(p), c.Inbox(p);
    Decompose(c, p, payer, rate0);
    HeadReceivable(x, y, q, Role(p, payer), rate0, p.Peer() == payer);
    NodeReceives(y, q[0], Role(p, payer), rate0);
    Replace(c, p, ReceiveMsg(y, q[0]).value, x, q[1..], c.Inbox(p.Peer()), payer, rate0);
  }

  lemma DeliverKeeps(c: Channel, payer: Party, p: Party, rate0: int)
    requires ChannelOk(c, payer, rate0) && Step(c, payer, Deliver(p)).Some?
    ensures ChannelOk(Step(c, payer, Deliver(p)).value, payer, rate0)
  {
    hide PartyOk;
    if |c.Inbox(p)| > 0 {
      HeadKeeps(c, payer, p, rate0);
    }
  }

  lemma StepOk(c: Channel, payer: Party, e: Event, rate0: int)
    requires ChannelOk(c, payer, rate0) && Step(c, payer, e).Some?
    ensures ChannelOk(Step(c, payer, e).value, payer, rate0)
  {
    match e
    case Send(p, m) => SendKeeps(c, payer, p, m, rate0);
    case Deliver(p) => DeliverKeeps(c, payer, p, rate0);
    case Reconnect => ReconnectKeepsIff(c, payer, rate0);
  }

  lemma {:induction false} RunOk(c: Channel, payer: Party, events: seq<Event>, rate0: int)
    requires ChannelOk(c, payer, rate0)
    ensures ChannelOk(Run(c, payer, events), payer, rate0)
    decreases |events|
  {
    if events != [] {
      var r := Step(c, payer, events[0]);
      if r.Some? {
        StepOk(c, payer, events[0], rate0);
      }
      RunOk(if r.Some? then r.value else c, payer, events[1..], rate0);
    }
  }

  /** After every run, no guard or assertion of a receiver fires on a message whose sending succeeded. */
  lemma NoReceiverGuardFires(rate: int, payer: Party, events: seq<Event>, p: Party)
    ensures Step(Run(OpenedChannel(rate), payer, events), payer, Deliver(p)).Some?
  {
    OpenedOk(rate, payer);
    RunOk(OpenedChannel(rate), payer, events, rate);
    DeliverySucceeds(Run(OpenedChannel(rate), payer, events), payer, p, rate);
  }
}
