/** Two wallets, and the calls at which an exception comes out of the middle of an operation. */
module WalletRaises {
  import opened Options
  import opened WalletIndex
  import opened WalletRemovals
  import opened Wallet

  function First(): Tx {
    Tx(1, [Coinbase], [Output(None, 0)])
  }

  lemma EmptyWallet(txs: Txs, spent: Spent)
    requires txs == map[] && SpentOk(txs, spent)
    ensures spent == map[]
  {
    assert forall o :: o in spent ==> spent[o] in txs;
    assert spent.Keys == {};
  }

  lemma NobodyPushedOut(spent: Spent, gone: set<TxId>)
    requires PushedOut(spent, {}, gone)
    ensures gone == {}
  {
    assert forall x :: x !in gone;
  }

  lemma NoneToRemove(txs: Txs, spent: Spent, order: seq<TxId>)
    requires OrderOf(order, {})
    ensures !OrderFails(txs, spent, order)
  {
    SomeMember(order);
  }

  lemma SomeMember(order: seq<TxId>)
    ensures order != [] ==> exists x :: x in order
  {
    if order != [] {
      assert order[0] in order;
    }
  }

  /** A single transaction whose removal raises. */
  lemma OneToRemove(txs: Txs, spent: Spent, t: TxId, order: seq<TxId>)
    requires OrderOf(order, {t}) && t in txs && Raises(spent, txs[t].inputs)
    ensures OrderFails(txs, spent, order)
  {
    assert t in order;
    var k :| 0 <= k < |order| && order[k] == t;
    assert SpentWithout(spent, {}) == spent;
    RaisesWithLess(spent, {}, Members(order[..k]), txs[t].inputs);
    assert FailsAt(txs, spent, order, k);
  }

  lemma NobodyDepends(spent: Spent, t: TxId, x: TxId)
    requires forall o :: o in spent ==> o.txid != t
    ensures !DependsOn(spent, t, x)
  {
    if DependsOn(spent, t, x) {
      var o := DependsByChild(spent, t, x);
      assert false;
    }
  }

  lemma NoSpends(tx: Tx)
    requires tx.inputs == [Coinbase]
    ensures SpentBy(map[], tx, 1) == map[]
  {
    assert SpentBy(map[], tx, 0) == map[];
  }

  /** The wallet with a coinbase transaction only. */
  method WithFirst(ghost w: World) returns (s: AddressSynchronizer)
    requires WorldOk(w) && w.tx(1) == First()
    ensures fresh(s) && s.Valid() && s.w == w
    ensures s.transactions == map[1 := First()] && s.spentOutpoints == map[]
  {
    s := new AddressSynchronizer(w);
    EmptyWallet(s.transactions, s.spentOutpoints);
    assert Conflicts(s.spentOutpoints, First()) == {};
    var r;
    ghost var gone, order;
    r, gone, order := s.AddTransaction(First(), true);
    assert r.Added? by {
      if r.KeyError? || r.IndexError? {
        NobodyPushedOut(map[], gone);
        NoneToRemove(map[], map[], order);
      }
    }
    NobodyPushedOut(map[], gone);
    NoSpends(First());
    assert TxsWithout(map[], {}) == map[] && SpentWithout(map[], {}) == map[];
  }

  /** Adding a transaction that names an output that is not there: `address_synchronizer` stops half way. */
  method AddOutOfRange() returns (s: AddressSynchronizer, r: AddResult)
    ensures fresh(s) && s.w == OutOfRangeWorld() && r == IndexError
    ensures s.transactions == map[1 := First()] && s.spentOutpoints == map[Outpoint(1, 5) := 2] && !s.Valid()
  {
    hide Outranks, OrderOf, OrderFails, SomeRepeats, SomeCanFail, TxoOk, TxiOk, LocalOk, WorldOk;
    ghost var w := OutOfRangeWorld();
    OutOfRangeFails();
    s := WithFirst(w);
    var tx := Tx(2, [SpendInput(Outpoint(1, 5), None)], []);
    ghost var gone, order;
    assert Conflicts(s.spentOutpoints, tx) == {};
    r, gone, order := s.AddTransaction(tx, true);
    NobodyPushedOut(map[], gone);
    NoneToRemove(map[1 := First()], map[], order);
    WithoutNobody(map[1 := First()], map[], map[], map[]);
    SpentByOne(tx);
    assert s.spentOutpoints[Outpoint(1, 5)] !in s.transactions;
  }

  lemma SpentByOne(tx: Tx)
    requires |tx.inputs| == 1 && tx.inputs[0].SpendInput?
    ensures SpentBy(map[], tx, 1) == map[tx.inputs[0].prevout := tx.txid]
  {
    assert SpentBy(map[], tx, 0) == map[];
  }

  function Twice(): Tx {
    Tx(2, [SpendInput(Outpoint(1, 0), None), SpendInput(Outpoint(1, 0), None)], [])
  }

  /** Adding a transaction that spends an outpoint twice goes well. */
  method WithRepeating(ghost w: World) returns (s: AddressSynchronizer)
    requires WorldOk(w) && w.tx(1) == First() && w.tx(2) == Twice()
    ensures fresh(s) && s.Valid() && s.w == w
    ensures s.transactions == map[1 := First(), 2 := Twice()] && s.spentOutpoints == map[Outpoint(1, 0) := 2]
  {
    hide WorldOk, TxsOk, SpentOk, OrderOf, OrderFails, SomeRepeats, SomeCanFail;
    s := WithFirst(w);
    var tx := Twice();
    assert Conflicts(s.spentOutpoints, tx) == {};
    var r;
    ghost var gone, order;
    r, gone, order := s.AddTransaction(tx, true);
    NobodyPushedOut(map[], gone);
    NoneToRemove(map[1 := First()], map[], order);
    WithoutNobody(map[1 := First()], map[], map[], map[]);
    SpentTwice(tx, Outpoint(1, 0));
  }

  /** Removing it raises. */
  method RemoveRepeating() returns (s: AddressSynchronizer, raised: bool)
    ensures fresh(s) && s.w == RepeatingWorld() && raised
  {
    hide WorldOk, TxsOk, SpentOk, SpentWithout, TxsWithout, TxoWithout, TxiWithout, LocalWithout;
    hide OrderOf, OrderFails, SomeRepeats, SomeCanFail, Raises;
    RepeatingFails();
    s := WithRepeating(RepeatingWorld());
    ghost var txs, spent, gone, order := s.transactions, s.spentOutpoints, {}, [];
    forall x
      ensures !DependsOn(spent, 2, x)
    {
      NobodyDepends(spent, 2, x);
    }
    raised, gone, order := s.RemoveTransaction(2);
    assert gone == {2};
    OneToRemove(txs, spent, 2, order);
  }

  lemma SpentTwice(tx: Tx, o: Outpoint)
    requires tx.inputs == [SpendInput(o, None), SpendInput(o, None)]
    ensures SpentBy(map[], tx, 2) == map[o := tx.txid]
  {
    assert SpentBy(map[], tx, 0) == map[];
    assert SpentBy(map[], tx, 1) == map[o := tx.txid];
  }
}
