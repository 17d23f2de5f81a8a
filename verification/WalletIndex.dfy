/** The maps that a wallet keeps about its transactions, and what holds between them. */
module WalletIndex {
  import opened Options

  type TxId = nat
  type Address = nat

  datatype Outpoint = Outpoint(txid: TxId, n: nat)

  /** `address` is there when the input itself tells whose coin it spends. */
  datatype Input = Coinbase | SpendInput(prevout: Outpoint, address: Option<Address>)

  datatype Output = Output(address: Option<Address>, value: nat)

  datatype Tx = Tx(txid: TxId, inputs: seq<Input>, outputs: seq<Output>)

  /**
   What is assumed of all transactions there are: an id stands for one transaction, spending goes forward, inputs tell
   the truth.
   */
  datatype World = World(tx: TxId -> Tx, rank: TxId -> nat)

  ghost predicate InputOk(w: World, t: TxId, i: nat)
    requires i < |w.tx(t).inputs|
  {
    match w.tx(t).inputs[i]
    case Coinbase => true
    case SpendInput(o, a) =>
      && w.rank(o.txid) < w.rank(t)
      && (a.Some? && o.n < |w.tx(o.txid).outputs| ==> w.tx(o.txid).outputs[o.n].address == a)
  }

  ghost predicate WorldOk(w: World) {
    && (forall t: TxId :: w.tx(t).txid == t && w.tx(t).inputs != [])
    && (forall t: TxId, i: nat :: i < |w.tx(t).inputs| ==> InputOk(w, t, i))
  }

  predicate Spends(tx: Tx, o: Outpoint) {
    exists i :: 0 <= i < |tx.inputs| && tx.inputs[i].SpendInput? && tx.inputs[i].prevout == o
  }

  /** One output that is paid to one of the wallet's addresses, and one input that spends such an output. */
  datatype Coin = Coin(txid: TxId, address: Address, n: nat)
  {
    function Point(): Outpoint {
      Outpoint(txid, n)
    }
  }
  datatype Spend = Spend(txid: TxId, address: Address, prevout: Outpoint)
  {
    function Of(): Coin {
      Coin(prevout.txid, address, prevout.n)
    }
  }

  datatype CoinValue = CoinValue(value: nat, isCoinbase: bool)

  type Txs = map<TxId, Tx>
  type Spent = map<Outpoint, TxId>
  type Txo = map<Coin, CoinValue>
  type Txi = map<Spend, nat>
  type Local = map<Address, set<TxId>>

  // ----- what holds between the maps

  ghost predicate TxsOk(w: World, txs: Txs) {
    forall t :: t in txs ==> txs[t] == w.tx(t)
  }

  /** Each spent outpoint is mapped to exactly the stored transaction that spends it. */
  ghost predicate SpentOk(txs: Txs, spent: Spent) {
    && (forall o :: o in spent ==> spent[o] in txs && Spends(txs[spent[o]], o))
    && (forall t, o {:trigger Spends(txs[t], o)} :: t in txs && Spends(txs[t], o) ==> o in spent && spent[o] == t)
  }

  predicate IsCoinbase(tx: Tx) {
    tx.inputs != [] && tx.inputs[0].Coinbase?
  }

  ghost predicate CoinOk(txs: Txs, mine: set<Address>, c: Coin, v: CoinValue) {
    && c.txid in txs && c.address in mine
    && c.n < |txs[c.txid].outputs| && txs[c.txid].outputs[c.n] == Output(Some(c.address), v.value)
    && v.isCoinbase == IsCoinbase(txs[c.txid])
  }

  /** Recorded outputs are outputs of stored transactions to the wallet's addresses. */
  ghost predicate TxoOk(txs: Txs, mine: set<Address>, txo: Txo) {
    forall c :: c in txo ==> CoinOk(txs, mine, c, txo[c])
  }

  /** The recorded inputs are exactly those that spend recorded outputs, with their values. */
  ghost predicate TxiOk(spent: Spent, txo: Txo, txi: Txi) {
    && (forall s :: s in txi ==> s.Of() in txo && s.prevout in spent)
    && (forall s :: s in txi ==> spent[s.prevout] == s.txid && txi[s] == txo[s.Of()].value)
    && (forall c :: c in txo && c.Point() in spent ==> Spend(spent[c.Point()], c.address, c.Point()) in txi)
  }

  predicate Concerns(txo: Txo, txi: Txi, t: TxId, a: Address) {
    (exists c :: c in txo && c.txid == t && c.address == a) || (exists s :: s in txi && s.txid == t && s.address == a)
  }

  predicate InHistory(local: Local, t: TxId, a: Address) {
    a in local && t in local[a]
  }

  /** An address's history is the transactions that concern it; those in `skip` may still be missing. */
  ghost predicate LocalOk(txo: Txo, txi: Txi, local: Local, skip: set<TxId>) {
    && (forall t, a :: InHistory(local, t, a) ==> Concerns(txo, txi, t, a))
    && (forall t, a :: t !in skip && Concerns(txo, txi, t, a) ==> InHistory(local, t, a))
  }

  /** No two stored transactions spend the same outpoint. */
  lemma NoConflicts(txs: Txs, spent: Spent, t: TxId, t': TxId, o: Outpoint)
    requires SpentOk(txs, spent) && t in txs && t' in txs && Spends(txs[t], o) && Spends(txs[t'], o)
    ensures t == t'
  {
  }

  /** An outpoint pays one address. */
  lemma OneAddress(txs: Txs, mine: set<Address>, txo: Txo, c: Coin, c': Coin)
    requires TxoOk(txs, mine, txo) && c in txo && c' in txo && c.Point() == c'.Point()
    ensures c == c'
  {
  }

  // ----- removing

  function TxsWithout(txs: Txs, gone: set<TxId>): Txs {
    map t | t in txs && t !in gone :: txs[t]
  }

  function SpentWithout(spent: Spent, gone: set<TxId>): Spent {
    map o | o in spent && spent[o] !in gone :: spent[o]
  }

  function TxoWithout(txo: Txo, gone: set<TxId>): Txo {
    map c | c in txo && c.txid !in gone :: txo[c]
  }

  function TxiWithout(txi: Txi, gone: set<TxId>): Txi {
    map s | s in txi && s.txid !in gone :: txi[s]
  }

  /** Whoever spends an output of a removed transaction is removed too. */
  ghost predicate Closed(spent: Spent, gone: set<TxId>) {
    forall o :: o in spent && o.txid in gone ==> spent[o] in gone
  }

  /** Histories without the removed transactions; which addresses have an entry at all does not matter. */
  ghost predicate LocalWithout(local: Local, local': Local, gone: set<TxId>) {
    forall t, a :: InHistory(local', t, a) <==> InHistory(local, t, a) && t !in gone
  }

  lemma RemovalKeeps(w: World, txs: Txs, mine: set<Address>, spent: Spent, txo: Txo, txi: Txi, gone: set<TxId>)
    requires TxsOk(w, txs) && SpentOk(txs, spent) && TxoOk(txs, mine, txo) && TxiOk(spent, txo, txi) &&
             Closed(spent, gone)
    ensures TxsOk(w, TxsWithout(txs, gone)) && SpentOk(TxsWithout(txs, gone), SpentWithout(spent, gone))
    ensures TxoOk(TxsWithout(txs, gone), mine, TxoWithout(txo, gone))
    ensures TxiOk(SpentWithout(spent, gone), TxoWithout(txo, gone), TxiWithout(txi, gone))
  {
    TxiRemoval(spent, txo, txi, gone);
  }

  lemma TxiRemoval(spent: Spent, txo: Txo, txi: Txi, gone: set<TxId>)
    requires TxiOk(spent, txo, txi) && Closed(spent, gone)
    ensures TxiOk(SpentWithout(spent, gone), TxoWithout(txo, gone), TxiWithout(txi, gone))
  {
  }

  lemma LocalRemoval(txo: Txo, txi: Txi, local: Local, local': Local, gone: set<TxId>)
    requires LocalOk(txo, txi, local, {}) && LocalWithout(local, local', gone)
    ensures LocalOk(TxoWithout(txo, gone), TxiWithout(txi, gone), local', {})
  {
    forall t, a
      ensures InHistory(local', t, a) <==> Concerns(TxoWithout(txo, gone), TxiWithout(txi, gone), t, a)
    {
      ConcernsWithout(txo, txi, gone, t, a);
    }
  }

  lemma ConcernsWithout(txo: Txo, txi: Txi, gone: set<TxId>, t: TxId, a: Address)
    ensures Concerns(TxoWithout(txo, gone), TxiWithout(txi, gone), t, a) <==> Concerns(txo, txi, t, a) && t !in gone
  {
    if Concerns(txo, txi, t, a) && t !in gone {
      if c :| c in txo && c.txid == t && c.address == a {
        assert c in TxoWithout(txo, gone);
      } else {
        var s :| s in txi && s.txid == t && s.address == a;
        assert s in TxiWithout(txi, gone);
      }
    }
  }

  /** After removing a transaction and all its dependents, nobody spends an output of a removed transaction. */
  lemma NoOrphans(txs: Txs, spent: Spent, gone: set<TxId>, t: TxId, o: Outpoint)
    requires SpentOk(txs, spent) && Closed(spent, gone) && t in TxsWithout(txs, gone) && Spends(txs[t], o)
    ensures o.txid !in gone
  {
  }

  // ----- dependents

  /** `x` spends an output of `t`, or of one that does, and so on, `k` steps long. */
  ghost predicate Depends(spent: Spent, t: TxId, x: TxId, k: nat)
    decreases k
  {
    k > 0 && exists o :: o in spent && o.txid == t && (spent[o] == x || Depends(spent, spent[o], x, k - 1))
  }

  ghost predicate DependsOn(spent: Spent, t: TxId, x: TxId) {
    exists k: nat :: Depends(spent, t, x, k)
  }

  lemma ChildDepends(spent: Spent, t: TxId, o: Outpoint)
    requires o in spent && o.txid == t
    ensures DependsOn(spent, t, spent[o])
  {
    assert Depends(spent, t, spent[o], 1);
  }

  lemma GrandchildDepends(spent: Spent, t: TxId, o: Outpoint, x: TxId)
    requires o in spent && o.txid == t && DependsOn(spent, spent[o], x)
    ensures DependsOn(spent, t, x)
  {
    var k: nat :| Depends(spent, spent[o], x, k);
    assert Depends(spent, t, x, k + 1);
  }

  lemma DependsByChild(spent: Spent, t: TxId, x: TxId) returns (o: Outpoint)
    requires DependsOn(spent, t, x)
    ensures o in spent && o.txid == t && (spent[o] == x || DependsOn(spent, spent[o], x))
  {
    var k: nat :| Depends(spent, t, x, k);
    o :| o in spent && o.txid == t && (spent[o] == x || Depends(spent, spent[o], x, k - 1));
  }

  /** Following one more spend. */
  lemma {:induction false} DependsFurther(spent: Spent, t: TxId, x: TxId, o: Outpoint, k: nat)
    requires Depends(spent, t, x, k) && o in spent && o.txid == x
    ensures DependsOn(spent, t, spent[o])
    decreases k
  {
    var first :| first in spent && first.txid == t && (spent[first] == x || Depends(spent, spent[first], x, k - 1));
    if spent[first] == x {
      ChildDepends(spent, x, o);
    } else {
      DependsFurther(spent, spent[first], x, o, k - 1);
    }
    GrandchildDepends(spent, t, first, spent[o]);
  }

  /** Exactly the dependents of `t`. */
  ghost predicate AreDependents(spent: Spent, t: TxId, d: set<TxId>) {
    forall x :: x in d <==> DependsOn(spent, t, x)
  }

  lemma DependentsClosed(spent: Spent, t: TxId, d: set<TxId>)
    requires AreDependents(spent, t, d)
    ensures Closed(spent, d + {t})
  {
    forall o | o in spent && o.txid in d + {t}
      ensures spent[o] in d + {t}
    {
      if o.txid == t {
        ChildDepends(spent, t, o);
      } else {
        var k: nat :| Depends(spent, t, o.txid, k);
        DependsFurther(spent, t, o.txid, o, k);
      }
    }
  }

  // ----- adding

  /** The outpoints spent once the first `i` inputs of `tx` are entered. */
  function SpentBy(spent: Spent, tx: Tx, i: nat): Spent
    requires i <= |tx.inputs|
  {
    if i == 0 then spent
    else
      match tx.inputs[i - 1]
      case Coinbase => SpentBy(spent, tx, i - 1)
      case SpendInput(o, _) => SpentBy(spent, tx, i - 1)[o := tx.txid]
  }

  lemma {:induction false} SpentByAt(spent: Spent, tx: Tx, i: nat, o: Outpoint)
    requires i <= |tx.inputs|
    ensures var entered := exists j :: 0 <= j < i && tx.inputs[j].SpendInput? && tx.inputs[j].prevout == o;
            && (o in SpentBy(spent, tx, i) <==> o in spent || entered)
            && (o in SpentBy(spent, tx, i) ==> SpentBy(spent, tx, i)[o] == if entered then tx.txid else spent[o])
  {
    if i > 0 {
      SpentByAt(spent, tx, i - 1, o);
    }
  }

  /** Nobody else spends what `tx` spends. */
  ghost predicate Free(spent: Spent, tx: Tx) {
    forall o :: Spends(tx, o) && o in spent ==> spent[o] == tx.txid
  }

  lemma SpentAdded(w: World, txs: Txs, spent: Spent, tx: Tx)
    requires TxsOk(w, txs) && SpentOk(txs, spent) && Free(spent, tx) && tx == w.tx(tx.txid)
    ensures SpentOk(txs[tx.txid := tx], SpentBy(spent, tx, |tx.inputs|))
  {
    var txs', spent' := txs[tx.txid := tx], SpentBy(spent, tx, |tx.inputs|);
    forall o | o in spent'
      ensures spent'[o] in txs' && Spends(txs'[spent'[o]], o)
    {
      SpentByAt(spent, tx, |tx.inputs|, o);
    }
    forall t, o | t in txs' && Spends(txs'[t], o)
      ensures o in spent' && spent'[o] == t
    {
      SpentByAt(spent, tx, |tx.inputs|, o);
      assert t != tx.txid ==> t in txs && Spends(txs[t], o);
    }
  }

  /** An input is entered; `address` is where the coin it spends was paid to, if that is known. */
  function TxiWith(txo: Txo, txi: Txi, t: TxId, o: Outpoint, address: Option<Address>): Txi {
    if address.Some? && Coin(o.txid, address.value, o.n) in txo
    then txi[Spend(t, address.value, o) := txo[Coin(o.txid, address.value, o.n)].value]
    else txi
  }

  lemma InputEntered(spent: Spent, txo: Txo, txi: Txi, t: TxId, o: Outpoint, address: Option<Address>)
    requires TxiOk(spent, txo, txi) && (o in spent ==> spent[o] == t)
    requires forall c :: c in txo && c.Point() == o ==> address == Some(c.address)
    ensures TxiOk(spent[o := t], txo, TxiWith(txo, txi, t, o, address))
  {
    var spent', txi' := spent[o := t], TxiWith(txo, txi, t, o, address);
    forall c | c in txo && c.Point() in spent'
      ensures Spend(spent'[c.Point()], c.address, c.Point()) in txi'
    {
    }
  }

  /** An output is entered, and given to the input that spends it. */
  function TxiGiven(spent: Spent, txi: Txi, t: TxId, n: nat, a: Address, v: nat): Txi {
    if Outpoint(t, n) in spent then txi[Spend(spent[Outpoint(t, n)], a, Outpoint(t, n)) := v] else txi
  }

  lemma OutputEntered(spent: Spent, txo: Txo, txi: Txi, t: TxId, n: nat, a: Address, v: CoinValue)
    requires TxiOk(spent, txo, txi)
    requires forall c :: c in txo && c.Point() == Outpoint(t, n) ==> c.address == a && txo[c].value == v.value
    ensures TxiOk(spent, txo[Coin(t, a, n) := v], TxiGiven(spent, txi, t, n, a, v.value))
  {
    var txo', txi' := txo[Coin(t, a, n) := v], TxiGiven(spent, txi, t, n, a, v.value);
    forall c | c in txo' && c.Point() in spent
      ensures Spend(spent[c.Point()], c.address, c.Point()) in txi'
    {
    }
  }

  /** `t` enters the histories of all addresses that it concerns. */
  ghost predicate LocalWith(txo: Txo, txi: Txi, local: Local, local': Local, t: TxId) {
    forall x, a :: InHistory(local', x, a) <==> InHistory(local, x, a) || (x == t && Concerns(txo, txi, t, a))
  }

  lemma LocalEntered(txo: Txo, txi: Txi, local: Local, local': Local, skip: set<TxId>, t: TxId)
    requires LocalOk(txo, txi, local, skip) && LocalWith(txo, txi, local, local', t)
    ensures LocalOk(txo, txi, local', skip - {t})
  {
  }

  /** More entries of transactions that are to be entered anyway. */
  lemma LocalGrows(txo: Txo, txi: Txi, txo': Txo, txi': Txi, local: Local, skip: set<TxId>)
    requires LocalOk(txo, txi, local, skip)
    requires forall c :: c in txo ==> c in txo'
    requires forall s :: s in txi ==> s in txi'
    requires forall c :: c in txo' && c !in txo ==> c.txid in skip
    requires forall s :: s in txi' && s !in txi ==> s.txid in skip
    ensures LocalOk(txo', txi', local, skip)
  {
  }

  /** An input entered: the maps agree, and only the spender's history may lack something. */
  lemma InputKeeps(spent: Spent, txo: Txo, txi: Txi, local: Local, t: TxId, o: Outpoint, address: Option<Address>)
    requires TxiOk(spent, txo, txi) && LocalOk(txo, txi, local, {t}) && (o in spent ==> spent[o] == t)
    requires forall c :: c in txo && c.Point() == o ==> address == Some(c.address)
    ensures TxiOk(spent[o := t], txo, TxiWith(txo, txi, t, o, address)) &&
            LocalOk(txo, TxiWith(txo, txi, t, o, address), local, {t})
  {
    InputEntered(spent, txo, txi, t, o, address);
    LocalGrows(txo, txi, txo, TxiWith(txo, txi, t, o, address), local, {t});
  }

  /** An output entered: only the histories of its transaction and of its spender may lack something. */
  lemma OutputKeeps(spent: Spent, txo: Txo, txi: Txi, local: Local, t: TxId, n: nat, a: Address, v: CoinValue,
                    skip: set<TxId>)
    requires TxiOk(spent, txo, txi) && LocalOk(txo, txi, local, {t})
    requires forall c :: c in txo && c.Point() == Outpoint(t, n) ==> c.address == a && txo[c].value == v.value
    requires skip == if Outpoint(t, n) in spent then {t, spent[Outpoint(t, n)]} else {t}
    ensures TxiOk(spent, txo[Coin(t, a, n) := v], TxiGiven(spent, txi, t, n, a, v.value))
    ensures LocalOk(txo[Coin(t, a, n) := v], TxiGiven(spent, txi, t, n, a, v.value), local, skip)
  {
    OutputEntered(spent, txo, txi, t, n, a, v);
    assert LocalOk(txo, txi, local, skip);
    LocalGrows(txo, txi, txo[Coin(t, a, n) := v], TxiGiven(spent, txi, t, n, a, v.value), local, skip);
  }

  lemma TxoKeeps(txs: Txs, mine: set<Address>, txo: Txo, tx: Tx, n: nat, a: Address)
    requires TxoOk(txs, mine, txo) && tx.txid in txs && txs[tx.txid] == tx && n < |tx.outputs| &&
             tx.outputs[n].address == Some(a) && a in mine
    ensures TxoOk(txs, mine, txo[Coin(tx.txid, a, n) := CoinValue(tx.outputs[n].value, IsCoinbase(tx))])
    ensures forall c :: c in txo && c.Point() == Outpoint(tx.txid, n) ==>
            c.address == a && txo[c].value == tx.outputs[n].value
  {
    assert forall c :: c in txo && c.Point() == Outpoint(tx.txid, n) ==> CoinOk(txs, mine, c, txo[c]);
  }
}
