/** The wallet's transactions: adding and removing them, and what they amount to. */
module Wallet {
  import opened Options
  import opened Folding
  import opened WalletIndex
  import opened WalletRemovals
  import opened WalletBalance

  const TX_HEIGHT_FUTURE: int := -3
  const TX_HEIGHT_LOCAL: int := -2
  const TX_HEIGHT_UNCONF_PARENT: int := -1
  const TX_HEIGHT_UNCONFIRMED: int := 0
  const COINBASE_MATURITY: int := 100

  /** A set of addresses and the coins to leave out: what balances are cached for. */
  datatype CacheKey = CacheKey(domain: set<Address>, excluded: set<Outpoint>)

  datatype Balance = Balance(confirmed: int, unconfirmed: int, unmatured: int)
  {
    function Sum(): int {
      confirmed + unconfirmed + unmatured
    }
    function Plus(more: Balance): Balance {
      Balance(confirmed + more.confirmed, unconfirmed + more.unconfirmed, unmatured + more.unmatured)
    }
  }

  /** `IndexError` and `KeyError` are exceptions that come out of the middle of an addition. */
  datatype AddResult = Added | Dropped | Unrelated | IndexError | KeyError

  /** `Missing`: the previous transaction is stored, but has no such output. */
  datatype Lookup = Found(address: Option<Address>) | Missing

  /** The coin is one of the first `n` outputs, to one of the wallet's addresses. */
  ghost predicate Pays(tx: Tx, c: Coin, mine: set<Address>, n: nat) {
    c.txid == tx.txid && c.n < n && c.n < |tx.outputs| && tx.outputs[c.n].address == Some(c.address) &&
        c.address in mine
  }

  lemma TxoWithOne(txs: Txs, mine: set<Address>, txo: Txo, tx: Tx)
    requires TxoOk(txs, mine, txo) && (tx.txid in txs ==> txs[tx.txid] == tx)
    ensures TxoOk(txs[tx.txid := tx], mine, txo)
  {
    assert forall c :: c in txo ==> CoinOk(txs, mine, c, txo[c]);
  }

  // ----- coins and cached balances

  datatype Received = Received(height: int, coin: CoinValue)

  datatype Utxo = Utxo(value: nat, height: int, isCoinbase: bool, spent: bool)

  function HeightIn(heights: map<TxId, int>, t: TxId): int {
    if t in heights then heights[t] else TX_HEIGHT_LOCAL
  }

  ghost function UtxoOf(txo: Txo, txi: Txi, heights: map<TxId, int>, c: Coin): Utxo
    requires c in txo
  {
    Utxo(txo[c].value, HeightIn(heights, c.txid), txo[c].isCoinbase, IsSpent(txi, c))
  }

  /** The coins of a domain by outpoint. */
  ghost function CoinsByPoint(txo: Txo, txi: Txi, heights: map<TxId, int>, domain: set<Address>, coins: map<Outpoint,
                              Utxo>): Fact
  {
    Fact(forall n {:trigger Unfold(n)} :: Folded(n) ==>
      && (forall c :: c in txo && c.address in domain ==>
          c.Point() in coins && coins[c.Point()] == UtxoOf(txo, txi, heights, c))
      && (forall o :: o in coins ==> exists a :: a in domain && Coin(o.txid, a, o.n) in txo))
  }

  /** A coin in a block is confirmed, but a coinbase coin has to mature first. */
  datatype Standing = Unmatured | Confirmed | Pending

  function StandingOf(utxo: Utxo, localHeight: int): Standing {
    if utxo.isCoinbase && utxo.height + COINBASE_MATURITY > localHeight + 1 then Unmatured
    else if utxo.height > 0 then Confirmed
    else Pending
  }

  /** What the inputs take from confirmed ones among the coins. */
  function Backing(inputs: seq<Input>, coins: map<Outpoint, Utxo>): nat {
    if inputs == [] then 0
    else
      var last := inputs[|inputs| - 1];
      Backing(inputs[..|inputs| - 1], coins) +
      if last.SpendInput? && last.prevout in coins && coins[last.prevout].height > 0 then coins[last.prevout].value
      else 0
  }

  /** The part of a coin that its transaction paid with confirmed coins. */
  function Backed(inputs: seq<Input>, utxo: Utxo, coins: map<Outpoint, Utxo>): nat {
    if Backing(inputs, coins) >= utxo.value then utxo.value else Backing(inputs, coins)
  }

  /** A coin of less than 100 confirmations is unmatured if it is a coinbase coin; otherwise one is enough. */
  lemma StandingIs(utxo: Utxo, localHeight: int)
    requires 0 < utxo.height
    ensures var confirmations := localHeight - utxo.height + 1;
            StandingOf(utxo, localHeight) == if utxo.isCoinbase && confirmations < 100 then Unmatured else Confirmed
  {
  }

  /**
   A coin whose transaction takes nothing from confirmed coins is not backed; one covered by such a coin is, in full.
   */
  lemma {:induction false} BackedIs(inputs: seq<Input>, utxo: Utxo, coins: map<Outpoint, Utxo>)
    ensures (forall i :: 0 <= i < |inputs| && inputs[i].SpendInput? && inputs[i].prevout in coins ==>
               coins[inputs[i].prevout].height <= 0) ==> Backed(inputs, utxo, coins) == 0
    ensures (exists i :: 0 <= i < |inputs| && inputs[i].SpendInput? && inputs[i].prevout in coins &&
               coins[inputs[i].prevout].height > 0 && coins[inputs[i].prevout].value >= utxo.value) ==>
              Backed(inputs, utxo, coins) == utxo.value
  {
    if inputs != [] {
      var front := inputs[..|inputs| - 1];
      BackedIs(front, utxo, coins);
      assert forall i :: 0 <= i < |front| ==> front[i] == inputs[i];
    }
  }

  ghost function BackedPart(txs: Txs, coins: map<Outpoint, Utxo>): Coin -> int {
    (c: Coin) => if c.txid in txs && c.Point() in coins then Backed(txs[c.txid].inputs, coins[c.Point()], coins) else 0
  }

  ghost function WithStanding(some: set<Coin>, coins: map<Outpoint, Utxo>, localHeight: int, s: Standing): set<Coin> {
    set c | c in some && c.Point() in coins && StandingOf(coins[c.Point()], localHeight) == s
  }

  /** The three parts of a balance are made up of the coins of that standing; what is pending is split. */
  ghost predicate Splits(txs: Txs, txo: Txo, coins: map<Outpoint, Utxo>, localHeight: int, some: set<Coin>,
                         balance: Balance)
  {
    var pending := WithStanding(some, coins, localHeight, Pending);
    var backed := WalletBalance.Sum(pending, BackedPart(txs, coins));
    && balance.unmatured == WalletBalance.Sum(WithStanding(some, coins, localHeight, Unmatured), Worth(txo))
    && balance.confirmed ==
       WalletBalance.Sum(WithStanding(some, coins, localHeight, Confirmed), Worth(txo)) + backed
    && balance.unconfirmed == WalletBalance.Sum(pending, Worth(txo)) - backed
  }

  lemma SplitsNothing(txs: Txs, txo: Txo, coins: map<Outpoint, Utxo>, localHeight: int)
    ensures WalletBalance.Sum({}, Worth(txo)) == 0 && Splits(txs, txo, coins, localHeight, {}, Balance(0, 0, 0))
  {
    forall s: Standing
      ensures WithStanding({}, coins, localHeight, s) == {}
    {
    }
  }

  lemma SplitsMore(txs: Txs, txo: Txo, coins: map<Outpoint, Utxo>, localHeight: int, some: set<Coin>,
                   balance: Balance, c: Coin, share: Balance)
    requires Splits(txs, txo, coins, localHeight, some, balance) && c !in some && c in txo && c.txid in txs
    requires c.Point() in coins && coins[c.Point()].value == txo[c].value
    requires share == Share(txs[c.txid].inputs, coins[c.Point()], coins, localHeight)
    ensures Splits(txs, txo, coins, localHeight, some + {c}, balance.Plus(share))
  {
    hide Backing;
    var s := StandingOf(coins[c.Point()], localHeight);
    var same := WithStanding(some, coins, localHeight, s);
    forall s': Standing
      ensures WithStanding(some + {c}, coins, localHeight, s') ==
              if s' == s then same + {c} else WithStanding(some, coins, localHeight, s')
    {
    }
    SumAdd(same, Worth(txo), c);
    SumAdd(same, BackedPart(txs, coins), c);
  }

  /** How much of a coin counts as confirmed, unconfirmed and unmatured. */
  function Share(inputs: seq<Input>, utxo: Utxo, coins: map<Outpoint, Utxo>, localHeight: int): (share: Balance)
    ensures share.Sum() == utxo.value
  {
    match StandingOf(utxo, localHeight)
    case Unmatured => Balance(0, 0, utxo.value)
    case Confirmed => Balance(utxo.value, 0, 0)
    case Pending =>
      var backed := Backed(inputs, utxo, coins);
      Balance(backed, utxo.value - backed, 0)
  }

  /** The balance of the coins to count, split by the standing they have now. */
  ghost predicate SplitNow(txs: Txs, txo: Txo, txi: Txi, heights: map<TxId, int>, localHeight: int, key: CacheKey,
                           balance: Balance)
  {
    exists coins ::
      && CoinsByPoint(txo, txi, heights, key.domain, coins).holds
      && Splits(txs, txo, coins, localHeight, LeftCoins(txo, txi, key), balance)
  }

  ghost function LeftCoins(txo: Txo, txi: Txi, k: CacheKey): set<Coin> {
    set c | c in Unspent(txo, txi, k.domain) && c.Point() !in k.excluded
  }

  ghost function Left(txo: Txo, txi: Txi, k: CacheKey): int {
    WalletBalance.Sum(LeftCoins(txo, txi, k), Worth(txo))
  }

  /** The coins to count are those of the addresses that are not excluded and that no stored transaction spends. */
  lemma CountedIff(spent: Spent, txo: Txo, txi: Txi, k: CacheKey, c: Coin)
    requires TxiOk(spent, txo, txi)
    ensures c in LeftCoins(txo, txi, k) <==>
            c in txo && c.address in k.domain && c.Point() !in k.excluded && c.Point() !in spent
  {
    if c in txo && c.Point() in spent {
      var s := Spend(spent[c.Point()], c.address, c.Point());
      assert s in txi && s.Of() == c;
    }
  }

  /** The coins to count whose outpoints are not among `todo`. */
  ghost function LeftExcept(txo: Txo, txi: Txi, key: CacheKey, todo: set<Outpoint>): set<Coin> {
    set c | c in LeftCoins(txo, txi, key) && c.Point() !in todo
  }

  /** Cached balances add up to the coins nobody spent. */
  ghost predicate CacheRight(txo: Txo, txi: Txi, cache: map<CacheKey, Balance>) {
    forall k :: k in cache ==> cache[k].Sum() == Left(txo, txi, k)
  }

  // ----- a running balance

  datatype HistoryItem = HistoryItem(txid: TxId, delta: int, balance: int)

  function BalanceBefore(history: seq<HistoryItem>, i: nat): int
    requires i <= |history|
  {
    if i == 0 then 0 else history[i - 1].balance
  }

  /** Every item's balance is the one before it and its own delta. */
  ghost predicate RunsOn(history: seq<HistoryItem>) {
    forall i :: 0 <= i < |history| ==> history[i].balance == BalanceBefore(history, i) + history[i].delta
  }

  ghost function EffectOn(txo: Txo, txi: Txi, t: TxId): Address -> int {
    (a: Address) => Delta(txo, txi, t, a)
  }

  ghost function VisitedAt(visits: set<Visit>, t: TxId): set<Address> {
    set v | v in visits && v.txid == t :: v.address
  }

  /** The addresses of the domain in whose histories the transaction is. */
  ghost function Touched(local: Local, domain: set<Address>, t: TxId): set<Address> {
    set a | a in domain && InHistory(local, t, a)
  }

  /** Each visited transaction with its effect on the addresses at which it was visited. */
  ghost predicate Effects(txo: Txo, txi: Txi, deltas: map<TxId, int>, visits: set<Visit>) {
    && (forall v :: v in visits ==> v.txid in deltas)
    && (forall t :: t in deltas ==> VisitedAt(visits, t) != {})
    && (forall t :: t in deltas ==> deltas[t] == WalletBalance.Sum(VisitedAt(visits, t), EffectOn(txo, txi, t)))
  }

  lemma EffectsMore(txo: Txo, txi: Txi, deltas: map<TxId, int>, visits: set<Visit>, a: Address, t: TxId)
    requires Effects(txo, txi, deltas, visits) && Visit(a, t) !in visits
    ensures Effects(txo, txi, deltas[t := (if t in deltas then deltas[t] else 0) + Delta(txo, txi, t, a)],
                    visits + {Visit(a, t)})
  {
    hide WalletBalance.Sum, VisitedAt, EffectOn;
    var visits' := visits + {Visit(a, t)};
    forall x
      ensures VisitedAt(visits', x) == if x == t then VisitedAt(visits, x) + {a} else VisitedAt(visits, x)
    {
      VisitedMore(visits, a, t, x);
    }
    FirstVisit(visits, a, t);
    SumAdd(VisitedAt(visits, t), EffectOn(txo, txi, t), a);
    EffectIs(txo, txi, t, a);
    if t !in deltas {
      assert forall v :: v in visits ==> v.txid != t;
      NoVisits(visits, t);
      SumNothing(EffectOn(txo, txi, t));
    }
  }

  lemma EffectIs(txo: Txo, txi: Txi, t: TxId, a: Address)
    ensures EffectOn(txo, txi, t)(a) == Delta(txo, txi, t, a)
  {
  }

  lemma VisitedMore(visits: set<Visit>, a: Address, t: TxId, x: TxId)
    ensures VisitedAt(visits + {Visit(a, t)}, x) == if x == t then VisitedAt(visits, x) + {a} else VisitedAt(visits, x)
  {
    assert Visit(a, t) in visits + {Visit(a, t)};
  }

  lemma FirstVisit(visits: set<Visit>, a: Address, t: TxId)
    requires Visit(a, t) !in visits
    ensures a !in VisitedAt(visits, t)
  {
  }

  lemma NoVisits(visits: set<Visit>, t: TxId)
    requires forall v :: v in visits ==> v.txid != t
    ensures VisitedAt(visits, t) == {}
  {
  }

  lemma HistoryIs(local: Local, txo: Txo, txi: Txi, domain: set<Address>, visits: set<Visit>, deltas: map<TxId, int>,
                  history: seq<HistoryItem>)
    requires AllVisits(local, domain, visits) && Effects(txo, txi, deltas, visits)
    requires ItemsFor(history, deltas, deltas.Keys)
    ensures forall i, j :: 0 <= i < j < |history| ==> history[i].txid != history[j].txid
    ensures forall t :: Listed(history, t) <==> Touched(local, domain, t) != {}
    ensures forall i :: 0 <= i < |history| ==>
              history[i].delta == WalletBalance.Sum(Touched(local, domain, history[i].txid),
                                                    EffectOn(txo, txi, history[i].txid))
  {
    hide InHistory, EffectOn, WalletBalance.Sum, Touched;
    forall t
      ensures VisitedAt(visits, t) == Touched(local, domain, t)
      ensures t in deltas <==> Touched(local, domain, t) != {}
    {
      VisitedIsTouched(local, domain, visits, t);
      if a :| a in Touched(local, domain, t) {
        assert Visit(a, t) in visits;
      }
    }
  }

  lemma VisitedIsTouched(local: Local, domain: set<Address>, visits: set<Visit>, t: TxId)
    requires AllVisits(local, domain, visits)
    ensures VisitedAt(visits, t) == Touched(local, domain, t)
  {
    forall a
      ensures a in VisitedAt(visits, t) <==> a in Touched(local, domain, t)
    {
      if a in Touched(local, domain, t) {
        assert Visit(a, t) in visits;
      }
    }
  }

  ghost predicate Listed(history: seq<HistoryItem>, t: TxId) {
    exists i :: 0 <= i < |history| && history[i].txid == t
  }

  /** One item for each transaction in `some`, with its effect. */
  ghost predicate ItemsFor(history: seq<HistoryItem>, deltas: map<TxId, int>, some: set<TxId>) {
    && (forall i, j :: 0 <= i < j < |history| ==> history[i].txid != history[j].txid)
    && (forall i :: 0 <= i < |history| ==> history[i].txid in some && history[i].txid in deltas)
    && (forall i :: 0 <= i < |history| ==> history[i].delta == deltas[history[i].txid])
    && (forall t :: t in some ==> Listed(history, t))
  }

  lemma OneMoreItem(history: seq<HistoryItem>, deltas: map<TxId, int>, some: set<TxId>, t: TxId, balance: int)
    requires ItemsFor(history, deltas, some) && t in deltas && t !in some
    ensures ItemsFor(history + [HistoryItem(t, deltas[t], balance)], deltas, some + {t})
  {
    var longer := history + [HistoryItem(t, deltas[t], balance)];
    forall x | x in some + {t}
      ensures Listed(longer, x)
    {
      if x == t {
        assert longer[|history|].txid == t;
      } else {
        var i :| 0 <= i < |history| && history[i].txid == x;
        assert longer[i].txid == x;
      }
    }
  }

  lemma RunsLonger(history: seq<HistoryItem>, item: HistoryItem)
    requires RunsOn(history) && item.balance == BalanceBefore(history, |history|) + item.delta
    ensures var longer := history + [item];
            RunsOn(longer) && BalanceBefore(longer, |longer|) == item.balance
  {
    var longer := history + [item];
    assert forall i :: 0 <= i <= |history| ==> BalanceBefore(longer, i) == BalanceBefore(history, i);
  }

  lemma NoItems(deltas: map<TxId, int>)
    ensures RunsOn([]) && ItemsFor([], deltas, {}) && BalanceBefore([], 0) == 0
  {
  }

  method RunningBalance(deltas: map<TxId, int>) returns (history: seq<HistoryItem>)
    ensures RunsOn(history) && ItemsFor(history, deltas, deltas.Keys)
    ensures BalanceBefore(history, |history|) == Total(deltas)
  {
    hide RunsOn, ItemsFor, WalletBalance.Sum, BalanceBefore;
    history := [];
    var balance := 0;
    var todo := deltas.Keys;
    ghost var value := t => if t in deltas then deltas[t] else 0;
    NoItems(deltas);
    assert deltas.Keys - todo == {};
    while todo != {}
      invariant todo <= deltas.Keys && balance == BalanceBefore(history, |history|)
      invariant RunsOn(history) && ItemsFor(history, deltas, deltas.Keys - todo)
      invariant balance + WalletBalance.Sum(todo, value) == WalletBalance.Sum(deltas.Keys, value)
      decreases |todo|
    {
      var t :| t in todo;
      SumPick(todo, value, t);
      balance := balance + deltas[t];
      RunsLonger(history, HistoryItem(t, deltas[t], balance));
      OneMoreItem(history, deltas, deltas.Keys - todo, t, balance);
      assert deltas.Keys - todo + {t} == deltas.Keys - (todo - {t});
      history := history + [HistoryItem(t, deltas[t], balance)];
      todo := todo - {t};
    }
    assert deltas.Keys - todo == deltas.Keys;
    SumNothing(value);
    SumSame(deltas.Keys, value, t => if t in deltas then deltas[t] else 0);
  }

  /**
   Only a confirmed transaction replaces a confirmed one, and a local one does not replace one that is unconfirmed.
   */
  predicate Outranks(height: int, other: int) {
    && (other > 0 ==> height > 0)
    && (other == 0 || other == -1 ==> height != -2)
  }

  class AddressSynchronizer {
    ghost const w: World
    var transactions: Txs
    var spentOutpoints: Spent
    var txo: Txo
    var txi: Txi
    var historyLocal: Local
    var mine: set<Address>
    var heights: map<TxId, int>
    var localHeight: int
    var balanceCache: map<CacheKey, Balance>

    /** The maps agree with each other; histories may lack the transactions in `skip`. */
    ghost predicate Consistent(skip: set<TxId>)
      reads this`transactions, this`spentOutpoints, this`txo, this`txi, this`historyLocal, this`mine
    {
      && TxsOk(w, transactions) && SpentOk(transactions, spentOutpoints) && TxoOk(transactions, mine, txo)
      && TxiOk(spentOutpoints, txo, txi) && LocalOk(txo, txi, historyLocal, skip)
    }

    ghost predicate Valid()
      reads this
    {
      WorldOk(w) && Consistent({}) && CacheRight(txo, txi, balanceCache)
    }

    constructor (ghost w: World)
      requires WorldOk(w)
      ensures Valid() && transactions == map[] && this.w == w
    {
      this.w := w;
      transactions, spentOutpoints, txo, txi, historyLocal := map[], map[], map[], map[], map[];
      mine, heights, localHeight, balanceCache := {}, map[], 0, map[];
    }

    function Height(t: TxId): int
      reads this`heights
    {
      HeightIn(heights, t)
    }

    /** The wallet learns of one more address of its own. */
    method AddAddress(a: Address)
      requires Valid()
      modifies this`mine
      ensures Valid() && mine == old(mine) + {a}
    {
      mine := mine + {a};
    }

    /** The server's view of a transaction changes; balances that are cached still add up. */
    method SetHeight(t: TxId, height: int)
      requires Valid()
      modifies this`heights
      ensures Valid() && heights == old(heights)[t := height]
    {
      heights := heights[t := height];
    }

    method OnBlockchainUpdated(height: int)
      requires Valid()
      modifies this`localHeight, this`balanceCache
      ensures Valid() && localHeight == height && balanceCache == map[]
    {
      localHeight := height;
      balanceCache := map[];
    }

    // ----- histories

    function AddressesOf(t: TxId): set<Address>
      reads this`txi, this`txo
    {
      (set s | s in txi && s.txid == t :: s.address) + (set c | c in txo && c.txid == t :: c.address)
    }

    lemma AddressesConcern(t: TxId, a: Address)
      ensures a in AddressesOf(t) <==> Concerns(txo, txi, t, a)
    {
    }

    method AddTxToLocalHistory(t: TxId)
      modifies this`historyLocal
      ensures LocalWith(txo, txi, old(historyLocal), historyLocal, t)
    {
      var todo := AddressesOf(t);
      while todo != {}
        invariant todo <= AddressesOf(t)
        invariant forall x, a :: InHistory(historyLocal, x, a) <==>
                    InHistory(old(historyLocal), x, a) || (x == t && a in AddressesOf(t) && a !in todo)
      {
        var addr :| addr in todo;
        var history := if addr in historyLocal then historyLocal[addr] else {};
        historyLocal := historyLocal[addr := history + {t}];
        todo := todo - {addr};
      }
      forall x, a
        ensures InHistory(historyLocal, x, a) <==>
                InHistory(old(historyLocal), x, a) || (x == t && Concerns(txo, txi, t, a))
      {
        AddressesConcern(t, a);
      }
    }

    method RemoveTxFromLocalHistory(t: TxId)
      requires LocalOk(txo, txi, historyLocal, {})
      modifies this`historyLocal
      ensures LocalWithout(old(historyLocal), historyLocal, {t})
    {
      var todo := AddressesOf(t);
      while todo != {}
        invariant todo <= AddressesOf(t)
        invariant forall x, a :: InHistory(historyLocal, x, a) <==>
                    InHistory(old(historyLocal), x, a) && !(x == t && a in AddressesOf(t) && a !in todo)
      {
        var addr :| addr in todo;
        if addr in historyLocal && t in historyLocal[addr] {
          historyLocal := historyLocal[addr := historyLocal[addr] - {t}];
        }
        todo := todo - {addr};
      }
      forall x, a
        ensures InHistory(historyLocal, x, a) <==> InHistory(old(historyLocal), x, a) && x !in {t}
      {
        AddressesConcern(t, a);
      }
    }

    // ----- conflicts and dependents

    /** The stored transactions that spend what `tx` spends. */
    method GetConflictingTransactions(tx: Tx, includeSelf: bool) returns (conflicting: set<TxId>)
      requires TxsOk(w, transactions) && SpentOk(transactions, spentOutpoints) && tx == w.tx(tx.txid)
      ensures forall t :: t in conflicting <==>
                (t != tx.txid || includeSelf) && exists o ::
                    Spends(tx, o) && o in spentOutpoints && spentOutpoints[o] == t
      ensures forall t :: t in conflicting ==> t in transactions
    {
      conflicting := {};
      for i := 0 to |tx.inputs|
        invariant forall t :: t in conflicting <==>
                    exists j :: 0 <= j < i && tx.inputs[j].SpendInput? && tx.inputs[j].prevout in spentOutpoints &&
                        spentOutpoints[tx.inputs[j].prevout] == t
      {
        if tx.inputs[i].Coinbase? || tx.inputs[i].prevout !in spentOutpoints {
          continue;
        }
        var spending := spentOutpoints[tx.inputs[i].prevout];
        assert spending in transactions;
        conflicting := conflicting + {spending};
      }
      forall t
        ensures t in conflicting <==> exists o :: Spends(tx, o) && o in spentOutpoints && spentOutpoints[o] == t
      {
        if o :| Spends(tx, o) && o in spentOutpoints && spentOutpoints[o] == t {
          var j :| 0 <= j < |tx.inputs| && tx.inputs[j].SpendInput? && tx.inputs[j].prevout == o;
        }
      }
      if tx.txid in conflicting {
        OnlyItself(tx, conflicting);
        if |conflicting| > 1 {
          assert false;
        }
        if !includeSelf {
          conflicting := conflicting - {tx.txid};
        }
      }
    }

    /** A stored transaction conflicts with nothing but itself. */
    lemma OnlyItself(tx: Tx, conflicting: set<TxId>)
      requires TxsOk(w, transactions) && SpentOk(transactions, spentOutpoints) && tx == w.tx(tx.txid) &&
               tx.txid in conflicting
      requires forall t :: t in conflicting <==>
               exists o :: Spends(tx, o) && o in spentOutpoints && spentOutpoints[o] == t
      ensures conflicting == {tx.txid} && |conflicting| == 1
    {
      forall t | t in conflicting
        ensures t == tx.txid
      {
        var o :| Spends(tx, o) && o in spentOutpoints && spentOutpoints[o] == t;
        assert Spends(transactions[tx.txid], o);
      }
      assert conflicting == {tx.txid};
    }

    /** Spends of transactions that are no earlier than `t`. */
    ghost function Later(t: TxId): set<Outpoint>
      reads this`spentOutpoints
    {
      set o | o in spentOutpoints && w.rank(o.txid) >= w.rank(t)
    }

    method GetDependingTransactions(t: TxId) returns (children: set<TxId>)
      requires WorldOk(w) && TxsOk(w, transactions) && SpentOk(transactions, spentOutpoints)
      ensures AreDependents(spentOutpoints, t, children)
      decreases Later(t)
    {
      hide SpentOk, Spends, TxsOk, Later, DependsOn, Depends;
      children := {};
      var todo := set o | o in spentOutpoints && o.txid == t;
      ghost var all := todo;
      while todo != {}
        invariant todo <= all == set o | o in spentOutpoints && o.txid == t
        invariant forall x :: x in children <==>
                    exists o :: o in all && o !in todo &&
                        (spentOutpoints[o] == x || DependsOn(spentOutpoints, spentOutpoints[o], x))
        decreases |todo|
      {
        var o :| o in todo;
        var other := spentOutpoints[o];
        SpenderIsLater(t, o);
        var grandchildren := GetDependingTransactions(other);
        children := children + {other} + grandchildren;
        todo := todo - {o};
      }
      forall x
        ensures x in children <==> DependsOn(spentOutpoints, t, x)
      {
        if x in children {
          var o :| o in all && (spentOutpoints[o] == x || DependsOn(spentOutpoints, spentOutpoints[o], x));
          if spentOutpoints[o] == x {
            ChildDepends(spentOutpoints, t, o);
          } else {
            GrandchildDepends(spentOutpoints, t, o, x);
          }
        }
        if DependsOn(spentOutpoints, t, x) {
          var o := DependsByChild(spentOutpoints, t, x);
          assert o in all;
        }
      }
    }

    lemma SpenderIsLater(t: TxId, o: Outpoint)
      requires WorldOk(w) && TxsOk(w, transactions) && SpentOk(transactions, spentOutpoints) && o in spentOutpoints &&
               o.txid == t
      ensures Later(spentOutpoints[o]) < Later(t)
    {
      var x := spentOutpoints[o];
      var j :| 0 <= j < |w.tx(x).inputs| && w.tx(x).inputs[j].SpendInput? && w.tx(x).inputs[j].prevout == o;
      assert InputOk(w, x, j);
      assert o in Later(t) && o !in Later(x);
    }

    // ----- removing

    /**
     Spends of a removed transaction's inputs are undone; if the transaction is not there, all spends are looked
     through. Raises when no spend at all is left for an input's previous transaction.
     */
    method RemoveFromSpentOutpoints(t: TxId, tx: Option<Tx>) returns (raised: bool)
      requires tx.Some? ==> forall o :: o in spentOutpoints ==> (spentOutpoints[o] == t <==> Spends(tx.value, o))
      modifies this`spentOutpoints
      ensures raised <==> tx.Some? && Raises(old(spentOutpoints), tx.value.inputs)
      ensures !raised ==> spentOutpoints == SpentWithout(old(spentOutpoints), {t})
    {
      ghost var before := spentOutpoints;
      if tx.Some? {
        var inputs := tx.value.inputs;
        for i := 0 to |inputs|
          invariant forall o :: o in spentOutpoints <==> o in before && !Popped(inputs, i, o)
          invariant forall o :: o in spentOutpoints ==> spentOutpoints[o] == before[o]
          invariant forall j :: 0 <= j < i ==> !PopFails(before, inputs, j)
        {
          if inputs[i].SpendInput? {
            if forall o :: o in spentOutpoints ==> o.txid != inputs[i].prevout.txid {
              assert PopFails(before, inputs, i);
              return true;
            }
            spentOutpoints := spentOutpoints - {inputs[i].prevout};
          }
        }
      } else {
        RemoveSpendsOf(t);
      }
      assert spentOutpoints.Keys == SpentWithout(before, {t}).Keys;
      raised := false;
    }

    method RemoveSpendsOf(t: TxId)
      modifies this`spentOutpoints
      ensures spentOutpoints == SpentWithout(old(spentOutpoints), {t})
    {
      ghost var before := spentOutpoints;
      var todo := spentOutpoints.Keys;
      while todo != {}
        invariant todo <= before.Keys
        invariant forall o :: o in spentOutpoints <==> o in before && (o in todo || before[o] != t)
        invariant forall o :: o in spentOutpoints ==> spentOutpoints[o] == before[o]
      {
        var o :| o in todo;
        if spentOutpoints[o] == t {
          spentOutpoints := spentOutpoints - {o};
        }
        todo := todo - {o};
      }
      assert spentOutpoints.Keys == SpentWithout(before, {t}).Keys;
    }

    /**
     Removes one transaction and undoes what it did; its dependents are left to the caller. When that raises, the
     transaction is gone, but what it received and spent stays recorded.
     */
    method RemoveOne(t: TxId) returns (raised: bool)
      requires SpentOk(transactions, spentOutpoints)
      requires CacheRight(txo, txi, balanceCache) && LocalOk(txo, txi, historyLocal, {})
      modifies this`transactions, this`spentOutpoints, this`txo, this`txi, this`historyLocal, this`heights,
               this`balanceCache
      ensures raised <==> t in old(transactions) && Raises(old(spentOutpoints), old(transactions)[t].inputs)
      ensures transactions == TxsWithout(old(transactions), {t})
      ensures raised ==> txo == old(txo) && txi == old(txi) && historyLocal == old(historyLocal)
      ensures !raised ==> spentOutpoints == SpentWithout(old(spentOutpoints), {t})
      ensures !raised ==> txo == TxoWithout(old(txo), {t}) && txi == TxiWithout(old(txi), {t})
      ensures !raised ==> LocalWithout(old(historyLocal), historyLocal, {t})
      ensures !raised ==> CacheRight(txo, txi, balanceCache) && heights == old(heights) - {t}
    {
      hide Left, TxiWithout, Concerns;
      var tx := if t in transactions then Some(transactions[t]) else None;
      transactions := TxsWithout(transactions, {t});
      raised := RemoveFromSpentOutpoints(t, tx);
      if raised {
        return;
      }
      RemoveTxFromLocalHistory(t);
      var addresses := AddressesOf(t);
      if addresses != {} {
        balanceCache := map[];
      } else {
        Untouched(t);
      }
      txi := TxiWithout(txi, {t});
      txo := TxoWithout(txo, {t});
      heights := heights - {t};
    }

    lemma Untouched(t: TxId)
      requires AddressesOf(t) == {}
      ensures TxoWithout(txo, {t}) == txo && TxiWithout(txi, {t}) == txi
    {
      assert forall c :: c in txo ==> c.address in AddressesOf(c.txid);
      assert forall s :: s in txi ==> s.address in AddressesOf(s.txid);
    }

    /**
     Removes a transaction and everything that depends on it, in any order; raises if one of these cannot be removed.
     */
    method RemoveTransaction(t: TxId) returns (raised: bool, ghost gone: set<TxId>, ghost order: seq<TxId>)
      requires Valid()
      modifies this`transactions, this`spentOutpoints, this`txo, this`txi, this`historyLocal, this`heights,
               this`balanceCache
      ensures forall x :: x in gone <==> x == t || DependsOn(old(spentOutpoints), t, x)
      ensures OrderOf(order, gone) && (raised <==> OrderFails(old(transactions), old(spentOutpoints), order))
      ensures raised ==> SomeRepeats(old(transactions), gone)
      ensures !raised ==> Valid() && transactions == TxsWithout(old(transactions), gone)
      ensures !raised ==> spentOutpoints == SpentWithout(old(spentOutpoints), gone)
      ensures !raised ==> txo == TxoWithout(old(txo), gone) && txi == TxiWithout(old(txi), gone)
      ensures !raised ==> LocalWithout(old(historyLocal), historyLocal, gone) && heights == old(heights) - gone
      ensures !raised ==> forall x, o :: x in transactions && Spends(transactions[x], o) ==> o.txid !in gone
    {
      var dependents := GetDependingTransactions(t);
      var todo := {t} + dependents;
      gone := todo;
      DependentsClosed(spentOutpoints, t, dependents);
      assert gone == dependents + {t};
      raised, order := RemoveAll(todo);
      ghost var txs0, spent0 := old(transactions), old(spentOutpoints);
      if raised {
        RemovalFailsIff(txs0, spent0, gone);
        FailingRepeats(txs0, spent0, gone);
        return;
      }
      RemovalKeeps(w, txs0, mine, spent0, old(txo), old(txi), gone);
      LocalRemoval(old(txo), old(txi), old(historyLocal), historyLocal, gone);
      forall x, o | x in transactions && Spends(transactions[x], o)
        ensures o.txid !in gone
      {
        NoOrphans(txs0, spent0, gone, x, o);
      }
    }

    method RemoveAll(gone: set<TxId>) returns (raised: bool, ghost order: seq<TxId>)
      requires Consistent({}) && CacheRight(txo, txi, balanceCache)
      modifies this`transactions, this`spentOutpoints, this`txo, this`txi, this`historyLocal, this`heights,
               this`balanceCache
      ensures OrderOf(order, gone) && (raised <==> OrderFails(old(transactions), old(spentOutpoints), order))
      ensures !raised ==> transactions == TxsWithout(old(transactions), gone)
      ensures !raised ==> spentOutpoints == SpentWithout(old(spentOutpoints), gone)
      ensures !raised ==> txo == TxoWithout(old(txo), gone) && txi == TxiWithout(old(txi), gone)
      ensures !raised ==> LocalWithout(old(historyLocal), historyLocal, gone) && CacheRight(txo, txi, balanceCache)
      ensures !raised ==> heights == old(heights) - gone
    {
      hide CacheRight, SpentWithout, TxoWithout, TxiWithout, Raises, Going, OrderFails, OrderOf;
      hide TxsOk, TxoOk, TxiOk, SpentOk, LocalOk;
      var todo := gone;
      ghost var done: set<TxId> := {};
      order := [];
      WithoutNobody(transactions, spentOutpoints, txo, txi);
      NothingRemoved(transactions, spentOutpoints);
      while todo != {}
        invariant done + todo == gone && done !! todo
        invariant Going(old(transactions), old(spentOutpoints), order, done).holds
        invariant transactions == TxsWithout(old(transactions), done)
        invariant spentOutpoints == SpentWithout(old(spentOutpoints), done)
        invariant txo == TxoWithout(old(txo), done) && txi == TxiWithout(old(txi), done)
        invariant LocalWithout(old(historyLocal), historyLocal, done) && CacheRight(txo, txi, balanceCache)
        invariant heights == old(heights) - done
        decreases |todo|
      {
        var txid :| txid in todo;
        SpentWithoutOk(old(transactions), old(spentOutpoints), done);
        LocalRemoval(old(txo), old(txi), old(historyLocal), historyLocal, done);
        raised := RemoveOne(txid);
        if raised {
          order := FailingOrder(old(transactions), old(spentOutpoints), order, done, txid, todo);
          return;
        }
        OrderLonger(old(transactions), old(spentOutpoints), order, done, txid);
        order := order + [txid];
        WithoutMore(old(transactions), old(spentOutpoints), old(txo), old(txi), done, {txid});
        done := done + {txid};
        todo := todo - {txid};
      }
      assert done == gone;
      AllRemoved(old(transactions), old(spentOutpoints), order, gone);
      raised := false;
    }

    // ----- adding

    /** Where the coin that an input spends was paid to, if that is known. */
    method GetTxinAddress(input: Input) returns (r: Lookup)
      requires TxoOk(transactions, mine, txo)
      ensures r.Missing? <==> NoSuchOutput(transactions, input)
      ensures r.Found? ==> r.address == InputAddress(transactions, input)
    {
      if input.Coinbase? {
        return Found(None);
      }
      if input.address.Some? {
        return Found(input.address);
      }
      var coins := set c | c in txo && c.Point() == input.prevout;
      if coins != {} {
        var c :| c in coins;
        assert CoinOk(transactions, mine, c, txo[c]);
        forall c' | c' in txo && c'.Point() == input.prevout
          ensures c'.address == c.address
        {
          OneAddress(transactions, mine, txo, c, c');
        }
        return Found(Some(c.address));
      }
      if input.prevout.txid in transactions {
        var outputs := transactions[input.prevout.txid].outputs;
        if input.prevout.n >= |outputs| {
          return Missing;
        }
        return Found(outputs[input.prevout.n].address);
      }
      r := Found(None);
    }

    /** Whether an input spends from, or an output pays to, one of the wallet's addresses; all inputs are looked at. */
    method IsRelated(tx: Tx) returns (raised: bool, related: bool)
      requires TxoOk(transactions, mine, txo)
      ensures raised <==> OutOfRange(transactions, tx)
      ensures !raised ==> (related <==> Related(transactions, mine, tx))
    {
      raised, related := false, false;
      for i := 0 to |tx.inputs|
        invariant forall j :: 0 <= j < i ==> !NoSuchOutput(transactions, tx.inputs[j])
        invariant related <==> exists j :: 0 <= j < i && IsMine(InputAddress(transactions, tx.inputs[j]), mine)
      {
        var r := GetTxinAddress(tx.inputs[i]);
        if r.Missing? {
          return true, false;
        }
        if r.address.Some? && r.address.value in mine {
          related := true;
        }
      }
      ghost var spends := related;
      for n := 0 to |tx.outputs|
        invariant related <==> spends || exists j :: 0 <= j < n && IsMine(tx.outputs[j].address, mine)
      {
        if tx.outputs[n].address.Some? && tx.outputs[n].address.value in mine {
          related := true;
        }
      }
    }

    /** Removes these and what depends on them; `order` is the order in which all of it is gone through. */
    method RemoveConflicting(conflicting: set<TxId>)
      returns (raised: bool, ghost gone: set<TxId>, ghost order: seq<TxId>)
      requires Valid()
      modifies this`transactions, this`spentOutpoints, this`txo, this`txi, this`historyLocal, this`heights,
               this`balanceCache
      ensures PushedOut(old(spentOutpoints), conflicting, gone) && OrderOf(order, gone)
      ensures raised <==> OrderFails(old(transactions), old(spentOutpoints), order)
      ensures !raised ==> Valid() && heights == old(heights) - gone
      ensures !raised ==> transactions == TxsWithout(old(transactions), gone)
      ensures !raised ==> spentOutpoints == SpentWithout(old(spentOutpoints), gone)
      ensures !raised ==> txo == TxoWithout(old(txo), gone) && txi == TxiWithout(old(txi), gone)
    {
      hide OrderOf, OrderFails, Going, PushedOut, Closed, DependsOn, Valid, SomeRepeats, LocalWithout, Spends;
      hide TxsWithout, SpentWithout, TxoWithout, TxiWithout;
      ghost var txs0, spent0 := transactions, spentOutpoints;
      var todo := conflicting;
      gone, order := {}, [];
      WithoutNobody(transactions, spentOutpoints, txo, txi);
      NothingRemoved(txs0, spent0);
      assert conflicting - todo == {};
      while todo != {}
        invariant Valid() && todo <= conflicting
        invariant Going(txs0, spent0, order, gone).holds
        invariant Closed(spent0, gone) && PushedOut(spent0, conflicting - todo, gone)
        invariant transactions == TxsWithout(txs0, gone) && spentOutpoints == SpentWithout(spent0, gone)
        invariant heights == old(heights) - gone
        invariant txo == TxoWithout(old(txo), gone) && txi == TxiWithout(old(txi), gone)
        decreases |todo|
      {
        var t :| t in todo;
        ghost var more, next;
        raised, more, next := RemoveTransaction(t);
        if raised {
          gone, order := FailingPushOut(txs0, spent0, conflicting, conflicting - todo, order, gone, t, next, more);
          return;
        }
        order := PushOutLonger(txs0, spent0, order, gone, t, next, more);
        GoneMore(spent0, conflicting - todo, gone, t, more);
        WithoutMore(txs0, spent0, old(txo), old(txi), gone, more);
        assert conflicting - todo + {t} == conflicting - (todo - {t});
        gone := gone + more;
        todo := todo - {t};
      }
      assert conflicting - todo == conflicting;
      AllRemoved(txs0, spent0, order, gone);
      raised := false;
    }

    /** The inputs up to `k` are entered, and input `k` names an output that is not there. */
    ghost predicate StoppedAt(spent: Spent, tx: Tx, k: nat)
      reads this`transactions, this`spentOutpoints
    {
      k < |tx.inputs| && NoSuchOutput(transactions, tx.inputs[k]) && spentOutpoints == SpentBy(spent, tx, k + 1)
    }

    /**
     The inputs of `tx`: what they spend is marked as spent by it, for the value of the coin if that is the wallet's.
     */
    method EnterInputs(tx: Tx) returns (raised: bool)
      requires WorldOk(w) && tx == w.tx(tx.txid) && Consistent({}) && Free(spentOutpoints, tx)
      requires CacheRight(txo, txi, balanceCache)
      modifies this`spentOutpoints, this`txi, this`balanceCache
      ensures raised <==> OutOfRange(transactions, tx)
      ensures raised ==> exists k: nat :: StoppedAt(old(spentOutpoints), tx, k)
      ensures !raised ==> spentOutpoints == SpentBy(old(spentOutpoints), tx, |tx.inputs|)
      ensures !raised ==> TxiOk(spentOutpoints, txo, txi) && LocalOk(txo, txi, historyLocal, {tx.txid})
      ensures !raised ==> CacheRight(txo, txi, balanceCache)
    {
      for i := 0 to |tx.inputs|
        invariant spentOutpoints == SpentBy(old(spentOutpoints), tx, i)
        invariant TxiOk(spentOutpoints, txo, txi) && LocalOk(txo, txi, historyLocal, {tx.txid})
        invariant CacheRight(txo, txi, balanceCache)
        invariant forall j :: 0 <= j < i ==> !NoSuchOutput(transactions, tx.inputs[j])
      {
        if tx.inputs[i].SpendInput? {
          StillFree(old(spentOutpoints), tx, i);
          raised := EnterInput(tx, i);
          if raised {
            assert StoppedAt(old(spentOutpoints), tx, i);
            return;
          }
        }
      }
      raised := false;
    }

    lemma StillFree(spent: Spent, tx: Tx, i: nat)
      requires Free(spent, tx) && i < |tx.inputs| && tx.inputs[i].SpendInput?
      ensures var o := tx.inputs[i].prevout; o in SpentBy(spent, tx, i) ==> SpentBy(spent, tx, i)[o] == tx.txid
    {
      SpentByAt(spent, tx, i, tx.inputs[i].prevout);
      assert Spends(tx, tx.inputs[i].prevout);
    }

    method EnterInput(tx: Tx, i: nat) returns (raised: bool)
      requires WorldOk(w) && tx == w.tx(tx.txid) && i < |tx.inputs| && tx.inputs[i].SpendInput?
      requires TxsOk(w, transactions) && TxoOk(transactions, mine, txo)
      requires TxiOk(spentOutpoints, txo, txi) && LocalOk(txo, txi, historyLocal, {tx.txid})
      requires CacheRight(txo, txi, balanceCache)
      requires tx.inputs[i].prevout in spentOutpoints ==> spentOutpoints[tx.inputs[i].prevout] == tx.txid
      modifies this`spentOutpoints, this`txi, this`balanceCache
      ensures raised <==> NoSuchOutput(transactions, tx.inputs[i])
      ensures spentOutpoints == old(spentOutpoints)[tx.inputs[i].prevout := tx.txid]
      ensures !raised ==> TxiOk(spentOutpoints, txo, txi) && LocalOk(txo, txi, historyLocal, {tx.txid})
      ensures !raised ==> CacheRight(txo, txi, balanceCache)
    {
      var o := tx.inputs[i].prevout;
      ghost var spent0 := spentOutpoints;
      spentOutpoints := spentOutpoints[o := tx.txid];
      var r := GetTxinAddress(tx.inputs[i]);
      if r.Missing? {
        return true;
      }
      SpenderKnows(tx, i, o, r.address);
      InputKeeps(spent0, txo, txi, historyLocal, tx.txid, o, r.address);
      AddValue(tx.txid, o, r.address);
      raised := false;
    }

    lemma SpenderKnows(tx: Tx, i: nat, o: Outpoint, address: Option<Address>)
      requires WorldOk(w) && tx == w.tx(tx.txid) && i < |tx.inputs|
      requires tx.inputs[i].SpendInput? && o == tx.inputs[i].prevout
      requires TxsOk(w, transactions) && TxoOk(transactions, mine, txo)
      requires address == InputAddress(transactions, tx.inputs[i])
      ensures forall c :: c in txo && c.Point() == o ==> address == Some(c.address) && c.address in mine
    {
      assert InputOk(w, tx.txid, i);
      assert forall c :: c in txo && c.Point() == o ==> CoinOk(transactions, mine, c, txo[c]);
    }

    /** `add_value_from_prev_output`: the spender is given the value of the coin, if that is recorded. */
    method AddValue(t: TxId, o: Outpoint, address: Option<Address>)
      requires CacheRight(txo, txi, balanceCache)
      requires forall c :: c in txo && c.Point() == o ==> address == Some(c.address) && c.address in mine
      modifies this`txi, this`balanceCache
      ensures txi == TxiWith(txo, old(txi), t, o, address)
      ensures CacheRight(txo, txi, balanceCache)
    {
      if address.Some? && address.value in mine {
        var coin := Coin(o.txid, address.value, o.n);
        if coin in txo {
          txi := txi[Spend(t, address.value, o) := txo[coin].value];
          balanceCache := map[];
        }
      }
      assert address.Some? && address.value !in mine ==> Coin(o.txid, address.value, o.n).Point() == o;
    }

    /**
     The outputs of `tx` to the wallet's addresses; each is given to the transaction that spends it, if that is there
     already.
     */
    method EnterOutputs(tx: Tx, ghost txs: Txs)
      requires tx.txid in txs && txs[tx.txid] == tx && TxoOk(txs, mine, txo)
      requires TxiOk(spentOutpoints, txo, txi) && LocalOk(txo, txi, historyLocal, {tx.txid}) &&
               CacheRight(txo, txi, balanceCache)
      requires forall n :: Outpoint(tx.txid, n) in spentOutpoints ==> spentOutpoints[Outpoint(tx.txid, n)] != tx.txid
      modifies this`txo, this`txi, this`historyLocal, this`balanceCache
      ensures TxoOk(txs, mine, txo) && TxiOk(spentOutpoints, txo, txi)
      ensures LocalOk(txo, txi, historyLocal, {tx.txid}) && CacheRight(txo, txi, balanceCache)
      ensures forall c :: c in txo <==> c in old(txo) || Pays(tx, c, mine, |tx.outputs|)
    {
      for n := 0 to |tx.outputs|
        invariant TxoOk(txs, mine, txo) && TxiOk(spentOutpoints, txo, txi)
        invariant LocalOk(txo, txi, historyLocal, {tx.txid}) && CacheRight(txo, txi, balanceCache)
        invariant forall c :: c in txo <==> c in old(txo) || Pays(tx, c, mine, n)
      {
        var address := tx.outputs[n].address;
        if address.Some? && address.value in mine {
          EnterOutput(tx, n, address.value, txs);
        }
      }
    }

    method EnterOutput(tx: Tx, n: nat, a: Address, ghost txs: Txs)
      requires tx.txid in txs && txs[tx.txid] == tx && TxoOk(txs, mine, txo)
      requires TxiOk(spentOutpoints, txo, txi) && LocalOk(txo, txi, historyLocal, {tx.txid}) &&
               CacheRight(txo, txi, balanceCache)
      requires n < |tx.outputs| && tx.outputs[n].address == Some(a) && a in mine
      requires Outpoint(tx.txid, n) in spentOutpoints ==> spentOutpoints[Outpoint(tx.txid, n)] != tx.txid
      modifies this`txo, this`txi, this`historyLocal, this`balanceCache
      ensures TxoOk(txs, mine, txo) && TxiOk(spentOutpoints, txo, txi)
      ensures LocalOk(txo, txi, historyLocal, {tx.txid}) && CacheRight(txo, txi, balanceCache)
      ensures txo.Keys == old(txo).Keys + {Coin(tx.txid, a, n)}
    {
      hide TxoOk, TxiOk, LocalOk, IsCoinbase, Left, InHistory;
      ghost var txo0, txi0 := txo, txi;
      ghost var spender := Outpoint(tx.txid, n) in spentOutpoints;
      ghost var skip := if spender then {tx.txid, spentOutpoints[Outpoint(tx.txid, n)]} else {tx.txid};
      TxoKeeps(txs, mine, txo, tx, n, a);
      OutputKeeps(spentOutpoints, txo, txi, historyLocal, tx.txid, n, a, CoinValue(tx.outputs[n].value, IsCoinbase(tx)),
                  skip);
      RecordOutput(tx.txid, n, a, tx.outputs[n].value, IsCoinbase(tx));
      if Outpoint(tx.txid, n) in spentOutpoints {
        var next := spentOutpoints[Outpoint(tx.txid, n)];
        ghost var before := historyLocal;
        AddTxToLocalHistory(next);
        LocalEntered(txo, txi, before, historyLocal, skip, next);
        assert skip - {next} == {tx.txid};
      }
    }

    method RecordOutput(t: TxId, n: nat, a: Address, v: nat, isCoinbase: bool)
      modifies this`txo, this`txi, this`balanceCache
      ensures txo == old(txo)[Coin(t, a, n) := CoinValue(v, isCoinbase)] &&
              txi == TxiGiven(spentOutpoints, old(txi), t, n, a, v)
      ensures balanceCache == map[]
    {
      txo := txo[Coin(t, a, n) := CoinValue(v, isCoinbase)];
      balanceCache := map[];
      if Outpoint(t, n) in spentOutpoints {
        txi := txi[Spend(spentOutpoints[Outpoint(t, n)], a, Outpoint(t, n)) := v];
      }
    }

    /** Whether a transaction must give way to the ones it conflicts with: confirmed before unconfirmed before local. */
    ghost predicate GivesWay(tx: Tx)
      reads this`spentOutpoints, this`heights
    {
      || (Height(tx.txid) <= 0 && exists t :: t in Conflicts(spentOutpoints, tx) && Height(t) > 0)
      || (Height(tx.txid) == TX_HEIGHT_LOCAL &&
          exists t :: t in Conflicts(spentOutpoints, tx) &&
              (Height(t) == TX_HEIGHT_UNCONFIRMED || Height(t) == TX_HEIGHT_UNCONF_PARENT))
    }

    /** Who does not give way outranks every conflicting transaction. */
    lemma Winner(tx: Tx)
      requires !GivesWay(tx)
      ensures forall o :: Spends(tx, o) && o in spentOutpoints && spentOutpoints[o] != tx.txid ==>
                Outranks(HeightIn(heights, tx.txid), HeightIn(heights, spentOutpoints[o]))
    {
      forall o | Spends(tx, o) && o in spentOutpoints && spentOutpoints[o] != tx.txid
        ensures Outranks(HeightIn(heights, tx.txid), HeightIn(heights, spentOutpoints[o]))
      {
        assert spentOutpoints[o] in Conflicts(spentOutpoints, tx);
      }
    }

    lemma Loser(tx: Tx)
      requires GivesWay(tx)
      ensures Height(tx.txid) <= 0
    {
    }

    /** An unrelated transaction neither pays nor spends from the wallet. */
    lemma NothingToDoWith(tx: Tx)
      requires WorldOk(w) && tx == w.tx(tx.txid) && TxsOk(w, transactions) && TxoOk(transactions, mine, txo)
      requires !Related(transactions, mine, tx) && !OutOfRange(transactions, tx)
      ensures forall i :: 0 <= i < |tx.outputs| && tx.outputs[i].address.Some? ==>
                tx.outputs[i].address.value !in mine
      ensures forall c :: c in txo ==> !Spends(tx, c.Point())
    {
      forall i | 0 <= i < |tx.outputs| && tx.outputs[i].address.Some?
        ensures tx.outputs[i].address.value !in mine
      {
        assert !IsMine(tx.outputs[i].address, mine);
      }
      forall c | c in txo
        ensures !Spends(tx, c.Point())
      {
        if Spends(tx, c.Point()) {
          var i :| 0 <= i < |tx.inputs| && tx.inputs[i].SpendInput? && tx.inputs[i].prevout == c.Point();
          SpenderKnows(tx, i, c.Point(), InputAddress(transactions, tx.inputs[i]));
          assert IsMine(InputAddress(transactions, tx.inputs[i]), mine);
        }
      }
    }

    method MustGiveWay(tx: Tx, conflicting: set<TxId>) returns (drop: bool)
      requires conflicting == Conflicts(spentOutpoints, tx)
      ensures drop <==> GivesWay(tx)
    {
      var confirmed, mempool := false, false;
      var todo := conflicting;
      while todo != {}
        invariant todo <= conflicting
        invariant confirmed <==> exists t :: t in conflicting - todo && Height(t) > 0
        invariant mempool <==> exists t ::
                  t in conflicting - todo &&
                  (Height(t) == TX_HEIGHT_UNCONFIRMED || Height(t) == TX_HEIGHT_UNCONF_PARENT)
      {
        var t :| t in todo;
        if Height(t) > 0 {
          confirmed := true;
        }
        if Height(t) == TX_HEIGHT_UNCONFIRMED || Height(t) == TX_HEIGHT_UNCONF_PARENT {
          mempool := true;
        }
        todo := todo - {t};
      }
      assert conflicting - todo == conflicting;
      drop := (confirmed && Height(tx.txid) <= 0) || (mempool && Height(tx.txid) == TX_HEIGHT_LOCAL);
    }

    /**
     Adds a transaction, or adds it again when more addresses are known; conflicting ones and their dependents are
     removed. The two exceptions can only come from transactions that name an output their previous transaction does
     not have, or that spend an outpoint twice.
     */
    method AddTransaction(tx: Tx, allowUnrelated: bool)
      returns (result: AddResult, ghost gone: set<TxId>, ghost order: seq<TxId>)
      requires Valid() && tx == w.tx(tx.txid)
      modifies this`transactions, this`spentOutpoints, this`txo, this`txi, this`historyLocal, this`heights,
               this`balanceCache
      ensures result.Added? || result.Dropped? || result.Unrelated? ==> Valid()
      // nothing is changed unless the transaction is entered
      ensures result.Dropped? || result.Unrelated? || (result.IndexError? && !allowUnrelated) ==>
                && Valid() && transactions == old(transactions) && spentOutpoints == old(spentOutpoints)
                && txo == old(txo) && txi == old(txi)
      // related, or not asked
      ensures !allowUnrelated ==> (result.IndexError? <==> old(OutOfRange(transactions, tx)))
      ensures result.Unrelated? <==> !allowUnrelated && !result.IndexError? && !old(Related(transactions, mine, tx))
      // conflicts
      ensures !result.Unrelated? && (allowUnrelated || !result.IndexError?) ==> (result.Dropped? <==> old(GivesWay(tx)))
      // who wins, by the heights before the call (0 and -1 are unconfirmed, -2 is local)
      ensures old(Height(tx.txid)) > 0 ==> !result.Dropped?
      ensures result.Added? ==>
                forall o :: Spends(tx, o) && o in old(spentOutpoints) && old(spentOutpoints)[o] != tx.txid ==>
                  Outranks(HeightIn(old(heights), tx.txid), HeightIn(old(heights), old(spentOutpoints)[o]))
      ensures result.Unrelated? ==>
                && (forall i :: 0 <= i < |tx.outputs| && tx.outputs[i].address.Some? ==>
                    tx.outputs[i].address.value !in mine)
                && forall c :: c in old(txo) ==> !Spends(tx, c.Point())
      ensures result.Added? || result.KeyError? || (result.IndexError? && allowUnrelated) ==>
                && PushedOut(old(spentOutpoints), Conflicts(old(spentOutpoints), tx), gone) && OrderOf(order, gone)
                && (result.KeyError? <==> OrderFails(old(transactions), old(spentOutpoints), order))
      ensures result.KeyError? ==>
                SomeCanFail(old(transactions), old(spentOutpoints), gone) && SomeRepeats(old(transactions), gone)
      // entered, or stopped half way
      ensures allowUnrelated && !result.Dropped? && !result.KeyError? ==>
                (result.IndexError? <==> OutOfRange(TxsWithout(old(transactions), gone), tx))
      ensures result.IndexError? && allowUnrelated ==>
                && transactions == TxsWithout(old(transactions), gone)
                && exists k: nat :: k < |tx.inputs| && NoSuchOutput(transactions, tx.inputs[k]) &&
                     spentOutpoints == SpentBy(SpentWithout(old(spentOutpoints), gone), tx, k + 1)
      ensures result.Added? ==>
                && transactions == TxsWithout(old(transactions), gone)[tx.txid := tx] && heights == old(heights) - gone
                && spentOutpoints == SpentBy(SpentWithout(old(spentOutpoints), gone), tx, |tx.inputs|)
                && forall c :: c in txo <==> (c in old(txo) && c.txid !in gone) || Pays(tx, c, mine, |tx.outputs|)
    {
      hide GivesWay, OutOfRange, Related, Outranks, PushedOut, OrderOf, OrderFails, SomeCanFail, SomeRepeats, Spends;
      hide TxsOk, SpentOk, TxoOk, TxiOk, LocalOk, CacheRight, WorldOk;
      gone, order := {}, [];
      if !allowUnrelated {
        var raised, related := IsRelated(tx);
        if raised {
          return IndexError, gone, order;
        }
        if !related {
          NothingToDoWith(tx);
          return Unrelated, gone, order;
        }
      }
      var conflicting := GetConflictingTransactions(tx, false);
      assert conflicting == Conflicts(spentOutpoints, tx);
      var drop := MustGiveWay(tx, conflicting);
      if drop {
        Loser(tx);
        return Dropped, gone, order;
      }
      Winner(tx);
      var failed;
      failed, gone, order := RemoveConflicting(conflicting);
      if failed {
        RemovalFailsIff(old(transactions), old(spentOutpoints), gone);
        FailingRepeats(old(transactions), old(spentOutpoints), gone);
        return KeyError, gone, order;
      }
      FreeNow(old(spentOutpoints), tx, gone);
      failed := EnterTransaction(tx);
      FewerOutOfRange(old(transactions), gone, tx);
      result := if failed then IndexError else Added;
    }

    /** Enters a transaction that nothing conflicts with. */
    method EnterTransaction(tx: Tx) returns (raised: bool)
      requires Valid() && tx == w.tx(tx.txid) && Free(spentOutpoints, tx)
      modifies this`transactions, this`spentOutpoints, this`txo, this`txi, this`historyLocal, this`balanceCache
      ensures raised <==> OutOfRange(old(transactions), tx)
      ensures raised ==> transactions == old(transactions) && exists k: nat :: StoppedAt(old(spentOutpoints), tx, k)
      ensures !raised ==> Valid() && transactions == old(transactions)[tx.txid := tx]
      ensures !raised ==> spentOutpoints == SpentBy(old(spentOutpoints), tx, |tx.inputs|)
      ensures !raised ==> forall c :: c in txo <==> c in old(txo) || Pays(tx, c, mine, |tx.outputs|)
    {
      ghost var txs := transactions[tx.txid := tx];
      SpentAdded(w, transactions, spentOutpoints, tx);
      NoSelfSpend(tx);
      raised := EnterInputs(tx);
      if raised {
        return;
      }
      TxoWithOne(transactions, mine, txo, tx);
      EnterOutputs(tx, txs);
      ghost var before := historyLocal;
      AddTxToLocalHistory(tx.txid);
      LocalEntered(txo, txi, before, historyLocal, {tx.txid}, tx.txid);
      assert {tx.txid} - {tx.txid} == {};
      transactions := transactions[tx.txid := tx];
    }

    lemma NoSelfSpend(tx: Tx)
      requires WorldOk(w) && tx == w.tx(tx.txid) && SpentOk(transactions, spentOutpoints) && TxsOk(w, transactions)
      ensures forall n :: Outpoint(tx.txid, n) in SpentBy(spentOutpoints, tx, |tx.inputs|) ==>
                SpentBy(spentOutpoints, tx, |tx.inputs|)[Outpoint(tx.txid, n)] != tx.txid
    {
      forall n | Outpoint(tx.txid, n) in SpentBy(spentOutpoints, tx, |tx.inputs|)
        ensures SpentBy(spentOutpoints, tx, |tx.inputs|)[Outpoint(tx.txid, n)] != tx.txid
      {
        var o := Outpoint(tx.txid, n);
        SpentByAt(spentOutpoints, tx, |tx.inputs|, o);
        forall j | 0 <= j < |tx.inputs|
          ensures !(tx.inputs[j].SpendInput? && tx.inputs[j].prevout == o)
        {
          assert InputOk(w, tx.txid, j);
        }
      }
    }

    // ----- what it amounts to

    function AddressHistory(a: Address): set<TxId>
      reads this`historyLocal
    {
      if a in historyLocal then historyLocal[a] else {}
    }

    /** What a transaction did to an address. */
    method GetTxDelta(t: TxId, a: Address) returns (delta: int)
      ensures delta == Delta(txo, txi, t, a)
    {
      delta := 0;
      var spends := set s | s in txi && s.txid == t && s.address == a;
      while spends != {}
        invariant spends <= SpendsOf(txi, t, a)
        invariant delta == WalletBalance.Sum(spends, Paid(txi)) - WalletBalance.Sum(SpendsOf(txi, t, a), Paid(txi))
      {
        var s :| s in spends;
        SumPick(spends, Paid(txi), s);
        delta := delta - txi[s];
        spends := spends - {s};
      }
      var coins := set c | c in txo && c.txid == t && c.address == a;
      while coins != {}
        invariant coins <= CoinsOf(txo, t, a)
        invariant delta == Delta(txo, txi, t, a) - WalletBalance.Sum(coins, Worth(txo))
      {
        var c :| c in coins;
        SumPick(coins, Worth(txo), c);
        delta := delta + txo[c].value;
        coins := coins - {c};
      }
    }

    /** The coins that the given transactions paid to an address, and the ones they sent on. */
    function ReceivedOf(a: Address, some: set<TxId>): map<Outpoint, Received>
      reads this`txo, this`heights
    {
      map c | c in txo && c.address == a && c.txid in some :: c.Point() := Received(Height(c.txid), txo[c])
    }

    function SentOf(a: Address, some: set<TxId>): set<Outpoint>
      reads this`txi
    {
      set s | s in txi && s.address == a && s.txid in some :: s.prevout
    }

    lemma OneMore(a: Address, some: set<TxId>, t: TxId)
      ensures ReceivedOf(a, some + {t}) == ReceivedOf(a, some) + ReceivedOf(a, {t})
      ensures SentOf(a, some + {t}) == SentOf(a, some) + SentOf(a, {t})
    {
      assert ReceivedOf(a, some + {t}).Keys == (ReceivedOf(a, some) + ReceivedOf(a, {t})).Keys;
      assert forall o :: o in ReceivedOf(a, some + {t}) ==>
             ReceivedOf(a, some + {t})[o] == (ReceivedOf(a, some) + ReceivedOf(a, {t}))[o];
    }

    /** The coins an address received, and those of them that were sent on. */
    method GetAddrIo(a: Address) returns (received: map<Outpoint, Received>, sent: set<Outpoint>)
      requires LocalOk(txo, txi, historyLocal, {})
      ensures IoOf(a, received, sent)
    {
      received, sent := map[], {};
      var history := AddressHistory(a);
      var todo := history;
      while todo != {}
        invariant todo <= history && received == ReceivedOf(a, history - todo) && sent == SentOf(a, history - todo)
      {
        var t :| t in todo;
        OneMore(a, history - todo, t);
        assert history - (todo - {t}) == history - todo + {t};
        received := received + ReceivedOf(a, {t});
        sent := sent + SentOf(a, {t});
        todo := todo - {t};
      }
      assert history - todo == history;
      WholeHistory(a);
    }

    ghost predicate IoOf(a: Address, received: map<Outpoint, Received>, sent: set<Outpoint>)
      reads this`txo, this`txi, this`heights
    {
      && (forall o: Outpoint :: o in received <==> Coin(o.txid, a, o.n) in txo)
      && (forall o: Outpoint :: o in received ==> received[o] == Received(Height(o.txid), txo[Coin(o.txid, a, o.n)]))
      && (forall o: Outpoint :: o in sent <==> IsSpent(txi, Coin(o.txid, a, o.n)))
    }

    /** An address's history leaves no coin and no spend out. */
    lemma WholeHistory(a: Address)
      requires LocalOk(txo, txi, historyLocal, {})
      ensures IoOf(a, ReceivedOf(a, AddressHistory(a)), SentOf(a, AddressHistory(a)))
    {
      forall c | c in txo && c.address == a
        ensures c.txid in AddressHistory(a)
      {
        assert Concerns(txo, txi, c.txid, a) && InHistory(historyLocal, c.txid, a);
      }
      forall s | s in txi && s.address == a
        ensures s.txid in AddressHistory(a)
      {
        assert Concerns(txo, txi, s.txid, a) && InHistory(historyLocal, s.txid, a);
      }
      forall o: Outpoint
        ensures o in ReceivedOf(a, AddressHistory(a)) <==> Coin(o.txid, a, o.n) in txo
        ensures o in SentOf(a, AddressHistory(a)) <==> IsSpent(txi, Coin(o.txid, a, o.n))
      {
        if Coin(o.txid, a, o.n) in txo {
          assert Coin(o.txid, a, o.n).Point() == o;
        }
        if s :| s in txi && s.Of() == Coin(o.txid, a, o.n) {
          assert s.prevout == o;
        }
      }
    }

    /** The coins of an address, and whether they are spent. */
    method GetAddrOutputs(a: Address) returns (out: map<Outpoint, Utxo>)
      requires LocalOk(txo, txi, historyLocal, {})
      ensures forall o: Outpoint :: o in out <==> Coin(o.txid, a, o.n) in txo
      ensures forall o: Outpoint :: o in out ==> out[o] == UtxoOf(txo, txi, heights, Coin(o.txid, a, o.n))
    {
      var received, sent := GetAddrIo(a);
      out := map o | o in received ::
          Utxo(received[o].coin.value, received[o].height, received[o].coin.isCoinbase, o in sent);
    }

    method CoinsOfDomain(domain: set<Address>) returns (coins: map<Outpoint, Utxo>)
      requires LocalOk(txo, txi, historyLocal, {}) && TxoOk(transactions, mine, txo)
      ensures CoinsByPoint(txo, txi, heights, domain, coins).holds
    {
      coins := map[];
      var todo := domain;
      while todo != {}
        invariant todo <= domain && CoinsByPoint(txo, txi, heights, domain - todo, coins).holds
      {
        var a :| a in todo;
        var out := GetAddrOutputs(a);
        MoreCoins(domain - todo, coins, a, out);
        assert domain - (todo - {a}) == domain - todo + {a};
        coins := coins + out;
        todo := todo - {a};
      }
      assert domain - todo == domain;
    }

    lemma MoreCoins(domain: set<Address>, coins: map<Outpoint, Utxo>, a: Address, out: map<Outpoint, Utxo>)
      requires TxoOk(transactions, mine, txo) && CoinsByPoint(txo, txi, heights, domain, coins).holds
      requires forall o: Outpoint :: o in out <==> Coin(o.txid, a, o.n) in txo
      requires forall o: Outpoint :: o in out ==> out[o] == UtxoOf(txo, txi, heights, Coin(o.txid, a, o.n))
      ensures CoinsByPoint(txo, txi, heights, domain + {a}, coins + out).holds
    {
      assert Unfold(0);
      var coins' := coins + out;
      forall c | c in txo && c.address in domain + {a}
        ensures c.Point() in coins' && coins'[c.Point()] == UtxoOf(txo, txi, heights, c)
      {
        if c.Point() in out {
          OneAddress(transactions, mine, txo, c, Coin(c.txid, a, c.n));
        } else {
          assert c != Coin(c.txid, a, c.n);
        }
      }
      forall o | o in coins'
        ensures exists b :: b in domain + {a} && Coin(o.txid, b, o.n) in txo
      {
        if o in out {
          assert a in domain + {a} && Coin(o.txid, a, o.n) in txo;
        } else {
          var b :| b in domain && Coin(o.txid, b, o.n) in txo;
          assert b in domain + {a};
        }
      }
    }

    method Classify(o: Outpoint, utxo: Utxo, coins: map<Outpoint, Utxo>) returns (share: Balance)
      requires o.txid in transactions
      ensures share == Share(transactions[o.txid].inputs, utxo, coins, localHeight)
    {
      var mempoolHeight := localHeight + 1;
      if utxo.isCoinbase && utxo.height + COINBASE_MATURITY > mempoolHeight {
        return Balance(0, 0, utxo.value);
      } else if utxo.height > 0 {
        return Balance(utxo.value, 0, 0);
      }
      var tx := transactions[o.txid];
      var confirmedSpent := 0;
      for i := 0 to |tx.inputs|
        invariant confirmedSpent == Backing(tx.inputs[..i], coins)
      {
        assert tx.inputs[..i + 1][..i] == tx.inputs[..i];
        if tx.inputs[i].SpendInput? && tx.inputs[i].prevout in coins && coins[tx.inputs[i].prevout].height > 0 {
          confirmedSpent := confirmedSpent + coins[tx.inputs[i].prevout].value;
        }
      }
      assert tx.inputs[..|tx.inputs|] == tx.inputs;
      share := if confirmedSpent >= utxo.value then Balance(utxo.value, 0, 0)
               else Balance(confirmedSpent, utxo.value - confirmedSpent, 0);
    }

    /** The unspent coins of a domain, from the cache if they were counted before. */
    method GetBalance(addresses: set<Address>, excludedAddresses: set<Address>, excludedCoins: set<Outpoint>)
      returns (balance: Balance)
      requires Valid()
      modifies this`balanceCache
      ensures Valid() && balance.Sum() == Left(txo, txi, CacheKey(addresses - excludedAddresses, excludedCoins))
      ensures var key := CacheKey(addresses - excludedAddresses, excludedCoins);
              if key in old(balanceCache) then balance == old(balanceCache)[key]
              else SplitNow(transactions, txo, txi, heights, localHeight, key, balance)
    {
      hide Splits, CoinsByPoint, LeftCoins, TxoOk, TxiOk, LocalOk, TxsOk, SpentOk, WorldOk;
      var domain := addresses - excludedAddresses;
      var key := CacheKey(domain, excludedCoins);
      if key in balanceCache {
        return balanceCache[key];
      }
      var coins := CoinsOfDomain(domain);
      balance := AddUp(coins, key);
      balanceCache := balanceCache[key := balance];
    }

    /** How far the count is: all coins but those at the outpoints in `todo`. */
    ghost function Counting(key: CacheKey, coins: map<Outpoint, Utxo>, todo: set<Outpoint>, balance: Balance): Fact
      reads this`transactions, this`txo, this`txi, this`localHeight
    {
      var counted := LeftExcept(txo, txi, key, todo);
      Fact(balance.Sum() == WalletBalance.Sum(counted, Worth(txo)) &&
           Splits(transactions, txo, coins, localHeight, counted, balance))
    }

    method AddUp(coins: map<Outpoint, Utxo>, key: CacheKey) returns (balance: Balance)
      requires CoinsByPoint(txo, txi, heights, key.domain, coins).holds && TxoOk(transactions, mine, txo)
      ensures balance.Sum() == Left(txo, txi, key)
      ensures Splits(transactions, txo, coins, localHeight, LeftCoins(txo, txi, key), balance)
    {
      hide Counting;
      balance := Balance(0, 0, 0);
      var todo := coins.Keys;
      NothingCounted(key, coins);
      while todo != {}
        invariant todo <= coins.Keys && Counting(key, coins, todo, balance).holds
        decreases |todo|
      {
        var o :| o in todo;
        var rest := todo - {o};
        TakeOut(todo, o);
        todo := rest;
        balance := Count(o, coins, key, balance, todo);
      }
      AllCounted(key, coins, balance);
    }

    method Count(o: Outpoint, coins: map<Outpoint, Utxo>, key: CacheKey, before: Balance, ghost todo: set<Outpoint>)
      returns (balance: Balance)
      requires CoinsByPoint(txo, txi, heights, key.domain, coins).holds && TxoOk(transactions, mine, txo) &&
               o in coins && o !in todo
      requires Counting(key, coins, todo + {o}, before).holds
      ensures Counting(key, coins, todo, balance).holds
    {
      hide Splits, Backed, StandingOf;
      ghost var c := CoinAt(key, coins, o);
      ghost var counted := LeftExcept(txo, txi, key, todo + {o});
      if coins[o].spent || o in key.excluded {
        CountedSame(key, o, c, counted, todo);
        return before;
      }
      var share := Classify(o, coins[o], coins);
      balance := before.Plus(share);
      SumAdd(counted, Worth(txo), c);
      SplitsMore(transactions, txo, coins, localHeight, counted, before, c, share);
      CountedMore(key, o, c, counted, todo);
    }

    lemma NothingCounted(key: CacheKey, coins: map<Outpoint, Utxo>)
      requires CoinsByPoint(txo, txi, heights, key.domain, coins).holds
      ensures Counting(key, coins, coins.Keys, Balance(0, 0, 0)).holds
    {
      AllToDo(key, coins);
      SplitsNothing(transactions, txo, coins, localHeight);
    }

    lemma AllCounted(key: CacheKey, coins: map<Outpoint, Utxo>, balance: Balance)
      requires CoinsByPoint(txo, txi, heights, key.domain, coins).holds && Counting(key, coins, {}, balance).holds
      ensures balance.Sum() == Left(txo, txi, key)
      ensures Splits(transactions, txo, coins, localHeight, LeftCoins(txo, txi, key), balance)
    {
      hide Splits;
      AllToDo(key, coins);
    }

    lemma AllToDo(key: CacheKey, coins: map<Outpoint, Utxo>)
      requires CoinsByPoint(txo, txi, heights, key.domain, coins).holds
      ensures LeftExcept(txo, txi, key, coins.Keys) == {} && LeftExcept(txo, txi, key, {}) == LeftCoins(txo, txi, key)
    {
      assert Unfold(0);
    }

    lemma CoinAt(key: CacheKey, coins: map<Outpoint, Utxo>, o: Outpoint) returns (c: Coin)
      requires CoinsByPoint(txo, txi, heights, key.domain, coins).holds && o in coins && TxoOk(transactions, mine, txo)
      ensures c in txo && c.address in key.domain && c.Point() == o && coins[o] == UtxoOf(txo, txi, heights, c) &&
              o.txid in transactions
      ensures forall c' :: c' in txo && c'.Point() == o ==> c' == c
      ensures c in LeftCoins(txo, txi, key) <==> !coins[o].spent && o !in key.excluded
    {
      assert Unfold(0);
      var a :| a in key.domain && Coin(o.txid, a, o.n) in txo;
      c := Coin(o.txid, a, o.n);
      assert CoinOk(transactions, mine, c, txo[c]);
      forall c' | c' in txo && c'.Point() == o
        ensures c' == c
      {
        OneAddress(transactions, mine, txo, c, c');
      }
    }

    lemma CountedSame(key: CacheKey, o: Outpoint, c: Coin, counted: set<Coin>, todo: set<Outpoint>)
      requires forall c' :: c' in txo && c'.Point() == o ==> c' == c
      requires c !in LeftCoins(txo, txi, key) && counted == LeftExcept(txo, txi, key, todo + {o})
      ensures counted == LeftExcept(txo, txi, key, todo)
    {
    }

    lemma CountedMore(key: CacheKey, o: Outpoint, c: Coin, counted: set<Coin>, todo: set<Outpoint>)
      requires o !in todo && c.Point() == o && forall c' :: c' in txo && c'.Point() == o ==> c' == c
      requires c in LeftCoins(txo, txi, key) && counted == LeftExcept(txo, txi, key, todo + {o})
      ensures counted + {c} == LeftExcept(txo, txi, key, todo)
    {
    }

    // ----- the history of a domain

    /** The effects of all transactions in the histories of the domain's addresses. */
    method CollectDeltas(domain: set<Address>) returns (deltas: map<TxId, int>, ghost visits: set<Visit>)
      ensures AllVisits(historyLocal, domain, visits) && Total(deltas) == WalletBalance.Moved(txo, txi, visits)
      ensures Effects(txo, txi, deltas, visits)
    {
      deltas := map[];
      visits := {};
      MovedNothing(txo, txi);
      var addresses := domain;
      while addresses != {}
        invariant addresses <= domain && AllVisits(historyLocal, domain - addresses, visits)
        invariant Total(deltas) == WalletBalance.Moved(txo, txi, visits) && Effects(txo, txi, deltas, visits)
        decreases |addresses|
      {
        var a :| a in addresses;
        deltas, visits := CollectAddress(a, deltas, visits);
        assert forall t, b :: Visit(b, t) in visits <==>
               b in domain - (addresses - {a}) && InHistory(historyLocal, t, b);
        addresses := addresses - {a};
      }
      assert domain - addresses == domain;
    }

    method CollectAddress(a: Address, before: map<TxId, int>, ghost visited: set<Visit>)
      returns (deltas: map<TxId, int>, ghost visits: set<Visit>)
      requires Total(before) == WalletBalance.Moved(txo, txi, visited) && forall t :: Visit(a, t) !in visited
      requires Effects(txo, txi, before, visited)
      ensures Total(deltas) == WalletBalance.Moved(txo, txi, visits) && Effects(txo, txi, deltas, visits)
      ensures forall v :: v in visits <==> v in visited || (v.address == a && InHistory(historyLocal, v.txid, a))
    {
      hide Effects, WalletBalance.Moved, Total, Delta;
      deltas, visits := before, visited;
      var history := AddressHistory(a);
      var todo := history;
      while todo != {}
        invariant todo <= history && Total(deltas) == WalletBalance.Moved(txo, txi, visits)
        invariant Effects(txo, txi, deltas, visits)
        invariant forall v :: v in visits <==> v in visited || (v.address == a && v.txid in history - todo)
        decreases |todo|
      {
        var t :| t in todo;
        var delta := GetTxDelta(t, a);
        MovedMore(txo, txi, visits, Visit(a, t));
        TotalAdd(deltas, t, delta);
        EffectsMore(txo, txi, deltas, visits, a, t);
        deltas := deltas[t := (if t in deltas then deltas[t] else 0) + delta];
        visits := visits + {Visit(a, t)};
        todo := todo - {t};
      }
    }

    /** The running balance over the history; the check against the other way of counting never fails. */
    method GetHistory(domain: set<Address>) returns (history: seq<HistoryItem>)
      requires Valid()
      modifies this`balanceCache
      ensures Valid()
      ensures RunsOn(history)
      ensures BalanceBefore(history, |history|) == Left(txo, txi, CacheKey(domain, {}))
      // one item for each transaction that touches the addresses, with what it changes for them
      ensures forall i, j :: 0 <= i < j < |history| ==> history[i].txid != history[j].txid
      ensures forall t :: Listed(history, t) <==> Touched(historyLocal, domain, t) != {}
      ensures forall i :: 0 <= i < |history| ==>
                history[i].delta == WalletBalance.Sum(Touched(historyLocal, domain, history[i].txid),
                                                      EffectOn(txo, txi, history[i].txid))
    {
      hide Effects, ItemsFor, AllVisits, InHistory, RunsOn, Touched, EffectOn, Listed, BalanceBefore, Left, SplitNow;
      hide Total, WalletBalance.Moved, TxoOk, TxiOk, TxsOk, SpentOk, WorldOk, CacheRight;
      var deltas;
      ghost var visits;
      deltas, visits := CollectDeltas(domain);
      MovedIsLeft(domain, visits);
      history := RunningBalance(deltas);
      HistoryIs(historyLocal, txo, txi, domain, visits, deltas, history);
      var balance := BalanceBefore(history, |history|);
      assert domain - {} == domain;
      var counted := GetBalance(domain, {}, {});
      if balance != counted.confirmed + counted.unconfirmed + counted.unmatured {
        assert false;
      }
    }

    lemma MovedIsLeft(domain: set<Address>, visits: set<Visit>)
      requires Valid() && AllVisits(historyLocal, domain, visits)
      ensures WalletBalance.Moved(txo, txi, visits) == Left(txo, txi, CacheKey(domain, {}))
    {
      BalanceIdentity(spentOutpoints, txo, txi, historyLocal, domain, visits);
      assert LeftCoins(txo, txi, CacheKey(domain, {})) == Unspent(txo, txi, domain);
    }
  }
}
