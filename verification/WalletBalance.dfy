/** Two ways to the same balance: adding up what each transaction changes, and adding up the coins nobody spent. */
module WalletBalance {
  import opened Options
  import opened WalletIndex

  // ----- sums over sets

  ghost function Sum<T(!new)>(s: set<T>, f: T -> int): int {
    if s == {} then 0
    else
      var x :| x in s;
      f(x) + Sum(s - {x}, f)
  }

  lemma SumNothing<T(!new)>(f: T -> int)
    ensures Sum({}, f) == 0
  {
  }

  lemma {:induction false} SumPick<T(!new)>(s: set<T>, f: T -> int, x: T)
    requires x in s
    ensures Sum(s, f) == f(x) + Sum(s - {x}, f)
    decreases s
  {
    var y :| y in s && Sum(s, f) == f(y) + Sum(s - {y}, f);
    if y != x {
      SumPick(s - {y}, f, x);
      SumPick(s - {x}, f, y);
      assert s - {y} - {x} == s - {x} - {y};
    }
  }

  lemma SumAdd<T(!new)>(s: set<T>, f: T -> int, x: T)
    requires x !in s
    ensures Sum(s + {x}, f) == Sum(s, f) + f(x)
  {
    SumPick(s + {x}, f, x);
    assert s + {x} - {x} == s;
  }

  lemma {:induction false} SumUnion<T(!new)>(s: set<T>, t: set<T>, f: T -> int)
    requires s !! t
    ensures Sum(s + t, f) == Sum(s, f) + Sum(t, f)
    decreases t
  {
    if t == {} {
      assert s + t == s;
    } else {
      var x :| x in t;
      SumPick(t, f, x);
      SumUnion(s, t - {x}, f);
      SumAdd(s + (t - {x}), f, x);
      assert s + (t - {x}) + {x} == s + t;
    }
  }

  lemma {:induction false} SumSame<T(!new)>(s: set<T>, f: T -> int, g: T -> int)
    requires forall x :: x in s ==> f(x) == g(x)
    ensures Sum(s, f) == Sum(s, g)
    decreases s
  {
    if s != {} {
      var x :| x in s;
      SumPick(s, f, x);
      SumPick(s, g, x);
      SumSame(s - {x}, f, g);
    }
  }

  lemma TakeOut<T>(s: set<T>, x: T)
    requires x in s
    ensures s - {x} + {x} == s && |s - {x}| < |s|
  {
  }

  // ----- coins and spends

  function Worth(txo: Txo): Coin -> int {
    c => if c in txo then txo[c].value else 0
  }

  function Paid(txi: Txi): Spend -> int {
    s => if s in txi then txi[s] else 0
  }

  /** The coins of a domain, the entries that spend them, and the coins that no entry spends. */
  ghost function Coins(txo: Txo, domain: set<Address>): set<Coin> {
    set c | c in txo && c.address in domain
  }

  ghost function SpendsIn(txi: Txi, domain: set<Address>): set<Spend> {
    set s | s in txi && s.address in domain
  }

  predicate IsSpent(txi: Txi, c: Coin) {
    exists s :: s in txi && s.Of() == c
  }

  ghost function Unspent(txo: Txo, txi: Txi, domain: set<Address>): set<Coin> {
    set c | c in txo && c.address in domain && !IsSpent(txi, c)
  }

  /** Each spent coin is spent by one entry, for what it is worth. */
  lemma {:induction false} SpendsMatch(spent: Spent, txo: Txo, txi: Txi, some: set<Spend>)
    requires TxiOk(spent, txo, txi) && some <= txi.Keys
    ensures Sum(some, Paid(txi)) == Sum(set s | s in some :: s.Of(), Worth(txo))
    decreases some
  {
    if some != {} {
      var s :| s in some;
      var coins := set s | s in some :: s.Of();
      SumPick(some, Paid(txi), s);
      SumPick(coins, Worth(txo), s.Of());
      SpendsMatch(spent, txo, txi, some - {s});
      assert coins - {s.Of()} == set s' | s' in some - {s} :: s'.Of();
    } else {
      assert (set s | s in some :: s.Of()) == {};
    }
  }

  /** What came in less what went out is what is left. */
  lemma InLessOut(spent: Spent, txo: Txo, txi: Txi, domain: set<Address>)
    requires TxiOk(spent, txo, txi)
    ensures Sum(Coins(txo, domain), Worth(txo)) - Sum(SpendsIn(txi, domain), Paid(txi)) ==
            Sum(Unspent(txo, txi, domain), Worth(txo))
  {
    var spends := SpendsIn(txi, domain);
    var gone := set s | s in spends :: s.Of();
    SpendsMatch(spent, txo, txi, spends);
    SumUnion(Unspent(txo, txi, domain), gone, Worth(txo));
    assert Unspent(txo, txi, domain) + gone == Coins(txo, domain);
  }

  // ----- one transaction's effect on an address, and histories

  ghost function CoinsOf(txo: Txo, t: TxId, a: Address): set<Coin> {
    set c | c in txo && c.txid == t && c.address == a
  }

  ghost function SpendsOf(txi: Txi, t: TxId, a: Address): set<Spend> {
    set s | s in txi && s.txid == t && s.address == a
  }

  ghost function Delta(txo: Txo, txi: Txi, t: TxId, a: Address): int {
    Sum(CoinsOf(txo, t, a), Worth(txo)) - Sum(SpendsOf(txi, t, a), Paid(txi))
  }

  datatype Visit = Visit(address: Address, txid: TxId)

  ghost function VisitedCoins(txo: Txo, visits: set<Visit>): set<Coin> {
    set c | c in txo && Visit(c.address, c.txid) in visits
  }

  ghost function VisitedSpends(txi: Txi, visits: set<Visit>): set<Spend> {
    set s | s in txi && Visit(s.address, s.txid) in visits
  }

  /** Everything the visited transactions did to the visited addresses. */
  ghost function Moved(txo: Txo, txi: Txi, visits: set<Visit>): int {
    Sum(VisitedCoins(txo, visits), Worth(txo)) - Sum(VisitedSpends(txi, visits), Paid(txi))
  }

  lemma MovedMore(txo: Txo, txi: Txi, visits: set<Visit>, v: Visit)
    requires v !in visits
    ensures Moved(txo, txi, visits + {v}) == Moved(txo, txi, visits) + Delta(txo, txi, v.txid, v.address)
  {
    SumUnion(VisitedCoins(txo, visits), CoinsOf(txo, v.txid, v.address), Worth(txo));
    SumUnion(VisitedSpends(txi, visits), SpendsOf(txi, v.txid, v.address), Paid(txi));
    assert VisitedCoins(txo, visits + {v}) == VisitedCoins(txo, visits) + CoinsOf(txo, v.txid, v.address);
    assert VisitedSpends(txi, visits + {v}) == VisitedSpends(txi, visits) + SpendsOf(txi, v.txid, v.address);
  }

  lemma MovedNothing(txo: Txo, txi: Txi)
    ensures Moved(txo, txi, {}) == 0
  {
    assert VisitedCoins(txo, {}) == {} && VisitedSpends(txi, {}) == {};
  }

  /** All visits that the histories of a domain's addresses ask for. */
  ghost predicate AllVisits(local: Local, domain: set<Address>, visits: set<Visit>) {
    forall t, a :: Visit(a, t) in visits <==> a in domain && InHistory(local, t, a)
  }

  /** Going through the histories of a domain adds up to the coins that are left. */
  lemma BalanceIdentity(spent: Spent, txo: Txo, txi: Txi, local: Local, domain: set<Address>, visits: set<Visit>)
    requires TxiOk(spent, txo, txi) && LocalOk(txo, txi, local, {}) && AllVisits(local, domain, visits)
    ensures Moved(txo, txi, visits) == Sum(Unspent(txo, txi, domain), Worth(txo))
  {
    InLessOut(spent, txo, txi, domain);
    forall c | c in txo
      ensures Visit(c.address, c.txid) in visits <==> c.address in domain
    {
      assert Concerns(txo, txi, c.txid, c.address);
    }
    forall s | s in txi
      ensures Visit(s.address, s.txid) in visits <==> s.address in domain
    {
      assert Concerns(txo, txi, s.txid, s.address);
    }
    assert VisitedCoins(txo, visits) == Coins(txo, domain);
    assert VisitedSpends(txi, visits) == SpendsIn(txi, domain);
  }

  // ----- sums over maps

  ghost function Total(m: map<TxId, int>): int {
    Sum(m.Keys, t => if t in m then m[t] else 0)
  }

  lemma TotalAdd(m: map<TxId, int>, t: TxId, d: int)
    ensures Total(m[t := (if t in m then m[t] else 0) + d]) == Total(m) + d
  {
    var m' := m[t := (if t in m then m[t] else 0) + d];
    var f, f' := x => if x in m then m[x] else 0, x => if x in m' then m'[x] else 0;
    SumPick(m'.Keys, f', t);
    assert m'.Keys - {t} == m.Keys - {t};
    SumSame(m.Keys - {t}, f, f');
    if t in m {
      SumPick(m.Keys, f, t);
    } else {
      assert m.Keys - {t} == m.Keys;
    }
  }
}
