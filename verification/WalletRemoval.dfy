/** What removing and adding transactions does to the wallet's maps, and when it fails half way. */
module WalletRemovals {
  import opened Options
  import opened Folding
  import opened WalletIndex

  lemma WithoutMore(txs: Txs, spent: Spent, txo: Txo, txi: Txi, gone: set<TxId>, more: set<TxId>)
    ensures TxsWithout(TxsWithout(txs, gone), more) == TxsWithout(txs, gone + more)
    ensures SpentWithout(SpentWithout(spent, gone), more) == SpentWithout(spent, gone + more)
    ensures TxoWithout(TxoWithout(txo, gone), more) == TxoWithout(txo, gone + more)
    ensures TxiWithout(TxiWithout(txi, gone), more) == TxiWithout(txi, gone + more)
  {
  }

  lemma WithoutNobody(txs: Txs, spent: Spent, txo: Txo, txi: Txi)
    ensures TxsWithout(txs, {}) == txs && SpentWithout(spent, {}) == spent && TxoWithout(txo, {}) == txo &&
            TxiWithout(txi, {}) == txi
  {
  }

  lemma SpentWithoutOk(txs: Txs, spent: Spent, gone: set<TxId>)
    requires SpentOk(txs, spent)
    ensures SpentOk(TxsWithout(txs, gone), SpentWithout(spent, gone))
  {
  }

  // ----- dependents, while some are removed

  lemma {:induction false} GoneDownwards(spent: Spent, gone: set<TxId>, t: TxId, x: TxId, k: nat)
    requires Closed(spent, gone) && t in gone && Depends(spent, t, x, k)
    ensures x in gone
    decreases k
  {
    var o :| o in spent && o.txid == t && (spent[o] == x || Depends(spent, spent[o], x, k - 1));
    if spent[o] != x {
      GoneDownwards(spent, gone, spent[o], x, k - 1);
    }
  }

  lemma {:induction false} DependsKept(spent: Spent, gone: set<TxId>, t: TxId, x: TxId, k: nat)
    requires Closed(spent, gone) && x !in gone && Depends(spent, t, x, k)
    ensures Depends(SpentWithout(spent, gone), t, x, k)
    decreases k
  {
    var o :| o in spent && o.txid == t && (spent[o] == x || Depends(spent, spent[o], x, k - 1));
    if spent[o] != x {
      if spent[o] in gone {
        GoneDownwards(spent, gone, spent[o], x, k - 1);
      }
      DependsKept(spent, gone, spent[o], x, k - 1);
    }
    assert o in SpentWithout(spent, gone);
  }

  lemma {:induction false} DependsAnyway(spent: Spent, gone: set<TxId>, t: TxId, x: TxId, k: nat)
    requires Depends(SpentWithout(spent, gone), t, x, k)
    ensures Depends(spent, t, x, k)
    decreases k
  {
    var spent' := SpentWithout(spent, gone);
    var o :| o in spent' && o.txid == t && (spent'[o] == x || Depends(spent', spent'[o], x, k - 1));
    if spent'[o] != x {
      DependsAnyway(spent, gone, spent[o], x, k - 1);
    }
    assert o in spent;
  }

  /** What is still to be removed depends on `t` as it did before other removals. */
  lemma DependsReduced(spent: Spent, gone: set<TxId>, t: TxId, x: TxId)
    requires Closed(spent, gone)
    ensures DependsOn(SpentWithout(spent, gone), t, x) ==> DependsOn(spent, t, x)
    ensures DependsOn(spent, t, x) && x !in gone ==> DependsOn(SpentWithout(spent, gone), t, x)
  {
    if DependsOn(SpentWithout(spent, gone), t, x) {
      var k: nat :| Depends(SpentWithout(spent, gone), t, x, k);
      DependsAnyway(spent, gone, t, x, k);
    }
    if DependsOn(spent, t, x) && x !in gone {
      var k: nat :| Depends(spent, t, x, k);
      DependsKept(spent, gone, t, x, k);
    }
  }

  // ----- conflicts

  /** The other transactions that spend what `tx` spends. */
  ghost function Conflicts(spent: Spent, tx: Tx): set<TxId> {
    set o | o in spent && Spends(tx, o) && spent[o] != tx.txid :: spent[o]
  }

  /** The transactions that a new one pushes out, with their dependents. */
  ghost predicate PushedOut(spent: Spent, conflicting: set<TxId>, gone: set<TxId>) {
    forall x :: x in gone <==> exists c :: c in conflicting && (x == c || DependsOn(spent, c, x))
  }

  lemma GoneMore(spent: Spent, done: set<TxId>, gone: set<TxId>, t: TxId, more: set<TxId>)
    requires Closed(spent, gone) && PushedOut(spent, done, gone)
    requires forall x :: x in more <==> x == t || DependsOn(SpentWithout(spent, gone), t, x)
    ensures PushedOut(spent, done + {t}, gone + more) && Closed(spent, gone + more)
  {
    forall x
      ensures x in gone + more <==> x in gone || x == t || DependsOn(spent, t, x)
    {
      DependsReduced(spent, gone, t, x);
    }
    forall o | o in spent && o.txid in gone + more
      ensures spent[o] in gone + more
    {
      if o.txid !in gone {
        if o.txid == t {
          ChildDepends(spent, t, o);
        } else {
          DependsReduced(spent, gone, t, o.txid);
          var k: nat :| Depends(spent, t, o.txid, k);
          DependsFurther(spent, t, o.txid, o, k);
        }
      }
    }
  }

  lemma FreeNow(spent: Spent, tx: Tx, gone: set<TxId>)
    requires PushedOut(spent, Conflicts(spent, tx), gone)
    ensures Free(SpentWithout(spent, gone), tx)
  {
    assert forall t :: t in Conflicts(spent, tx) ==> t in gone;
    assert forall o :: o in spent && Spends(tx, o) && spent[o] != tx.txid ==> spent[o] in Conflicts(spent, tx);
  }

  // ----- inputs that name an output that is not there

  /** The input leaves its address open, and its previous transaction is stored but has no such output. */
  predicate NoSuchOutput(txs: Txs, input: Input) {
    && input.SpendInput? && input.address.None? && input.prevout.txid in txs
    && input.prevout.n >= |txs[input.prevout.txid].outputs|
  }

  predicate OutOfRange(txs: Txs, tx: Tx) {
    exists i :: 0 <= i < |tx.inputs| && NoSuchOutput(txs, tx.inputs[i])
  }

  /** The address an input spends from, as far as the input and the stored transactions tell. */
  function InputAddress(txs: Txs, input: Input): Option<Address> {
    if input.Coinbase? then None
    else if input.address.Some? then input.address
    else if input.prevout.txid in txs && input.prevout.n < |txs[input.prevout.txid].outputs|
    then txs[input.prevout.txid].outputs[input.prevout.n].address
    else None
  }

  predicate IsMine(a: Option<Address>, mine: set<Address>) {
    a.Some? && a.value in mine
  }

  /** An input spends from, or an output pays to, one of the wallet's addresses. */
  predicate Related(txs: Txs, mine: set<Address>, tx: Tx) {
    || (exists i :: 0 <= i < |tx.inputs| && IsMine(InputAddress(txs, tx.inputs[i]), mine))
    || (exists n :: 0 <= n < |tx.outputs| && IsMine(tx.outputs[n].address, mine))
  }

  /**
   What a failed addition leaves behind: the outpoints up to the failing input are marked as spent by a
   transaction that is not stored, so the index is wrong, and whoever spends the outpoint next meets it.
   */
  lemma HalfEntered(txs: Txs, spent: Spent, tx: Tx, k: nat)
    requires tx.txid !in txs && k < |tx.inputs| && tx.inputs[k].SpendInput?
    ensures var o, spent' := tx.inputs[k].prevout, SpentBy(spent, tx, k + 1);
            o in spent' && spent'[o] !in txs && !SpentOk(txs, spent')
  {
    SpentByAt(spent, tx, k + 1, tx.inputs[k].prevout);
  }

  // ----- removals that fail

  /** One of the first `i` inputs spends `o`. */
  predicate Popped(inputs: seq<Input>, i: nat, o: Outpoint)
    requires i <= |inputs|
  {
    exists j :: 0 <= j < i && inputs[j].SpendInput? && inputs[j].prevout == o
  }

  /** At input `i` no spend of its previous transaction is recorded any more, so that there is nothing to look in. */
  ghost predicate PopFails(spent: Spent, inputs: seq<Input>, i: nat)
    requires i < |inputs|
  {
    && inputs[i].SpendInput?
    && forall o :: o in spent && o.txid == inputs[i].prevout.txid ==> Popped(inputs, i, o)
  }

  ghost predicate Raises(spent: Spent, inputs: seq<Input>) {
    exists i :: 0 <= i < |inputs| && PopFails(spent, inputs, i)
  }

  /** Two inputs spend the same outpoint. */
  predicate Repeats(tx: Tx) {
    exists i, j ::
      && 0 <= j < i < |tx.inputs| && tx.inputs[i].SpendInput? && tx.inputs[j].SpendInput?
      && tx.inputs[i].prevout == tx.inputs[j].prevout
  }

  /** The removal of `x` fails once the rest of `gone` is removed. */
  ghost predicate CanFail(txs: Txs, spent: Spent, gone: set<TxId>, x: TxId) {
    x in gone && x in txs && Raises(SpentWithout(spent, gone - {x}), txs[x].inputs)
  }

  ghost predicate SomeCanFail(txs: Txs, spent: Spent, gone: set<TxId>) {
    exists x :: CanFail(txs, spent, gone, x)
  }

  ghost predicate SomeRepeats(txs: Txs, gone: set<TxId>) {
    exists x :: x in gone && x in txs && Repeats(txs[x])
  }

  lemma RaisesWithLess(spent: Spent, done: set<TxId>, more: set<TxId>, inputs: seq<Input>)
    requires done <= more && Raises(SpentWithout(spent, done), inputs)
    ensures Raises(SpentWithout(spent, more), inputs)
  {
    var i :| 0 <= i < |inputs| && PopFails(SpentWithout(spent, done), inputs, i);
    forall o | o in SpentWithout(spent, more) && o.txid == inputs[i].prevout.txid
      ensures Popped(inputs, i, o)
    {
      assert o in SpentWithout(spent, done);
    }
    assert PopFails(SpentWithout(spent, more), inputs, i);
  }

  /** Only a transaction that spends an outpoint twice can fail to be removed. */
  lemma OnlyRepeatsFail(txs: Txs, spent: Spent, done: set<TxId>, x: TxId)
    requires SpentOk(txs, spent) && x in txs && x !in done && Raises(SpentWithout(spent, done), txs[x].inputs)
    ensures Repeats(txs[x])
  {
    var inputs := txs[x].inputs;
    var i :| 0 <= i < |inputs| && PopFails(SpentWithout(spent, done), inputs, i);
    assert Spends(txs[x], inputs[i].prevout);
    var j :| 0 <= j < i && inputs[j].SpendInput? && inputs[j].prevout == inputs[i].prevout;
  }

  lemma FailingRepeats(txs: Txs, spent: Spent, gone: set<TxId>)
    requires SpentOk(txs, spent) && SomeCanFail(txs, spent, gone)
    ensures SomeRepeats(txs, gone)
  {
    var x :| CanFail(txs, spent, gone, x);
    OnlyRepeatsFail(txs, spent, gone - {x}, x);
  }

  lemma FewerOutOfRange(txs: Txs, gone: set<TxId>, tx: Tx)
    ensures OutOfRange(TxsWithout(txs, gone), tx) ==> OutOfRange(txs, tx)
  {
    if OutOfRange(TxsWithout(txs, gone), tx) {
      var i :| 0 <= i < |tx.inputs| && NoSuchOutput(TxsWithout(txs, gone), tx.inputs[i]);
      assert NoSuchOutput(txs, tx.inputs[i]);
    }
  }

  /** Every member of `gone` once. */
  ghost predicate OrderOf(order: seq<TxId>, gone: set<TxId>) {
    && (forall x :: x in order <==> x in gone)
    && (forall i, j :: 0 <= i < j < |order| ==> order[i] != order[j])
  }

  function Members(order: seq<TxId>): set<TxId> {
    set x | x in order
  }

  /** Removing transactions in this order fails at the one at position `k`. */
  ghost predicate FailsAt(txs: Txs, spent: Spent, order: seq<TxId>, k: nat)
    requires k < |order|
  {
    order[k] in txs && Raises(SpentWithout(spent, Members(order[..k])), txs[order[k]].inputs)
  }

  ghost predicate OrderFails(txs: Txs, spent: Spent, order: seq<TxId>) {
    exists k :: 0 <= k < |order| && FailsAt(txs, spent, order, k)
  }

  lemma {:induction false} SomeOrder(gone: set<TxId>) returns (order: seq<TxId>)
    ensures OrderOf(order, gone)
    decreases gone
  {
    if gone == {} {
      order := [];
    } else {
      var x :| x in gone;
      var rest := SomeOrder(gone - {x});
      order := rest + [x];
    }
  }

  /** The removals of `done`, in this order, went well. */
  ghost function Going(txs: Txs, spent: Spent, order: seq<TxId>, done: set<TxId>): Fact {
    Fact(OrderOf(order, done) && !OrderFails(txs, spent, order))
  }

  lemma NothingRemoved(txs: Txs, spent: Spent)
    ensures Going(txs, spent, [], {}).holds && PushedOut(spent, {}, {}) && Closed(spent, {})
  {
  }

  lemma AllRemoved(txs: Txs, spent: Spent, order: seq<TxId>, gone: set<TxId>)
    requires Going(txs, spent, order, gone).holds
    ensures OrderOf(order, gone) && !OrderFails(txs, spent, order)
  {
  }

  lemma OrderLonger(txs: Txs, spent: Spent, order: seq<TxId>, done: set<TxId>, x: TxId)
    requires Going(txs, spent, order, done).holds && x !in done
    requires x in txs ==> !Raises(SpentWithout(spent, done), txs[x].inputs)
    ensures Going(txs, spent, order + [x], done + {x}).holds
  {
    assert Members(order) == done;
    forall k | 0 <= k < |order + [x]|
      ensures !FailsAt(txs, spent, order + [x], k)
    {
      assert (order + [x])[..k] == order[..k];
      assert k < |order| ==> !FailsAt(txs, spent, order, k);
      assert order[..|order|] == order;
    }
  }

  lemma OrdersJoined(a: seq<TxId>, s: set<TxId>, b: seq<TxId>, t: set<TxId>)
    requires OrderOf(a, s) && OrderOf(b, t) && s !! t
    ensures OrderOf(a + b, s + t)
  {
    forall i, j | 0 <= i < j < |a + b|
      ensures (a + b)[i] != (a + b)[j]
    {
      assert i < |a| ==> a[i] in s;
      assert j >= |a| ==> b[j - |a|] in t;
    }
  }

  /** An order that fails at `x`, after those that were removed. */
  lemma FailingOrder(txs: Txs, spent: Spent, removed: seq<TxId>, done: set<TxId>, x: TxId, todo: set<TxId>)
    returns (order: seq<TxId>)
    requires Going(txs, spent, removed, done).holds && x in todo && todo !! done
    requires x in txs && Raises(SpentWithout(spent, done), txs[x].inputs)
    ensures OrderOf(order, done + todo) && OrderFails(txs, spent, order)
  {
    var rest := SomeOrder(todo - {x});
    OrdersJoined([x], {x}, rest, todo - {x});
    OrdersJoined(removed, done, [x] + rest, {x} + (todo - {x}));
    order := removed + ([x] + rest);
    assert done + ({x} + (todo - {x})) == done + todo;
    assert order[..|removed|] == removed && Members(removed) == done && order[|removed|] == x;
    assert FailsAt(txs, spent, order, |removed|);
  }

  lemma FailureCanBeLast(txs: Txs, spent: Spent, gone: set<TxId>, order: seq<TxId>, k: nat)
    requires OrderOf(order, gone) && k < |order| && FailsAt(txs, spent, order, k)
    ensures CanFail(txs, spent, gone, order[k])
  {
    RaisesWithLess(spent, Members(order[..k]), gone - {order[k]}, txs[order[k]].inputs);
  }

  lemma LastFails(txs: Txs, spent: Spent, gone: set<TxId>, x: TxId) returns (order: seq<TxId>)
    requires CanFail(txs, spent, gone, x)
    ensures OrderOf(order, gone) && OrderFails(txs, spent, order)
  {
    var rest := SomeOrder(gone - {x});
    order := rest + [x];
    assert order[..|rest|] == rest && Members(rest) == gone - {x};
    assert FailsAt(txs, spent, order, |rest|);
  }

  /** A removal of `gone` fails in some order if and only if one of its members can fail as the last one. */
  lemma RemovalFailsIff(txs: Txs, spent: Spent, gone: set<TxId>)
    ensures (exists order :: OrderOf(order, gone) && OrderFails(txs, spent, order)) <==> SomeCanFail(txs, spent, gone)
  {
    if order :| OrderOf(order, gone) && OrderFails(txs, spent, order) {
      var k :| 0 <= k < |order| && FailsAt(txs, spent, order, k);
      FailureCanBeLast(txs, spent, gone, order, k);
    }
    if x :| CanFail(txs, spent, gone, x) {
      var order := LastFails(txs, spent, gone, x);
    }
  }

  // ----- removing several transactions with their dependents, one after the other

  /** What depends on a transaction spends something. */
  lemma {:induction false} DependentSpends(spent: Spent, t: TxId, x: TxId, k: nat)
    requires Depends(spent, t, x, k)
    ensures x in spent.Values
    decreases k
  {
    var o :| o in spent && o.txid == t && (spent[o] == x || Depends(spent, spent[o], x, k - 1));
    if spent[o] != x {
      DependentSpends(spent, spent[o], x, k - 1);
    }
  }

  /** What is removed with `t` was not removed before, unless `t` itself was; then nothing depends on it any more. */
  lemma MoreIsNew(spent: Spent, gone: set<TxId>, t: TxId, more: set<TxId>)
    requires Closed(spent, gone)
    requires forall x :: x in more <==> x == t || DependsOn(SpentWithout(spent, gone), t, x)
    ensures if t in gone then more == {t} else more !! gone
  {
    var spent' := SpentWithout(spent, gone);
    forall x | x in more && x != t
      ensures t !in gone && x !in gone
    {
      var o := DependsByChild(spent', t, x);
      var k: nat :| Depends(spent', t, x, k);
      DependentSpends(spent', t, x, k);
    }
  }

  /** After `done`, the removals fail in the order `next` if and only if they do so right after each other. */
  lemma FailsAfter(txs: Txs, spent: Spent, order: seq<TxId>, done: set<TxId>, next: seq<TxId>)
    requires Going(txs, spent, order, done).holds && forall x :: x in next ==> x !in done
    ensures OrderFails(txs, spent, order + next) <==>
            OrderFails(TxsWithout(txs, done), SpentWithout(spent, done), next)
  {
    var txs', spent', all := TxsWithout(txs, done), SpentWithout(spent, done), order + next;
    if k: nat :| k < |next| && FailsAt(txs', spent', next, k) {
      FailsAtMoved(txs, spent, order, done, next, k);
      assert FailsAt(txs, spent, all, |order| + k);
    }
    if k: nat :| k < |all| && FailsAt(txs, spent, all, k) {
      if k < |order| {
        assert all[..k] == order[..k] && FailsAt(txs, spent, order, k);
      } else {
        FailsAtMoved(txs, spent, order, done, next, k - |order|);
      }
    }
  }

  lemma FailsAtMoved(txs: Txs, spent: Spent, order: seq<TxId>, done: set<TxId>, next: seq<TxId>, k: nat)
    requires OrderOf(order, done) && k < |next| && next[k] !in done
    ensures FailsAt(txs, spent, order + next, |order| + k) <==>
            FailsAt(TxsWithout(txs, done), SpentWithout(spent, done), next, k)
  {
    var all := order + next;
    assert all[..|order| + k] == order + next[..k];
    assert Members(order + next[..k]) == done + Members(next[..k]);
    WithoutMore(txs, spent, map[], map[], done, Members(next[..k]));
  }

  /** A removal that fails, followed by those that are not tried any more. */
  lemma FailingPushOut(txs: Txs, spent: Spent, conflicting: set<TxId>, before: set<TxId>, order: seq<TxId>,
                       done: set<TxId>, t: TxId, next: seq<TxId>, more: set<TxId>)
    returns (gone: set<TxId>, all: seq<TxId>)
    requires Going(txs, spent, order, done).holds && Closed(spent, done) && t in conflicting
    requires PushedOut(spent, before, done) && before <= conflicting
    requires forall x :: x in more <==> x == t || DependsOn(SpentWithout(spent, done), t, x)
    requires OrderOf(next, more) && OrderFails(TxsWithout(txs, done), SpentWithout(spent, done), next)
    ensures PushedOut(spent, conflicting, gone) && OrderOf(all, gone) && OrderFails(txs, spent, all)
  {
    MoreIsNew(spent, done, t, more);
    var k :| 0 <= k < |next| && FailsAt(TxsWithout(txs, done), SpentWithout(spent, done), next, k);
    assert next[k] in more && next[k] !in done && t !in done;
    gone := AllPushedOut(spent, conflicting);
    forall x | x in more
      ensures x in gone
    {
      DependsReduced(spent, done, t, x);
    }
    var rest := SomeOrder(gone - done - more);
    FailsAfter(txs, spent, order, done, next);
    OrdersJoined(order, done, next, more);
    OrdersJoined(order + next, done + more, rest, gone - done - more);
    all := order + next + rest;
    assert done + more + (gone - done - more) == gone;
    FailsEarlier(txs, spent, order + next, rest);
  }

  lemma FailsEarlier(txs: Txs, spent: Spent, order: seq<TxId>, rest: seq<TxId>)
    requires OrderFails(txs, spent, order)
    ensures OrderFails(txs, spent, order + rest)
  {
    var k :| 0 <= k < |order| && FailsAt(txs, spent, order, k);
    assert (order + rest)[..k] == order[..k];
    assert FailsAt(txs, spent, order + rest, k);
  }

  lemma AllPushedOut(spent: Spent, conflicting: set<TxId>) returns (gone: set<TxId>)
    ensures PushedOut(spent, conflicting, gone)
  {
    gone := set x | x in conflicting + spent.Values &&
                    exists c :: c in conflicting && (x == c || DependsOn(spent, c, x));
    forall x, c | c in conflicting && DependsOn(spent, c, x)
      ensures x in spent.Values
    {
      var k: nat :| Depends(spent, c, x, k);
      DependentSpends(spent, c, x, k);
    }
  }

  /** A removal that goes well. */
  lemma PushOutLonger(txs: Txs, spent: Spent, order: seq<TxId>, done: set<TxId>, t: TxId, next: seq<TxId>,
                      more: set<TxId>)
    returns (order': seq<TxId>)
    requires Going(txs, spent, order, done).holds && Closed(spent, done)
    requires forall x :: x in more <==> x == t || DependsOn(SpentWithout(spent, done), t, x)
    requires OrderOf(next, more) && !OrderFails(TxsWithout(txs, done), SpentWithout(spent, done), next)
    ensures Going(txs, spent, order', done + more).holds
  {
    MoreIsNew(spent, done, t, more);
    if t in done {
      assert done + more == done;
      order' := order;
    } else {
      FailsAfter(txs, spent, order, done, next);
      OrdersJoined(order, done, next, more);
      order' := order + next;
    }
  }

  // ----- inputs at which the two failures happen

  /** Transaction 2 spends output 5 of transaction 1, which has a single output. */
  ghost function OutOfRangeWorld(): World {
    World((t: TxId) =>
            if t == 2 then Tx(2, [SpendInput(Outpoint(1, 5), None)], []) else Tx(t, [Coinbase], [Output(None, 0)]),
          (t: TxId) => t)
  }

  /** Adding it to a wallet that holds only transaction 1 leaves an index entry for a transaction that is not stored. */
  lemma OutOfRangeFails()
    ensures var w := OutOfRangeWorld(); var txs: Txs := map[1 := w.tx(1)];
            && WorldOk(w) && TxsOk(w, txs) && SpentOk(txs, map[]) && OutOfRange(txs, w.tx(2))
            && !SpentOk(txs, SpentBy(map[], w.tx(2), 1))
  {
    var w := OutOfRangeWorld();
    var txs: Txs := map[1 := w.tx(1)];
    assert NoSuchOutput(txs, w.tx(2).inputs[0]);
    HalfEntered(txs, map[], w.tx(2), 0);
  }

  /** Transaction 2 spends the only output of transaction 1 twice. */
  ghost function RepeatingWorld(): World {
    World((t: TxId) => if t == 2 then Tx(2, [SpendInput(Outpoint(1, 0), None), SpendInput(Outpoint(1, 0), None)], [])
               else Tx(t, [Coinbase], [Output(None, 0)]), (t: TxId) => t)
  }

  /** The wallet that holds both cannot remove transaction 2, in whatever order. */
  lemma RepeatingFails()
    ensures var w := RepeatingWorld();
            var txs: Txs, spent: Spent := map[1 := w.tx(1), 2 := w.tx(2)], map[Outpoint(1, 0) := 2];
            && WorldOk(w) && TxsOk(w, txs) && SpentOk(txs, spent) && Raises(spent, w.tx(2).inputs)
            && SomeCanFail(txs, spent, {2})
  {
    var w := RepeatingWorld();
    var txs: Txs, spent: Spent := map[1 := w.tx(1), 2 := w.tx(2)], map[Outpoint(1, 0) := 2];
    var inputs := w.tx(2).inputs;
    assert inputs[0].prevout == Outpoint(1, 0);
    assert Popped(inputs, 1, Outpoint(1, 0)) && PopFails(spent, inputs, 1);
    assert Spends(txs[2], Outpoint(1, 0));
    assert {2} - {2} == {} && SpentWithout(spent, {}) == spent;
    assert CanFail(txs, spent, {2}, 2);
  }
}
