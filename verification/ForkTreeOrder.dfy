/**
 The dictionary of chains keeps its entries in the order in which they were made. Who looks a header up is given the
 first chain that has it.
 */
module ForkTreeOrder {
  import opened Options
  import opened Folding
  import opened Headers
  import opened Chainworks
  import opened ForkTrees
  import opened ForkTreeRuns
  import opened ForkTreeSteps

  /** The chains in the dictionary, oldest entry first. */
  type Order = seq<Blockchain>

  function Without(order: Order, gone: set<Blockchain>): (r: Order)
    ensures forall x :: x in r ==> x in order && x !in gone
    ensures forall x :: x in order && x !in gone ==> x in r
  {
    if order == [] then []
    else (if order[0] in gone then [] else [order[0]]) + Without(order[1..], gone)
  }

  /** A swap takes two entries out and makes new ones for them. */
  function SwapOrder(order: Order, c: Blockchain, p: Blockchain): Order {
    Without(order, {c, p}) + [c, p]
  }

  /** A new chain gets an entry, unless swaps have made it already. */
  function Register(order: Order, c: Blockchain): Order {
    if c in order then order else order + [c]
  }

  lemma BeatsItsParent(net: Net, s: Forest, c: Blockchain)
    requires Beats(net, s, c).holds
    ensures s.tree[c].parent.Some? && s.tree[c].parent.value in s.tree && s.tree[c].parent.value != c
  {
    assert Unfold(0);
    assert NodeOk(s.tree, c);
  }

  /** The entries after all swaps of `c`. */
  ghost function SwapAllOrder(net: Net, s: Forest, c: Blockchain, order: Order): Order
    requires Ok(net, s).holds && c in s.tree
    decreases s.tree[c].forkpoint
  {
    if Beats(net, s, c).holds then
      BeatsItsParent(net, s, c);
      SwapAllOrder(net, SwapOnce(net, s, c), c, SwapOrder(order, c, s.tree[c].parent.value))
    else order
  }

  ghost function SettlingOrder(net: Net, s: Forest, c: Blockchain, order: Order): Order {
    if Ok(net, s).holds && c in s.tree then SwapAllOrder(net, s, c, order) else order
  }

  ghost predicate Lists(order: Order, known: set<Blockchain>) {
    (forall x :: x in order ==> x in known) && (forall x :: x in known ==> x in order)
  }

  /** Swaps leave the chains in the dictionary, and enter the one that swaps. */
  lemma {:induction false} SwapAllLists(net: Net, s: Forest, c: Blockchain, order: Order, known: set<Blockchain>)
    requires Ok(net, s).holds && c in s.tree && Lists(order, known) && known <= s.tree.Keys &&
             s.tree.Keys - {c} <= known
    ensures Lists(SwapAllOrder(net, s, c, order), if Beats(net, s, c).holds then s.tree.Keys else known)
    decreases s.tree[c].forkpoint
  {
    if Beats(net, s, c).holds {
      BeatsItsParent(net, s, c);
      SwapAllLists(net, SwapOnce(net, s, c), c, SwapOrder(order, c, s.tree[c].parent.value), s.tree.Keys);
    }
  }

  /** The entries that a step makes of `order`. */
  ghost function StepOrder(net: Net, s: Forest, a: Action, order: Order): Order
    requires Ok(net, s).holds && Step(net, s, a).Some?
  {
    match a
    case SaveHeader(c, h) => SwapAllOrder(net, Saved(net, s, c, h), c, order)
    case ForkOff(p, c, height, h) => Register(SwapAllOrder(net, Forked(net, s, p, c, height, h), c, order), c)
  }

  ghost function StepOrderIs(net: Net, s: Forest, a: Action, order: Order, order': Order): Fact {
    Fact(forall n {:trigger Unfold(n)} :: Folded(n) ==>
      Ok(net, s).holds && Step(net, s, a).Some? && order' == StepOrder(net, s, a, order))
  }

  lemma SaveOrder(net: Net, s: Forest, c: Blockchain, h: Header, order: Order)
    requires Ok(net, s).holds && CanSave(net, s.tree, c, h).holds
    ensures StepOrderIs(net, s, SaveHeader(c, h), order, SettlingOrder(net, Saved(net, s, c, h), c, order)).holds
  {
    assert Step(net, s, SaveHeader(c, h)).Some?;
    assert StepOrder(net, s, SaveHeader(c, h), order) == SettlingOrder(net, Saved(net, s, c, h), c, order);
  }

  lemma ForkOrder(net: Net, s: Forest, p: Blockchain, c: Blockchain, height: nat, h: Header, order: Order)
    requires Ok(net, s).holds && CanFork(net, s.tree, p, c, height, h).holds && s.tree[p].forkpoint < height
    ensures StepOrderIs(net, s, ForkOff(p, c, height, h), order,
                        Register(SettlingOrder(net, Forked(net, s, p, c, height, h), c, order), c)).holds
  {
    var a := ForkOff(p, c, height, h);
    assert Step(net, s, a).Some?;
    assert StepOrder(net, s, a, order) == Register(SettlingOrder(net, Forked(net, s, p, c, height, h), c, order), c);
  }

  /** The entries after a run. */
  ghost function RunOrder(net: Net, s: Forest, actions: seq<Action>, order: Order): Order
    requires Ok(net, s).holds && Run(net, s, actions).Some?
    decreases |actions|
  {
    if actions == [] then order
    else RunOrder(net, Step(net, s, actions[0]).value, actions[1..], StepOrder(net, s, actions[0], order))
  }

  // ----- the loop of swaps

  /** Going on from `now` and `order` leads to where the loop leads that started in `s` with `first`. */
  ghost function OrderReached(net: Net, s: Forest, first: Order, now: Forest, order: Order, c: Blockchain): Fact {
    Fact(SettlingOrder(net, now, c, order) == SettlingOrder(net, s, c, first))
  }

  lemma OrderGoesOn(net: Net, s: Forest, first: Order, now: Forest, order: Order, c: Blockchain, p: Blockchain)
    requires OrderReached(net, s, first, now, order, c).holds && Beats(net, now, c).holds &&
             now.tree[c].parent == Some(p)
    ensures OrderReached(net, s, first, SwapOnce(net, now, c), SwapOrder(order, c, p), c).holds
  {
  }

  lemma OrderEnds(net: Net, s: Forest, first: Order, now: Forest, order: Order, c: Blockchain)
    requires OrderReached(net, s, first, now, order, c).holds && !Beats(net, now, c).holds
    ensures order == SettlingOrder(net, s, c, first)
  {
  }

  // ----- looking a header up

  /** The chain has the header at the height. */
  ghost predicate HasHeader(net: Net, t: Tree, c: Blockchain, height: int, h: Header) {
    PathOk(t, c) && HashAt(net, Content(t, c), height) == Some(HashOf(h))
  }

  ghost function FirstMatch(net: Net, t: Tree, order: Order, height: int, h: Header): Option<Blockchain> {
    if order == [] then None
    else if HasHeader(net, t, order[0], height, h) then Some(order[0])
    else FirstMatch(net, t, order[1..], height, h)
  }

  /** The first match has the header, and no chain before it in the dictionary has. */
  lemma {:induction false} FirstMatchIs(net: Net, t: Tree, order: Order, height: int, h: Header)
    ensures match FirstMatch(net, t, order, height, h)
            case None => forall x :: x in order ==> !HasHeader(net, t, x, height, h)
            case Some(c) => exists i :: 0 <= i < |order| && order[i] == c && HasHeader(net, t, c, height, h) &&
                              forall j :: 0 <= j < i ==> !HasHeader(net, t, order[j], height, h)
  {
    if order != [] && !HasHeader(net, t, order[0], height, h) {
      FirstMatchIs(net, t, order[1..], height, h);
      var m := FirstMatch(net, t, order[1..], height, h);
      if m.Some? {
        var i :| 0 <= i < |order[1..]| && order[1..][i] == m.value &&
                 forall j :: 0 <= j < i ==> !HasHeader(net, t, order[1..][j], height, h);
        assert order[i + 1] == m.value;
        assert forall j :: 0 < j < i + 1 ==> order[j] == order[1..][j - 1];
      } else {
        assert forall x :: x in order ==> x == order[0] || x in order[1..];
      }
    }
  }
}
