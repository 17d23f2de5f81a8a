/**
 Forking off below the start of the chain one forks from. A chain also has the headers it shares with its parent, so
 whoever looks one of these up may be given the child instead of the chain that stores it, and forks off the child.
 */
module ForkTreeBelow {
  import opened Options
  import opened Folding
  import opened Headers
  import opened ForkTrees
  import opened ForkTreeRuns
  import opened ForkTreeSteps
  import opened ForkTreeOrder
  import opened Chainworks

  /** A child answers for every block it shares with its parent. */
  lemma ChildKnowsShared(net: Net, t: Tree, c: Blockchain, p: Blockchain, height: nat)
    requires PathOk(t, c) && t[c].parent == Some(p) && height < t[c].forkpoint
    ensures PathOk(t, p) && HashAt(net, Content(t, c), height) == HashAt(net, Content(t, p), height)
  {
    SharedPart(t, c, p, t[c].forkpoint);
    assert Content(t, c)[..t[c].forkpoint][height] == Content(t, p)[..t[c].forkpoint][height];
  }

  /** A child whose entry is the oldest is the one found for every header that it shares with its parent. */
  lemma OldestChildIsFound(net: Net, t: Tree, order: Order, c: Blockchain, p: Blockchain, height: nat, h: Header)
    requires order != [] && order[0] == c && PathOk(t, c) && t[c].parent == Some(p)
    requires height < t[c].forkpoint && HasHeader(net, t, p, height, h)
    ensures FirstMatch(net, t, order, height, h) == Some(c)
  {
    ChildKnowsShared(net, t, c, p, height);
  }

  // ----- what goes wrong

  datatype Outcome = Stays | Swaps | AssertionError

  /**
   What a chain with the headers `mine` does at its parent, which has `theirs`, wherever the two start. The
   specification of the swap speaks of trees in shape only; there, it says the same (`AsSpecified`).
   */
  ghost function SwapOutcome(net: Net, mine: seq<Header>, forkpoint: nat, theirs: seq<Header>,
                             parentForkpoint: nat): Outcome
    requires Verified(net, mine) && Verified(net, theirs)
  {
    if Work(net, theirs) >= Work(net, mine) then Stays
    else if forkpoint <= parentForkpoint then AssertionError
    else Swaps
  }

  /** In a tree in shape, the assertion holds, and the chain swaps if and only if it beats its parent. */
  lemma AsSpecified(net: Net, s: Forest, c: Blockchain, p: Blockchain)
    requires Ok(net, s).holds && c in s.tree && s.tree[c].parent == Some(p)
    ensures ChainOk(net, s.tree, c) && ChainOk(net, s.tree, p)
    ensures SwapOutcome(net, Content(s.tree, c), s.tree[c].forkpoint, Content(s.tree, p), s.tree[p].forkpoint) ==
            if Beats(net, s, c).holds then Swaps else Stays
  {
    hide Verified, Content, Work;
    assert Unfold(0);
    assert NodeOk(s.tree, c) && ChainOk(net, s.tree, c) && ChainOk(net, s.tree, p);
  }

  /**
   After a fork, the assertion fails if and only if the tree lost its shape and the new chain overtakes its parent.
   */
  lemma AssertionFailsIff(net: Net, t: Tree, p: Blockchain, c: Blockchain, height: nat, h: Header, more: seq<Header>)
    requires CanFork(net, t, p, c, height, h).holds && ChainOk(net, t, p)
    requires Verified(net, Content(t, p)[..height] + [h] + more)
    ensures var mine, theirs := Content(t, p)[..height] + [h] + more, Content(t, p);
            SwapOutcome(net, mine, height, theirs, t[p].forkpoint) == AssertionError <==>
            !Shaped(Fork(t, c, p, height, h)) && Work(net, theirs) < Work(net, mine)
  {
    ForkKeepsShapeIff(net, t, p, c, height, h);
  }

  // ----- a run that leads there

  function Genesis(): Header {
    Header(Zero, 0, 0, 0, 0)
  }

  function TestNet(): Net {
    Net(Genesis(), true, 0, (first, last) => Some(0), t => 0, t => 1)
  }

  function Next(h: Header, nonce: nat): Header {
    Header(HashOf(h), 0, 0, 0, nonce)
  }

  /** The second header of all chains but the last, and the third header of the first three chains. */
  function Second(): Header {
    Next(Genesis(), 0)
  }

  function Third(nonce: nat): Header {
    Next(Second(), nonce)
  }

  function MainFile(): seq<Header> {
    [Genesis(), Second(), Third(0)]
  }

  /** Two forks at height 2; the second one grows past the main chain. */
  function Actions(a: Blockchain, d: Blockchain, b: Blockchain): seq<Action> {
    [ForkOff(a, d, 2, Third(1)), ForkOff(a, b, 2, Third(2)), SaveHeader(b, Next(Third(2), 0))]
  }

  ghost function OneFork(a: Blockchain, d: Blockchain): Tree {
    map[a := Node(0, None, MainFile()), d := Node(2, Some(a), [Third(1)])]
  }

  ghost function TwoForks(a: Blockchain, d: Blockchain, b: Blockchain): Tree {
    OneFork(a, d)[b := Node(2, Some(a), [Third(2)])]
  }

  ghost function LongFork(a: Blockchain, d: Blockchain, b: Blockchain): Tree {
    TwoForks(a, d, b)[b := Node(2, Some(a), [Third(2), Next(Third(2), 0)])]
  }

  /** `b` took the main file over, and `d` now hangs off `b`. */
  ghost function AfterSwap(a: Blockchain, d: Blockchain, b: Blockchain): Tree {
    map[b := Node(0, None, [Genesis(), Second(), Third(2), Next(Third(2), 0)]),
        a := Node(2, Some(b), [Third(0)]),
        d := Node(2, Some(b), [Third(1)])]
  }

  lemma {:induction false} FollowingOk(hs: seq<Header>)
    requires hs != [] && hs[0] == Genesis() && forall i :: 0 < i < |hs| ==> hs[i].prev == HashOf(hs[i - 1])
    ensures Verified(TestNet(), hs)
  {
    forall i | 0 < i < |hs|
      ensures Checked(TestNet(), hs, i)
    {
    }
  }

  lemma StartsWell(a: Blockchain)
    ensures Settled(TestNet(), Start(a, MainFile())).holds
    ensures PathOk(Start(a, MainFile()).tree, a) && Content(Start(a, MainFile()).tree, a) == MainFile()
  {
    FollowingOk(MainFile());
    StartSettled(TestNet(), a, MainFile());
    assert NodeOk(Start(a, MainFile()).tree, a);
  }

  /** A fork of one header at height 2 is possible, and swaps nothing. */
  lemma ForksAtTwo(s: Forest, a: Blockchain, x: Blockchain, h: Header, order: Order)
    requires Settled(TestNet(), s).holds && a in s.tree && s.tree[a] == Node(0, None, MainFile()) && x !in s.tree
    requires h.prev == HashOf(Second()) && IsUnknown(s.tree, h)
    ensures Step(TestNet(), s, ForkOff(a, x, 2, h)) == Some(Forest(s.tree[x := Node(2, Some(a), [h])], s.root))
    ensures StepOrder(TestNet(), s, ForkOff(a, x, 2, h), order) == Register(order, x)
  {
    assert Unfold(0);
    ShapedPath(s.tree, a);
    assert Content(s.tree, a) == MainFile() && Follows(TestNet(), MainFile(), 2, h);
    assert CanFork(TestNet(), s.tree, a, x, 2, h).holds;
    var s1 := Forked(TestNet(), s, a, x, 2, h);
    StaysBelow(s1, a, x, h);
  }

  lemma StaysBelow(s: Forest, a: Blockchain, x: Blockchain, h: Header)
    requires Ok(TestNet(), s).holds && a in s.tree && x in s.tree && s.tree[x] == Node(2, Some(a), [h])
    requires s.tree[a] == Node(0, None, MainFile())
    ensures !Beats(TestNet(), s, x).holds
  {
    assert Unfold(0);
    ShapedPath(s.tree, x);
    ShapedPath(s.tree, a);
    assert |Content(s.tree, x)| == |Content(s.tree, a)|;
  }

  /** One more header on `b`, and it takes the place of `a`. */
  lemma Overtakes(a: Blockchain, d: Blockchain, b: Blockchain, order: Order)
    requires a != b && a != d && b != d && Settled(TestNet(), Forest(TwoForks(a, d, b), a)).holds
    ensures var s := Forest(TwoForks(a, d, b), a);
            && Step(TestNet(), s, SaveHeader(b, Next(Third(2), 0))) == Some(Forest(AfterSwap(a, d, b), b))
            && StepOrder(TestNet(), s, SaveHeader(b, Next(Third(2), 0)), order) == SwapOrder(order, b, a)
  {
    var s, h := Forest(TwoForks(a, d, b), a), Next(Third(2), 0);
    CanSaveMore(a, d, b);
    assert [Third(2)] + [h] == [Third(2), h];
    assert Saved(TestNet(), s, b, h) == Forest(LongFork(a, d, b), a);
    SwapsWithMain(a, d, b);
  }

  lemma SwapsWithMain(a: Blockchain, d: Blockchain, b: Blockchain)
    requires a != b && a != d && b != d && Ok(TestNet(), Forest(LongFork(a, d, b), a)).holds
    ensures SwapAll(TestNet(), Forest(LongFork(a, d, b), a), b) == Forest(AfterSwap(a, d, b), b)
    ensures forall order :: SwapAllOrder(TestNet(), Forest(LongFork(a, d, b), a), b, order) == SwapOrder(order, b, a)
  {
    BeatsMain(a, d, b);
    SwappedIs(a, d, b);
    assert SwapOnce(TestNet(), Forest(LongFork(a, d, b), a), b) == Forest(AfterSwap(a, d, b), b);
    TopStays(a, d, b);
  }

  lemma SwappedIs(a: Blockchain, d: Blockchain, b: Blockchain)
    requires a != b && a != d && b != d
    ensures SwapAndReparent(LongFork(a, d, b), b, a) == AfterSwap(a, d, b)
  {
    var t := LongFork(a, d, b);
    assert MainFile()[..2] + [Third(2), Next(Third(2), 0)] == [Genesis(), Second(), Third(2), Next(Third(2), 0)];
    assert MainFile()[2..] == [Third(0)];
    assert Swap(t, b, a)[d] == Node(2, Some(a), [Third(1)]);
    assert SwapAndReparent(t, b, a).Keys == AfterSwap(a, d, b).Keys;
  }

  lemma CanSaveMore(a: Blockchain, d: Blockchain, b: Blockchain)
    requires a != b && a != d && b != d && Settled(TestNet(), Forest(TwoForks(a, d, b), a)).holds
    ensures CanSave(TestNet(), TwoForks(a, d, b), b, Next(Third(2), 0)).holds
  {
    hide Settled;
    assert Unfold(0);
    var t := TwoForks(a, d, b);
    ShapedPath(t, b);
    assert Content(t, a) == MainFile() && Content(t, b)[2] == Third(2);
    assert Follows(TestNet(), Content(t, b), 3, Next(Third(2), 0));
  }

  lemma BeatsMain(a: Blockchain, d: Blockchain, b: Blockchain)
    requires a != b && a != d && b != d && Ok(TestNet(), Forest(LongFork(a, d, b), a)).holds
    ensures Beats(TestNet(), Forest(LongFork(a, d, b), a), b).holds
  {
    assert Unfold(0);
    var s := Forest(LongFork(a, d, b), a);
    assert ChainOk(TestNet(), s.tree, a) && ChainOk(TestNet(), s.tree, b);
  }

  lemma TopStays(a: Blockchain, d: Blockchain, b: Blockchain)
    requires a != b && a != d && b != d && Ok(TestNet(), Forest(AfterSwap(a, d, b), b)).holds
    ensures !Beats(TestNet(), Forest(AfterSwap(a, d, b), b), b).holds
  {
    if Beats(TestNet(), Forest(AfterSwap(a, d, b), b), b).holds {
      BeatsItsParent(TestNet(), Forest(AfterSwap(a, d, b), b), b);
    }
  }

  lemma ForksTwice(a: Blockchain, d: Blockchain, b: Blockchain)
    requires a != b && a != d && b != d
    ensures var net, s, s1, s2 := TestNet(), Start(a, MainFile()), Forest(OneFork(a, d), a),
            Forest(TwoForks(a, d, b), a);
            && Settled(net, s).holds && Settled(net, s1).holds && Settled(net, s2).holds
            && Step(net, s, Actions(a, d, b)[0]) == Some(s1) && Step(net, s1, Actions(a, d, b)[1]) == Some(s2)
            && StepOrder(net, s, Actions(a, d, b)[0], [a]) == [a, d]
            && StepOrder(net, s1, Actions(a, d, b)[1], [a, d]) == [a, d, b]
  {
    var net, s, s1 := TestNet(), Start(a, MainFile()), Forest(OneFork(a, d), a);
    StartsWell(a);
    ForksAtTwo(s, a, d, Third(1), [a]);
    assert s.tree[d := Node(2, Some(a), [Third(1)])] == OneFork(a, d);
    StepSettles(net, s, Actions(a, d, b)[0]);
    ForksAtTwo(s1, a, b, Third(2), [a, d]);
    StepSettles(net, s1, Actions(a, d, b)[1]);
  }

  lemma EntriesAfterSwap(a: Blockchain, d: Blockchain, b: Blockchain)
    requires a != b && a != d && b != d
    ensures SwapOrder([a, d, b], b, a) == [d, b, a]
  {
    assert [a, d, b][1..] == [d, b] && [d, b][1..] == [b] && [b][1..] == [];
    assert Without([b], {b, a}) == [];
    assert Without([d, b], {b, a}) == [d];
  }

  /** After the run the entry of `d` is the oldest: those of `a` and `b` were made anew. */
  lemma RunLeadsTo(a: Blockchain, d: Blockchain, b: Blockchain)
    requires a != b && a != d && b != d
    ensures var s := Start(a, MainFile());
            && Settled(TestNet(), s).holds
            && Run(TestNet(), s, Actions(a, d, b)) == Some(Forest(AfterSwap(a, d, b), b))
            && RunOrder(TestNet(), s, Actions(a, d, b), [a]) == [d, b, a]
  {
    ForksTwice(a, d, b);
    Overtakes(a, d, b, [a, d, b]);
    EntriesAfterSwap(a, d, b);
    RunThree(TestNet(), Start(a, MainFile()), Forest(OneFork(a, d), a), Forest(TwoForks(a, d, b), a),
             Forest(AfterSwap(a, d, b), b), Actions(a, d, b), [a], [a, d], [a, d, b], [d, b, a]);
  }

  lemma RunThree(net: Net, s: Forest, s1: Forest, s2: Forest, s3: Forest, actions: seq<Action>,
                 o: Order, o1: Order, o2: Order, o3: Order)
    requires |actions| == 3 && Ok(net, s).holds
    requires Step(net, s, actions[0]) == Some(s1) && StepOrder(net, s, actions[0], o) == o1
    requires Step(net, s1, actions[1]) == Some(s2) && StepOrder(net, s1, actions[1], o1) == o2
    requires Step(net, s2, actions[2]) == Some(s3) && StepOrder(net, s2, actions[2], o2) == o3
    ensures Run(net, s, actions) == Some(s3) && RunOrder(net, s, actions, o) == o3
  {
    assert actions[1..][0] == actions[1] && actions[1..][1..] == actions[2..] && actions[2..][0] == actions[2];
    assert actions[2..][1..] == [];
    assert Run(net, s3, []) == Some(s3) && Run(net, s2, actions[2..]) == Some(s3);
    assert RunOrder(net, s2, actions[2..], o2) == o3;
    assert Run(net, s1, actions[1..]) == Some(s3) && RunOrder(net, s1, actions[1..], o1) == o3;
  }

  /** A rival of the second header, and two headers on top of it. */
  function Rival(): Header {
    Next(Genesis(), 1)
  }

  function More(): seq<Header> {
    [Next(Rival(), 0), Next(Next(Rival(), 0), 0), Next(Next(Next(Rival(), 0), 0), 0)]
  }

  /**
   A run after which a server's rival of the second header makes callers fork below the start of a chain: `d` is found
   for the header before it, although another chain stores that one. All that callers check holds, but the new chain
   starts below its parent's start, and once it has more work the assertion in `_swap_with_parent` fails.
   */
  lemma ForkBelowStart(a: Blockchain, d: Blockchain, b: Blockchain, e: Blockchain)
    requires a != b && a != d && b != d && e != a && e != b && e != d
    ensures var net, s := TestNet(), Start(a, MainFile());
            && Ok(net, s).holds && Run(net, s, Actions(a, d, b)).Some?
            && var t, order := Run(net, s, Actions(a, d, b)).value.tree, RunOrder(net, s, Actions(a, d, b), [a]);
               && FirstMatch(net, t, order, 0, Genesis()) == Some(d) && d in t && Genesis() !in t[d].file
               && CanFork(net, t, d, e, 1, Rival()).holds && !Shaped(Fork(t, e, d, 1, Rival()))
               && ChainOk(net, t, d) && Verified(net, Content(t, d)[..1] + [Rival()] + More())
               && SwapOutcome(net, Content(t, d)[..1] + [Rival()] + More(), 1, Content(t, d), t[d].forkpoint) ==
                  AssertionError
  {
    RunLeadsTo(a, d, b);
    RunSettles(TestNet(), Start(a, MainFile()), Actions(a, d, b));
    SharesGenesis(a, d, b);
    OldestChildIsFound(TestNet(), AfterSwap(a, d, b), [d, b, a], d, b, 0, Genesis());
    CanForkBelow(a, d, b, e);
    FailsAtLast(a, d, b, e);
  }

  lemma FailsAtLast(a: Blockchain, d: Blockchain, b: Blockchain, e: Blockchain)
    requires a != b && a != d && b != d && e != a && e != b && e != d
    requires Ok(TestNet(), Forest(AfterSwap(a, d, b), b)).holds
    ensures var net, t := TestNet(), AfterSwap(a, d, b);
            && ChainOk(net, t, d) && Verified(net, Content(t, d)[..1] + [Rival()] + More())
            && SwapOutcome(net, Content(t, d)[..1] + [Rival()] + More(), 1, Content(t, d), t[d].forkpoint) ==
               AssertionError
            && !Shaped(Fork(t, e, d, 1, Rival()))
  {
    var t := AfterSwap(a, d, b);
    SharesGenesis(a, d, b);
    CanForkBelow(a, d, b, e);
    assert Content(t, d)[..1] + [Rival()] + More() == [Genesis(), Rival()] + More();
    FollowingOk([Genesis(), Rival()] + More());
    ForkKeepsShapeIff(TestNet(), t, d, e, 1, Rival());
    AssertionFailsIff(TestNet(), t, d, e, 1, Rival(), More());
  }

  lemma SharesGenesis(a: Blockchain, d: Blockchain, b: Blockchain)
    requires a != b && a != d && b != d && Ok(TestNet(), Forest(AfterSwap(a, d, b), b)).holds
    ensures var t := AfterSwap(a, d, b);
            && ChainOk(TestNet(), t, d) && ChainOk(TestNet(), t, b) && HasHeader(TestNet(), t, b, 0, Genesis())
            && Content(t, d) == [Genesis(), Second(), Third(1)]
  {
    assert Unfold(0);
    var t := AfterSwap(a, d, b);
    assert ChainOk(TestNet(), t, d) && ChainOk(TestNet(), t, b);
    assert Content(t, b) == t[b].file;
  }

  lemma CanForkBelow(a: Blockchain, d: Blockchain, b: Blockchain, e: Blockchain)
    requires a != b && a != d && b != d && e != a && e != b && e != d
    requires Ok(TestNet(), Forest(AfterSwap(a, d, b), b)).holds
    ensures CanFork(TestNet(), AfterSwap(a, d, b), d, e, 1, Rival()).holds
  {
    assert Unfold(0);
    var t := AfterSwap(a, d, b);
    SharesGenesis(a, d, b);
    assert Follows(TestNet(), Content(t, d), 1, Rival());
  }
}
