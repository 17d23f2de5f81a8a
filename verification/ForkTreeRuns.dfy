/** Runs over the tree of chains: saving headers, forking, and swapping until no chain beats its parent. */
module ForkTreeRuns {
  import opened Options
  import opened Folding
  import opened Headers
  import opened ForkTrees
  import opened ForkTreeSwap

  datatype Forest = Forest(tree: Tree, root: Blockchain)

  ghost function Ok(net: Net, s: Forest): Fact {
    Fact(forall n {:trigger Unfold(n)} :: Folded(n) ==> TreeOk(net, s.tree, s.root))
  }

  /** As between two operations: nobody has more work than its parent. */
  ghost function Settled(net: Net, s: Forest): Fact {
    Fact(Ok(net, s).holds && forall n {:trigger Unfold(n)} :: Folded(n) ==> Ranked(net, s.tree, None))
  }

  /** `c` has more work than its parent. */
  ghost function Beats(net: Net, s: Forest, c: Blockchain): Fact {
    Fact(Ok(net, s).holds && c in s.tree && forall n {:trigger Unfold(n)} :: Folded(n) ==> Stronger(net, s, c))
  }

  ghost predicate Stronger(net: Net, s: Forest, c: Blockchain)
    requires Ok(net, s).holds && c in s.tree
  {
    assert Unfold(0);
    && s.tree[c].parent.Some?
    && assert NodeOk(s.tree, c) && ChainOk(net, s.tree, c) && ChainOk(net, s.tree, s.tree[c].parent.value); true
    && Work(net, Content(s.tree, s.tree[c].parent.value)) < Work(net, Content(s.tree, c))
  }

  ghost function SwapOnce(net: Net, s: Forest, c: Blockchain): (s': Forest)
    requires Beats(net, s, c).holds
    ensures Ok(net, s').holds && s'.tree.Keys == s.tree.Keys && s'.tree[c].forkpoint < s.tree[c].forkpoint
  {
    assert Unfold(0);
    var p := s.tree[c].parent.value;
    assert NodeOk(s.tree, c) && ChainOk(net, s.tree, p);
    SwapKeepsShape(s.tree, c, p);
    SwapKeepsVerified(net, s.tree, c, p);
    SwapKeepsRoot(s.tree, c, p, s.root);
    SwapKeepsStored(net, s.tree, c, p);
    SwapNodes(s.tree, c, p, c);
    Forest(SwapAndReparent(s.tree, c, p), if s.root == p then c else s.root)
  }

  /** Swaps `c` upwards while it beats its parent. */
  ghost function SwapAll(net: Net, s: Forest, c: Blockchain): (s': Forest)
    requires Ok(net, s).holds && c in s.tree
    ensures Ok(net, s').holds && s'.tree.Keys == s.tree.Keys
    decreases s.tree[c].forkpoint
  {
    if Beats(net, s, c).holds then SwapAll(net, SwapOnce(net, s, c), c) else s
  }

  /** A chain that has no more work than its parent stays where it is: of two equal ones, the first one wins. */
  lemma FirstComeStays(net: Net, s: Forest, c: Blockchain, p: Blockchain)
    requires Ok(net, s).holds && c in s.tree && s.tree[c].parent == Some(p)
    requires ChainOk(net, s.tree, c) && ChainOk(net, s.tree, p)
    requires Work(net, Content(s.tree, c)) <= Work(net, Content(s.tree, p))
    ensures SwapAll(net, s, c) == s
  {
    assert Unfold(0);
  }

  /** The number of swaps. */
  ghost function Swaps(net: Net, s: Forest, c: Blockchain): nat
    requires Ok(net, s).holds && c in s.tree
    decreases s.tree[c].forkpoint
  {
    if Beats(net, s, c).holds then 1 + Swaps(net, SwapOnce(net, s, c), c) else 0
  }

  // ----- contents

  ghost predicate SameContents(t: Tree, t': Tree) {
    t'.Keys == t.Keys && forall x :: x in t ==> SameContent(t, t', x)
  }

  ghost predicate SameContent(t: Tree, t': Tree, x: Blockchain) {
    PathOk(t, x) && PathOk(t', x) && Content(t', x) == Content(t, x)
  }

  lemma SwapOnceSame(net: Net, s: Forest, c: Blockchain)
    requires Beats(net, s, c).holds
    ensures SameContents(s.tree, SwapOnce(net, s, c).tree)
  {
    assert Unfold(0);
    assert Unfold(0);
    var p := s.tree[c].parent.value;
    assert NodeOk(s.tree, c);
    forall x | x in s.tree
      ensures SameContent(s.tree, SwapOnce(net, s, c).tree, x)
    {
      SwapKeepsContent(s.tree, c, p, x);
    }
  }

  /** However many swaps, every chain in the tree keeps its headers. */
  lemma {:induction false} SwapAllSame(net: Net, s: Forest, c: Blockchain)
    requires Ok(net, s).holds && c in s.tree
    ensures SameContents(s.tree, SwapAll(net, s, c).tree)
    decreases s.tree[c].forkpoint
  {
    assert Unfold(0);
    if Beats(net, s, c).holds {
      var s1 := SwapOnce(net, s, c);
      SwapOnceSame(net, s, c);
      SwapAllSame(net, s1, c);
      SameTwice(s.tree, s1.tree, SwapAll(net, s1, c).tree);
    } else {
      forall x | x in s.tree
        ensures SameContent(s.tree, s.tree, x)
      {
        ShapedPath(s.tree, x);
      }
    }
  }

  lemma SameTwice(t: Tree, t': Tree, t'': Tree)
    requires SameContents(t, t') && SameContents(t', t'')
    ensures SameContents(t, t'')
  {
    forall x | x in t
      ensures SameContent(t, t'', x)
    {
      assert SameContent(t, t', x) && SameContent(t', t'', x);
    }
  }

  // ----- work

  /** Only the parent's other children need a second look after a swap, and they had at most the parent's work. */
  lemma SwapKeepsRanked(net: Net, s: Forest, c: Blockchain)
    requires Beats(net, s, c).holds && Ranked(net, s.tree, Some(c))
    ensures Ranked(net, SwapOnce(net, s, c).tree, Some(c))
  {
    assert Unfold(0);
    var t, t', p := s.tree, SwapOnce(net, s, c).tree, s.tree[c].parent.value;
    SwapOnceSame(net, s, c);
    forall d | d in t' && t'[d].parent.Some? && d != c
      ensures NoMoreThanParent(net, t', d)
    {
      RankedAfter(net, s, c, p, d);
    }
  }

  lemma RankedAfter(net: Net, s: Forest, c: Blockchain, p: Blockchain, d: Blockchain)
    requires Beats(net, s, c).holds && Ranked(net, s.tree, Some(c)) && s.tree[c].parent == Some(p)
    requires d in s.tree && d != c && SwapOnce(net, s, c).tree[d].parent.Some?
    requires SameContents(s.tree, SwapOnce(net, s, c).tree)
    ensures NoMoreThanParent(net, SwapOnce(net, s, c).tree, d)
  {
    hide Verified, PathOk, Content, Work;
    assert Unfold(0);
    var t, t' := s.tree, SwapOnce(net, s, c).tree;
    assert NodeOk(t, c) && NodeOk(t', d);
    SwapNodes(t, c, p, d);
    var q := t'[d].parent.value;
    assert ChainOk(net, t', d) && ChainOk(net, t', q);
    assert SameContent(t, t', d) && SameContent(t, t', q);
    if d != p {
      assert NoMoreThanParent(net, t, d);
    }
  }

  /** Once the swapping stops, nobody beats its parent. */
  lemma {:induction false} SwapAllSettles(net: Net, s: Forest, c: Blockchain)
    requires Ok(net, s).holds && c in s.tree && Ranked(net, s.tree, Some(c))
    ensures Settled(net, SwapAll(net, s, c)).holds
    decreases s.tree[c].forkpoint
  {
    assert Unfold(0);
    if Beats(net, s, c).holds {
      SwapKeepsRanked(net, s, c);
      SwapAllSettles(net, SwapOnce(net, s, c), c);
    } else {
      forall d | d in s.tree && s.tree[d].parent.Some?
        ensures NoMoreThanParent(net, s.tree, d)
      {
        if d == c {
          assert NodeOk(s.tree, c) && ChainOk(net, s.tree, c) && ChainOk(net, s.tree, s.tree[c].parent.value);
        }
      }
    }
  }

  /** The root has the most work of all chains. */
  lemma {:induction false} RootIsBest(net: Net, s: Forest, x: Blockchain)
    requires Settled(net, s).holds && x in s.tree
    ensures ChainOk(net, s.tree, x) && ChainOk(net, s.tree, s.root)
    ensures Work(net, Content(s.tree, x)) <= Work(net, Content(s.tree, s.root))
    decreases s.tree[x].forkpoint
  {
    assert Unfold(0);
    assert ChainOk(net, s.tree, x) && ChainOk(net, s.tree, s.root);
    if s.tree[x].parent.Some? {
      assert NodeOk(s.tree, x) && NoMoreThanParent(net, s.tree, x);
      RootIsBest(net, s, s.tree[x].parent.value);
    }
  }

  // ----- the number of swaps

  /** The chain and all its ancestors. */
  ghost function Line(t: Tree, c: Blockchain): (a: set<Blockchain>)
    requires PathOk(t, c)
    ensures a <= t.Keys && c in a
    ensures forall x :: x in a ==> t[x].forkpoint <= t[c].forkpoint
    decreases t[c].forkpoint
  {
    if t[c].parent.Some? then {c} + Line(t, t[c].parent.value) else {c}
  }

  lemma {:induction false} SameLine(t: Tree, t': Tree, c: Blockchain, bound: nat)
    requires PathOk(t, c) && t[c].forkpoint < bound
    requires forall x :: x in t && t[x].forkpoint < bound ==> x in t' && t'[x] == t[x]
    ensures PathOk(t', c) && Line(t', c) == Line(t, c)
    decreases t[c].forkpoint
  {
    if t[c].parent.Some? {
      SameLine(t, t', t[c].parent.value, bound);
    }
  }

  /** Every swap moves the chain up by one. */
  lemma SwapShortensLine(t: Tree, c: Blockchain, p: Blockchain)
    requires CanSwap(t, c, p)
    ensures PathOk(t, c) && PathOk(SwapAndReparent(t, c, p), c)
    ensures |Line(SwapAndReparent(t, c, p), c)| == |Line(t, c)| - 1
  {
    var t' := SwapAndReparent(t, c, p);
    SwapOfTwo(t, c, p);
    SwapNodes(t, c, p, c);
    assert c !in Line(t, p);
    assert Line(t, c) == {c} + Line(t, p);
    if t[p].parent.Some? {
      var gp := t[p].parent.value;
      forall x | x in t && t[x].forkpoint < t[p].forkpoint
        ensures x in t' && t'[x] == t[x]
      {
        assert NodeOk(t, x);
        SwapNodes(t, c, p, x);
      }
      SameLine(t, t', gp, t[p].forkpoint);
      assert Line(t, p) == {p} + Line(t, gp) && Line(t', c) == {c} + Line(t, gp);
      assert p !in Line(t, gp) && c !in Line(t, gp);
    }
  }

  lemma {:induction false} SwapsAtMostLine(net: Net, s: Forest, c: Blockchain)
    requires Ok(net, s).holds && c in s.tree
    ensures PathOk(s.tree, c) && Swaps(net, s, c) <= |Line(s.tree, c)| - 1
    decreases s.tree[c].forkpoint
  {
    assert Unfold(0);
    ShapedPath(s.tree, c);
    if Beats(net, s, c).holds {
      assert NodeOk(s.tree, c);
      SwapShortensLine(s.tree, c, s.tree[c].parent.value);
      SwapsAtMostLine(net, SwapOnce(net, s, c), c);
    } else {
      assert |{c}| <= |Line(s.tree, c)| by { CardinalityOfSubset({c}, Line(s.tree, c)); }
    }
  }

  lemma {:induction false} CardinalityOfSubset<T>(a: set<T>, b: set<T>)
    requires a <= b
    ensures |a| <= |b|
  {
    if a != {} {
      var x :| x in a;
      CardinalityOfSubset(a - {x}, b - {x});
    }
  }

  /** Fewer swaps than there are chains: the guard against swapping too many times never fires. */
  lemma SwapsFewerThanChains(net: Net, s: Forest, c: Blockchain)
    requires Ok(net, s).holds && c in s.tree
    ensures Swaps(net, s, c) < |s.tree.Keys|
  {
    SwapsAtMostLine(net, s, c);
    CardinalityOfSubset(Line(s.tree, c), s.tree.Keys);
  }

  // ----- the loop of swaps

  /** What the loop of swaps makes of a state. */
  ghost function Settling(net: Net, s: Forest, c: Blockchain): Forest {
    if Ok(net, s).holds && c in s.tree then SwapAll(net, s, c) else s
  }

  /** After `swaps` swaps the loop that started in `s` has reached `now`, with `left` more to come. */
  ghost function Reached(net: Net, s: Forest, now: Forest, c: Blockchain, swaps: nat, left: nat): Fact {
    Fact(forall n {:trigger Unfold(n)} :: Folded(n) ==>
      && Ok(net, s).holds && Ok(net, now).holds && c in s.tree && c in now.tree && now.tree.Keys == s.tree.Keys
      && SwapAll(net, now, c) == SwapAll(net, s, c) && swaps + left == Swaps(net, s, c) && left == Swaps(net, now, c)
      && (swaps == 0 ==> now == s) && (swaps > 0 ==> Beats(net, s, c).holds))
  }

  lemma ReachedStart(net: Net, s: Forest, c: Blockchain) returns (left: nat)
    requires Ok(net, s).holds && c in s.tree
    ensures Reached(net, s, s, c, 0, left).holds
  {
    left := Swaps(net, s, c);
  }

  lemma ReachedNext(net: Net, s: Forest, now: Forest, c: Blockchain, swaps: nat, left: nat)
    requires Reached(net, s, now, c, swaps, left).holds && Beats(net, now, c).holds
    ensures left > 0 && Reached(net, s, SwapOnce(net, now, c), c, swaps + 1, left - 1).holds
  {
    var next := SwapOnce(net, now, c);
    assert SwapAll(net, now, c) == SwapAll(net, next, c) && Swaps(net, now, c) == 1 + Swaps(net, next, c) by {
      assert Unfold(0);
    }
    ReachedFrom(net, s, now, next, c, swaps, left);
  }

  lemma ReachedFrom(net: Net, s: Forest, now: Forest, next: Forest, c: Blockchain, swaps: nat, left: nat)
    requires Reached(net, s, now, c, swaps, left).holds && Beats(net, now, c).holds
    requires Ok(net, next).holds && next.tree.Keys == now.tree.Keys
    requires SwapAll(net, now, c) == SwapAll(net, next, c) && Swaps(net, now, c) == 1 + Swaps(net, next, c)
    ensures left > 0 && Reached(net, s, next, c, swaps + 1, left - 1).holds
  {
    hide Ok;
    assert Unfold(0);
  }

  lemma ReachedFew(net: Net, s: Forest, now: Forest, c: Blockchain, swaps: nat, left: nat)
    requires Reached(net, s, now, c, swaps, left).holds
    ensures Beats(net, now, c).holds ==> swaps < |now.tree.Keys|
  {
    assert Unfold(0);
    SwapsFewerThanChains(net, s, c);
  }

  lemma ReachedEnd(net: Net, s: Forest, now: Forest, c: Blockchain, swaps: nat, left: nat)
    requires Reached(net, s, now, c, swaps, left).holds && !Beats(net, now, c).holds
    ensures now == Settling(net, s, c) && (swaps > 0 <==> Beats(net, s, c).holds)
  {
    assert Unfold(0);
  }
}
