/** Adding headers: saving one at a chain's tip or forking off, and what every run of these keeps. */
module ForkTreeSteps {
  import opened Options
  import opened Folding
  import opened Headers
  import opened ForkTrees
  import opened ForkTreeRuns

  /** No chain has the header. */
  ghost predicate IsUnknown(t: Tree, h: Header) {
    forall x :: x in t ==> h !in t[x].file
  }

  /** The header connects to the chain's tip. */
  ghost function CanSave(net: Net, t: Tree, c: Blockchain, h: Header): Fact {
    Fact(Shaped(t) && c in t && PathOk(t, c) && IsUnknown(t, h) && Follows(net, Content(t, c), t[c].Count(), h))
  }

  /** The header connects to the chain below its tip; callers see to that and to the header's being unknown. */
  ghost function CanFork(net: Net, t: Tree, p: Blockchain, c: Blockchain, height: nat, h: Header): Fact {
    Fact(
    && Shaped(t) && p in t && PathOk(t, p) && c !in t && IsUnknown(t, h)
    && 0 < height < t[p].Count() && Follows(net, Content(t, p), height, h))
  }

  /** All of this but for the new chain. */
  ghost function MayFork(net: Net, t: Tree, p: Blockchain, height: nat, h: Header): Fact {
    Fact(forall n {:trigger Unfold(n)} :: Folded(n) ==>
      && p in t && PathOk(t, p) && IsUnknown(t, h) && t[p].forkpoint < height < t[p].Count() &&
         Follows(net, Content(t, p), height, h))
  }

  // ----- one more header at the tip

  lemma {:induction false} GrowPath(t: Tree, c: Blockchain, h: Header, x: Blockchain)
    requires Shaped(t) && c in t && x in t
    ensures var t' := Grow(t, c, h);
            && NodeOk(t', x) && PathOk(t, x) && PathOk(t', x)
            && Content(t', x) == if x == c then Content(t, c) + [h] else Content(t, x)
    decreases t[x].forkpoint
  {
    var t' := Grow(t, c, h);
    assert NodeOk(t, x) && NodeOk(t', x);
    if t[x].parent.Some? {
      var q := t[x].parent.value;
      GrowPath(t, c, h, q);
      assert Base(t', x) == Base(t, x);
    }
  }

  lemma GrowStored(t: Tree, c: Blockchain, h: Header)
    requires StoredOnce(t) && c in t && IsUnknown(t, h)
    ensures StoredOnce(Grow(t, c, h))
  {
    var t' := Grow(t, c, h);
    forall x, y | x in t' && y in t' && x != y
      ensures Apart(t'[x].file, t'[y].file)
    {
      assert Apart(t[x].file, t[y].file) && h !in t[x].file && h !in t[y].file;
    }
  }

  lemma GrowVerified(net: Net, t: Tree, c: Blockchain, h: Header)
    requires CanSave(net, t, c, h).holds && AllVerified(net, t)
    ensures Shaped(Grow(t, c, h)) && AllVerified(net, Grow(t, c, h))
  {
    var t' := Grow(t, c, h);
    forall x | x in t'
      ensures NodeOk(t', x) && ChainOk(net, t', x)
    {
      GrowPath(t, c, h, x);
      assert ChainOk(net, t, x);
      if x == c {
        var hs := Content(t, c);
        VerifiedExtends(net, hs, |hs|, h);
        assert hs[..|hs|] == hs;
      }
    }
  }

  ghost function Saved(net: Net, s: Forest, c: Blockchain, h: Header): (s': Forest)
    requires Ok(net, s).holds && CanSave(net, s.tree, c, h).holds
    ensures Ok(net, s').holds && s'.tree.Keys == s.tree.Keys
  {
    assert Unfold(0);
    GrowVerified(net, s.tree, c, h);
    GrowStored(s.tree, c, h);
    Forest(Grow(s.tree, c, h), s.root)
  }

  lemma SavedRankedAt(net: Net, s: Forest, c: Blockchain, h: Header, d: Blockchain)
    requires Ok(net, s).holds && CanSave(net, s.tree, c, h).holds
    requires d in s.tree && d != c && NoMoreThanParent(net, s.tree, d)
    ensures NoMoreThanParent(net, Saved(net, s, c, h).tree, d)
  {
    assert Unfold(0);
    var t, t', q := s.tree, Saved(net, s, c, h).tree, s.tree[d].parent.value;
    assert NodeOk(t, d);
    GrowPath(t, c, h, d);
    GrowPath(t, c, h, q);
    assert ChainOk(net, t', d) && ChainOk(net, t', q);
    if q == c {
      var hs := Content(t, c);
      assert (hs + [h])[..|hs|] == hs;
      WorkGrows(net, hs + [h], |hs|);
    }
  }

  /** The chain that grows is the only one that may now beat its parent. */
  lemma SavedRanked(net: Net, s: Forest, c: Blockchain, h: Header)
    requires Settled(net, s).holds && CanSave(net, s.tree, c, h).holds
    ensures Ranked(net, Saved(net, s, c, h).tree, Some(c))
  {
    assert Unfold(0);
    var t' := Saved(net, s, c, h).tree;
    forall d | d in t' && t'[d].parent.Some? && d != c
      ensures NoMoreThanParent(net, t', d)
    {
      assert NoMoreThanParent(net, s.tree, d);
      SavedRankedAt(net, s, c, h, d);
    }
  }

  // ----- a new chain

  lemma {:induction false} ForkPath(t: Tree, p: Blockchain, c: Blockchain, height: nat, h: Header, x: Blockchain)
    requires Shaped(t) && c !in t && x in t
    ensures var t' := Fork(t, c, p, height, h);
            NodeOk(t', x) && PathOk(t, x) && PathOk(t', x) && Content(t', x) == Content(t, x)
    decreases t[x].forkpoint
  {
    assert NodeOk(t, x) && NodeOk(Fork(t, c, p, height, h), x);
    if t[x].parent.Some? {
      ForkPath(t, p, c, height, h, t[x].parent.value);
    }
  }

  /**
   Given what callers see to, the tree keeps its shape if and only if the fork is above the start of the chain it forks
   from.
   */
  lemma ForkKeepsShapeIff(net: Net, t: Tree, p: Blockchain, c: Blockchain, height: nat, h: Header)
    requires CanFork(net, t, p, c, height, h).holds
    ensures Shaped(Fork(t, c, p, height, h)) <==> t[p].forkpoint < height
  {
    var t' := Fork(t, c, p, height, h);
    if t[p].forkpoint < height {
      forall x | x in t'
        ensures NodeOk(t', x)
      {
        if x != c {
          ForkPath(t, p, c, height, h, x);
        }
      }
    } else {
      assert !NodeOk(t', c);
    }
  }

  lemma ForkContent(t: Tree, p: Blockchain, c: Blockchain, height: nat, h: Header)
    requires Shaped(t) && c !in t && p in t && t[p].forkpoint < height < t[p].Count()
    ensures var t' := Fork(t, c, p, height, h);
            NodeOk(t', c) && PathOk(t, p) && PathOk(t', c) && Content(t', c) == Content(t, p)[..height] + [h]
  {
    ForkPath(t, p, c, height, h, p);
    var t' := Fork(t, c, p, height, h);
    assert NodeOk(t', c) && PathOk(t', c);
  }

  lemma ForkVerified(net: Net, t: Tree, p: Blockchain, c: Blockchain, height: nat, h: Header)
    requires CanFork(net, t, p, c, height, h).holds && AllVerified(net, t) && t[p].forkpoint < height
    ensures Shaped(Fork(t, c, p, height, h)) && AllVerified(net, Fork(t, c, p, height, h))
  {
    var t' := Fork(t, c, p, height, h);
    forall x | x in t'
      ensures NodeOk(t', x) && ChainOk(net, t', x)
    {
      if x == c {
        ForkContent(t, p, c, height, h);
        assert ChainOk(net, t, p);
        VerifiedExtends(net, Content(t, p), height, h);
      } else {
        ForkPath(t, p, c, height, h, x);
        assert ChainOk(net, t, x);
      }
    }
  }

  lemma ForkStored(t: Tree, p: Blockchain, c: Blockchain, height: nat, h: Header)
    requires StoredOnce(t) && c !in t && IsUnknown(t, h)
    ensures StoredOnce(Fork(t, c, p, height, h))
  {
    var t' := Fork(t, c, p, height, h);
    forall x, y | x in t' && y in t' && x != y
      ensures Apart(t'[x].file, t'[y].file)
    {
      if x != c {
        assert h !in t[x].file;
      }
      if y != c {
        assert h !in t[y].file;
      }
      if x != c && y != c {
        assert Apart(t[x].file, t[y].file);
      }
    }
  }

  ghost function Forked(net: Net, s: Forest, p: Blockchain, c: Blockchain, height: nat, h: Header): (s': Forest)
    requires Ok(net, s).holds && CanFork(net, s.tree, p, c, height, h).holds && s.tree[p].forkpoint < height
    ensures Ok(net, s').holds && s'.tree.Keys == s.tree.Keys + {c}
  {
    assert Unfold(0);
    ForkVerified(net, s.tree, p, c, height, h);
    ForkStored(s.tree, p, c, height, h);
    Forest(Fork(s.tree, c, p, height, h), s.root)
  }

  lemma ForkedRanked(net: Net, s: Forest, p: Blockchain, c: Blockchain, height: nat, h: Header)
    requires Settled(net, s).holds && CanFork(net, s.tree, p, c, height, h).holds && s.tree[p].forkpoint < height
    ensures Ranked(net, Forked(net, s, p, c, height, h).tree, Some(c))
  {
    assert Unfold(0);
    var t, t' := s.tree, Forked(net, s, p, c, height, h).tree;
    forall d | d in t' && t'[d].parent.Some? && d != c
      ensures NoMoreThanParent(net, t', d)
    {
      assert NodeOk(t, d) && NoMoreThanParent(net, t, d);
      ForkPath(t, p, c, height, h, d);
      ForkPath(t, p, c, height, h, t[d].parent.value);
      assert ChainOk(net, t', d) && ChainOk(net, t', t[d].parent.value);
    }
  }

  // ----- runs

  datatype Action =
    | SaveHeader(c: Blockchain, h: Header)
    | ForkOff(p: Blockchain, c: Blockchain, height: nat, h: Header)

  /** None: the action is not one that callers take. */
  ghost function Step(net: Net, s: Forest, a: Action): (s': Option<Forest>)
    requires Ok(net, s).holds
    ensures s'.Some? ==> Ok(net, s'.value).holds && s.tree.Keys <= s'.value.tree.Keys
  {
    match a
    case SaveHeader(c, h) =>
      if CanSave(net, s.tree, c, h).holds then Some(SwapAll(net, Saved(net, s, c, h), c)) else None
    case ForkOff(p, c, height, h) =>
      if CanFork(net, s.tree, p, c, height, h).holds && s.tree[p].forkpoint < height
      then Some(SwapAll(net, Forked(net, s, p, c, height, h), c)) else None
  }

  /** `s'` is what the action makes of `s`, and nobody in it has more work than its parent. */
  ghost function StepIs(net: Net, s: Forest, a: Action, s': Forest): Fact {
    Fact(Settled(net, s').holds && forall n {:trigger Unfold(n)} :: Folded(n) ==>
         Ok(net, s).holds && Step(net, s, a) == Some(s'))
  }

  lemma StepSettles(net: Net, s: Forest, a: Action)
    requires Settled(net, s).holds && Step(net, s, a).Some?
    ensures Settled(net, Step(net, s, a).value).holds
  {
    match a
    case SaveHeader(c, h) =>
      SavedRanked(net, s, c, h);
      SwapAllSettles(net, Saved(net, s, c, h), c);
    case ForkOff(p, c, height, h) =>
      ForkedRanked(net, s, p, c, height, h);
      SwapAllSettles(net, Forked(net, s, p, c, height, h), c);
  }

  function SavedBy(a: Action, x: Blockchain): seq<Header> {
    if a.SaveHeader? && a.c == x then [a.h] else []
  }

  lemma SaveContents(net: Net, s: Forest, c: Blockchain, h: Header, x: Blockchain)
    requires Ok(net, s).holds && CanSave(net, s.tree, c, h).holds && x in s.tree
    ensures var t' := SwapAll(net, Saved(net, s, c, h), c).tree;
            && PathOk(s.tree, x) && PathOk(t', x)
            && Content(t', x) == Content(s.tree, x) + if c == x then [h] else []
  {
    GrowPath(s.tree, c, h, x);
    SwapAllSame(net, Saved(net, s, c, h), c);
    assert SameContent(Saved(net, s, c, h).tree, SwapAll(net, Saved(net, s, c, h), c).tree, x);
  }

  lemma ForkContents(net: Net, s: Forest, p: Blockchain, c: Blockchain, height: nat, h: Header, x: Blockchain)
    requires Ok(net, s).holds && CanFork(net, s.tree, p, c, height, h).holds && s.tree[p].forkpoint < height &&
             x in s.tree
    ensures var t' := SwapAll(net, Forked(net, s, p, c, height, h), c).tree;
            PathOk(s.tree, x) && PathOk(t', x) && Content(t', x) == Content(s.tree, x)
  {
    ForkPath(s.tree, p, c, height, h, x);
    SwapAllSame(net, Forked(net, s, p, c, height, h), c);
    assert SameContent(Forked(net, s, p, c, height, h).tree, SwapAll(net, Forked(net, s, p, c, height, h), c).tree, x);
  }

  /** No step changes what a chain reads, except for the one header that is added. */
  lemma StepContents(net: Net, s: Forest, a: Action, x: Blockchain)
    requires Ok(net, s).holds && Step(net, s, a).Some? && x in s.tree
    ensures var t' := Step(net, s, a).value.tree;
            PathOk(s.tree, x) && PathOk(t', x) && Content(t', x) == Content(s.tree, x) + SavedBy(a, x)
  {
    match a
    case SaveHeader(c, h) => SaveContents(net, s, c, h, x);
    case ForkOff(p, c, height, h) => ForkContents(net, s, p, c, height, h, x);
  }

  /** The first chain: a verified file on its own. */
  ghost function Start(root: Blockchain, file: seq<Header>): Forest {
    Forest(map[root := Node(0, None, file)], root)
  }

  lemma StartSettled(net: Net, root: Blockchain, file: seq<Header>)
    requires Verified(net, file)
    ensures Settled(net, Start(root, file)).holds
  {
    var t := Start(root, file).tree;
    assert NodeOk(t, root) && PathOk(t, root) && Content(t, root) == file;
    assert ChainOk(net, t, root);
    assert TreeOk(net, t, root);
    assert Ranked(net, t, None);
  }

  ghost function Run(net: Net, s: Forest, actions: seq<Action>): (s': Option<Forest>)
    requires Ok(net, s).holds
    ensures s'.Some? ==> Ok(net, s'.value).holds && s.tree.Keys <= s'.value.tree.Keys
    decreases |actions|
  {
    if actions == [] then Some(s)
    else
      match Step(net, s, actions[0])
      case None => None
      case Some(s1) => Run(net, s1, actions[1..])
  }

  lemma {:induction false} RunSettles(net: Net, s: Forest, actions: seq<Action>)
    requires Settled(net, s).holds && Run(net, s, actions).Some?
    ensures Settled(net, Run(net, s, actions).value).holds
    decreases |actions|
  {
    if actions != [] {
      StepSettles(net, s, actions[0]);
      RunSettles(net, Step(net, s, actions[0]).value, actions[1..]);
    }
  }

  /** The headers that a run saves to `x`, in order. */
  function SavedTo(actions: seq<Action>, x: Blockchain): seq<Header> {
    if actions == [] then []
    else SavedBy(actions[0], x) + SavedTo(actions[1..], x)
  }

  lemma Regroup(a: seq<Header>, b: seq<Header>, c: seq<Header>)
    ensures a + b + c == a + (b + c)
  {
  }

  /** Whatever else a run forks and swaps, a chain ends up with its old headers and those saved to it. */
  lemma {:induction false} RunContents(net: Net, s: Forest, actions: seq<Action>, x: Blockchain)
    requires Settled(net, s).holds && Run(net, s, actions).Some? && x in s.tree
    ensures var t' := Run(net, s, actions).value.tree;
            PathOk(s.tree, x) && PathOk(t', x) && Content(t', x) == Content(s.tree, x) + SavedTo(actions, x)
    decreases |actions|
  {
    assert Unfold(0);
    ShapedPath(s.tree, x);
    if actions != [] {
      var a, s1 := actions[0], Step(net, s, actions[0]).value;
      StepSettles(net, s, a);
      StepContents(net, s, a, x);
      RunContents(net, s1, actions[1..], x);
      assert Run(net, s, actions) == Run(net, s1, actions[1..]);
      Regroup(Content(s.tree, x), SavedBy(a, x), SavedTo(actions[1..], x));
    }
  }

  /** What chains are registered under: the hash of their first own header. */
  ghost function Id(t: Tree, c: Blockchain): Hash
    requires c in t && t[c].file != []
  {
    HashOf(t[c].file[0])
  }

  lemma IdsUnique(t: Tree, c: Blockchain, d: Blockchain)
    requires StoredOnce(t) && c in t && d in t && t[c].file != [] && t[d].file != []
    ensures Id(t, c) == Id(t, d) <==> c == d
  {
    if c != d {
      assert Apart(t[c].file, t[d].file);
    }
  }

  lemma RootId(net: Net, s: Forest)
    requires Ok(net, s).holds
    ensures s.root in s.tree && s.tree[s.root].file != [] && Id(s.tree, s.root) == HashOf(net.genesis)
  {
    assert Unfold(0);
    assert NodeOk(s.tree, s.root) && ChainOk(net, s.tree, s.root);
    OwnPart(s.tree, s.root, 0);
  }

  /** What a run makes of a single verified chain. */
  ghost function RunFrom(net: Net, root: Blockchain, file: seq<Header>, actions: seq<Action>): (s': Option<Forest>)
    requires Verified(net, file)
    ensures s'.Some? ==> Settled(net, s'.value).holds
  {
    StartSettled(net, root, file);
    var s' := Run(net, Start(root, file), actions);
    if s'.Some? then
      RunSettles(net, Start(root, file), actions);
      s'
    else None
  }

  /**
   After every run, the chain registered under the genesis hash is the root and has the most work, no chain has
   more than its parent, ids are unique, and every chain starts above its parent's start and not above its tip.
   */
  lemma BestChainWins(net: Net, root: Blockchain, file: seq<Header>, actions: seq<Action>, x: Blockchain, y: Blockchain)
    requires Verified(net, file) && RunFrom(net, root, file, actions).Some?
    requires x in RunFrom(net, root, file, actions).value.tree && y in RunFrom(net, root, file, actions).value.tree
    ensures var s := RunFrom(net, root, file, actions).value;
            && NodeOk(s.tree, x) && NodeOk(s.tree, y)
            && (Id(s.tree, x) == Id(s.tree, y) <==> x == y)
            && (Id(s.tree, x) == HashOf(net.genesis) <==> x == s.root)
            && ChainOk(net, s.tree, x) && ChainOk(net, s.tree, s.root)
            && Work(net, Content(s.tree, x)) <= Work(net, Content(s.tree, s.root))
  {
    var s := RunFrom(net, root, file, actions).value;
    RootIsBest(net, s, x);
    RootId(net, s);
    assert Unfold(0);
    assert NodeOk(s.tree, x) && NodeOk(s.tree, y);
    IdsUnique(s.tree, x, y);
    IdsUnique(s.tree, x, s.root);
  }
}
