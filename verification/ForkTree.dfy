/**
 The tree of chains: each chain stores the headers from its forkpoint on and shares those below with its parent.
 Every known header is stored exactly once.
 */
module ForkTrees {
  import opened Options
  import opened Headers

  /** One chain of headers. It is created by `Blockchains`, which also changes it. */
  class Blockchain {
    var forkpoint: nat
    var parent: Blockchain?
    var forkpointHash: Hash
    var prevHash: Option<Hash>
    var size: nat

    constructor (forkpoint: nat, parent: Blockchain?, forkpointHash: Hash, prevHash: Option<Hash>)
      ensures this.forkpoint == forkpoint && this.parent == parent && this.forkpointHash == forkpointHash &&
              this.prevHash == prevHash
      ensures size == 0
    {
      this.forkpoint := forkpoint;
      this.parent := parent;
      this.forkpointHash := forkpointHash;
      this.prevHash := prevHash;
      size := 0;
    }
  }

  /** What a chain stores and where it hangs. */
  datatype Node = Node(forkpoint: nat, parent: Option<Blockchain>, file: seq<Header>)
  {
    /** Number of headers up to the tip; the height of the tip is one less. */
    function Count(): nat {
      forkpoint + |file|
    }
  }

  type Tree = map<Blockchain, Node>

  /** A chain starts above its parent's start and not above its parent's tip. */
  ghost predicate NodeOk(t: Tree, c: Blockchain)
    requires c in t
  {
    && t[c].file != []
    && match t[c].parent
       case None => t[c].forkpoint == 0
       case Some(p) => p in t && t[p].forkpoint < t[c].forkpoint < t[p].Count()
  }

  ghost predicate Shaped(t: Tree) {
    forall c :: c in t ==> NodeOk(t, c)
  }

  /** The chain and all its ancestors are in place. */
  ghost predicate PathOk(t: Tree, c: Blockchain)
    decreases if c in t then t[c].forkpoint else 0
  {
    c in t && NodeOk(t, c) && (t[c].parent.Some? ==> PathOk(t, t[c].parent.value))
  }

  /** All headers of a chain, read through its ancestors. */
  ghost function Content(t: Tree, c: Blockchain): (hs: seq<Header>)
    requires PathOk(t, c)
    ensures |hs| == t[c].Count()
    decreases t[c].forkpoint, 1
  {
    Base(t, c) + t[c].file
  }

  /** The headers that a chain shares with its parent. */
  ghost function Base(t: Tree, c: Blockchain): (hs: seq<Header>)
    requires PathOk(t, c)
    ensures |hs| == t[c].forkpoint
    decreases t[c].forkpoint, 0
  {
    match t[c].parent
    case None => []
    case Some(p) => Content(t, p)[..t[c].forkpoint]
  }

  lemma {:induction false} ShapedPath(t: Tree, c: Blockchain)
    requires Shaped(t) && c in t
    ensures PathOk(t, c)
    decreases t[c].forkpoint
  {
    assert NodeOk(t, c);
    if t[c].parent.Some? {
      ShapedPath(t, t[c].parent.value);
    }
  }

  /** No header is stored twice. */
  ghost predicate Apart(a: seq<Header>, b: seq<Header>) {
    forall i, j :: 0 <= i < |a| && 0 <= j < |b| ==> a[i] != b[j]
  }

  ghost predicate StoredOnce(t: Tree) {
    forall c, d :: c in t && d in t && c != d ==> Apart(t[c].file, t[d].file)
  }

  ghost predicate OneRoot(t: Tree, root: Blockchain) {
    && root in t
    && forall c :: c in t ==> (t[c].parent.None? <==> c == root)
  }

  ghost predicate AllVerified(net: Net, t: Tree)
    requires Shaped(t)
  {
    forall c :: c in t ==> ChainOk(net, t, c)
  }

  ghost predicate ChainOk(net: Net, t: Tree, c: Blockchain) {
    PathOk(t, c) && Verified(net, Content(t, c))
  }

  /** The tree between two operations, but for which chains have the most work. */
  ghost predicate TreeOk(net: Net, t: Tree, root: Blockchain) {
    Shaped(t) && OneRoot(t, root) && StoredOnce(t) && AllVerified(net, t)
  }

  /** No chain but perhaps `c` has more work than its parent. */
  ghost predicate Ranked(net: Net, t: Tree, c: Option<Blockchain>) {
    forall d :: d in t && t[d].parent.Some? && c != Some(d) ==> NoMoreThanParent(net, t, d)
  }

  ghost predicate NoMoreThanParent(net: Net, t: Tree, d: Blockchain) {
    && d in t && t[d].parent.Some?
    && ChainOk(net, t, d) && ChainOk(net, t, t[d].parent.value)
    && Work(net, Content(t, d)) <= Work(net, Content(t, t[d].parent.value))
  }

  // ----- the operations

  /** The child takes over the parent's place and the parent's headers below the fork. */
  ghost function SwappedChild(c: Node, p: Node): Node
    requires p.forkpoint < c.forkpoint < p.Count()
  {
    Node(p.forkpoint, p.parent, p.file[..c.forkpoint - p.forkpoint] + c.file)
  }

  /** The parent keeps its other headers. */
  ghost function SwappedParent(c: Node, p: Node, child: Blockchain): Node
    requires p.forkpoint < c.forkpoint < p.Count()
  {
    Node(c.forkpoint, Some(child), p.file[c.forkpoint - p.forkpoint..])
  }

  ghost function Swap(t: Tree, c: Blockchain, p: Blockchain): Tree
    requires c in t && p in t && t[p].forkpoint < t[c].forkpoint < t[p].Count()
  {
    t[c := SwappedChild(t[c], t[p])][p := SwappedParent(t[c], t[p], c)]
  }

  /** Children of `p` that fork off below its new start now hang off `c`. */
  ghost function Reparent(t: Tree, c: Blockchain, p: Blockchain): Tree
    requires p in t
  {
    map x | x in t ::
      if t[x].parent == Some(p) && t[x].forkpoint <= t[p].forkpoint then t[x].(parent := Some(c)) else t[x]
  }

  ghost function SwapAndReparent(t: Tree, c: Blockchain, p: Blockchain): (t': Tree)
    requires c in t && p in t && t[p].forkpoint < t[c].forkpoint < t[p].Count()
    ensures t'.Keys == t.Keys
  {
    Reparent(Swap(t, c, p), c, p)
  }

  ghost function Grow(t: Tree, c: Blockchain, h: Header): (t': Tree)
    requires c in t
    ensures t'.Keys == t.Keys
  {
    t[c := Node(t[c].forkpoint, t[c].parent, t[c].file + [h])]
  }

  ghost function Fork(t: Tree, c: Blockchain, p: Blockchain, height: nat, h: Header): Tree {
    t[c := Node(height, Some(p), [h])]
  }

  // ----- reading

  /** From its forkpoint on, a chain reads what it stores. */
  lemma OwnPart(t: Tree, c: Blockchain, i: nat)
    requires PathOk(t, c) && t[c].forkpoint <= i < t[c].Count()
    ensures Content(t, c)[i] == t[c].file[i - t[c].forkpoint]
  {
  }

  lemma SharedPart(t: Tree, c: Blockchain, p: Blockchain, k: nat)
    requires PathOk(t, c) && t[c].parent == Some(p) && k <= t[c].forkpoint
    ensures PathOk(t, p) && k <= |Content(t, p)| && Content(t, c)[..k] == Content(t, p)[..k]
  {
  }

  /** Chains whose ancestors are untouched read the same. */
  lemma {:induction false} Untouched(t: Tree, t': Tree, c: Blockchain, bound: nat)
    requires PathOk(t, c) && t[c].forkpoint < bound
    requires forall x :: x in t && t[x].forkpoint < bound ==> x in t' && t'[x] == t[x]
    ensures PathOk(t', c) && Content(t', c) == Content(t, c)
    decreases t[c].forkpoint
  {
    if t[c].parent.Some? {
      Untouched(t, t', t[c].parent.value, bound);
    }
  }

  lemma AgreeFrom(net: Net, a: seq<Header>, b: seq<Header>, i: nat, f: nat)
    requires Verified(net, a) && Verified(net, b) && f <= i < |a| && i < |b| && a[i] == b[i]
    ensures a[f] == b[f]
  {
    SharedHeader(net, a, b, i, i);
    assert a[..i + 1][f] == b[..i + 1][f];
  }

  lemma DifferAtFork(t: Tree, c: Blockchain, p: Blockchain)
    requires StoredOnce(t) && PathOk(t, c) && t[c].parent == Some(p)
    ensures PathOk(t, p) && Content(t, c)[t[c].forkpoint] != Content(t, p)[t[c].forkpoint]
  {
    OwnPart(t, c, t[c].forkpoint);
    OwnPart(t, p, t[c].forkpoint);
    assert Apart(t[c].file, t[p].file);
  }

  /** A child and its parent agree exactly below the fork. */
  lemma AgreeBelow(net: Net, t: Tree, c: Blockchain, p: Blockchain, i: nat)
    requires StoredOnce(t) && ChainOk(net, t, c) && ChainOk(net, t, p) && t[c].parent == Some(p)
    requires i < t[c].Count() && i < t[p].Count()
    ensures Content(t, c)[i] == Content(t, p)[i] <==> i < t[c].forkpoint
  {
    var f := t[c].forkpoint;
    if i < f {
      SharedPart(t, c, p, f);
      assert Content(t, c)[..f][i] == Content(t, p)[..f][i];
    } else {
      DifferAtFork(t, c, p);
      if Content(t, c)[i] == Content(t, p)[i] {
        AgreeFrom(net, Content(t, c), Content(t, p), i, f);
      }
    }
  }

  // ----- swapping

  /**
   The chain that swaps and the one it swaps with read the same as before, even while siblings are still to be moved.
   */
  lemma SwapKeepsBoth(t: Tree, t': Tree, c: Blockchain, p: Blockchain)
    requires PathOk(t, c) && t[c].parent == Some(p) && c in t' && p in t'
    requires t'[c] == SwappedChild(t[c], t[p]) && t'[p] == SwappedParent(t[c], t[p], c)
    requires forall x :: x in t && t[x].forkpoint < t[p].forkpoint ==> x in t' && t'[x] == t[x]
    ensures PathOk(t', c) && PathOk(t', p) && PathOk(t, p)
    ensures Content(t', c) == Content(t, c) && Content(t', p) == Content(t, p)
  {
    SwappedPaths(t, t', c, p);
    SwappedParts(Base(t, p), t[p].file, t[c].file, t[c].forkpoint);
    ContentOfChild(t, c, p);
    ContentOfChild(t', p, c);
  }

  lemma ContentOfChild(t: Tree, c: Blockchain, p: Blockchain)
    requires PathOk(t, c) && t[c].parent == Some(p)
    ensures PathOk(t, p) && Content(t, c) == (Base(t, p) + t[p].file)[..t[c].forkpoint] + t[c].file
  {
    assert Content(t, p) == Base(t, p) + t[p].file;
  }

  lemma SwappedPaths(t: Tree, t': Tree, c: Blockchain, p: Blockchain)
    requires PathOk(t, c) && t[c].parent == Some(p) && c in t' && p in t'
    requires t'[c] == SwappedChild(t[c], t[p]) && t'[p] == SwappedParent(t[c], t[p], c)
    requires forall x :: x in t && t[x].forkpoint < t[p].forkpoint ==> x in t' && t'[x] == t[x]
    ensures PathOk(t', c) && PathOk(t', p) && PathOk(t, p) && Base(t', c) == Base(t, p)
  {
    assert PathOk(t, p);
    if t[p].parent.Some? {
      Untouched(t, t', t[p].parent.value, t[p].forkpoint);
    }
    assert NodeOk(t', c) && PathOk(t', c);
    assert NodeOk(t', p);
  }

  lemma SwappedParts(base: seq<Header>, p: seq<Header>, c: seq<Header>, f: nat)
    requires |base| < f < |base| + |p|
    ensures base + (p[..f - |base|] + c) == (base + p)[..f] + c
    ensures (base + (p[..f - |base|] + c))[..f] + p[f - |base|..] == base + p
  {
  }
}
