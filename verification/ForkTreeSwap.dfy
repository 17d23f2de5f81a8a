/** Swapping a chain with its parent: every chain keeps its headers, and the tree keeps its shape. */
module ForkTreeSwap {
  import opened Options
  import opened Headers
  import opened ForkTrees

  /** `c` may swap with its parent `p`. */
  ghost predicate CanSwap(t: Tree, c: Blockchain, p: Blockchain) {
    Shaped(t) && c in t && p in t && t[c].parent == Some(p) && t[p].forkpoint < t[c].forkpoint < t[p].Count()
  }

  lemma SwapNodes(t: Tree, c: Blockchain, p: Blockchain, x: Blockchain)
    requires CanSwap(t, c, p) && x in t
    ensures var t' := SwapAndReparent(t, c, p);
            t'[x] == if x == c then SwappedChild(t[c], t[p])
                     else if x == p then SwappedParent(t[c], t[p], c)
                     else if t[x].parent == Some(p) && t[x].forkpoint <= t[c].forkpoint then t[x].(parent := Some(c))
                     else t[x]
  {
    assert NodeOk(t, p);
  }

  lemma SwapCounts(t: Tree, c: Blockchain, p: Blockchain, x: Blockchain)
    requires CanSwap(t, c, p) && x in t
    ensures SwapAndReparent(t, c, p)[x].Count() == t[x].Count()
    ensures x != c && x != p ==> SwapAndReparent(t, c, p)[x].forkpoint == t[x].forkpoint
  {
    SwapNodes(t, c, p, x);
  }

  lemma SwapNodeOk(t: Tree, c: Blockchain, p: Blockchain, x: Blockchain)
    requires CanSwap(t, c, p) && x in t
    ensures NodeOk(SwapAndReparent(t, c, p), x)
  {
    var t' := SwapAndReparent(t, c, p);
    SwapNodes(t, c, p, x);
    SwapNodes(t, c, p, c);
    SwapNodes(t, c, p, p);
    assert NodeOk(t, x) && NodeOk(t, c) && NodeOk(t, p);
    if t'[x].parent.Some? {
      SwapCounts(t, c, p, t'[x].parent.value);
    }
  }

  /** Forkpoints are again above the parent's and not above its tip. */
  lemma SwapKeepsShape(t: Tree, c: Blockchain, p: Blockchain)
    requires CanSwap(t, c, p)
    ensures Shaped(SwapAndReparent(t, c, p))
  {
    var t' := SwapAndReparent(t, c, p);
    forall x | x in t'
      ensures NodeOk(t', x)
    {
      SwapNodeOk(t, c, p, x);
    }
  }

  lemma SwapOfTwo(t: Tree, c: Blockchain, p: Blockchain)
    requires CanSwap(t, c, p)
    ensures var t' := SwapAndReparent(t, c, p);
            && PathOk(t, c) && PathOk(t, p) && PathOk(t', c) && PathOk(t', p)
            && Content(t', c) == Content(t, c) && Content(t', p) == Content(t, p)
  {
    var t' := SwapAndReparent(t, c, p);
    SwapNodes(t, c, p, c);
    SwapNodes(t, c, p, p);
    ShapedPath(t, c);
    forall x | x in t && t[x].forkpoint < t[p].forkpoint
      ensures x in t' && t'[x] == t[x]
    {
      assert NodeOk(t, x);
      SwapNodes(t, c, p, x);
    }
    SwapKeepsBoth(t, t', c, p);
  }

  /** After the swap every chain in the tree, not just the two, reads the same header at every height. */
  lemma {:induction false} SwapKeepsContent(t: Tree, c: Blockchain, p: Blockchain, x: Blockchain)
    requires CanSwap(t, c, p) && x in t
    ensures var t' := SwapAndReparent(t, c, p);
            PathOk(t, x) && PathOk(t', x) && Content(t', x) == Content(t, x)
    decreases SwapAndReparent(t, c, p)[x].forkpoint
  {
    var t' := SwapAndReparent(t, c, p);
    SwapOfTwo(t, c, p);
    if x != c && x != p {
      SwapKeepsShape(t, c, p);
      ShapedPath(t, x);
      ShapedPath(t', x);
      assert NodeOk(t', x);
      SwapNodes(t, c, p, x);
      if t'[x].parent.Some? {
        var q := t'[x].parent.value;
        SwapKeepsContent(t, c, p, q);
        if q == c && t[x].parent == Some(p) {
          SharedPart(t, c, p, t[x].forkpoint);
        }
        SameBase(t, t', x, if t[x].parent == Some(p) && q == c then p else q, q);
      }
    }
  }

  lemma SameBase(t: Tree, t': Tree, x: Blockchain, q: Blockchain, q': Blockchain)
    requires PathOk(t, x) && PathOk(t', x) && t[x].parent == Some(q) && t'[x].parent == Some(q')
    requires t[x].forkpoint == t'[x].forkpoint && t[x].file == t'[x].file
    requires PathOk(t, q) && PathOk(t', q') && t[x].forkpoint <= |Content(t', q')| &&
             Content(t, q)[..t[x].forkpoint] == Content(t', q')[..t[x].forkpoint]
    ensures Content(t', x) == Content(t, x)
  {
  }

  lemma SwapKeepsVerified(net: Net, t: Tree, c: Blockchain, p: Blockchain)
    requires CanSwap(t, c, p) && AllVerified(net, t)
    ensures Shaped(SwapAndReparent(t, c, p)) && AllVerified(net, SwapAndReparent(t, c, p))
  {
    var t' := SwapAndReparent(t, c, p);
    SwapKeepsShape(t, c, p);
    forall x | x in t'
      ensures ChainOk(net, t', x)
    {
      SwapKeepsContent(t, c, p, x);
      assert ChainOk(net, t, x);
    }
  }

  lemma SwapKeepsRoot(t: Tree, c: Blockchain, p: Blockchain, root: Blockchain)
    requires CanSwap(t, c, p) && OneRoot(t, root)
    ensures OneRoot(SwapAndReparent(t, c, p), if root == p then c else root)
  {
    var t' := SwapAndReparent(t, c, p);
    forall x | x in t'
      ensures t'[x].parent.None? <==> x == if root == p then c else root
    {
      SwapNodes(t, c, p, x);
    }
  }

  /** A chain does not repeat itself, so cutting its file leaves two parts without a common header. */
  lemma CutApart(net: Net, t: Tree, p: Blockchain, k: nat)
    requires ChainOk(net, t, p) && k <= |t[p].file|
    ensures Apart(t[p].file[..k], t[p].file[k..]) && Apart(t[p].file[k..], t[p].file[..k])
  {
    var hs, f := Content(t, p), t[p].forkpoint;
    forall i, j | 0 <= i < k && 0 <= j < |t[p].file| - k
      ensures t[p].file[..k][i] != t[p].file[k..][j]
    {
      OwnPart(t, p, f + i);
      OwnPart(t, p, f + k + j);
      if hs[f + i] == hs[f + k + j] {
        SharedHeader(net, hs, hs, f + i, f + k + j);
      }
    }
  }

  /** Parts of files that have no common header have none either. */
  lemma DealtApart(c: seq<Header>, p: seq<Header>, x: seq<Header>, k: nat)
    requires k <= |p| && Apart(x, c) && Apart(x, p)
    ensures Apart(x, p[..k] + c) && Apart(p[..k] + c, x) && Apart(x, p[k..]) && Apart(p[k..], x)
  {
  }

  /** The two chains' headers are dealt out anew; nobody else's change. */
  lemma SwapKeepsStored(net: Net, t: Tree, c: Blockchain, p: Blockchain)
    requires CanSwap(t, c, p) && StoredOnce(t) && ChainOk(net, t, p)
    ensures StoredOnce(SwapAndReparent(t, c, p))
  {
    var t', k := SwapAndReparent(t, c, p), t[c].forkpoint - t[p].forkpoint;
    CutApart(net, t, p, k);
    forall x, y | x in t' && y in t' && x != y
      ensures Apart(t'[x].file, t'[y].file)
    {
      StoredPair(t, c, p, x, y, k);
    }
  }

  lemma StoredPair(t: Tree, c: Blockchain, p: Blockchain, x: Blockchain, y: Blockchain, k: nat)
    requires CanSwap(t, c, p) && StoredOnce(t) && x in t && y in t && x != y && k == t[c].forkpoint - t[p].forkpoint
    requires Apart(t[p].file[..k], t[p].file[k..]) && Apart(t[p].file[k..], t[p].file[..k])
    ensures Apart(SwapAndReparent(t, c, p)[x].file, SwapAndReparent(t, c, p)[y].file)
  {
    hide Apart, SwapAndReparent;
    SwapNodes(t, c, p, x);
    SwapNodes(t, c, p, y);
    SwapNodes(t, c, p, c);
    SwapNodes(t, c, p, p);
    assert Apart(t[x].file, t[y].file);
    if x != c && x != p {
      OthersApart(t, c, p, x, k);
    } else if y != c && y != p {
      OthersApart(t, c, p, y, k);
    } else {
      assert Apart(t[c].file, t[p].file) && Apart(t[p].file, t[c].file);
      TwoApart(t[c].file, t[p].file, k);
    }
  }

  lemma OthersApart(t: Tree, c: Blockchain, p: Blockchain, x: Blockchain, k: nat)
    requires StoredOnce(t) && c in t && p in t && x in t && x != c && x != p && k <= |t[p].file|
    ensures Apart(t[x].file, t[p].file[..k] + t[c].file) && Apart(t[p].file[..k] + t[c].file, t[x].file)
    ensures Apart(t[x].file, t[p].file[k..]) && Apart(t[p].file[k..], t[x].file)
  {
    assert Apart(t[x].file, t[c].file) && Apart(t[x].file, t[p].file);
    DealtApart(t[c].file, t[p].file, t[x].file, k);
  }

  lemma TwoApart(c: seq<Header>, p: seq<Header>, k: nat)
    requires k <= |p| && Apart(c, p) && Apart(p, c) && Apart(p[..k], p[k..]) && Apart(p[k..], p[..k])
    ensures Apart(p[..k] + c, p[k..]) && Apart(p[k..], p[..k] + c)
  {
  }
}
