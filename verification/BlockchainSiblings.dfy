/** After a swap, the former siblings that fork off below it are moved to the chain that took the parent's place. */
module BlockchainSiblings {
  import opened Options
  import opened Folding
  import opened Headers
  import opened ForkTrees
  import opened ForkTreeSwap
  import opened ForkTreeRuns
  import opened Chainworks
  import opened BlockchainRows

  /** The chains of `done` that fork off at or below `limit` hang off `c`. */
  ghost function Moved(rows: Rows, done: set<Blockchain>, c: Blockchain, limit: nat): (r: Rows)
    ensures r.Keys == rows.Keys
  {
    map x | x in rows :: if x in done && rows[x].forkpoint <= limit then rows[x].(parent := Some(c)) else rows[x]
  }

  ghost function ChildrenOf(rows: Rows, p: Blockchain): set<Blockchain> {
    set x | x in rows && rows[x].parent == Some(p)
  }

  /**
   Comparing hashes tells exactly which siblings to move: those that fork off at or below the height where the two
   chains part.
   */
  lemma SiblingMoves(net: Net, t: Tree, c: Blockchain, p: Blockchain, x: Blockchain)
    requires CanSwap(t, c, p) && StoredOnce(t) && ChainOk(net, t, c) && ChainOk(net, t, p) && ChainOk(net, t, x) &&
             t[x].parent == Some(p)
    ensures t[x].file != [] && t[x].forkpoint > 0
    ensures HashAt(net, Content(t, c), t[x].forkpoint - 1) == Some(t[x].file[0].prev) <==>
            t[x].forkpoint <= t[c].forkpoint
  {
    var h := t[x].forkpoint - 1;
    assert NodeOk(t, x) && NodeOk(t, c);
    OwnPart(t, x, t[x].forkpoint);
    assert Checked(net, Content(t, x), t[x].forkpoint);
    SharedPart(t, x, p, t[x].forkpoint);
    assert Content(t, x)[..h + 1][h] == Content(t, p)[..h + 1][h];
    if h < t[c].Count() {
      AgreeBelow(net, t, c, p, h);
    }
  }

  /** While siblings are moved, `c` can be read. */
  lemma MovedReads(rows: Rows, files: Files, done: set<Blockchain>, t: Tree, c: Blockchain, p: Blockchain)
    requires CanSwap(t, c, p) && TreeOf(rows, files) == Swap(t, c, p) && done <= ChildrenOf(rows, p)
    ensures var t' := TreeOf(Moved(rows, done, c, t[c].forkpoint), files);
            PathOk(t, c) && PathOk(t', c) && Content(t', c) == Content(t, c)
  {
    hide NodeOk, ChildrenOf;
    var t' := TreeOf(Moved(rows, done, c, t[c].forkpoint), files);
    ShapedPath(t, c);
    forall x | x in t && (x == c || x == p || t[x].forkpoint < t[p].forkpoint)
      ensures x in t' && t'[x] == Swap(t, c, p)[x]
    {
      MovedNode(rows, files, done, t, c, p, x);
    }
    SwapKeepsBoth(t, t', c, p);
  }

  /** Only former siblings are moved, and they fork off above the parent's start. */
  lemma MovedNode(rows: Rows, files: Files, done: set<Blockchain>, t: Tree, c: Blockchain, p: Blockchain, x: Blockchain)
    requires CanSwap(t, c, p) && TreeOf(rows, files) == Swap(t, c, p) && done <= ChildrenOf(rows, p)
    requires x in t && (x == c || x == p || t[x].forkpoint < t[p].forkpoint)
    ensures x in rows && TreeOf(Moved(rows, done, c, t[c].forkpoint), files)[x] == Swap(t, c, p)[x]
  {
    var rows' := Moved(rows, done, c, t[c].forkpoint);
    assert TreeOf(rows, files).Keys == rows.Keys;
    assert Swap(t, c, p)[x] == NodeOf(rows[x], files);
    assert NodeOk(t, x) && NodeOk(t, p);
    assert x !in done;
    assert rows'[x] == rows[x];
  }

  lemma MovedLinked(rows: Rows, files: Files, done: set<Blockchain>, c: Blockchain, limit: nat, p: Blockchain)
    requires AllLinked(rows, files) && done <= ChildrenOf(rows, p)
    ensures AllLinked(Moved(rows, done, c, limit), files)
    ensures forall x :: x in rows ==>
            Moved(rows, done, c, limit)[x].Path() == rows[x].Path() && Moved(rows, done, c, limit)[x].id == rows[x].id
  {
    var rows' := Moved(rows, done, c, limit);
    forall x | x in rows
      ensures Linked(rows'[x], files)
    {
      assert Linked(rows[x], files);
    }
  }

  lemma MovedTree(rows: Rows, files: Files, t: Tree, c: Blockchain, p: Blockchain)
    requires CanSwap(t, c, p) && TreeOf(rows, files) == Swap(t, c, p)
    ensures TreeOf(Moved(rows, ChildrenOf(rows, p), c, t[c].forkpoint), files) == SwapAndReparent(t, c, p)
  {
    var t' := TreeOf(Moved(rows, ChildrenOf(rows, p), c, t[c].forkpoint), files);
    assert TreeOf(rows, files).Keys == rows.Keys;
    forall x | x in rows
      ensures t'[x] == SwapAndReparent(t, c, p)[x]
    {
      MovedTreeNode(rows, files, t, c, p, x);
    }
    assert t'.Keys == SwapAndReparent(t, c, p).Keys;
  }

  lemma MovedTreeNode(rows: Rows, files: Files, t: Tree, c: Blockchain, p: Blockchain, x: Blockchain)
    requires CanSwap(t, c, p) && TreeOf(rows, files) == Swap(t, c, p) && x in rows
    ensures x in t && TreeOf(Moved(rows, ChildrenOf(rows, p), c, t[c].forkpoint), files)[x] ==
            SwapAndReparent(t, c, p)[x]
  {
    var t1, rows' := Swap(t, c, p), Moved(rows, ChildrenOf(rows, p), c, t[c].forkpoint);
    assert TreeOf(rows, files).Keys == rows.Keys && x in t1;
    assert t1[x] == NodeOf(rows[x], files) && t1[p].forkpoint == t[c].forkpoint;
    assert Reparent(t1, c, p)[x] == if t1[x].parent == Some(p) &&
           t1[x].forkpoint <= t1[p].forkpoint then t1[x].(parent := Some(c)) else t1[x];
    assert rows'[x].Path() == rows[x].Path();
  }

  /** The fields and files are those of a state of the tree of chains, with all chains registered. */
  ghost function IsInner(net: Net, rows: Rows, files: Files, chains: map<Hash, Blockchain>, root: Blockchain,
                         s: Forest): Fact
  {
    Fact(forall n {:trigger Unfold(n)} :: Folded(n) ==>
         InnerOk(net, rows, files, chains, root, rows.Keys).holds && Forest(TreeOf(rows, files), root) == s)
  }

  /** When all are moved, the state is that of one swap in the tree of chains. */
  lemma MovedInner(net: Net, rows: Rows, files: Files, chains: map<Hash, Blockchain>, root: Blockchain, s: Forest,
                   c: Blockchain, p: Blockchain)
    requires Beats(net, s, c).holds && s.tree[c].parent == Some(p)
    requires HalfSwapped(rows, files, chains, root, s, c, p).holds
    ensures IsInner(net, Moved(rows, ChildrenOf(rows, p), c, s.tree[c].forkpoint), files, chains, root,
                    SwapOnce(net, s, c)).holds
  {
    assert Unfold(0);
    assert NodeOk(s.tree, c);
    MovedTree(rows, files, s.tree, c, p);
    MovedSame(net, rows, files, chains, root, ChildrenOf(rows, p), c, s.tree[c].forkpoint, p, SwapOnce(net, s, c));
  }

  lemma MovedSame(net: Net, rows: Rows, files: Files, chains: map<Hash, Blockchain>, root: Blockchain,
                  done: set<Blockchain>, c: Blockchain, limit: nat, p: Blockchain, s: Forest)
    requires AllLinked(rows, files) && done <= ChildrenOf(rows, p) && FilesExact(rows, files) &&
             Registered(chains, rows, rows.Keys)
    requires Ok(net, s).holds && s.tree == TreeOf(Moved(rows, done, c, limit), files) && s.root == root
    ensures InnerOk(net, Moved(rows, done, c, limit), files, chains, root, rows.Keys).holds
  {
    assert Unfold(0);
    MovedLinked(rows, files, done, c, limit, p);
    MovedFiles(rows, files, chains, done, c, limit, p);
  }

  lemma MovedFiles(rows: Rows, files: Files, chains: map<Hash, Blockchain>, done: set<Blockchain>, c: Blockchain,
                   limit: nat, p: Blockchain)
    requires AllLinked(rows, files) && done <= ChildrenOf(rows, p) && FilesExact(rows, files) &&
             Registered(chains, rows, rows.Keys)
    ensures FilesExact(Moved(rows, done, c, limit), files) && Registered(chains, Moved(rows, done, c, limit), rows.Keys)
  {
    var rows' := Moved(rows, done, c, limit);
    MovedLinked(rows, files, done, c, limit, p);
    forall q
      ensures q in files <==> exists x :: x in rows' && rows'[x].Path() == q
    {
      if q in files {
        var x: Blockchain :| x in rows && rows[x].Path() == q;
        assert rows'[x].Path() == q;
      }
    }
  }

  /** What moving the siblings starts from. */
  ghost function MoveStart(net: Net, rows: Rows, files: Files, chains: map<Hash, Blockchain>, root: Blockchain,
                           s: Forest, c: Blockchain, p: Blockchain): Fact
  {
    Fact(
    && Beats(net, s, c).holds && s.tree[c].parent == Some(p)
    && HalfSwapped(rows, files, chains, root, s, c, p).holds)
  }

  lemma SiblingNode(rows: Rows, files: Files, t: Tree, c: Blockchain, p: Blockchain, x: Blockchain)
    requires CanSwap(t, c, p) && TreeOf(rows, files) == Swap(t, c, p) && AllLinked(rows, files) &&
             x in ChildrenOf(rows, p)
    ensures x in t && t[x].parent == Some(p) && t[x].forkpoint == rows[x].forkpoint && t[x].file != []
    ensures rows[x].prevHash == Some(t[x].file[0].prev)
  {
    assert NodeOk(t, c) && NodeOk(t, p) && Linked(rows[x], files);
    assert TreeOf(rows, files).Keys == rows.Keys && Swap(t, c, p)[x] == NodeOf(rows[x], files);
  }

  ghost function ReadsAs(rows: Rows, files: Files, c: Blockchain, hs: seq<Header>): Fact {
    Fact(AllLinked(rows, files) && PathOk(TreeOf(rows, files), c) && Content(TreeOf(rows, files), c) == hs)
  }

  ghost function Decides(net: Net, rows: Rows, hs: seq<Header>, limit: nat, x: Blockchain): Fact {
    Fact(x in rows && rows[x].prevHash.Some? && (HashAt(net, hs, rows[x].forkpoint - 1) == rows[x].prevHash <==>
                                                 rows[x].forkpoint <= limit))
  }

  /** The test for a sibling, in terms of its fields. */
  lemma SiblingDecides(net: Net, rows: Rows, files: Files, chains: map<Hash, Blockchain>, root: Blockchain, s: Forest,
                       c: Blockchain, p: Blockchain, x: Blockchain)
    requires MoveStart(net, rows, files, chains, root, s, c, p).holds && x in ChildrenOf(rows, p)
    ensures PathOk(s.tree, c) && Decides(net, rows, Content(s.tree, c), s.tree[c].forkpoint, x).holds
  {
    assert Unfold(0);
    assert NodeOk(s.tree, c);
    SiblingNode(rows, files, s.tree, c, p, x);
    assert ChainOk(net, s.tree, c) && ChainOk(net, s.tree, p) && ChainOk(net, s.tree, x);
    DecidesFrom(net, rows, s.tree, c, p, x);
  }

  lemma DecidesFrom(net: Net, rows: Rows, t: Tree, c: Blockchain, p: Blockchain, x: Blockchain)
    requires CanSwap(t, c, p) && StoredOnce(t) && ChainOk(net, t, c) && ChainOk(net, t, p) && ChainOk(net, t, x) &&
             t[x].parent == Some(p)
    requires x in rows && rows[x].forkpoint == t[x].forkpoint && t[x].file != [] &&
             rows[x].prevHash == Some(t[x].file[0].prev)
    ensures Decides(net, rows, Content(t, c), t[c].forkpoint, x).holds
  {
    SiblingMoves(net, t, c, p, x);
  }

  /** Moving one more. */
  lemma MovedOne(rows: Rows, done: set<Blockchain>, x: Blockchain, c: Blockchain, limit: nat)
    requires x in rows && x !in done
    ensures Moved(rows, done + {x}, c, limit) ==
            Moved(rows, done, c, limit)[
              x := if rows[x].forkpoint <= limit then rows[x].(parent := Some(c)) else rows[x]]
  {
  }

  /** In the middle of moving, `c` reads what it read before the swap. */
  lemma MidwayReads(net: Net, rows: Rows, files: Files, chains: map<Hash, Blockchain>, root: Blockchain, s: Forest,
                    c: Blockchain, p: Blockchain, done: set<Blockchain>)
    requires MoveStart(net, rows, files, chains, root, s, c, p).holds && done <= ChildrenOf(rows, p)
    ensures PathOk(s.tree, c) && ReadsAs(Moved(rows, done, c, s.tree[c].forkpoint), files, c, Content(s.tree, c)).holds
  {
    assert Unfold(0);
    MovedReads(rows, files, done, s.tree, c, p);
    MovedLinked(rows, files, done, c, s.tree[c].forkpoint, p);
  }

  /** With the siblings in `done` moved, `c` reads `hs`, and comparing hashes tells whether `x` is to be moved. */
  ghost function Midway(net: Net, rows: Rows, files: Files, c: Blockchain, hs: seq<Header>, limit: nat,
                        done: set<Blockchain>, x: Blockchain): Fact
  {
    Fact(ReadsAs(Moved(rows, done, c, limit), files, c, hs).holds && Decides(net, rows, hs, limit, x).holds)
  }

  ghost function AllMidway(net: Net, rows: Rows, files: Files, c: Blockchain, p: Blockchain, hs: seq<Header>,
                           limit: nat): Fact
  {
    Fact(forall n, done, x {:trigger Unfold(n), Midway(net, rows, files, c, hs, limit, done, x)} ::
         Folded(n) && done <= ChildrenOf(rows, p) && x in ChildrenOf(rows, p) ==>
         Midway(net, rows, files, c, hs, limit, done, x).holds)
  }

  lemma MidwayHolds(net: Net, rows: Rows, files: Files, chains: map<Hash, Blockchain>, root: Blockchain, s: Forest,
                    c: Blockchain, p: Blockchain, done: set<Blockchain>, x: Blockchain)
    requires MoveStart(net, rows, files, chains, root, s, c, p).holds && done <= ChildrenOf(rows, p) &&
             x in ChildrenOf(rows, p)
    ensures PathOk(s.tree, c) && Midway(net, rows, files, c, Content(s.tree, c), s.tree[c].forkpoint, done, x).holds
  {
    MidwayReads(net, rows, files, chains, root, s, c, p, done);
    SiblingDecides(net, rows, files, chains, root, s, c, p, x);
  }

  lemma MovingWorks(net: Net, rows: Rows, files: Files, chains: map<Hash, Blockchain>, root: Blockchain, s: Forest,
                    c: Blockchain, p: Blockchain)
    requires MoveStart(net, rows, files, chains, root, s, c, p).holds
    ensures PathOk(s.tree, c) && AllMidway(net, rows, files, c, p, Content(s.tree, c), s.tree[c].forkpoint).holds
  {
    assert Unfold(0);
    ShapedPath(s.tree, c);
    forall done, x | done <= ChildrenOf(rows, p) && x in ChildrenOf(rows, p)
      ensures Midway(net, rows, files, c, Content(s.tree, c), s.tree[c].forkpoint, done, x).holds
    {
      MidwayHolds(net, rows, files, chains, root, s, c, p, done, x);
    }
  }

  lemma MidwayAt(net: Net, rows: Rows, files: Files, c: Blockchain, p: Blockchain, hs: seq<Header>, limit: nat,
                 done: set<Blockchain>, x: Blockchain)
    requires AllMidway(net, rows, files, c, p, hs, limit).holds && done <= ChildrenOf(rows, p) &&
             x in ChildrenOf(rows, p)
    ensures x in rows && Midway(net, rows, files, c, hs, limit, done, x).holds
  {
    assert Unfold(0);
  }

  lemma StartMoving(net: Net, rows: Rows, files: Files, chains: map<Hash, Blockchain>, root: Blockchain, s: Forest,
                    c: Blockchain, p: Blockchain)
    requires Beats(net, s, c).holds && s.tree[c].parent == Some(p)
    requires HalfSwapped(rows, files, chains, root, s, c, p).holds
    ensures MoveStart(net, rows, files, chains, root, s, c, p).holds
  {
  }

  /** Moving the siblings is possible, and completes the swap. */
  lemma Finishing(net: Net, rows: Rows, files: Files, chains: map<Hash, Blockchain>, root: Blockchain, s: Forest,
                  c: Blockchain, p: Blockchain)
    requires Beats(net, s, c).holds && s.tree[c].parent == Some(p) &&
             HalfSwapped(rows, files, chains, root, s, c, p).holds
    ensures PathOk(s.tree, c) && AllMidway(net, rows, files, c, p, Content(s.tree, c), s.tree[c].forkpoint).holds
    ensures IsInner(net, Moved(rows, ChildrenOf(rows, p), c, s.tree[c].forkpoint), files, chains, root,
                    SwapOnce(net, s, c)).holds
  {
    StartMoving(net, rows, files, chains, root, s, c, p);
    MovingWorks(net, rows, files, chains, root, s, c, p);
    MovedInner(net, rows, files, chains, root, s, c, p);
  }

  /** There are at least as many entries as chains. */
  lemma RegisteredCount(net: Net, rows: Rows, files: Files, chains: map<Hash, Blockchain>, root: Blockchain, s: Forest,
                        c: Blockchain, p: Blockchain)
    requires HalfSwapped(rows, files, chains, root, s, c, p).holds
    ensures |rows.Keys| <= |chains|
  {
    assert Unfold(0);
    assert forall x :: x in rows ==> chains[rows[x].id] == x;
    CountValues(chains, rows.Keys);
  }

  lemma CountValues(chains: map<Hash, Blockchain>, some: set<Blockchain>)
    requires some <= chains.Values
    ensures |some| <= |chains|
  {
    if some != {} {
      var x :| x in some;
      var id :| id in chains && chains[id] == x;
      CountValues(chains - {id}, some - {x}) by {
        forall y | y in some - {x}
          ensures y in (chains - {id}).Values
        {
          var k :| k in chains && chains[k] == y;
          assert (chains - {id})[k] == y;
        }
      }
    }
  }
}
