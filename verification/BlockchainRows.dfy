/** What the fields of all chain objects, their files and the dictionary say about the tree of chains. */
module BlockchainRows {
  import opened Options
  import opened Folding
  import opened Headers
  import opened ForkTrees
  import opened ForkTreeSwap
  import opened ForkTreeRuns
  import opened ForkTreeSteps

  /** Where a chain's headers are stored: the root has its own file, others are named by their fork. */
  datatype Path = Main | ForkFile(forkpoint: nat, prev: Option<Hash>, first: Hash)

  type Files = map<Path, seq<Header>>

  /** The fields of one chain object. */
  datatype Row = Row(forkpoint: nat, parent: Option<Blockchain>, id: Hash, prevHash: Option<Hash>, size: nat)
  {
    function Path(): Path {
      if parent.None? then Main else ForkFile(forkpoint, prevHash, id)
    }
  }

  type Rows = map<Blockchain, Row>

  ghost function NodeOf(r: Row, files: Files): Node {
    Node(r.forkpoint, r.parent, if r.Path() in files then files[r.Path()] else [])
  }

  ghost function TreeOf(rows: Rows, files: Files): Tree {
    map c | c in rows :: NodeOf(rows[c], files)
  }

  /** The fields agree with the file. */
  ghost predicate Linked(r: Row, files: Files) {
    && r.Path() in files && files[r.Path()] != [] && r.size == |files[r.Path()]|
    && r.id == HashOf(files[r.Path()][0])
    && r.prevHash == if r.parent.None? then None else Some(files[r.Path()][0].prev)
  }

  ghost predicate AllLinked(rows: Rows, files: Files) {
    forall c :: c in rows ==> Linked(rows[c], files)
  }

  /** There are no other files. */
  ghost predicate FilesExact(rows: Rows, files: Files) {
    forall q :: q in files <==> exists c :: c in rows && rows[c].Path() == q
  }

  /** The dictionary holds exactly `known`, each chain under its id. */
  ghost predicate Registered(chains: map<Hash, Blockchain>, rows: Rows, known: set<Blockchain>) {
    && known <= rows.Keys
    && (forall id :: id in chains ==> chains[id] in known && rows[chains[id]].id == id)
    && (forall x :: x in known ==> rows[x].id in chains && chains[rows[x].id] == x)
  }

  /** What holds around a swap, when chains may still beat their parents and a new one may not be registered yet. */
  ghost function InnerOk(net: Net, rows: Rows, files: Files, chains: map<Hash, Blockchain>, root: Blockchain,
                         known: set<Blockchain>): Fact
  {
    Fact(forall n {:trigger Unfold(n)} :: Folded(n) ==>
      AllLinked(rows, files) && TreeOk(net, TreeOf(rows, files), root) && Registered(chains, rows, known) &&
          FilesExact(rows, files))
  }

  /** A single chain on its own. */
  lemma StartInner(net: Net, c: Blockchain, file: seq<Header>, rows: Rows)
    requires Verified(net, file) && rows == map[c := Row(0, None, HashOf(net.genesis), None, |file|)]
    ensures TreeOf(rows, map[Main := file]) == Start(c, file).tree && Settled(net, Start(c, file)).holds
    ensures InnerOk(net, rows, map[Main := file], map[HashOf(net.genesis) := c], c, rows.Keys).holds
  {
    StartSettled(net, c, file);
    assert TreeOf(rows, map[Main := file]) == Start(c, file).tree;
    assert Unfold(0);
    assert rows[c].Path() == Main;
    assert AllLinked(rows, map[Main := file]) && FilesExact(rows, map[Main := file]);
    assert Registered(map[HashOf(net.genesis) := c], rows, rows.Keys);
  }

  ghost function Readable(rows: Rows, files: Files, c: Blockchain): Fact {
    Fact(AllLinked(rows, files) && PathOk(TreeOf(rows, files), c))
  }

  // ----- a swap

  /** The fields after a swap; `id` is the hash of the first header that the parent keeps. */
  ghost function SwappedRows(rows: Rows, c: Blockchain, p: Blockchain, id: Hash): (r: Rows)
    requires c in rows && p in rows && rows[p].forkpoint <= rows[c].forkpoint <= rows[p].forkpoint + rows[p].size
    ensures r.Keys == rows.Keys
  {
    var k := rows[c].forkpoint - rows[p].forkpoint;
    rows[c := Row(rows[p].forkpoint, rows[p].parent, rows[p].id, rows[p].prevHash, k + rows[c].size)]
        [p := Row(rows[c].forkpoint, Some(c), id, rows[c].prevHash, rows[p].size - k)]
  }

  /** The files after a swap. */
  ghost function SwappedFiles(files: Files, mine: Path, theirs: Path, moved: Path, k: nat): Files
    requires mine in files && theirs in files && k <= |files[theirs]|
  {
    (files - {mine})[theirs := files[theirs][..k] + files[mine]][moved := files[theirs][k..]]
  }

  /** What a swap relies on. */
  ghost function SwapReady(rows: Rows, files: Files, c: Blockchain, p: Blockchain): Fact {
    Fact(
    && AllLinked(rows, files) && c in rows && p in rows && c != p && rows[c].parent == Some(p)
    && rows[p].forkpoint < rows[c].forkpoint < rows[p].forkpoint + rows[p].size
    && (forall x, y :: x in rows && y in rows && x != y ==>
        rows[x].id != rows[y].id && rows[x].Path() != rows[y].Path())
    && Linked(rows[c], files) && Linked(rows[p], files)
    && var k := rows[c].forkpoint - rows[p].forkpoint;
       && files[rows[p].Path()][k].prev == files[rows[c].Path()][0].prev
       && forall x :: x in rows ==> rows[x].id != HashOf(files[rows[p].Path()][k]))
  }

  ghost function NewId(rows: Rows, files: Files, c: Blockchain, p: Blockchain): Hash
    requires SwapReady(rows, files, c, p).holds
  {
    HashOf(files[rows[p].Path()][rows[c].forkpoint - rows[p].forkpoint])
  }

  ghost function NewRows(rows: Rows, files: Files, c: Blockchain, p: Blockchain): (r: Rows)
    requires SwapReady(rows, files, c, p).holds
    ensures r.Keys == rows.Keys
  {
    SwappedRows(rows, c, p, NewId(rows, files, c, p))
  }

  ghost function NewFiles(rows: Rows, files: Files, c: Blockchain, p: Blockchain): Files
    requires SwapReady(rows, files, c, p).holds
  {
    assert Linked(rows[p], files) && Linked(rows[c], files);
    SwappedFiles(files, rows[c].Path(), rows[p].Path(), NewRows(rows, files, c, p)[p].Path(),
                 rows[c].forkpoint - rows[p].forkpoint)
  }

  /** Every chain has an id and a file of its own. */
  lemma PathsApart(rows: Rows, files: Files, root: Blockchain, x: Blockchain, y: Blockchain)
    requires AllLinked(rows, files) && OneRoot(TreeOf(rows, files), root) && StoredOnce(TreeOf(rows, files))
    requires x in rows && y in rows && x != y
    ensures rows[x].id != rows[y].id && rows[x].Path() != rows[y].Path()
  {
    var t := TreeOf(rows, files);
    assert Linked(rows[x], files) && Linked(rows[y], files);
    assert Apart(t[x].file, t[y].file);
  }

  /** Nobody is registered under the hash of a header in the middle of a file. */
  lemma InnerHashIsNew(net: Net, rows: Rows, files: Files, x: Blockchain, p: Blockchain, k: nat)
    requires AllLinked(rows, files) && StoredOnce(TreeOf(rows, files)) && ChainOk(net, TreeOf(rows, files), p)
    requires x in rows && p in rows && 0 < k < rows[p].size
    ensures rows[p].Path() in files && k < |files[rows[p].Path()]| && rows[x].id != HashOf(files[rows[p].Path()][k])
  {
    var t := TreeOf(rows, files);
    assert Linked(rows[x], files) && Linked(rows[p], files);
    if x == p {
      OwnPart(t, p, t[p].forkpoint);
      OwnPart(t, p, t[p].forkpoint + k);
      if t[p].file[0] == t[p].file[k] {
        SharedHeader(net, Content(t, p), Content(t, p), t[p].forkpoint, t[p].forkpoint + k);
      }
    } else {
      assert Apart(t[x].file, t[p].file);
    }
  }

  /** The header where the parent's own branch starts has the same predecessor as the child's first. */
  lemma SamePredecessor(net: Net, t: Tree, c: Blockchain, p: Blockchain)
    requires CanSwap(t, c, p) && ChainOk(net, t, c) && ChainOk(net, t, p)
    ensures t[c].file != [] && t[p].file[t[c].forkpoint - t[p].forkpoint].prev == t[c].file[0].prev
  {
    var f := t[c].forkpoint;
    assert NodeOk(t, c);
    SharedPart(t, c, p, f);
    assert Content(t, c)[..f][f - 1] == Content(t, p)[..f][f - 1];
    OwnPart(t, c, f);
    OwnPart(t, p, f);
    assert Checked(net, Content(t, c), f) && Checked(net, Content(t, p), f);
  }

  lemma ReadyToSwap(net: Net, rows: Rows, files: Files, root: Blockchain, c: Blockchain, p: Blockchain)
    requires AllLinked(rows, files) && TreeOk(net, TreeOf(rows, files), root) && CanSwap(TreeOf(rows, files), c, p)
    ensures SwapReady(rows, files, c, p).holds
  {
    var t, k := TreeOf(rows, files), rows[c].forkpoint - rows[p].forkpoint;
    assert Linked(rows[c], files) && Linked(rows[p], files);
    assert ChainOk(net, t, p) && ChainOk(net, t, c);
    SamePredecessor(net, t, c, p);
    forall x | x in rows
      ensures rows[x].id != HashOf(files[rows[p].Path()][k])
    {
      InnerHashIsNew(net, rows, files, x, p, k);
    }
    forall x, y | x in rows && y in rows && x != y
      ensures rows[x].id != rows[y].id && rows[x].Path() != rows[y].Path()
    {
      PathsApart(rows, files, root, x, y);
    }
  }

  lemma OthersStay(rows: Rows, files: Files, c: Blockchain, p: Blockchain, x: Blockchain)
    requires SwapReady(rows, files, c, p).holds && x in rows && x != c && x != p
    ensures NewRows(rows, files, c, p)[x] == rows[x]
    ensures NodeOf(rows[x], NewFiles(rows, files, c, p)) == NodeOf(rows[x], files) &&
            Linked(rows[x], NewFiles(rows, files, c, p))
  {
    assert Linked(rows[x], files);
    var q := rows[x].Path();
    assert q != rows[c].Path() && q != rows[p].Path() && q != NewRows(rows, files, c, p)[p].Path();
  }

  lemma SwappedTwo(rows: Rows, files: Files, c: Blockchain, p: Blockchain)
    requires SwapReady(rows, files, c, p).holds
    ensures var rows', files' := NewRows(rows, files, c, p), NewFiles(rows, files, c, p);
            && Linked(rows'[c], files') && Linked(rows'[p], files')
            && NodeOf(rows'[c], files') == SwappedChild(NodeOf(rows[c], files), NodeOf(rows[p], files))
            && NodeOf(rows'[p], files') == SwappedParent(NodeOf(rows[c], files), NodeOf(rows[p], files), c)
  {
    assert Linked(rows[c], files) && Linked(rows[p], files);
  }

  lemma SwappedAt(rows: Rows, files: Files, c: Blockchain, p: Blockchain, x: Blockchain)
    requires SwapReady(rows, files, c, p).holds && x in rows
    ensures Linked(NewRows(rows, files, c, p)[x], NewFiles(rows, files, c, p))
    ensures NodeOf(NewRows(rows, files, c, p)[x], NewFiles(rows, files, c, p)) ==
            if x == p then SwappedParent(NodeOf(rows[c], files), NodeOf(rows[p], files), c)
            else if x == c then SwappedChild(NodeOf(rows[c], files), NodeOf(rows[p], files))
            else NodeOf(rows[x], files)
  {
    SwappedTwo(rows, files, c, p);
    if x != c && x != p {
      OthersStay(rows, files, c, p, x);
    }
  }

  lemma SwappedLinked(rows: Rows, files: Files, c: Blockchain, p: Blockchain)
    requires SwapReady(rows, files, c, p).holds
    ensures AllLinked(NewRows(rows, files, c, p), NewFiles(rows, files, c, p))
  {
    forall x | x in rows
      ensures Linked(NewRows(rows, files, c, p)[x], NewFiles(rows, files, c, p))
    {
      SwappedAt(rows, files, c, p, x);
    }
  }

  /** After the swap of fields and files, the tree is the swapped tree. */
  lemma SwappedTree(rows: Rows, files: Files, c: Blockchain, p: Blockchain, t: Tree)
    requires SwapReady(rows, files, c, p).holds && t == TreeOf(rows, files)
    requires c in t && p in t && t[p].forkpoint < t[c].forkpoint < t[p].Count()
    ensures TreeOf(NewRows(rows, files, c, p), NewFiles(rows, files, c, p)) == Swap(t, c, p)
  {
    hide SwapReady, NewRows, NewFiles;
    var t' := TreeOf(NewRows(rows, files, c, p), NewFiles(rows, files, c, p));
    forall x | x in t
      ensures t'[x] == Swap(t, c, p)[x]
    {
      SwappedAt(rows, files, c, p, x);
    }
    assert t'.Keys == Swap(t, c, p).Keys;
  }

  lemma SwappedFilesExact(rows: Rows, files: Files, c: Blockchain, p: Blockchain)
    requires SwapReady(rows, files, c, p).holds && FilesExact(rows, files)
    ensures FilesExact(NewRows(rows, files, c, p), NewFiles(rows, files, c, p))
  {
    var rows', files' := NewRows(rows, files, c, p), NewFiles(rows, files, c, p);
    forall q
      ensures q in files' <==> exists x :: x in rows' && rows'[x].Path() == q
    {
      if q in files' {
        if q == rows'[p].Path() {
        } else if q == rows[p].Path() {
          assert rows'[c].Path() == q;
        } else {
          assert q in files;
          var x: Blockchain :| x in rows && rows[x].Path() == q;
          assert rows'[x].Path() == q;
        }
      }
      if x: Blockchain :| x in rows' && rows'[x].Path() == q {
        if x != c && x != p {
          OthersStay(rows, files, c, p, x);
        }
      }
    }
  }

  lemma SwappedRegister(chains: map<Hash, Blockchain>, rows: Rows, files: Files, known: set<Blockchain>, c: Blockchain,
                        p: Blockchain)
    requires SwapReady(rows, files, c, p).holds && Registered(chains, rows, known) && rows.Keys - {c} <= known
    ensures var rows' := NewRows(rows, files, c, p);
            Registered((chains - {rows[c].id, rows[p].id})[rows'[c].id := c][rows'[p].id := p], rows', rows.Keys)
  {
    hide Linked;
    var rows' := NewRows(rows, files, c, p);
    var chains' := (chains - {rows[c].id, rows[p].id})[rows'[c].id := c][rows'[p].id := p];
    forall id | id in chains'
      ensures chains'[id] in rows && rows'[chains'[id]].id == id
    {
    }
    forall x | x in rows
      ensures rows'[x].id in chains' && chains'[rows'[x].id] == x
    {
    }
  }

  /** The fields, files and entries of the two chains are swapped; other chains hang where they did. */
  ghost function HalfSwapped(rows: Rows, files: Files, chains: map<Hash, Blockchain>, root: Blockchain, s: Forest,
                             c: Blockchain, p: Blockchain): Fact
  {
    Fact(forall n {:trigger Unfold(n)} :: Folded(n) ==>
      && c in s.tree && p in s.tree && s.tree[p].forkpoint < s.tree[c].forkpoint < s.tree[p].Count()
      && TreeOf(rows, files) == Swap(s.tree, c, p) && root == (if s.root == p then c else s.root)
      && AllLinked(rows, files) && FilesExact(rows, files) && Registered(chains, rows, rows.Keys))
  }

  ghost function NewChains(chains: map<Hash, Blockchain>, rows: Rows, files: Files, c: Blockchain,
                           p: Blockchain): map<Hash, Blockchain>
    requires SwapReady(rows, files, c, p).holds
  {
    (chains - {rows[c].id, rows[p].id})[NewRows(rows, files, c, p)[c].id := c][NewRows(rows, files, c, p)[p].id := p]
  }

  /** All that a swap of `c` with its parent `p` starts from. */
  ghost function SwapStart(rows: Rows, files: Files, chains: map<Hash, Blockchain>, known: set<Blockchain>, s: Forest,
                           c: Blockchain, p: Blockchain): Fact
  {
    Fact(forall n {:trigger Unfold(n)} :: Folded(n) ==>
      && SwapReady(rows, files, c, p).holds && s.tree == TreeOf(rows, files) && CanSwap(s.tree, c, p)
      && FilesExact(rows, files) && Registered(chains, rows, known) && rows.Keys - {c} <= known)
  }

  lemma StartSwap(net: Net, rows: Rows, files: Files, chains: map<Hash, Blockchain>, root: Blockchain,
                  known: set<Blockchain>, c: Blockchain, p: Blockchain)
    requires InnerOk(net, rows, files, chains, root, known).holds && c in rows && rows.Keys - {c} <= known &&
             rows[c].parent == Some(p)
    ensures p in rows && SwapStart(rows, files, chains, known, Forest(TreeOf(rows, files), root), c, p).holds
  {
    hide FilesExact, Registered, AllLinked, OneRoot, StoredOnce, AllVerified;
    assert Unfold(0);
    assert NodeOk(TreeOf(rows, files), c);
    ReadyToSwap(net, rows, files, root, c, p);
  }

  /** A chain and its parent can both be read. */
  lemma BothInPlace(net: Net, rows: Rows, files: Files, chains: map<Hash, Blockchain>, root: Blockchain,
                    known: set<Blockchain>, c: Blockchain, p: Blockchain)
    requires InnerOk(net, rows, files, chains, root, known).holds && c in rows && rows[c].parent == Some(p)
    ensures var t := TreeOf(rows, files);
            && AllLinked(rows, files) && ChainOk(net, t, c) && ChainOk(net, t, p)
            && (Beats(net, Forest(t, root), c).holds <==> Work(net, Content(t, p)) < Work(net, Content(t, c)))
  {
    hide FilesExact, Registered, AllLinked, Verified, Content, Work;
    var t := TreeOf(rows, files);
    assert Unfold(0);
    assert t.Keys == rows.Keys && t[c].parent == Some(p);
    assert NodeOk(t, c) && ChainOk(net, t, c) && ChainOk(net, t, p);
  }

  lemma HalfSwap(rows: Rows, files: Files, chains: map<Hash, Blockchain>, known: set<Blockchain>, s: Forest,
                 c: Blockchain, p: Blockchain)
    requires SwapStart(rows, files, chains, known, s, c, p).holds
    ensures SwapReady(rows, files, c, p).holds
    ensures HalfSwapped(NewRows(rows, files, c, p), NewFiles(rows, files, c, p), NewChains(chains, rows, files, c, p),
                        if s.root == p then c else s.root, s, c, p).holds
  {
    assert Unfold(0);
    SwappedTree(rows, files, c, p, s.tree);
    SwappedLinked(rows, files, c, p);
    SwappedFilesExact(rows, files, c, p);
    SwappedRegister(chains, rows, files, known, c, p);
  }
}
