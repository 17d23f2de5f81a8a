/** The chains as objects that are changed in place, their files, and the cache of work. */
module BlockchainStore {
  import opened Options
  import opened Folding
  import opened Headers
  import opened ForkTrees
  import opened ForkTreeSwap
  import opened ForkTreeRuns
  import opened ForkTreeSteps
  import opened ForkTreeCommon
  import opened ForkTreeOrder
  import opened Chainworks
  import opened BlockchainRows
  import opened BlockchainSiblings
  import opened BlockchainAdding

  ghost function RowOf(c: Blockchain): Row
    reads c
  {
    Row(c.forkpoint, if c.parent == null then None else Some(c.parent), c.forkpointHash, c.prevHash, c.size)
  }

  function PathOf(c: Blockchain): (path: Path)
    reads c
    ensures path == RowOf(c).Path()
  {
    if c.parent == null then Main else ForkFile(c.forkpoint, c.prevHash, c.forkpointHash)
  }

  method GreatestCommonEntry(ours: map<Blockchain, int>, theirs: map<Blockchain, int>) returns (last: int)
    ensures GreatestEntry(ours, theirs, last).holds
  {
    last := 0;
    var todo := ours.Keys;
    while todo != {}
      invariant todo <= ours.Keys && last >= 0
      invariant last == 0 || exists x :: x in ours && x in theirs && last == Min(ours[x], theirs[x])
      invariant forall x :: x in ours && x !in todo && x in theirs ==> Min(ours[x], theirs[x]) <= last
    {
      var chain :| chain in todo;
      if chain in theirs {
        var h := Min(ours[chain], theirs[chain]);
        last := if last < h then h else last;
      }
      todo := todo - {chain};
    }
  }

  /** All chains, by the hash of their first own header; their files; and the work up to known blocks. */
  class Blockchains {
    const net: Net
    var chains: map<Hash, Blockchain>
    /** The values of `chains`, oldest entry first. */
    var order: Order
    var files: map<Path, seq<Header>>
    var chainworkCache: map<Hash, nat>
    ghost var all: set<Blockchain>
    ghost var root: Blockchain

    ghost function Rows(): Rows
      reads this`all, all
    {
      map c | c in all :: RowOf(c)
    }

    ghost function Tree(): Tree
      reads this`all, this`files, all
    {
      TreeOf(Rows(), files)
    }

    ghost function State(): Forest
      reads this`all, this`files, this`root, all
    {
      Forest(Tree(), root)
    }

    ghost predicate Inner(known: set<Blockchain>)
      reads this`all, this`files, this`root, this`chains, all
    {
      InnerOk(net, Rows(), files, chains, root, known).holds
    }

    /** As between two operations. */
    ghost predicate Valid()
      reads this, all
    {
      Inner(all) && Lists(order, all) && Settled(net, State()).holds && CacheOk(net, chainworkCache).holds
    }

    /** The chain from the main file, before any fork. */
    constructor (net: Net, file: seq<Header>)
      requires Verified(net, file)
      ensures Valid() && this.net == net && fresh(all) && State() == Start(root, file) && order == [root]
    {
      var best := new Blockchain(0, null, HashOf(net.genesis), None);
      best.size := |file|;
      this.net := net;
      chains := map[HashOf(net.genesis) := best];
      order := [best];
      files := map[Main := file];
      chainworkCache := map[Zero := 0];
      all := {best};
      root := best;
      FreshCache(net);
      new;
      assert Rows().Keys == all;
      StartInner(net, best, file, Rows());
    }

    // ----- reading

    /** All headers that a chain reads; None when chains are not in place. */
    ghost function View(c: Blockchain): Option<seq<Header>>
      reads this`all, this`files, all
    {
      if AllLinked(Rows(), files) && PathOk(Tree(), c) then Some(Content(Tree(), c)) else None
    }

    method ReadHeader(c: Blockchain, height: int, ghost hs: seq<Header>) returns (h: Option<Header>)
      requires View(c) == Some(hs)
      ensures h == if 0 <= height < |hs| then Some(hs[height]) else None
      decreases c.forkpoint
    {
      assert Rows()[c] == RowOf(c) && Linked(RowOf(c), files);
      if height < 0 {
        return None;
      }
      if height < c.forkpoint {
        SharedPart(Tree(), c, c.parent, c.forkpoint);
        assert hs[..c.forkpoint][height] == Content(Tree(), c.parent)[..c.forkpoint][height];
        h := ReadHeader(c.parent, height, Content(Tree(), c.parent));
        return;
      }
      if height > c.forkpoint + c.size - 1 {
        return None;
      }
      h := Some(files[PathOf(c)][height - c.forkpoint]);
    }

    method Height(c: Blockchain, ghost hs: seq<Header>) returns (height: int)
      requires View(c) == Some(hs)
      ensures height == |hs| - 1
    {
      assert Rows()[c] == RowOf(c) && Linked(RowOf(c), files);
      height := c.forkpoint + c.size - 1;
    }

    method GetHash(c: Blockchain, height: int, ghost hs: seq<Header>) returns (hash: Option<Hash>)
      requires View(c) == Some(hs)
      ensures hash == HashAt(net, hs, height)
    {
      if height == -1 {
        hash := Some(Zero);
      } else if height == 0 {
        hash := Some(HashOf(net.genesis));
      } else {
        var h := ReadHeader(c, height, hs);
        hash := if h.None? then None else Some(HashOf(h.value));
      }
    }

    /** A missing header does not match. */
    method CheckHash(c: Blockchain, height: int, hash: Option<Hash>, ghost hs: seq<Header>) returns (same: bool)
      requires View(c) == Some(hs)
      ensures same <==> hash.Some? && HashAt(net, hs, height) == hash
    {
      var mine := GetHash(c, height, hs);
      same := mine.Some? && hash == mine;
    }

    method GetTargetOf(c: Blockchain, index: int, ghost hs: seq<Header>) returns (target: Option<nat>)
      requires View(c) == Some(hs) && index >= -1
      ensures target == GetTarget(net, hs, index)
    {
      if net.testnet {
        return Some(0);
      }
      if index == -1 {
        return Some(net.maxTarget);
      }
      var first := ReadHeader(c, index * 2016, hs);
      var last := ReadHeader(c, index * 2016 + 2015, hs);
      if first.None? || last.None? {
        return None;
      }
      target := net.next(first.value, last.value);
    }

    method CanConnect(c: Blockchain, header: Header, height: nat, checkHeight: bool, ghost hs: seq<Header>)
      returns (ok: bool)
      requires View(c) == Some(hs) && hs != [] && hs[0] == net.genesis
      ensures ok <==> && (checkHeight ==> height == |hs|)
                      && if height == 0 then header == net.genesis else Connects(hs, height, header)
      // what passes names its predecessor and, but for the test network, has a hash that meets the target it states
      ensures ok && height > 0 ==> height <= |hs| && header.prev == HashOf(hs[height - 1])
      ensures ok && height > 0 && !net.testnet ==>
                var target := GetTarget(net, hs, height / 2016 - 1);
                target.Some? && header.bits == net.encode(target.value) && header.pow <= target.value
    {
      if checkHeight {
        var tip := Height(c, hs);
        if tip != height - 1 {
          return false;
        }
      }
      if height == 0 {
        return HashOf(header) == HashOf(net.genesis);
      }
      ok := ConnectsTo(c, header, height, hs);
    }

    method ConnectsTo(c: Blockchain, header: Header, height: nat, ghost hs: seq<Header>) returns (ok: bool)
      requires View(c) == Some(hs) && hs != [] && hs[0] == net.genesis && height > 0
      ensures ok <==> Connects(hs, height, header)
    {
      hide View, HashAt, GetTarget, MeetsTarget;
      NamesPredecessor(net, hs, height, header);
      var prevHash := GetHash(c, height - 1, hs);
      if prevHash != Some(header.prev) {
        return false;
      }
      var target := GetTargetOf(c, height / 2016 - 1, hs);
      ok := MeetsTarget(net, header, target);
    }

    ghost predicate Connects(hs: seq<Header>, height: nat, header: Header) {
      0 < height <= |hs| && Follows(net, hs, height, header)
    }

    method ChainHasHeader(c: Blockchain, header: Header, height: nat) returns (same: bool)
      requires Inner(all) && Ok(net, State()).holds && c in all
      ensures same <==> HasHeader(net, Tree(), c, height, header)
    {
      assert Rows().Keys == all;
      ghost var hs := ChainRead(c);
      same := CheckHash(c, height, Some(HashOf(header)), hs);
    }

    /** The first chain in the dictionary that has the header. */
    method CheckHeader(header: Header, height: nat) returns (b: Blockchain?)
      requires Valid()
      ensures (if b == null then None else Some(b)) == FirstMatch(net, Tree(), order, height, header)
    {
      hide HasHeader, CacheOk;
      var i := 0;
      while i < |order|
        invariant i <= |order|
        invariant FirstMatch(net, Tree(), order[i..], height, header) == FirstMatch(net, Tree(), order, height, header)
      {
        var c := order[i];
        assert order[i] in all && order[i..][1..] == order[i + 1..];
        var same := ChainHasHeader(c, header, height);
        if same {
          return c;
        }
        i := i + 1;
      }
      b := null;
    }

    // ----- work

    method ChainworkOfHeaderAtHeight(c: Blockchain, height: nat, ghost hs: seq<Header>) returns (work: Option<nat>)
      requires View(c) == Some(hs)
      ensures work == HeaderWork(net, hs, height)
    {
      var target := GetTargetOf(c, height / 2016 - 1, hs);
      work := if target.None? then None else Some(net.work(target.value));
    }

    /** The last complete chunk, at or below the one given, whose work is cached. */
    method NearestCached(c: Blockchain, lastRetarget: int, ghost hs: seq<Header>, ghost ws: seq<nat>)
      returns (cachedHeight: int, total: nat)
      requires View(c) == Some(hs) && Agrees(net, chainworkCache, hs, ws)
      requires lastRetarget < |hs| && AtChunkEnd(lastRetarget)
      ensures cachedHeight <= lastRetarget && AtChunkEnd(cachedHeight) && total == ws[cachedHeight + 1]
    {
      hide View, HashAt, Agrees, AtChunkEnd;
      AgreedAt(net, chainworkCache, hs, ws, lastRetarget);
      cachedHeight := lastRetarget;
      var hash := GetHash(c, cachedHeight, hs);
      while hash.value !in chainworkCache
        invariant -1 <= cachedHeight <= lastRetarget < |ws| - 1 && AtChunkEnd(cachedHeight)
        invariant hash == HashAt(net, hs, cachedHeight) && hash.Some? &&
                  (cachedHeight == -1 ==> hash.value in chainworkCache)
        invariant hash.value in chainworkCache ==> chainworkCache[hash.value] == ws[cachedHeight + 1]
        decreases cachedHeight
      {
        if cachedHeight <= -1 {
          break;
        }
        ChunkEnds(cachedHeight);
        cachedHeight := cachedHeight - 2016;
        AgreedAt(net, chainworkCache, hs, ws, cachedHeight);
        hash := GetHash(c, cachedHeight, hs);
      }
      total := chainworkCache[hash.value];
    }

    /** Adds the work of the chunk that ends at `height` and caches the total. */
    method CacheChunk(c: Blockchain, height: nat, before: nat, ghost hs: seq<Header>, ghost ws: seq<nat>,
                      ghost first: map<Hash, nat>)
      returns (total: nat)
      requires View(c) == Some(hs) && NoRepeats(net, hs) && ChunkStep(net, hs, ws, height) &&
               before == ws[height - 2015]
      requires Agrees(net, chainworkCache, hs, ws) && Filled(net, first, chainworkCache, hs, ws)
      modifies this`chainworkCache
      ensures Agrees(net, chainworkCache, hs, ws) && Filled(net, first, chainworkCache, hs, ws)
      ensures total == ws[height + 1]
    {
      hide View, Filled, NoRepeats, HeaderWork, Agrees;
      var single := ChainworkOfHeaderAtHeight(c, height, hs);
      total := before + 2016 * single.value;
      var hash := GetHash(c, height, hs);
      FilledTwice(net, first, chainworkCache, hs, ws, hash.value, height);
      chainworkCache := chainworkCache[hash.value := total];
    }

    /** The work of the complete chunks, from the nearest cached chunk on. */
    method WorkOfChunks(c: Blockchain, lastRetarget: int, ghost hs: seq<Header>, ghost ws: seq<nat>)
      returns (total: nat)
      requires View(c) == Some(hs) && NoRepeats(net, hs) && ChunkSteps(net, hs, ws) &&
               Agrees(net, chainworkCache, hs, ws)
      requires lastRetarget < |hs| && AtChunkEnd(lastRetarget)
      modifies this`chainworkCache
      ensures Filled(net, old(chainworkCache), chainworkCache, hs, ws) && total == ws[lastRetarget + 1]
    {
      hide View, HeaderWork, ChunkStep, NoRepeats, HashAt;
      ghost var first := chainworkCache;
      var cachedHeight;
      cachedHeight, total := NearestCached(c, lastRetarget, hs, ws);
      while cachedHeight < lastRetarget
        invariant cachedHeight <= lastRetarget && AtChunkEnd(cachedHeight) && total == ws[cachedHeight + 1]
        invariant Agrees(net, chainworkCache, hs, ws) && Filled(net, first, chainworkCache, hs, ws)
        decreases lastRetarget - cachedHeight
      {
        ChunkEnds(cachedHeight);
        ChunkApart(cachedHeight, lastRetarget);
        cachedHeight := cachedHeight + 2016;
        assert ChunkStep(net, hs, ws, cachedHeight);
        total := CacheChunk(c, cachedHeight, total, hs, ws, first);
      }
    }

    /** The work up to a height, or of the whole chain; None: a header that is needed is missing. */
    method GetChainwork(c: Blockchain, height: Option<nat>, ghost hs: seq<Header>) returns (work: Option<nat>)
      requires View(c) == Some(hs) && Verified(net, hs) && CacheOk(net, chainworkCache).holds
      modifies this`chainworkCache
      ensures CacheOk(net, chainworkCache).holds
      ensures work == ChainworkAt(net, hs, if height.Some? then height.value else |hs| - 1)
    {
      hide View, CacheOk;
      var h: nat;
      if height.Some? {
        h := height.value;
      } else {
        var tip := Height(c, hs);
        h := Max(0, tip);
      }
      if net.testnet {
        return Some(h);
      }
      work := LookUpChainwork(c, h, hs);
    }

    method LookUpChainwork(c: Blockchain, height: nat, ghost hs: seq<Header>) returns (work: Option<nat>)
      requires View(c) == Some(hs) && Verified(net, hs) && CacheOk(net, chainworkCache).holds && !net.testnet
      modifies this`chainworkCache
      ensures CacheOk(net, chainworkCache).holds
      ensures work == ChainworkAt(net, hs, height)
    {
      hide View, Sums, ChainworkAt, Filled, Verified, HashAt;
      var hash := GetHash(c, height / 2016 * 2016 - 1, hs);
      LastChunkKnown(net, hs, height);
      if hash.None? {
        return None;
      }
      ghost var ws := Works(net, hs);
      Summable(net, chainworkCache, hs, height, ws);
      var total := SumChainwork(c, height, hs, ws);
      FilledOk(net, old(chainworkCache), chainworkCache, hs, ws);
      work := Some(total);
    }

    method SumChainwork(c: Blockchain, height: nat, ghost hs: seq<Header>, ghost ws: seq<nat>) returns (work: nat)
      requires View(c) == Some(hs) && Sums(net, chainworkCache, hs, ws, height)
      modifies this`chainworkCache
      ensures Filled(net, old(chainworkCache), chainworkCache, hs, ws)
      ensures work == SumOf(net, hs, ws, height)
    {
      hide View, HeaderWork, Agrees, IsWorkOf, Filled;
      var lastRetarget := height / 2016 * 2016 - 1;
      var total := WorkOfChunks(c, lastRetarget, hs, ws);
      var single := ChainworkOfHeaderAtHeight(c, lastRetarget + 2016, hs);
      work := total + (height % 2016 + 1) * single.value;
    }

    // ----- writing

    /** Headers are written at an offset, and what was there and behind is cut off. */
    method Write(c: Blockchain, data: seq<Header>, offset: nat)
      requires PathOf(c) in files && c.size == |files[PathOf(c)]| && offset <= c.size
      modifies this`files, c`size
      ensures RowOf(c) == old(RowOf(c)).(size := offset + |data|)
      ensures files == old(files)[PathOf(c) := old(files[PathOf(c)])[..offset] + data]
    {
      var name := PathOf(c);
      var file := files[name];
      if offset != c.size {
        file := file[..offset];
      }
      assert file == files[name][..offset];
      files := files[name := file + data];
      c.size := |files[name]|;
    }

    /**
     The child takes the parent's file, with its own headers at the end; the parent's other headers go into a new file.
     */
    method ExchangeFiles(c: Blockchain, p: Blockchain)
      requires c != p && c.parent == p && Linked(RowOf(c), files) && Linked(RowOf(p), files) && PathOf(c) != PathOf(p)
      requires p.forkpoint < c.forkpoint < p.forkpoint + p.size
      requires files[PathOf(p)][c.forkpoint - p.forkpoint] != files[PathOf(c)][0]
      modifies this`files, c, p
      ensures var mine, theirs, k := old(RowOf(c)), old(RowOf(p)), old(c.forkpoint - p.forkpoint);
              && RowOf(c) == Row(theirs.forkpoint, theirs.parent, theirs.id, theirs.prevHash, k + mine.size)
              && RowOf(p) == Row(mine.forkpoint, Some(c), HashOf(old(files)[theirs.Path()][k]), mine.prevHash,
                                 theirs.size - k)
              && files == SwappedFiles(old(files), mine.Path(), theirs.Path(), PathOf(p), k)
    {
      hide PathOf;
      ghost var k, before, parentPath := c.forkpoint - p.forkpoint, files, PathOf(p);
      var childOldName := PathOf(c);
      var firstHash := WriteBranches(c, p);
      SwapFields(c, p, firstHash);
      MovedFile(before, childOldName, parentPath, PathOf(p), before[parentPath][k..],
                before[parentPath][..k] + before[childOldName]);
      MoveFile(c, p, childOldName);
    }

    /** The headers above the fork are exchanged between the two files. */
    method WriteBranches(c: Blockchain, p: Blockchain) returns (firstHash: Hash)
      requires c != p && Linked(RowOf(c), files) && Linked(RowOf(p), files) && PathOf(c) != PathOf(p)
      requires p.forkpoint < c.forkpoint < p.forkpoint + p.size
      modifies this`files, c`size, p`size
      ensures var mine, theirs, k := PathOf(c), PathOf(p), c.forkpoint - p.forkpoint;
              && firstHash == HashOf(old(files)[theirs][k])
              && files == old(files)[mine := old(files)[theirs][k..]][theirs :=
                                                                      old(files)[theirs][..k] + old(files)[mine]]
              && c.size == old(p.size) - k && p.size == k + old(c.size)
    {
      hide PathOf;
      var branchSize := p.forkpoint + p.size - 1 - c.forkpoint + 1;
      var k := c.forkpoint - p.forkpoint;
      var myData := files[PathOf(c)];
      var parentData := files[PathOf(p)][k..k + branchSize];
      assert parentData == files[PathOf(p)][k..] && myData[..0] + parentData == parentData;
      Write(c, parentData, 0);
      Write(p, myData, k);
      firstHash := HashOf(parentData[0]);
    }

    method SwapFields(c: Blockchain, p: Blockchain, firstHash: Hash)
      requires c != p && c.parent == p
      modifies c, p
      ensures var mine, theirs := old(RowOf(c)), old(RowOf(p));
              && RowOf(c) == theirs.(size := mine.size)
              && RowOf(p) == Row(mine.forkpoint, Some(c), firstHash, mine.prevHash, theirs.size)
    {
      c.parent, p.parent := p.parent, c;
      c.forkpoint, p.forkpoint := p.forkpoint, c.forkpoint;
      c.forkpointHash, p.forkpointHash := p.forkpointHash, firstHash;
      c.prevHash, p.prevHash := p.prevHash, c.prevHash;
    }

    method MoveFile(c: Blockchain, p: Blockchain, childOldName: Path)
      requires c != p && childOldName in files && PathOf(c) in files && PathOf(c) != childOldName &&
               PathOf(c) != PathOf(p)
      modifies this`files, c`size, p`size
      ensures files == (old(files) - {childOldName})[PathOf(p) := old(files)[childOldName]]
      ensures c.size == |files[PathOf(c)]| && p.size == |files[PathOf(p)]|
    {
      hide PathOf;
      var moved := files[childOldName];
      files := (files - {childOldName})[PathOf(p) := moved];
      c.size := |files[PathOf(c)]|;
      p.size := |files[PathOf(p)]|;
    }

    lemma MovedFile(m: Files, a: Path, b: Path, n: Path, v: seq<Header>, w: seq<Header>)
      requires a != b
      ensures (m[a := v][b := w] - {a})[n := v] == (m - {a})[b := w][n := v]
    {
    }

    method SwapFiles(c: Blockchain, p: Blockchain)
      requires c in all && p in all && c.parent == p && SwapReady(Rows(), files, c, p).holds
      modifies this`files, c, p
      ensures Rows() == NewRows(old(Rows()), old(files), c, p) && files == NewFiles(old(Rows()), old(files), c, p)
    {
      ghost var rows, after := Rows(), NewRows(Rows(), files, c, p);
      assert rows[c] == RowOf(c) && rows[p] == RowOf(p);
      ExchangeFiles(c, p);
      assert RowOf(c) == after[c] && RowOf(p) == after[p];
      assert Rows() == rows[c := RowOf(c)][p := RowOf(p)];
    }

    /** The swap of the files and of the entries in the dictionary. */
    method SwapEntries(c: Blockchain, p: Blockchain)
      requires c in all && p in all && c.parent == p && SwapReady(Rows(), files, c, p).holds
      modifies this`files, this`chains, this`order, this`root, c, p
      ensures root == if old(root) == p then c else old(root)
      ensures Rows() == NewRows(old(Rows()), old(files), c, p) && files == NewFiles(old(Rows()), old(files), c, p)
      ensures chains == NewChains(old(chains), old(Rows()), old(files), c, p) && order == SwapOrder(old(order), c, p)
    {
      ghost var after := NewRows(Rows(), files, c, p);
      assert Rows()[c] == RowOf(c) && Rows()[p] == RowOf(p);
      var childOldId := c.forkpointHash;
      var parentOldId := p.forkpointHash;
      SwapFiles(c, p);
      assert Rows()[c] == RowOf(c) && Rows()[p] == RowOf(p);
      chains := (chains - {childOldId, parentOldId})[c.forkpointHash := c][p.forkpointHash := p];
      order := SwapOrder(order, c, p);
      root := if root == p then c else root;
      assert Rows() == after;
    }

    /** Whether the chain has become stronger than its parent. */
    method StrongerThanParent(c: Blockchain, ghost s: Forest, ghost known: set<Blockchain>) returns (stronger: bool)
      requires Inner(known) && s == State() && c in all && CacheOk(net, chainworkCache).holds
      modifies this`chainworkCache
      ensures Rows() == old(Rows()) && CacheOk(net, chainworkCache).holds && (stronger <==> Beats(net, s, c).holds) &&
              (stronger ==> c.parent != null)
    {
      if c.parent == null {
        RootBeatsNobody(c, s);
        return false;
      }
      ghost var hs, theirs := BothRead(c, c.parent, s, known);
      stronger := HasMoreWork(c, c.parent, hs, theirs);
    }

    lemma RootBeatsNobody(c: Blockchain, s: Forest)
      requires s == State() && c in all && c.parent == null
      ensures !Beats(net, s, c).holds
    {
      assert Unfold(0);
      assert Rows()[c] == RowOf(c);
    }

    lemma BothRead(c: Blockchain, p: Blockchain, s: Forest, known: set<Blockchain>)
      returns (hs: seq<Header>, theirs: seq<Header>)
      requires Inner(known) && s == State() && c in all && c.parent == p
      ensures View(c) == Some(hs) && View(p) == Some(theirs) && Verified(net, hs) && Verified(net, theirs)
      ensures Beats(net, s, c).holds <==> Work(net, theirs) < Work(net, hs)
    {
      hide Verified, Content, Work, AllLinked, PathOk, Beats, InnerOk;
      assert Rows()[c] == RowOf(c);
      BothInPlace(net, Rows(), files, chains, root, known, c, p);
      hs, theirs := Content(s.tree, c), Content(s.tree, p);
    }

    method HasMoreWork(c: Blockchain, p: Blockchain, ghost hs: seq<Header>, ghost theirs: seq<Header>)
      returns (more: bool)
      requires View(c) == Some(hs) && View(p) == Some(theirs) && Verified(net, hs) && Verified(net, theirs) &&
               CacheOk(net, chainworkCache).holds
      modifies this`chainworkCache
      ensures CacheOk(net, chainworkCache).holds && (more <==> Work(net, theirs) < Work(net, hs))
    {
      hide View, CacheOk, NetOk;
      var parentWork := GetChainwork(p, None, theirs);
      var work := GetChainwork(c, None, hs);
      WholeWork(net, theirs);
      WholeWork(net, hs);
      more := parentWork.value < work.value;
    }

    /** One swap, if the chain has become stronger than its parent. Former siblings are still to be moved. */
    method SwapWithParentOnce(c: Blockchain, ghost known: set<Blockchain>, ghost s: Forest) returns (swapped: bool)
      requires Inner(known) && s == State() && c in all && all - {c} <= known && CacheOk(net, chainworkCache).holds
      modifies this`files, this`chains, this`order, this`root, this`chainworkCache, all
      ensures CacheOk(net, chainworkCache).holds && (swapped <==> Beats(net, s, c).holds)
      ensures !swapped ==> State() == s && Inner(known)
      ensures swapped ==> old(c.parent) != null && HalfSwapped(Rows(), files, chains, root, s, c, old(c.parent)).holds
      ensures order == if swapped then SwapOrder(old(order), c, old(c.parent)) else old(order)
    {
      if c.parent != null {
        CanSwapUp(c, c.parent, s, known);
      }
      swapped := StrongerThanParent(c, s, known);
      if swapped {
        SwapUp(c, c.parent, known, s);
      }
    }

    method SwapUp(c: Blockchain, p: Blockchain, ghost known: set<Blockchain>, ghost s: Forest)
      requires c in all && p in all && c.parent == p && root == s.root &&
               SwapStart(Rows(), files, chains, known, s, c, p).holds
      modifies this`files, this`chains, this`order, this`root, c, p
      ensures HalfSwapped(Rows(), files, chains, root, s, c, p).holds && order == SwapOrder(old(order), c, p)
    {
      HalfSwap(Rows(), files, chains, known, s, c, p);
      SwapEntries(c, p);
    }

    lemma CanSwapUp(c: Blockchain, p: Blockchain, s: Forest, known: set<Blockchain>)
      requires Inner(known) && s == State() && c in all && all - {c} <= known && c.parent == p
      ensures p in all && SwapStart(Rows(), files, chains, known, s, c, p).holds
    {
      assert Rows()[c] == RowOf(c) && Rows().Keys == all;
      StartSwap(net, Rows(), files, chains, root, known, c, p);
    }

    function DirectChildren(p: Blockchain): set<Blockchain>
      reads this`chains, chains.Values
    {
      set x | x in chains.Values && x.parent == p
    }

    lemma DirectChildrenAre(c: Blockchain, p: Blockchain, s: Forest)
      requires HalfSwapped(Rows(), files, chains, root, s, c, p).holds
      ensures DirectChildren(p) == ChildrenOf(Rows(), p)
    {
      hide AllLinked, TreeOf, Swap, FilesExact;
      assert Unfold(0);
      assert Rows().Keys == all;
      assert forall x :: x in all ==> Rows()[x] == RowOf(x) && chains[Rows()[x].id] == x;
    }

    /** The chain becomes the parent of those of its former siblings whose predecessor it has. */
    method AdoptSiblings(c: Blockchain, ghost p: Blockchain, children: set<Blockchain>, ghost hs: seq<Header>,
                         ghost limit: nat)
      requires children == ChildrenOf(Rows(), p) && AllMidway(net, Rows(), files, c, p, hs, limit).holds
      modifies children
      ensures Rows() == Moved(old(Rows()), children, c, limit)
    {
      ghost var rows := Rows();
      var todo := children;
      ghost var done: set<Blockchain> := {};
      assert Moved(rows, done, c, limit) == rows;
      while todo != {}
        invariant done + todo == children && done !! todo
        invariant Rows() == Moved(rows, done, c, limit)
        decreases todo
      {
        var x :| x in todo;
        AdoptSibling(c, p, x, rows, done, hs, limit);
        done := done + {x};
        todo := todo - {x};
      }
    }

    method AdoptSibling(c: Blockchain, ghost p: Blockchain, x: Blockchain, ghost rows: Rows,
                        ghost done: set<Blockchain>, ghost hs: seq<Header>, ghost limit: nat)
      requires AllMidway(net, rows, files, c, p, hs, limit).holds && done <= ChildrenOf(rows, p) &&
               x in ChildrenOf(rows, p) && x !in done
      requires Rows() == Moved(rows, done, c, limit)
      modifies x
      ensures Rows() == Moved(rows, done + {x}, c, limit)
    {
      MidwayAt(net, rows, files, c, p, hs, limit, done, x);
      var joins := Joins(c, x, rows, done, hs, limit);
      SetParent(x, c, joins);
      MovedOne(rows, done, x, c, limit);
    }

    method Joins(c: Blockchain, x: Blockchain, ghost rows: Rows, ghost done: set<Blockchain>, ghost hs: seq<Header>,
                 ghost limit: nat)
      returns (joins: bool)
      requires x in rows && Midway(net, rows, files, c, hs, limit, done, x).holds && x !in done
      requires Rows() == Moved(rows, done, c, limit)
      ensures Rows()[x] == rows[x] && (joins <==> rows[x].forkpoint <= limit)
    {
      assert Rows()[x] == RowOf(x) == rows[x];
      joins := CheckHash(c, x.forkpoint - 1, x.prevHash, hs);
    }

    method SetParent(x: Blockchain, c: Blockchain, joins: bool)
      requires x in all
      modifies x
      ensures Rows() == old(Rows())[x := if joins then old(Rows())[x].(parent := Some(c)) else old(Rows())[x]]
    {
      ghost var before := Rows();
      assert before[x] == RowOf(x);
      if joins {
        x.parent := c;
      }
      assert RowOf(x) == if joins then before[x].(parent := Some(c)) else before[x];
      assert Rows() == before[x := RowOf(x)];
    }

    /** One turn of the loop: the swap with the parent, and its former children that now belong to the chain. */
    method SwapStep(c: Blockchain, swaps: nat, ghost known: set<Blockchain>, ghost s: Forest) returns (swapped: bool)
      requires Inner(known) && s == State() && c in all && all - {c} <= known && CacheOk(net, chainworkCache).holds
      requires Beats(net, s, c).holds ==> swaps < |all|
      modifies this`files, this`chains, this`order, this`root, this`chainworkCache, all
      ensures CacheOk(net, chainworkCache).holds && (swapped <==> Beats(net, s, c).holds)
      ensures !swapped ==> State() == s && Inner(known)
      ensures swapped ==> State() == SwapOnce(net, s, c) && Inner(all)
      ensures !swapped ==> order == old(order)
      ensures swapped ==> s.tree[c].parent.Some? && order == SwapOrder(old(order), c, s.tree[c].parent.value)
    {
      var p := c.parent;
      assert Rows()[c] == RowOf(c) && s.tree[c].parent == if p == null then None else Some(p);
      swapped := SwapWithParentOnce(c, known, s);
      if swapped {
        CountSwap(c, p, swaps, s);
        FinishSwap(c, p, s);
      }
    }

    /** The guard against swapping too many times, which never fires. */
    method CountSwap(c: Blockchain, ghost p: Blockchain, swaps: nat, ghost s: Forest)
      requires swaps < |all| && HalfSwapped(Rows(), files, chains, root, s, c, p).holds
    {
      RegisteredCount(net, Rows(), files, chains, root, s, c, p);
      assert Rows().Keys == all;
      if swaps + 1 > |chains| {
        assert false;
      }
    }

    method FinishSwap(c: Blockchain, p: Blockchain, ghost s: Forest)
      requires c in all && Beats(net, s, c).holds && s.tree[c].parent == Some(p)
      requires HalfSwapped(Rows(), files, chains, root, s, c, p).holds
      modifies all
      ensures State() == SwapOnce(net, s, c) && Inner(all)
    {
      Finishing(net, Rows(), files, chains, root, s, c, p);
      DirectChildrenAre(c, p, s);
      AdoptSiblings(c, p, DirectChildren(p), Content(s.tree, c), s.tree[c].forkpoint);
      IsState(SwapOnce(net, s, c));
    }

    lemma IsState(s: Forest)
      requires IsInner(net, Rows(), files, chains, root, s).holds
      ensures State() == s && Inner(all)
    {
      assert Unfold(0);
      assert Rows().Keys == all;
    }

    /** One turn, seen from the state `s` in which the loop started; `left` counts the swaps to come. */
    method SwapTurn(c: Blockchain, swaps: nat, ghost known: set<Blockchain>, ghost s: Forest, ghost first: Order,
                    ghost left: nat)
      returns (swapped: bool)
      requires Inner(known) && c in all && all - {c} <= known && CacheOk(net, chainworkCache).holds
      requires Reached(net, s, State(), c, swaps, left).holds && OrderReached(net, s, first, State(), order, c).holds
      modifies this`files, this`chains, this`order, this`root, this`chainworkCache, all
      ensures CacheOk(net, chainworkCache).holds
      ensures swapped ==> Inner(all) && left > 0 && Reached(net, s, State(), c, swaps + 1, left - 1).holds
      ensures !swapped ==> Inner(known) && State() == Settling(net, s, c) && (swaps > 0 <==> Beats(net, s, c).holds)
      ensures swapped ==> OrderReached(net, s, first, State(), order, c).holds
      ensures !swapped ==> order == SettlingOrder(net, s, c, first)
    {
      ghost var before, entries := State(), order;
      assert before.tree.Keys == all;
      ReachedFew(net, s, before, c, swaps, left);
      swapped := SwapStep(c, swaps, known, before);
      if swapped {
        ReachedNext(net, s, before, c, swaps, left);
        OrderGoesOn(net, s, first, before, entries, c, before.tree[c].parent.value);
      } else {
        ReachedEnd(net, s, before, c, swaps, left);
        OrderEnds(net, s, first, before, entries, c);
      }
    }

    /** Swaps the chain upwards until it no longer beats its parent. */
    method SwapWithParent(c: Blockchain, ghost known: set<Blockchain>)
      requires Inner(known) && c in all && all - {c} <= known && CacheOk(net, chainworkCache).holds
      requires Lists(order, known)
      modifies this`files, this`chains, this`order, this`root, this`chainworkCache, all
      ensures CacheOk(net, chainworkCache).holds
      ensures State() == Settling(net, old(State()), c) && order == SettlingOrder(net, old(State()), c, old(order))
      ensures Inner(if Beats(net, old(State()), c).holds then all else known)
      ensures Lists(order, if Beats(net, old(State()), c).holds then all else known)
    {
      hide Settling, SettlingOrder, Lists, Beats, Reached, OrderReached, InnerOk, CacheOk;
      ghost var s, first := State(), order;
      EntriesKept(c, s, first, known);
      ghost var left := InnerStarts(c, known);
      var swaps := 0;
      var swapped := SwapTurn(c, swaps, known, s, first, left);
      while swapped
        invariant CacheOk(net, chainworkCache).holds
        invariant swapped ==> OrderReached(net, s, first, State(), order, c).holds
        invariant !swapped ==> order == SettlingOrder(net, s, c, first)
        invariant swapped ==> Inner(all) && left > 0 && Reached(net, s, State(), c, swaps + 1, left - 1).holds
        invariant !swapped ==> State() == Settling(net, s, c) && (swaps > 0 <==> Beats(net, s, c).holds)
        invariant !swapped ==> Inner(if swaps == 0 then known else all)
        decreases swapped, left
      {
        swaps, left := swaps + 1, left - 1;
        swapped := SwapTurn(c, swaps, all, s, first, left);
      }
    }

    lemma EntriesKept(c: Blockchain, s: Forest, first: Order, known: set<Blockchain>)
      requires Inner(known) && s == State() && c in all && all - {c} <= known && Lists(first, known)
      ensures Lists(SettlingOrder(net, s, c, first), if Beats(net, s, c).holds then all else known)
    {
      assert Rows().Keys == all && Ok(net, s).holds && known <= s.tree.Keys by {
        assert Unfold(0);
      }
      SwapAllLists(net, s, c, first, known);
    }

    lemma InnerStarts(c: Blockchain, known: set<Blockchain>) returns (left: nat)
      requires Inner(known) && c in all
      ensures Reached(net, State(), State(), c, 0, left).holds &&
              OrderReached(net, State(), order, State(), order, c).holds
    {
      assert Unfold(0);
      left := ReachedStart(net, State(), c);
    }

    // ----- adding headers

    method AppendHeader(c: Blockchain, header: Header, height: nat)
      requires c in all && PathOf(c) in files && c.size == |files[PathOf(c)]|
      requires height == c.forkpoint + c.size
      modifies this`files, c`size
      ensures Rows() == GrownRows(old(Rows()), c) && files == GrownFiles(old(Rows()), old(files), c, header)
    {
      ghost var before := Rows();
      assert before[c] == RowOf(c);
      var delta := height - c.forkpoint;
      assert delta == c.size;
      Write(c, [header], delta);
      assert old(files[PathOf(c)])[..delta] == old(files[PathOf(c)]);
      assert Rows() == before[c := RowOf(c)];
    }

    /** A header that connects to the tip of a chain and is in no chain is saved. */
    method SaveHeader(c: Blockchain, header: Header, height: nat)
      requires Valid() && CanSave(net, Tree(), c, header).holds && height == Tree()[c].Count()
      modifies this`files, this`chains, this`order, this`root, this`chainworkCache, all
      ensures Valid() && StepIs(net, old(State()), Action.SaveHeader(c, header), State()).holds
      ensures StepOrderIs(net, old(State()), Action.SaveHeader(c, header), old(order), order).holds
    {
      ghost var s1 := WriteHeader(c, header, height, State());
      SwapWithParent(c, all);
    }

    method WriteHeader(c: Blockchain, header: Header, height: nat, ghost s: Forest) returns (ghost s1: Forest)
      requires Inner(all) && s == State() && Settled(net, s).holds && CanSave(net, s.tree, c, header).holds &&
               height == s.tree[c].Count()
      modifies this`files, all
      ensures c in all && Inner(all) && State() == s1
      ensures StepIs(net, s, Action.SaveHeader(c, header), Settling(net, s1, c)).holds
      ensures StepOrderIs(net, s, Action.SaveHeader(c, header), order, SettlingOrder(net, s1, c, order)).holds
    {
      hide Follows, Settling, StepIs, StepOrderIs, CanSave, Settled, GrownRows, GrownFiles, InnerOk, SettlingOrder;
      assert Rows().Keys == all;
      s1 := SaveStarts(net, Rows(), files, chains, s, c, header, order);
      assert Rows()[c] == RowOf(c);
      AppendHeader(c, header, height);
      assert Rows().Keys == all;
    }

    /**
     What callers see to: no chain has the header, and the chain to fork is taller than the header's predecessor and
     stores it.
     */
    ghost predicate CallerForks(p: Blockchain, header: Header, height: nat)
      reads this`all, this`files, all
    {
      p in Tree() && IsUnknown(Tree(), header) && Tree()[p].forkpoint < height < Tree()[p].Count()
    }

    /** None: the header does not connect to the chain. */
    method Fork(p: Blockchain, header: Header, height: nat) returns (b: Blockchain?)
      requires Valid() && CallerForks(p, header, height)
      modifies this`files, this`chains, this`order, this`root, this`chainworkCache, this`all, all
      ensures Valid() && (b != null <==> old(ForkConnects(p, header, height)))
      ensures b == null ==> State() == old(State()) && order == old(order)
      ensures b != null ==> fresh(b) && all == old(all) + {b}
      ensures b != null ==> StepIs(net, old(State()), ForkOff(p, b, height, header), State()).holds
      ensures b != null ==> StepOrderIs(net, old(State()), ForkOff(p, b, height, header), old(order), order).holds
    {
      hide Settled, Valid, Content, PathOk, Lists;
      ghost var s := State();
      var prevHash := ForkPredecessor(p, header, height);
      if prevHash.None? {
        return null;
      }
      b := new Blockchain(height, p, HashOf(header), prevHash);
      AddChain(b, p, header, height, s);
    }

    /** The hash of the block before the fork, if the header connects there. */
    method ForkPredecessor(p: Blockchain, header: Header, height: nat) returns (prevHash: Option<Hash>)
      requires Valid() && CallerForks(p, header, height)
      ensures prevHash.Some? <==> ForkConnects(p, header, height)
      ensures prevHash.Some? ==> prevHash.value == header.prev && MayFork(net, State().tree, p, height, header).holds
    {
      hide Tree, CacheOk, MayFork;
      ghost var hs := ChainRead(p);
      var connects := CanConnect(p, header, height, false, hs);
      if !connects {
        return None;
      }
      CanForkHere(p, header, height);
      NamesPredecessor(net, hs, height, header);
      prevHash := GetHash(p, height - 1, hs);
    }

    lemma CanForkHere(p: Blockchain, header: Header, height: nat)
      requires CallerForks(p, header, height) && ForkConnects(p, header, height)
      ensures MayFork(net, State().tree, p, height, header).holds
    {
    }

    /** A new chain gets its file, its place in the tree and its entry. */
    method AddChain(c: Blockchain, p: Blockchain, header: Header, height: nat, ghost s: Forest)
      requires Valid() && State() == s && MayFork(net, s.tree, p, height, header).holds && c !in all
      requires RowOf(c) == ForkRow(p, height, header).(size := 0)
      modifies this`files, this`chains, this`order, this`root, this`chainworkCache, this`all, all, c
      ensures Valid() && all == old(all) + {c}
      ensures StepIs(net, s, ForkOff(p, c, height, header), State()).holds
      ensures StepOrderIs(net, s, ForkOff(p, c, height, header), old(order), order).holds
    {
      hide State, Follows, StepOrderIs;
      ghost var known := all;
      ForkWith(c, p, header, height, s);
      ghost var s1 := StartFile(c, p, header, height, s);
      FinishChain(c, known, s1);
    }

    lemma ForkWith(c: Blockchain, p: Blockchain, header: Header, height: nat, s: Forest)
      requires s == State() && Ok(net, s).holds && MayFork(net, s.tree, p, height, header).holds && c !in all
      ensures p in s.tree && s.tree[p].forkpoint < height && CanFork(net, s.tree, p, c, height, header).holds
    {
      assert Unfold(0);
    }

    method FinishChain(c: Blockchain, ghost known: set<Blockchain>, ghost s1: Forest)
      requires Inner(known) && c in all && all - {c} <= known && CacheOk(net, chainworkCache).holds && s1 == State()
      requires Lists(order, known)
      modifies this`files, this`chains, this`order, this`root, this`chainworkCache, all
      ensures Inner(all) && Lists(order, all) && CacheOk(net, chainworkCache).holds && State() == Settling(net, s1, c)
      ensures order == Register(SettlingOrder(net, s1, c, old(order)), c)
    {
      hide State, Rows, SettlingOrder;
      SwapWithParent(c, known);
      RegisterNew(c, if Beats(net, s1, c).holds then all else known);
    }

    /** The new chain gets its file, with one header in it. */
    method StartFile(c: Blockchain, p: Blockchain, header: Header, height: nat, ghost s: Forest)
      returns (ghost s1: Forest)
      requires Inner(all) && s == State() && Settled(net, s).holds && c !in all
      requires CanFork(net, s.tree, p, c, height, header).holds && p in s.tree && s.tree[p].forkpoint < height
      requires RowOf(c) == ForkRow(p, height, header).(size := 0)
      modifies this`files, this`all, c
      ensures all == old(all) + {c} && Inner(old(all)) && State() == s1
      ensures StepIs(net, s, ForkOff(p, c, height, header), Settling(net, s1, c)).holds
      ensures StepOrderIs(net, s, ForkOff(p, c, height, header), order,
                          Register(SettlingOrder(net, s1, c, order), c)).holds
    {
      hide CanFork, StepIs, RowOf, StepOrderIs, SettlingOrder;
      assert Rows().Keys == all;
      s1 := ForkStarts(net, Rows(), files, chains, s, p, c, height, header, order);
      CreateFile(c, header, height, ForkRow(p, height, header));
    }

    method CreateFile(c: Blockchain, header: Header, height: nat, ghost row: Row)
      requires c !in all && row.size == 1 && row.forkpoint == height && RowOf(c) == row.(size := 0)
      modifies this`files, this`all, c
      ensures all == old(all) + {c}
      ensures Rows() == old(Rows())[c := row] && files == old(files)[row.Path() := [header]]
    {
      hide PathOf, GrownRows, GrownFiles;
      ghost var rows: map<Blockchain, Row> := Rows();
      all := all + {c};
      files := files[PathOf(c) := []];
      assert PathOf(c) == row.Path() && Rows() == rows[c := row.(size := 0)];
      FirstHeader(rows, old(files), c, row, header);
      AppendHeader(c, header, height);
    }

    method RegisterNew(c: Blockchain, ghost known: set<Blockchain>)
      requires Inner(known) && c in all && all - {c} <= known && Lists(order, known)
      modifies this`chains, this`order
      ensures Inner(all) && Lists(order, all) && order == Register(old(order), c)
    {
      assert Rows()[c] == RowOf(c) && Rows().Keys == all;
      NobodyElse(known);
      RegisterLast(net, Rows(), files, chains, root, known, c);
      chains := chains[c.forkpointHash := c];
      order := Register(order, c);
    }

    lemma NobodyElse(known: set<Blockchain>)
      requires Inner(known)
      ensures known <= all
    {
      assert Rows().Keys == all;
      assert Unfold(0);
    }

    /** The header connects to the chain at the height. */
    ghost predicate ForkConnects(p: Blockchain, header: Header, height: nat)
      reads this`all, this`files, all
    {
      PathOk(Tree(), p) && Connects(Content(Tree(), p), height, header)
    }

    lemma ChainRead(p: Blockchain) returns (hs: seq<Header>)
      requires Inner(all) && Ok(net, State()).holds && p in Tree()
      ensures View(p) == Some(hs) && PathOk(Tree(), p) && hs == Content(Tree(), p) && Verified(net, hs)
    {
      assert Unfold(0);
      assert ChainOk(net, Tree(), p);
      hs := Content(Tree(), p);
    }

    // ----- where two chains part

    method GetParentHeights(c: Blockchain, ghost rows: Rows, ghost t: Tree) returns (heights: map<Blockchain, int>)
      requires rows == Rows() && t == TreeOf(rows, files) && Readable(rows, files, c).holds
      ensures rows == Rows() && PathOk(t, c) && heights == ForkTreeCommon.ParentHeights(t, c)
    {
      hide PathOk, TreeOf, HeightsAbove, AllLinked, ParentHeights, Rows;
      Placed(c, rows, t);
      heights := map[c := c.forkpoint + c.size - 1];
      CollectFirst(t, c);
      ghost var whole: map<Blockchain, int> := ForkTreeCommon.ParentHeights(t, c);
      var chain: Blockchain := c;
      while chain.parent != null
        invariant PathOk(t, chain) && PlacedAs(t, chain)
        invariant forall x :: x in heights ==> x in t && t[x].forkpoint >= t[chain].forkpoint
        invariant HeightsAbove(t, chain) + heights == whole
        decreases chain.forkpoint
      {
        var parent: Blockchain := chain.parent;
        ghost var before: map<Blockchain, int> := heights;
        var top := chain.forkpoint - 1;
        heights := heights[parent := top];
        CollectNext(t, chain, parent, before, heights, whole, top);
        Placed(parent, rows, t);
        chain := parent;
      }
      CollectLast(t, chain, heights);
    }

    ghost predicate PlacedAs(t: Tree, c: Blockchain)
      reads this`all, all
    {
      && c in all && c in t && t[c].forkpoint == c.forkpoint && t[c].Count() == c.forkpoint + c.size
      && t[c].parent == if c.parent == null then None else Some(c.parent)
    }

    lemma Placed(c: Blockchain, rows: Rows, t: Tree)
      requires rows == Rows() && t == TreeOf(rows, files) && AllLinked(rows, files) && PathOk(t, c)
      ensures PlacedAs(t, c)
    {
      assert Rows()[c] == RowOf(c) && Linked(RowOf(c), files);
    }

    /** The greatest height up to which the two chains have the same headers. */
    method GetHeightOfLastCommonBlockWithChain(c: Blockchain, d: Blockchain) returns (lastCommon: int)
      requires Valid() && c in all && d in all
      ensures LastCommon(Tree(), c, d, lastCommon).holds
    {
      Viewed(c);
      Viewed(d);
      lastCommon := LastSharedEntry(c, d, Rows());
      LastCommonIs(c, d, lastCommon);
    }

    method LastSharedEntry(c: Blockchain, d: Blockchain, ghost rows: Rows) returns (last: int)
      requires rows == Rows() && Readable(rows, files, c).holds && Readable(rows, files, d).holds
      ensures rows == Rows() && GreatestShared(TreeOf(rows, files), c, d, last).holds
    {
      ghost var t := TreeOf(rows, files);
      var ours := GetParentHeights(c, rows, t);
      var theirs := GetParentHeights(d, rows, t);
      last := GreatestCommonEntry(ours, theirs);
    }

    lemma Viewed(c: Blockchain)
      requires Inner(all) && Ok(net, State()).holds && c in all
      ensures Readable(Rows(), files, c).holds
    {
      assert Unfold(0);
      assert Rows()[c] == RowOf(c);
    }

    lemma LastCommonIs(c: Blockchain, d: Blockchain, h: int)
      requires Ok(net, State()).holds && c in all && d in all && GreatestShared(Tree(), c, d, h).holds
      ensures LastCommon(Tree(), c, d, h).holds
    {
      assert Unfold(0);
      assert ChainOk(net, Tree(), c) && ChainOk(net, Tree(), d);
      GreatestEntryIsLastCommon(net, Tree(), c, d, h);
    }
  }
}
