/** A cache from block hashes to the work up to and including that block, shared by all chains. */
module Chainworks {
  import opened Options
  import opened Folding
  import opened Headers

  /** The hash of the block at a height; the virtual block comes before the first. */
  function HashAt(net: Net, hs: seq<Header>, height: int): Option<Hash> {
    if height == -1 then Some(Zero)
    else if height == 0 then Some(HashOf(net.genesis))
    else if 0 < height < |hs| then Some(HashOf(hs[height]))
    else None
  }

  ghost predicate EntryOk(net: Net, cache: map<Hash, nat>, hs: seq<Header>) {
    Verified(net, hs) && HashOf(hs[|hs| - 1]) in cache ==> cache[HashOf(hs[|hs| - 1])] == WorkUpTo(net, hs, |hs|)
  }

  /** Every entry is the work of the chain that ends with its hash. */
  ghost function CacheOk(net: Net, cache: map<Hash, nat>): Fact {
    Fact(forall n {:trigger Unfold(n)} :: Folded(n) ==> CacheRight(net, cache))
  }

  ghost predicate CacheRight(net: Net, cache: map<Hash, nat>) {
    Zero in cache && cache[Zero] == 0 && forall hs :: EntryOk(net, cache, hs)
  }

  lemma CacheHit(net: Net, cache: map<Hash, nat>, hs: seq<Header>, height: int, hash: Hash)
    requires CacheOk(net, cache).holds && Verified(net, hs) && -1 <= height < |hs| &&
             HashAt(net, hs, height) == Some(hash) && hash in cache
    ensures cache[hash] == WorkUpTo(net, hs, height + 1)
  {
    assert Unfold(0);
    if height >= 0 {
      var k := height + 1;
      WorkOfPrefix(net, hs, k, k);
      assert hs[..k][k - 1] == hs[height];
      assert EntryOk(net, cache, hs[..k]);
    }
  }

  lemma FreshCache(net: Net)
    ensures CacheOk(net, map[Zero := 0]).holds
  {
    assert CacheRight(net, map[Zero := 0]);
  }

  /** Chains that share a block share the work up to it. */
  lemma SameWork(net: Net, hs: seq<Header>, height: nat, a: seq<Header>)
    requires Verified(net, hs) && Verified(net, a) && height < |hs| && hs[height] == a[|a| - 1]
    ensures WorkUpTo(net, a, |a|) == WorkUpTo(net, hs, height + 1)
  {
    SharedHeader(net, hs, a, height, |a| - 1);
    assert a[..|a|] == a;
    WorkOfPrefix(net, hs, height + 1, height + 1);
  }

  /** The last block of a chunk, or the virtual block. */
  predicate AtChunkEnd(height: int) {
    height >= -1 && (height + 1) % 2016 == 0
  }

  lemma ChunkEnds(height: int)
    requires AtChunkEnd(height)
    ensures height >= -1 && AtChunkEnd(height + 2016)
    ensures height > -1 ==> height >= 2015 && AtChunkEnd(height - 2016)
  {
  }

  lemma ChunkApart(height: int, limit: int)
    requires AtChunkEnd(height) && AtChunkEnd(limit) && height < limit
    ensures height + 2016 <= limit
  {
  }

  lemma NextWork(net: Net, hs: seq<Header>, start: nat, height: nat, end: nat)
    requires Verified(net, hs) && start % 2016 == 0 && height == start + 2015 && end == start + 2016 <= |hs|
    ensures HeaderWork(net, hs, height).Some?
    ensures WorkUpTo(net, hs, end) == WorkUpTo(net, hs, start) + 2016 * HeaderWork(net, hs, height).value
  {
    WorkOfChunk(net, hs, start, 2016);
  }

  // ----- one chain's view of the cache, with `ws[k]` the work of its first `k` headers

  ghost function Works(net: Net, hs: seq<Header>): (ws: seq<nat>)
    requires Verified(net, hs)
    ensures |ws| == |hs| + 1 && forall k :: 0 <= k < |ws| ==> ws[k] == WorkUpTo(net, hs, k)
  {
    seq(|hs| + 1, k requires 0 <= k <= |hs| => WorkUpTo(net, hs, k))
  }

  ghost predicate ChunkStep(net: Net, hs: seq<Header>, ws: seq<nat>, height: nat) {
    && 2015 <= height < |hs| && |ws| == |hs| + 1
    && HeaderWork(net, hs, height).Some? &&
       ws[height + 1] == ws[height - 2015] + 2016 * HeaderWork(net, hs, height).value
  }

  ghost predicate ChunkSteps(net: Net, hs: seq<Header>, ws: seq<nat>) {
    forall height {:trigger ChunkStep(net, hs, ws, height)} :: 2015 <= height < |hs| && AtChunkEnd(height) ==>
        ChunkStep(net, hs, ws, height)
  }

  ghost predicate Agrees(net: Net, cache: map<Hash, nat>, hs: seq<Header>, ws: seq<nat>) {
    && |ws| == |hs| + 1 && Zero in cache
    && forall h {:trigger HashAt(net, hs, h)} ::
       -1 <= h < |hs| && HashAt(net, hs, h).Some? && HashAt(net, hs, h).value in cache ==>
         cache[HashAt(net, hs, h).value] == ws[h + 1]
  }

  lemma AgreedAt(net: Net, cache: map<Hash, nat>, hs: seq<Header>, ws: seq<nat>, h: int)
    requires Agrees(net, cache, hs, ws) && AtChunkEnd(h) && h < |hs|
    ensures |ws| == |hs| + 1 && HashAt(net, hs, h).Some? && (h == -1 ==> HashAt(net, hs, h).value in cache)
    ensures -1 <= h && (HashAt(net, hs, h).value in cache ==> cache[HashAt(net, hs, h).value] == ws[h + 1])
  {
  }

  /** Every entry is an old one or the work of one of the chain's blocks. */
  ghost predicate Filled(net: Net, cache: map<Hash, nat>, cache': map<Hash, nat>, hs: seq<Header>, ws: seq<nat>) {
    && |ws| == |hs| + 1 && cache.Keys <= cache'.Keys
    && forall k :: k in cache' ==>
       (k in cache && cache'[k] == cache[k]) || exists h :: IsWorkOf(net, hs, ws, k, cache'[k], h)
  }

  ghost predicate IsWorkOf(net: Net, hs: seq<Header>, ws: seq<nat>, hash: Hash, work: nat, h: nat) {
    |ws| == |hs| + 1 && h < |hs| && HashAt(net, hs, h) == Some(hash) && work == ws[h + 1]
  }

  lemma ViewOf(net: Net, cache: map<Hash, nat>, hs: seq<Header>)
    requires CacheOk(net, cache).holds && Verified(net, hs)
    ensures Agrees(net, cache, hs, Works(net, hs)) && ChunkSteps(net, hs, Works(net, hs))
  {
    assert Unfold(0);
    forall h | -1 <= h < |hs| && HashAt(net, hs, h).Some? && HashAt(net, hs, h).value in cache
      ensures cache[HashAt(net, hs, h).value] == Works(net, hs)[h + 1]
    {
      CacheHit(net, cache, hs, h, HashAt(net, hs, h).value);
    }
    forall height | 2015 <= height < |hs| && AtChunkEnd(height)
      ensures ChunkStep(net, hs, Works(net, hs), height)
    {
      NextWork(net, hs, height - 2015, height, height + 1);
    }
  }

  /** Entries for blocks of one chain are right for every chain. */
  lemma FilledOk(net: Net, cache: map<Hash, nat>, cache': map<Hash, nat>, hs: seq<Header>, ws: seq<nat>)
    requires CacheOk(net, cache).holds && Verified(net, hs) && ws == Works(net, hs) &&
             Filled(net, cache, cache', hs, ws)
    ensures CacheOk(net, cache').holds
  {
    assert Unfold(0);
    forall a
      ensures EntryOk(net, cache', a)
    {
      assert EntryOk(net, cache, a);
      if Verified(net, a) && HashOf(a[|a| - 1]) in cache' {
        var k := HashOf(a[|a| - 1]);
        if !(k in cache && cache'[k] == cache[k]) {
          var h: nat :| IsWorkOf(net, hs, ws, k, cache'[k], h);
          SameWork(net, hs, h, a);
        }
      }
    }
  }

  ghost predicate NoRepeats(net: Net, hs: seq<Header>) {
    forall i: int, j: int {:trigger HashAt(net, hs, i), HashAt(net, hs, j)} :: -1 <= i < j < |hs| ==>
        HashAt(net, hs, i) != HashAt(net, hs, j)
  }

  lemma NoBlockTwice(net: Net, hs: seq<Header>)
    requires Verified(net, hs)
    ensures NoRepeats(net, hs)
  {
    forall i: int, j: int | -1 <= i < j < |hs|
      ensures HashAt(net, hs, i) != HashAt(net, hs, j)
    {
      if i >= 0 && hs[i] == hs[j] {
        SharedHeader(net, hs, hs, i, j);
      }
    }
  }

  lemma FilledTwice(net: Net, cache: map<Hash, nat>, cache': map<Hash, nat>, hs: seq<Header>, ws: seq<nat>, hash: Hash,
                    h: nat)
    requires Filled(net, cache, cache', hs, ws) && Agrees(net, cache', hs, ws) && h < |hs| &&
             HashAt(net, hs, h) == Some(hash)
    requires NoRepeats(net, hs)
    ensures Filled(net, cache, cache'[hash := ws[h + 1]], hs, ws) && Agrees(net, cache'[hash := ws[h + 1]], hs, ws)
  {
    var cache'' := cache'[hash := ws[h + 1]];
    assert IsWorkOf(net, hs, ws, hash, cache''[hash], h);
    forall k | k in cache'' && k != hash
      ensures (k in cache && cache''[k] == cache[k]) || exists h :: IsWorkOf(net, hs, ws, k, cache''[k], h)
    {
      assert cache''[k] == cache'[k];
    }
  }

  /**
   The work up to a height: that of the complete chunks below, and as often that of one more header as there are
   headers from there on. None: a complete chunk is missing. Above the tip the missing headers count as if they were
   there.
   */
  ghost function ChainworkAt(net: Net, hs: seq<Header>, height: nat): Option<nat>
    requires Verified(net, hs)
  {
    var start := height / 2016 * 2016;
    if net.testnet then Some(height)
    else if start > |hs| then None
    else
      StartKnown(net, hs, height);
      Some(WorkUpTo(net, hs, start) + (height % 2016 + 1) * HeaderWork(net, hs, start + 2015).value)
  }

  lemma StartKnown(net: Net, hs: seq<Header>, height: nat)
    requires Verified(net, hs) && height / 2016 * 2016 <= |hs|
    ensures AtChunkEnd(height / 2016 * 2016 - 1) && HeaderWork(net, hs, height / 2016 * 2016 + 2015).Some?
  {
    TargetsKnown(net, hs, height / 2016 - 1);
    assert (height / 2016 * 2016 + 2015) / 2016 == height / 2016;
  }

  /** For every height of the chain, this is the work of the headers up to it. */
  lemma ChainworkIsWork(net: Net, hs: seq<Header>, height: nat)
    requires Verified(net, hs) && height < |hs|
    ensures Verified(net, hs[..height + 1]) && ChainworkAt(net, hs, height) == Some(Work(net, hs[..height + 1]))
  {
    hide Verified, NetOk;
    var start := height / 2016 * 2016;
    assert height == start + height % 2016;
    WorkOfPrefix(net, hs, height + 1, height + 1);
    StartKnown(net, hs, height);
    if !net.testnet {
      WorkOfChunk(net, hs, start, height % 2016 + 1);
    }
  }

  lemma WholeWork(net: Net, hs: seq<Header>)
    requires Verified(net, hs)
    ensures ChainworkAt(net, hs, |hs| - 1) == Some(Work(net, hs))
  {
    ChainworkIsWork(net, hs, |hs| - 1);
    assert hs[..|hs|] == hs;
  }

  /** The block before the last chunk is there, or the work is not known. */
  lemma LastChunkKnown(net: Net, hs: seq<Header>, height: nat)
    requires Verified(net, hs) && !net.testnet
    ensures HashAt(net, hs, height / 2016 * 2016 - 1).Some? <==> height / 2016 * 2016 <= |hs|
    ensures HashAt(net, hs, height / 2016 * 2016 - 1).None? ==> ChainworkAt(net, hs, height) == None
  {
  }

  /** All that summing up a chain's work relies on, and what it then amounts to. */
  lemma Summable(net: Net, cache: map<Hash, nat>, hs: seq<Header>, height: nat, ws: seq<nat>)
    requires CacheOk(net, cache).holds && Verified(net, hs) && ws == Works(net, hs)
    requires !net.testnet && height / 2016 * 2016 <= |hs|
    ensures Sums(net, cache, hs, ws, height) && ChainworkAt(net, hs, height) == Some(SumOf(net, hs, ws, height))
  {
    ViewOf(net, cache, hs);
    NoBlockTwice(net, hs);
    StartKnown(net, hs, height);
  }

  ghost predicate Sums(net: Net, cache: map<Hash, nat>, hs: seq<Header>, ws: seq<nat>, height: nat) {
    && NoRepeats(net, hs) && ChunkSteps(net, hs, ws) && Agrees(net, cache, hs, ws)
    && height / 2016 * 2016 <= |hs| && AtChunkEnd(height / 2016 * 2016 - 1) &&
       HeaderWork(net, hs, height / 2016 * 2016 + 2015).Some?
  }

  ghost function SumOf(net: Net, hs: seq<Header>, ws: seq<nat>, height: nat): int
    requires height / 2016 * 2016 < |ws| && HeaderWork(net, hs, height / 2016 * 2016 + 2015).Some?
  {
    ws[height / 2016 * 2016] + (height % 2016 + 1) * HeaderWork(net, hs, height / 2016 * 2016 + 2015).value
  }

  /** The hash that a header must name to follow at a height. */
  lemma NamesPredecessor(net: Net, hs: seq<Header>, height: nat, header: Header)
    requires hs != [] && hs[0] == net.genesis && height > 0
    ensures HashAt(net, hs, height - 1) == Some(header.prev) <==>
            height <= |hs| && header.prev == HashOf(hs[height - 1])
  {
  }
}
