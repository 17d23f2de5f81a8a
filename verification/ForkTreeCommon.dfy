/** Where two chains part: computed from forkpoints alone, without comparing headers. */
module ForkTreeCommon {
  import opened Options
  import opened Folding
  import opened Headers
  import opened ForkTrees
  import opened ForkTreeRuns

  /** For `c` and each of its ancestors, the height up to which `c` shares its headers; `top` is that of `c` itself. */
  ghost function Heights(t: Tree, c: Blockchain, top: int): (m: map<Blockchain, int>)
    requires PathOk(t, c)
    ensures m.Keys == Line(t, c)
    decreases t[c].forkpoint
  {
    match t[c].parent
    case None => map[c := top]
    case Some(p) => Heights(t, p, t[c].forkpoint - 1)[c := top]
  }

  ghost function ParentHeights(t: Tree, c: Blockchain): (m: map<Blockchain, int>)
    requires PathOk(t, c)
    ensures m.Keys == Line(t, c)
  {
    Heights(t, c, t[c].Count() - 1)
  }

  /** The entries above those for `c`. */
  ghost function HeightsAbove(t: Tree, c: Blockchain): (m: map<Blockchain, int>)
    requires PathOk(t, c)
  {
    match t[c].parent
    case None => map[]
    case Some(p) => Heights(t, p, t[c].forkpoint - 1)
  }

  /** Collecting the entries on the way up. */
  lemma CollectNext(t: Tree, c: Blockchain, p: Blockchain, found: map<Blockchain, int>, found': map<Blockchain, int>,
                    all: map<Blockchain, int>, top: int)
    requires PathOk(t, c) && t[c].parent == Some(p) && top == t[c].forkpoint - 1 && found' == found[p := top]
    requires forall x :: x in found ==> x in t && t[x].forkpoint >= t[c].forkpoint
    requires HeightsAbove(t, c) + found == all
    ensures PathOk(t, p) && t[p].forkpoint < t[c].forkpoint && HeightsAbove(t, p) + found' == all
    ensures forall x :: x in found' ==> x in t && t[x].forkpoint >= t[p].forkpoint
  {
    assert p !in found;
    assert HeightsAbove(t, c) == HeightsAbove(t, p)[p := t[c].forkpoint - 1];
  }

  lemma CollectFirst(t: Tree, c: Blockchain)
    requires PathOk(t, c)
    ensures HeightsAbove(t, c) + map[c := t[c].Count() - 1] == ParentHeights(t, c)
  {
  }

  lemma CollectLast(t: Tree, c: Blockchain, found: map<Blockchain, int>)
    requires PathOk(t, c) && t[c].parent.None?
    ensures HeightsAbove(t, c) + found == found
  {
  }

  /** A chain reads the same as its ancestor up to the ancestor's entry. */
  lemma {:induction false} SharesUpTo(t: Tree, c: Blockchain, top: int, x: Blockchain, k: nat)
    requires PathOk(t, c) && t[c].forkpoint <= top < t[c].Count()
    requires x in Heights(t, c, top) && k <= Heights(t, c, top)[x] + 1
    ensures PathOk(t, x) && k <= |Content(t, x)| && k <= |Content(t, c)| && Content(t, c)[..k] == Content(t, x)[..k]
    decreases t[c].forkpoint
  {
    if x != c {
      var p := t[c].parent.value;
      assert NodeOk(t, p);
      SharesUpTo(t, p, t[c].forkpoint - 1, x, k);
      EntryBelow(t, p, t[c].forkpoint - 1, x);
      SharedPart(t, c, p, k);
    }
  }

  lemma {:induction false} EntryBelow(t: Tree, c: Blockchain, top: int, x: Blockchain)
    requires PathOk(t, c) && t[c].forkpoint <= top && x in Heights(t, c, top)
    ensures t[x].forkpoint <= Heights(t, c, top)[x] <= top
    decreases t[c].forkpoint
  {
    if x != c {
      EntryBelow(t, t[c].parent.value, t[c].forkpoint - 1, x);
    }
  }

  /** The chain that stores what `c` reads at a height. */
  ghost function Owner(t: Tree, c: Blockchain, h: nat): Blockchain
    requires PathOk(t, c) && h < t[c].Count()
    decreases t[c].forkpoint
  {
    if t[c].forkpoint <= h then c else Owner(t, t[c].parent.value, h)
  }

  lemma {:induction false} OwnerStores(t: Tree, c: Blockchain, top: int, h: nat)
    requires PathOk(t, c) && h <= top < t[c].Count()
    ensures var x := Owner(t, c, h);
            && x in Heights(t, c, top) && h <= Heights(t, c, top)[x]
            && 0 <= h - t[x].forkpoint < |t[x].file| && t[x].file[h - t[x].forkpoint] == Content(t, c)[h]
    decreases t[c].forkpoint
  {
    if t[c].forkpoint > h {
      OwnerStores(t, t[c].parent.value, t[c].forkpoint - 1, h);
    }
  }

  /** The first `k` headers are the same in both chains. */
  ghost predicate Common(t: Tree, c: Blockchain, d: Blockchain, k: nat)
    requires PathOk(t, c) && PathOk(t, d)
  {
    k <= |Content(t, c)| && k <= |Content(t, d)| && Content(t, c)[..k] == Content(t, d)[..k]
  }

  function Min(a: int, b: int): int {
    if a < b then a else b
  }

  function Max(a: int, b: int): int {
    if a < b then b else a
  }

  /** What an ancestor of both vouches for is common. */
  lemma EntryIsCommon(t: Tree, c: Blockchain, d: Blockchain, x: Blockchain)
    requires PathOk(t, c) && PathOk(t, d) && x in ParentHeights(t, c) && x in ParentHeights(t, d)
    ensures var h := Min(ParentHeights(t, c)[x], ParentHeights(t, d)[x]);
            h >= 0 && Common(t, c, d, h + 1)
  {
    var h := Min(ParentHeights(t, c)[x], ParentHeights(t, d)[x]);
    EntryShared(t, c, x, h);
    EntryShared(t, d, x, h);
  }

  lemma EntryShared(t: Tree, c: Blockchain, x: Blockchain, h: int)
    requires PathOk(t, c) && x in ParentHeights(t, c) && h <= ParentHeights(t, c)[x]
    ensures ParentHeights(t, c)[x] >= 0
    ensures h >= 0 ==> PathOk(t, x) && h < |Content(t, x)| && h < |Content(t, c)|
    ensures h >= 0 ==> Content(t, c)[..h + 1] == Content(t, x)[..h + 1]
  {
    EntryBelow(t, c, t[c].Count() - 1, x);
    if h >= 0 {
      SharesUpTo(t, c, t[c].Count() - 1, x, h + 1);
    }
  }

  lemma OneOwner(t: Tree, x: Blockchain, y: Blockchain, i: nat, j: nat)
    requires StoredOnce(t) && x in t && y in t && i < |t[x].file| && j < |t[y].file| && t[x].file[i] == t[y].file[j]
    ensures x == y
  {
  }

  /** What is common, an ancestor of both vouches for: the chain that stores the last common header. */
  lemma CommonIsEntry(t: Tree, c: Blockchain, d: Blockchain, h: nat) returns (x: Blockchain)
    requires PathOk(t, c) && PathOk(t, d) && StoredOnce(t)
    requires h < t[c].Count() && h < t[d].Count() && Content(t, c)[h] == Content(t, d)[h]
    ensures x in ParentHeights(t, c) && x in ParentHeights(t, d)
    ensures h <= Min(ParentHeights(t, c)[x], ParentHeights(t, d)[x])
  {
    x := Owner(t, c, h);
    var y := Owner(t, d, h);
    OwnerStores(t, c, t[c].Count() - 1, h);
    OwnerStores(t, d, t[d].Count() - 1, h);
    OneOwner(t, x, y, h - t[x].forkpoint, h - t[y].forkpoint);
  }

  /**
   `h` is the greatest height at which the two chains have the same header, and below it they have the same headers.
   */
  ghost function LastCommon(t: Tree, c: Blockchain, d: Blockchain, h: int): Fact {
    Fact(
    && PathOk(t, c) && PathOk(t, d) && h >= 0 && Common(t, c, d, h + 1)
    && forall g :: h < g < t[c].Count() && g < t[d].Count() ==> Content(t, c)[g] != Content(t, d)[g])
  }

  /** The greatest entry of any common ancestor, and at least zero. */
  ghost function GreatestEntry(ours: map<Blockchain, int>, theirs: map<Blockchain, int>, h: int): Fact {
    Fact(
    && (h == 0 || exists x :: x in ours && x in theirs && h == Min(ours[x], theirs[x]))
    && h >= 0
    && forall x :: x in ours && x in theirs ==> Min(ours[x], theirs[x]) <= h)
  }

  ghost function GreatestShared(t: Tree, c: Blockchain, d: Blockchain, h: int): Fact {
    Fact(PathOk(t, c) && PathOk(t, d) && GreatestEntry(ParentHeights(t, c), ParentHeights(t, d), h).holds)
  }

  lemma NothingAbove(t: Tree, c: Blockchain, d: Blockchain, h: int, g: nat)
    requires StoredOnce(t) && PathOk(t, c) && PathOk(t, d)
    requires GreatestEntry(ParentHeights(t, c), ParentHeights(t, d), h).holds
    requires h < g < t[c].Count() && g < t[d].Count()
    ensures Content(t, c)[g] != Content(t, d)[g]
  {
    if Content(t, c)[g] == Content(t, d)[g] {
      var x := CommonIsEntry(t, c, d, g);
    }
  }

  lemma GreatestIsCommon(net: Net, t: Tree, c: Blockchain, d: Blockchain, h: int)
    requires ChainOk(net, t, c) && ChainOk(net, t, d)
    requires GreatestEntry(ParentHeights(t, c), ParentHeights(t, d), h).holds
    ensures h >= 0 && Common(t, c, d, h + 1)
  {
    var ours, theirs := ParentHeights(t, c), ParentHeights(t, d);
    if x :| x in ours && x in theirs && h == Min(ours[x], theirs[x]) {
      EntryIsCommon(t, c, d, x);
    } else {
      assert Content(t, c)[..1] == [net.genesis] && Content(t, d)[..1] == [net.genesis];
    }
  }

  lemma GreatestEntryIsLastCommon(net: Net, t: Tree, c: Blockchain, d: Blockchain, h: int)
    requires StoredOnce(t) && ChainOk(net, t, c) && ChainOk(net, t, d)
    requires GreatestEntry(ParentHeights(t, c), ParentHeights(t, d), h).holds
    ensures LastCommon(t, c, d, h).holds
  {
    GreatestIsCommon(net, t, c, d, h);
    forall g | h < g < t[c].Count() && g < t[d].Count()
      ensures Content(t, c)[g] != Content(t, d)[g]
    {
      NothingAbove(t, c, d, h, g);
    }
  }
}
