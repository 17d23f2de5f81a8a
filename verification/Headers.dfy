/**
 Block headers, the rules by which they form a chain, and the work that a chain proves; whatever the rules for targets
 are.
 */
module Headers {
  import opened Options

  /**
   Hashes: that of a header (different headers have different hashes), the virtual block before the first, or one of no
   known header.
   */
  datatype Hash = Zero | HashOf(header: Header) | Unknown(n: nat)

  /** `pow` is the header's hash read as a number. */
  datatype Header = Header(prev: Hash, bits: nat, timestamp: nat, pow: nat, nonce: nat)


  /**
   A network: its genesis header, whether it is a test network, the target that a chunk from `first` to `last` sets
   for the next chunk (None when it cannot be computed), the target before that, the form of a target in a header,
   and the work that meeting it takes.
   */
  datatype Net = Net(genesis: Header, testnet: bool, maxTarget: nat, next: (Header, Header) -> Option<nat>,
                     encode: nat -> nat, work: nat -> nat)

  /**
   What chains rely on: no chunk may follow on the virtual block, encoded targets lead to targets, and every header adds
   work.
   */
  ghost predicate NetOk(net: Net) {
    && net.genesis.prev == Zero
    && (forall first: Header, last: Header, t: nat :: t <= net.maxTarget && last.bits == net.encode(t) ==>
          net.next(first, last).Some? && net.next(first, last).value <= net.maxTarget)
    && (forall t: nat :: t <= net.maxTarget ==> net.work(t) >= 1)
  }

  /** The target that chunk `index` sets for the next one. None: a header is missing or its target is invalid. */
  function GetTarget(net: Net, hs: seq<Header>, index: int): Option<nat>
    requires index >= -1
  {
    if net.testnet then Some(0)
    else if index == -1 then Some(net.maxTarget)
    else if |hs| < (index + 1) * 2016 then None
    else net.next(hs[index * 2016], hs[index * 2016 + 2015])
  }

  /** Whether `h` may follow the first `height` headers of the chain. */
  predicate Follows(net: Net, hs: seq<Header>, height: nat, h: Header)
    requires 0 < height <= |hs|
  {
    && h.prev == HashOf(hs[height - 1])
    && MeetsTarget(net, h, GetTarget(net, hs, height / 2016 - 1))
  }

  /** The target can be computed, and but for the test network the header states it and its hash is not above it. */
  predicate MeetsTarget(net: Net, h: Header, target: Option<nat>) {
    target.Some? && (net.testnet || (h.bits == net.encode(target.value) && h.pow <= target.value))
  }

  predicate Checked(net: Net, hs: seq<Header>, i: nat)
    requires 0 < i < |hs|
  {
    Follows(net, hs, i, hs[i])
  }

  /** A chain from the genesis header on, in which every header has been checked against the ones before it. */
  ghost predicate Verified(net: Net, hs: seq<Header>) {
    && hs != [] && hs[0] == net.genesis && NetOk(net)
    && forall i {:trigger Checked(net, hs, i)} :: 0 < i < |hs| ==> Checked(net, hs, i)
  }

  // ----- targets

  /** Every target of a verified chain can be computed, for the next header as well. */
  lemma TargetsKnown(net: Net, hs: seq<Header>, index: int)
    requires Verified(net, hs) && index >= -1 && (index + 1) * 2016 <= |hs|
    ensures GetTarget(net, hs, index).Some? && (net.testnet || GetTarget(net, hs, index).value <= net.maxTarget)
    decreases index
  {
    if !net.testnet && index >= 0 {
      var i := index * 2016 + 2015;
      assert Checked(net, hs, i);
      TargetsKnown(net, hs, index - 1);
    }
  }

  lemma TargetOfPrefix(net: Net, hs: seq<Header>, k: nat, index: int)
    requires index >= -1 && (index + 1) * 2016 <= k <= |hs|
    ensures GetTarget(net, hs[..k], index) == GetTarget(net, hs, index)
  {
  }

  // ----- chains

  lemma FollowsPrefix(net: Net, hs: seq<Header>, k: nat, height: nat, h: Header)
    requires 0 < height <= k <= |hs|
    ensures Follows(net, hs[..k], height, h) == Follows(net, hs, height, h)
  {
    TargetOfPrefix(net, hs, k, height / 2016 - 1);
  }

  lemma VerifiedPrefix(net: Net, hs: seq<Header>, k: nat)
    requires Verified(net, hs) && 0 < k <= |hs|
    ensures Verified(net, hs[..k])
  {
    forall i | 0 < i < k
      ensures Checked(net, hs[..k], i)
    {
      assert Checked(net, hs, i);
      FollowsPrefix(net, hs, k, i, hs[i]);
    }
  }

  lemma VerifiedExtends(net: Net, hs: seq<Header>, k: nat, h: Header)
    requires Verified(net, hs) && 0 < k <= |hs| && Follows(net, hs, k, h)
    ensures Verified(net, hs[..k] + [h])
  {
    var hs' := hs[..k] + [h];
    assert hs'[..k] == hs[..k];
    forall i | 0 < i < |hs'|
      ensures Checked(net, hs', i)
    {
      FollowsPrefix(net, hs, k, i, hs'[i]);
      FollowsPrefix(net, hs', k, i, hs'[i]);
      assert i < k ==> Checked(net, hs, i);
    }
  }

  /** A header determines its height and all headers before it. */
  lemma {:induction false} SharedHeader(net: Net, a: seq<Header>, b: seq<Header>, i: nat, j: nat)
    requires Verified(net, a) && Verified(net, b) && i < |a| && j < |b| && a[i] == b[j]
    ensures i == j && a[..i + 1] == b[..j + 1]
  {
    assert i > 0 ==> Checked(net, a, i);
    assert j > 0 ==> Checked(net, b, j);
    if i > 0 && j > 0 {
      SharedHeader(net, a, b, i - 1, j - 1);
      assert a[..i + 1] == a[..i] + [a[i]] && b[..j + 1] == b[..j] + [b[j]];
    } else {
      assert a[..1] == [a[0]] && b[..1] == [b[0]];
    }
  }

  // ----- work

  function HeaderWork(net: Net, hs: seq<Header>, height: nat): Option<nat> {
    match GetTarget(net, hs, height / 2016 - 1)
    case None => None
    case Some(t) => Some(net.work(t))
  }

  /** Work of the first `n` headers. */
  ghost function WorkUpTo(net: Net, hs: seq<Header>, n: nat): (w: nat)
    requires Verified(net, hs) && n <= |hs|
  {
    if n == 0 then 0
    else
      TargetsKnown(net, hs, (n - 1) / 2016 - 1);
      WorkUpTo(net, hs, n - 1) + HeaderWork(net, hs, n - 1).value
  }

  /** The test network counts headers instead. */
  ghost function Work(net: Net, hs: seq<Header>): nat
    requires Verified(net, hs)
  {
    if net.testnet then |hs| - 1 else WorkUpTo(net, hs, |hs|)
  }

  lemma {:induction false} WorkOfPrefix(net: Net, hs: seq<Header>, k: nat, n: nat)
    requires Verified(net, hs) && 0 < k <= |hs| && n <= k
    ensures Verified(net, hs[..k]) && WorkUpTo(net, hs[..k], n) == WorkUpTo(net, hs, n)
  {
    VerifiedPrefix(net, hs, k);
    if n > 0 {
      WorkOfPrefix(net, hs, k, n - 1);
      TargetOfPrefix(net, hs, k, (n - 1) / 2016 - 1);
    }
  }

  lemma {:induction false} WorkIncreases(net: Net, hs: seq<Header>, m: nat, n: nat)
    requires Verified(net, hs) && m <= n <= |hs|
    ensures WorkUpTo(net, hs, m) + (n - m) <= WorkUpTo(net, hs, n)
    decreases n
  {
    if m < n {
      WorkIncreases(net, hs, m, n - 1);
      TargetsKnown(net, hs, (n - 1) / 2016 - 1);
    }
  }

  /** A longer chain with the same headers in front has more work. */
  lemma WorkGrows(net: Net, hs: seq<Header>, k: nat)
    requires Verified(net, hs) && 0 < k < |hs|
    ensures Verified(net, hs[..k]) && Work(net, hs[..k]) < Work(net, hs)
  {
    WorkOfPrefix(net, hs, k, k);
    WorkIncreases(net, hs, k, |hs|);
  }

  /** From the start of a chunk on, all its headers have the same work. */
  lemma {:induction false} WorkOfChunk(net: Net, hs: seq<Header>, start: nat, m: nat)
    requires Verified(net, hs) && start % 2016 == 0 && m <= 2016 && start + m <= |hs|
    ensures HeaderWork(net, hs, start + 2015).Some?
    ensures WorkUpTo(net, hs, start + m) == WorkUpTo(net, hs, start) + m * HeaderWork(net, hs, start + 2015).value
  {
    hide Checked;
    TargetsKnown(net, hs, start / 2016 - 1);
    if m > 0 {
      WorkOfChunk(net, hs, start, m - 1);
      SameChunk(start, m - 1);
      var w := HeaderWork(net, hs, start + 2015).value;
      assert HeaderWork(net, hs, start + m - 1) == HeaderWork(net, hs, start + 2015);
      assert m * w == (m - 1) * w + w;
    }
  }

  lemma SameChunk(start: nat, i: nat)
    requires start % 2016 == 0 && i < 2016
    ensures (start + i) / 2016 == start / 2016 == (start + 2015) / 2016
  {
  }
}
