/** Choosing which buckets of coins to spend, pseudo-randomly and preferring confirmed ones. */
module CoinChoosers {
  import opened Options
  import opened Bytes
  import opened CoinBuckets

  /** A stream of bytes that is determined by the seed. */
  class PRNG {
    const hash: seq<byte> -> seq<byte>
    var sha: seq<byte>
    var pool: seq<byte>

    ghost predicate Valid()
      reads this
    {
      sha != [] && forall b :: hash(b) != []
    }

    constructor (hash: seq<byte> -> seq<byte>, seed: seq<byte>)
      requires forall b :: hash(b) != []
      ensures Valid() && this.hash == hash && sha == hash(seed) && pool == []
    {
      this.hash := hash;
      sha := hash(seed);
      pool := [];
    }

    method GetBytes(n: nat) returns (result: seq<byte>)
      requires Valid()
      modifies this
      ensures Valid() && |result| == n
    {
      while |pool| < n
        invariant Valid()
        decreases n - |pool|
      {
        pool := pool + sha;
        sha := hash(sha);
      }
      result := pool[..n];
      pool := pool[n..];
    }

    /** A number from `start` up to but not including `end`. */
    method RandInt(start: int, end: int) returns (r: int)
      requires Valid() && start < end
      modifies this
      ensures Valid() && start <= r < end
    {
      var n := end - start;
      var x, p := 0, 1;
      while p < n
        invariant Valid() && p >= 1 && x >= 0
        decreases n - p
      {
        var b := GetBytes(1);
        x := b[0] + x * 256;
        p := p * 256;
      }
      r := start + x % n;
    }

    /** The elements stay the same, in another order. */
    method Shuffle(x: array<nat>)
      requires Valid()
      modifies this, x
      ensures Valid() && multiset(x[..]) == multiset(old(x[..]))
    {
      var i := x.Length - 1;
      while i >= 1
        invariant Valid() && multiset(x[..]) == multiset(old(x[..]))
      {
        var j := RandInt(0, i + 1);
        x[i], x[j] := x[j], x[i];
        i := i - 1;
      }
    }
  }

  /** What a search for sufficient sets of buckets yields. */
  datatype Candidates = Found(sets: seq<seq<Bucket>>) | NotEnoughFunds

  // ----- choosing by index

  predicate Indices(c: seq<nat>, n: nat) {
    && (forall i :: 0 <= i < |c| ==> c[i] < n)
    && (forall i, j :: 0 <= i < j < |c| ==> c[i] != c[j])
  }

  function Pick(buckets: seq<Bucket>, c: seq<nat>): (r: seq<Bucket>)
    requires forall i :: 0 <= i < |c| ==> c[i] < |buckets|
    ensures |r| == |c| && forall i :: 0 <= i < |c| ==> r[i] == buckets[c[i]]
  {
    seq(|c|, i requires 0 <= i < |c| => buckets[c[i]])
  }

  /** The number goes where it belongs among ascending ones. */
  function InsertIndex(x: nat, s: seq<nat>): (r: seq<nat>)
    ensures multiset(r) == multiset(s) + multiset{x}
  {
    if s == [] then [x]
    else if s[|s| - 1] <= x then s + [x]
    else
      assert s == s[..|s| - 1] + [s[|s| - 1]];
      InsertIndex(x, s[..|s| - 1]) + [s[|s| - 1]]
  }

  function SortIndices(s: seq<nat>): (r: seq<nat>)
    ensures multiset(r) == multiset(s)
  {
    if s == [] then []
    else
      assert s == s[..|s| - 1] + [s[|s| - 1]];
      InsertIndex(s[|s| - 1], SortIndices(s[..|s| - 1]))
  }

  predicate Permutes(p: seq<nat>, n: nat) {
    multiset(p) == multiset(seq(n, i requires 0 <= i < n => i))
  }

  lemma MultisetIndex(s: seq<nat>, x: nat)
    ensures x in multiset(s) <==> exists i :: 0 <= i < |s| && s[i] == x
  {
  }

  /** No index twice, none out of range. */
  lemma IndicesOf(a: seq<nat>, b: seq<nat>, n: nat)
    requires Indices(a, n) && multiset(a) == multiset(b)
    ensures Indices(b, n)
  {
    forall i | 0 <= i < |b|
      ensures b[i] < n
    {
      assert b[i] in multiset(a);
    }
    forall i, j | 0 <= i < j < |b|
      ensures b[i] != b[j]
    {
      if b[i] == b[j] {
        TwiceThere(b, i, j);
        OnceThere(a, n, b[i]);
      }
    }
  }

  lemma TwiceThere(b: seq<nat>, i: nat, j: nat)
    requires i < j < |b| && b[i] == b[j]
    ensures multiset(b)[b[i]] >= 2
  {
    assert b == b[..i] + [b[i]] + b[i + 1..j] + [b[j]] + b[j + 1..];
  }

  lemma {:induction false} OnceThere(a: seq<nat>, n: nat, x: nat)
    requires Indices(a, n)
    ensures multiset(a)[x] <= 1
  {
    if a != [] {
      var front := a[..|a| - 1];
      assert a == front + [a[|a| - 1]];
      OnceThere(front, n, x);
      if x == a[|a| - 1] {
        assert x !in multiset(front) by {
          MultisetIndex(front, x);
        }
      }
    }
  }

  lemma PermutationIndices(p: seq<nat>, n: nat)
    requires Permutes(p, n)
    ensures Indices(p, n)
  {
    IndicesOf(seq(n, i requires 0 <= i < n => i), p, n);
  }

  lemma {:induction false} PickPermuted(buckets: seq<Bucket>, a: seq<nat>, b: seq<nat>)
    requires multiset(a) == multiset(b) && (forall i :: 0 <= i < |a| ==> a[i] < |buckets|)
    ensures forall i :: 0 <= i < |b| ==> b[i] < |buckets|
    ensures multiset(Pick(buckets, a)) == multiset(Pick(buckets, b))
    decreases |a|
  {
    forall i | 0 <= i < |b|
      ensures b[i] < |buckets|
    {
      assert b[i] in multiset(a);
    }
    assert |multiset(a)| == |a| && |multiset(b)| == |b|;
    if a != [] {
      var i := IndexOf(b, a[|a| - 1], a);
      DropLast(a);
      DropAt(b, i);
      PickPermuted(buckets, a[..|a| - 1], b[..i] + b[i + 1..]);
      PickSplit(buckets, a, b, i);
    }
  }

  lemma PickSplit(buckets: seq<Bucket>, a: seq<nat>, b: seq<nat>, i: nat)
    requires a != [] && i < |b| && b[i] == a[|a| - 1]
    requires (forall k :: 0 <= k < |a| ==> a[k] < |buckets|) && (forall k :: 0 <= k < |b| ==> b[k] < |buckets|)
    requires multiset(Pick(buckets, a[..|a| - 1])) == multiset(Pick(buckets, b[..i] + b[i + 1..]))
    ensures multiset(Pick(buckets, a)) == multiset(Pick(buckets, b))
  {
    hide Pick;
    var x := b[i];
    assert Pick(buckets, a) == Pick(buckets, a[..|a| - 1]) + [buckets[x]];
    assert Pick(buckets, b[..i] + b[i + 1..]) == Pick(buckets, b[..i]) + Pick(buckets, b[i + 1..]);
    assert Pick(buckets, b) == Pick(buckets, b[..i]) + [buckets[x]] + Pick(buckets, b[i + 1..]);
  }

  /** A choice by distinct indices is part of the buckets. */
  lemma PickIsPart(buckets: seq<Bucket>, p: seq<nat>, k: nat)
    requires Permutes(p, |buckets|) && k <= |p|
    ensures forall i :: 0 <= i < |p| ==> p[i] < |buckets|
    ensures multiset(Pick(buckets, p)) == multiset(buckets)
    ensures multiset(Pick(buckets, p[..k])) <= multiset(buckets)
  {
    var id := seq(|buckets|, i requires 0 <= i < |buckets| => i);
    PickPermuted(buckets, id, p);
    assert Pick(buckets, id) == buckets;
    assert Pick(buckets, p) == Pick(buckets, p[..k]) + Pick(buckets, p[k..]);
  }

  // ----- candidates

  /** Part of the buckets, enough, and none of its runs of most valuable buckets would do. */
  ghost predicate Candidate(test: Test, buckets: seq<Bucket>, c: seq<Bucket>) {
    && multiset(c) <= multiset(buckets) && Enough(test, c) && Descending(c)
    && forall k :: 0 <= k < |c| ==> !Enough(test, c[..k])
  }

  /** Distinct buckets that are enough. */
  ghost predicate GoodChoice(test: Test, buckets: seq<Bucket>, c: seq<nat>) {
    Indices(c, |buckets|) && multiset(Pick(buckets, c)) <= multiset(buckets) && Enough(test, Pick(buckets, c))
  }

  /** The buckets in the order of the permutation, until there are enough; None: all together are not. */
  method EnoughInOrder(buckets: seq<Bucket>, test: Test, permutation: seq<nat>) returns (count: Option<nat>)
    requires forall i :: 0 <= i < |permutation| ==> permutation[i] < |buckets|
    ensures count.Some? ==> 1 <= count.value <= |permutation| && Enough(test, Pick(buckets, permutation[..count.value]))
    ensures count.None? && permutation != [] ==> !Enough(test, Pick(buckets, permutation))
  {
    var bkts: seq<Bucket> := [];
    var valueSum := 0;
    for i := 0 to |permutation|
      invariant bkts == Pick(buckets, permutation[..i]) && valueSum == ValueSum(bkts)
      invariant i > 0 ==> !Enough(test, bkts)
    {
      var bucket := buckets[permutation[i]];
      assert (bkts + [bucket])[..|bkts|] == bkts;
      assert Pick(buckets, permutation[..i + 1]) == bkts + [bucket];
      bkts := bkts + [bucket];
      valueSum := valueSum + bucket.value;
      if test(bkts, valueSum) {
        return Some(i + 1);
      }
    }
    assert permutation[..|permutation|] == permutation;
    count := None;
  }

  /** Each choice, without what it does not need. */
  method StripAll(buckets: seq<Bucket>, test: Test, choices: set<seq<nat>>) returns (sets: seq<seq<Bucket>>)
    requires OrderFree(test) && forall c :: c in choices ==> GoodChoice(test, buckets, c)
    ensures |sets| == |choices| && forall i :: 0 <= i < |sets| ==> Candidate(test, buckets, sets[i])
  {
    sets := [];
    var todo := choices;
    while todo != {}
      invariant todo <= choices && |sets| + |todo| == |choices|
      invariant forall i :: 0 <= i < |sets| ==> Candidate(test, buckets, sets[i])
      decreases |todo|
    {
      var c :| c in todo;
      var stripped := StripEnough(test, buckets, Pick(buckets, c));
      sets := sets + [stripped];
      todo := todo - {c};
    }
  }

  /** Stripping what is enough never raises. */
  method StripEnough(test: Test, buckets: seq<Bucket>, b: seq<Bucket>) returns (stripped: seq<Bucket>)
    requires OrderFree(test) && Enough(test, b) && multiset(b) <= multiset(buckets)
    ensures Candidate(test, buckets, stripped) && multiset(stripped) <= multiset(b)
  {
    var r := StripUnneeded(b, test);
    AllIsEnough(test, b);
    if r.None? {
      assert false;
    } else {
      StrippedPart(test, b, r.value);
      SortDescending(b);
      stripped := r.value;
    }
  }

  /** Fewer than `k` classes are not enough. */
  ghost predicate NotEnoughBefore(test: Test, buckets: seq<Bucket>, k: nat) {
    forall j :: 1 <= j < k ==> !Enough(test, Before(buckets, j))
  }

  /** Only the first `k` classes are used, and fewer would not have been enough. */
  ghost predicate FromClasses(test: Test, buckets: seq<Bucket>, sets: seq<seq<Bucket>>, k: nat) {
    && 1 <= k <= 3 && NotEnoughBefore(test, buckets, k)
    && forall i :: 0 <= i < |sets| ==> multiset(sets[i]) <= multiset(Before(buckets, k))
  }

  // ----- confirmed coins first

  /** 0 for buckets of confirmed coins only, 1 for unconfirmed ones, 2 for the rest. */
  function Class(b: Bucket): nat {
    if b.minHeight > 0 then 0 else if b.minHeight == 0 then 1 else 2
  }

  function OfClass(buckets: seq<Bucket>, k: nat): (r: seq<Bucket>)
    ensures forall b :: b in r ==> Class(b) == k
  {
    if buckets == [] then []
    else
      OfClass(buckets[..|buckets| - 1], k) + if Class(buckets[|buckets| - 1]) == k then [buckets[|buckets| - 1]] else []
  }

  /** All buckets of the classes before `k`. */
  function Before(buckets: seq<Bucket>, k: nat): seq<Bucket> {
    if k == 0 then [] else Before(buckets, k - 1) + OfClass(buckets, k - 1)
  }

  lemma OfClassNext(front: seq<Bucket>, x: Bucket, k: nat)
    ensures multiset(OfClass(front + [x], k)) ==
            multiset(OfClass(front, k)) + if Class(x) == k then multiset{x} else multiset{}
  {
    assert (front + [x])[..|front|] == front;
  }

  lemma {:induction false} ClassesTogether(buckets: seq<Bucket>)
    ensures multiset(OfClass(buckets, 0)) + multiset(OfClass(buckets, 1)) +
            multiset(OfClass(buckets, 2)) == multiset(buckets)
  {
    if buckets != [] {
      var front, x := buckets[..|buckets| - 1], buckets[|buckets| - 1];
      ClassesTogether(front);
      assert buckets == front + [x];
      OfClassNext(front, x, 0);
      OfClassNext(front, x, 1);
      OfClassNext(front, x, 2);
      Dealt(multiset(OfClass(front, 0)), multiset(OfClass(front, 1)), multiset(OfClass(front, 2)), x);
    }
  }

  lemma Dealt(a: multiset<Bucket>, b: multiset<Bucket>, c: multiset<Bucket>, x: Bucket)
    ensures (a + multiset{x}) + (b + multiset{}) + (c + multiset{}) == a + b + c + multiset{x}
    ensures (a + multiset{}) + (b + multiset{x}) + (c + multiset{}) == a + b + c + multiset{x}
    ensures (a + multiset{}) + (b + multiset{}) + (c + multiset{x}) == a + b + c + multiset{x}
  {
  }

  lemma ClassesPart(buckets: seq<Bucket>, k: nat)
    requires k <= 3
    ensures multiset(Before(buckets, k)) <= multiset(buckets)
    ensures multiset(Before(buckets, 3)) == multiset(buckets) && Before(buckets, 1) == OfClass(buckets, 0)
  {
    hide OfClass;
    ClassesTogether(buckets);
    assert Before(buckets, 1) == [] + OfClass(buckets, 0) == OfClass(buckets, 0);
    assert Before(buckets, 2) == OfClass(buckets, 0) + OfClass(buckets, 1);
    assert Before(buckets, 3) == OfClass(buckets, 0) + OfClass(buckets, 1) + OfClass(buckets, 2);
  }

  /** If the confirmed buckets are enough, they are the only ones used, and the search does not fail. */
  lemma ConfirmedOnly(test: Test, buckets: seq<Bucket>, r: Candidates)
    requires r.Found? ==> exists k :: FromClasses(test, buckets, r.sets, k)
    requires r.NotEnoughFunds? ==> NotEnoughBefore(test, buckets, 4)
    ensures Enough(test, OfClass(buckets, 0)) ==>
              r.Found? && forall i :: 0 <= i < |r.sets| ==> multiset(r.sets[i]) <= multiset(OfClass(buckets, 0))
  {
    ClassesPart(buckets, 1);
    if Enough(test, Before(buckets, 1)) && r.Found? {
      var k :| FromClasses(test, buckets, r.sets, k);
      assert k == 1;
    }
  }

  /** The buckets whose coins are all at that height or above. */
  function AtLeast(buckets: seq<Bucket>, height: int): seq<Bucket> {
    if buckets == [] then []
    else
      var front, x := AtLeast(buckets[..|buckets| - 1], height), buckets[|buckets| - 1];
      if x.minHeight >= height then front + [x] else front
  }

  lemma {:induction false} HighEnough(buckets: seq<Bucket>)
    ensures OfClass(buckets, 0) == AtLeast(buckets, 1)
    ensures multiset(OfClass(buckets, 0)) + multiset(OfClass(buckets, 1)) == multiset(AtLeast(buckets, 0))
  {
    if buckets != [] {
      HighEnough(buckets[..|buckets| - 1]);
    }
  }

  /** If buckets of confirmed (or of confirmed and unconfirmed) coins are enough, only such are used. */
  lemma HeightsOnly(test: Test, buckets: seq<Bucket>, r: Candidates)
    requires OrderFree(test)
    requires r.Found? ==> exists k :: FromClasses(test, buckets, r.sets, k)
    requires r.NotEnoughFunds? ==> NotEnoughBefore(test, buckets, 4)
    ensures Enough(test, AtLeast(buckets, 1)) ==>
              r.Found? && forall i, b :: 0 <= i < |r.sets| && b in r.sets[i] ==> b.minHeight > 0
    ensures Enough(test, AtLeast(buckets, 0)) ==>
              r.Found? && forall i, b :: 0 <= i < |r.sets| && b in r.sets[i] ==> b.minHeight >= 0
  {
    hide Enough, AtLeast;
    HighEnough(buckets);
    ClassesPart(buckets, 1);
    ClassesPart(buckets, 2);
    EnoughPermuted(test, Before(buckets, 1), AtLeast(buckets, 1));
    EnoughPermuted(test, Before(buckets, 2), AtLeast(buckets, 0));
    if r.Found? {
      var k :| FromClasses(test, buckets, r.sets, k);
      forall i, b | 0 <= i < |r.sets| && b in r.sets[i]
        ensures k == 1 ==> b.minHeight > 0
        ensures k <= 2 ==> b.minHeight >= 0
      {
        assert b in multiset(r.sets[i]) && b in multiset(Before(buckets, k));
        assert k == 1 ==> b in OfClass(buckets, 0);
        assert k == 2 ==> b in OfClass(buckets, 0) + OfClass(buckets, 1);
      }
    }
  }

  /** Whether some buckets are enough together with those that are selected already. */
  function Together(test: Test, selected: seq<Bucket>): Test {
    (b: seq<Bucket>, v: int) => test(selected + b, v + ValueSum(selected))
  }

  lemma TogetherOrderFree(test: Test, selected: seq<Bucket>)
    requires OrderFree(test)
    ensures OrderFree(Together(test, selected))
  {
    forall a: seq<Bucket>, b: seq<Bucket>, v: int | multiset(a) == multiset(b)
      ensures Together(test, selected)(a, v) == Together(test, selected)(b, v)
    {
      assert multiset(selected + a) == multiset(selected + b);
    }
  }

  lemma TogetherEnough(test: Test, selected: seq<Bucket>, b: seq<Bucket>)
    ensures Enough(Together(test, selected), b) == Enough(test, selected + b)
  {
    ValueConcat(selected, b);
  }

  /** The candidates of one class, each with everything that is selected already. */
  method WithSelected(selected: seq<Bucket>, of: seq<Bucket>, all: seq<Bucket>, test: Test, sets: seq<seq<Bucket>>)
    returns (r: seq<seq<Bucket>>)
    requires OrderFree(test) && multiset(selected + of) <= multiset(all)
    requires forall i :: 0 <= i < |sets| ==> Candidate(Together(test, selected), of, sets[i])
    ensures |r| == |sets| && forall i :: 0 <= i < |r| ==>
            Candidate(test, all, r[i]) && multiset(r[i]) <= multiset(selected + of)
  {
    r := [];
    for i := 0 to |sets|
      invariant |r| == i && forall j :: 0 <= j < i ==>
                Candidate(test, all, r[j]) && multiset(r[j]) <= multiset(selected + of)
    {
      TogetherEnough(test, selected, sets[i]);
      assert multiset(selected + sets[i]) <= multiset(selected + of);
      var stripped := StripEnough(test, all, selected + sets[i]);
      r := r + [stripped];
    }
  }

  method Singles(buckets: seq<Bucket>, test: Test) returns (choices: set<seq<nat>>)
    ensures forall c :: c in choices ==> GoodChoice(test, buckets, c)
  {
    choices := {};
    for n := 0 to |buckets|
      invariant forall c :: c in choices ==> GoodChoice(test, buckets, c)
    {
      if test([buckets[n]], buckets[n].value) {
        assert Pick(buckets, [n]) == [buckets[n]] && ValueSum([buckets[n]]) == buckets[n].value;
        assert buckets == buckets[..n] + [buckets[n]] + buckets[n + 1..];
        choices := choices + {[n]};
      }
    }
  }

  class CoinChooserRandom {
    const p: PRNG

    constructor (p: PRNG)
      ensures this.p == p
    {
      this.p := p;
    }

    /** One attempt: a random order of the buckets, and as many of them in that order as it takes. */
    method Attempt(buckets: seq<Bucket>, test: Test, permutation: array<nat>) returns (choice: Option<seq<nat>>)
      requires p.Valid() && OrderFree(test) && buckets != [] && Permutes(permutation[..], |buckets|)
      modifies p, permutation
      ensures p.Valid() && Permutes(permutation[..], |buckets|)
      ensures choice.Some? ==> GoodChoice(test, buckets, choice.value)
      ensures choice.None? ==> !Enough(test, buckets)
    {
      p.Shuffle(permutation);
      ghost var order := permutation[..];
      PickIsPart(buckets, order, 0);
      assert order != [] by {
        assert |multiset(order)| == |order|;
      }
      var count := EnoughInOrder(buckets, test, permutation[..]);
      if count.None? {
        EnoughPermuted(test, Pick(buckets, order), buckets);
        return None;
      }
      var chosen := permutation[..count.value];
      assert chosen == order[..count.value];
      PickIsPart(buckets, order, count.value);
      PermutationIndices(order, |buckets|);
      IndicesOf(chosen, SortIndices(chosen), |buckets|);
      PickPermuted(buckets, chosen, SortIndices(chosen));
      EnoughPermuted(test, Pick(buckets, chosen), Pick(buckets, SortIndices(chosen)));
      choice := Some(SortIndices(chosen));
    }

    /** Single buckets that are enough, and sets from random orders. */
    method BucketCandidatesAny(buckets: seq<Bucket>, test: Test) returns (r: Candidates)
      requires p.Valid() && OrderFree(test)
      modifies p
      ensures p.Valid()
      ensures r.Found? ==> r.sets != [] && forall i :: 0 <= i < |r.sets| ==> Candidate(test, buckets, r.sets[i])
      ensures r.NotEnoughFunds? ==> !Enough(test, buckets)
    {
      if buckets == [] {
        return if test([], 0) then Found([[]]) else NotEnoughFunds;
      }
      var choices := Singles(buckets, test);
      var attempts := if (|buckets| - 1) * 10 + 1 < 100 then (|buckets| - 1) * 10 + 1 else 100;
      var permutation := new nat[|buckets|](i => i);
      assert permutation[..] == seq(|buckets|, i requires 0 <= i < |buckets| => i);
      for i := 0 to attempts
        invariant p.Valid() && fresh(permutation) && Permutes(permutation[..], |buckets|)
        invariant (i > 0 ==> choices != {}) && forall c :: c in choices ==> GoodChoice(test, buckets, c)
      {
        var choice := Attempt(buckets, test, permutation);
        if choice.None? {
          return NotEnoughFunds;
        }
        choices := choices + {choice.value};
      }
      var sets := StripAll(buckets, test, choices);
      r := Found(sets);
    }

    /** Candidates from the first `k + 1` classes, with all buckets of the first `k` selected. */
    method FromNextClass(buckets: seq<Bucket>, test: Test, selected: seq<Bucket>, of: seq<Bucket>, ghost k: nat)
      returns (r: Candidates)
      requires p.Valid() && OrderFree(test) && k < 3 && selected == Before(buckets, k) && of == OfClass(buckets, k)
      modifies p
      ensures p.Valid()
      ensures r.Found? ==> r.sets != [] && forall i :: 0 <= i < |r.sets| ==>
                Candidate(test, buckets, r.sets[i]) && multiset(r.sets[i]) <= multiset(Before(buckets, k + 1))
      ensures r.NotEnoughFunds? ==> !Enough(test, Before(buckets, k + 1))
    {
      ClassesPart(buckets, k + 1);
      TogetherOrderFree(test, selected);
      TogetherEnough(test, selected, of);
      var found := BucketCandidatesAny(of, Together(test, selected));
      if found.NotEnoughFunds? {
        return NotEnoughFunds;
      }
      var sets := WithSelected(selected, of, buckets, test, found.sets);
      r := Found(sets);
    }

    /** Confirmed buckets if they are enough, else also unconfirmed ones, else all. */
    method BucketCandidatesPreferConfirmed(buckets: seq<Bucket>, test: Test) returns (r: Candidates)
      requires p.Valid() && OrderFree(test)
      modifies p
      ensures p.Valid()
      ensures r.Found? ==> r.sets != [] && forall i :: 0 <= i < |r.sets| ==> Candidate(test, buckets, r.sets[i])
      ensures r.Found? ==> exists k :: FromClasses(test, buckets, r.sets, k)
      ensures r.NotEnoughFunds? ==> NotEnoughBefore(test, buckets, 4) && !Enough(test, buckets)
      // if buckets of confirmed, or of confirmed and unconfirmed, coins are enough, these alone are used
      ensures Enough(test, AtLeast(buckets, 1)) ==>
                r.Found? && forall i, b :: 0 <= i < |r.sets| && b in r.sets[i] ==> b.minHeight > 0
      ensures Enough(test, AtLeast(buckets, 0)) ==>
                r.Found? && forall i, b :: 0 <= i < |r.sets| && b in r.sets[i] ==> b.minHeight >= 0
      ensures Enough(test, OfClass(buckets, 0)) ==>
                r.Found? && forall i :: 0 <= i < |r.sets| ==> multiset(r.sets[i]) <= multiset(OfClass(buckets, 0))
    {
      hide Enough, OfClass, Descending, Candidate;
      var selected: seq<Bucket> := [];
      for k := 0 to 3
        invariant p.Valid() && selected == Before(buckets, k) && NotEnoughBefore(test, buckets, k + 1)
      {
        var of := OfClass(buckets, k);
        var found := FromNextClass(buckets, test, selected, of, k);
        if found.Found? {
          assert FromClasses(test, buckets, found.sets, k + 1);
          ConfirmedOnly(test, buckets, found);
          HeightsOnly(test, buckets, found);
          return found;
        }
        selected := selected + of;
      }
      ClassesPart(buckets, 3);
      EnoughPermuted(test, Before(buckets, 3), buckets);
      r := NotEnoughFunds;
      ConfirmedOnly(test, buckets, r);
      HeightsOnly(test, buckets, r);
    }
  }
}
