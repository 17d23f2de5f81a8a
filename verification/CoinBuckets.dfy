/** Groups of coins that are spent together, and when they are enough to pay for a transaction. */
module CoinBuckets {
  import opened Options

  datatype Bucket = Bucket(desc: nat, weight: nat, value: nat, effectiveValue: int, numCoins: nat, minHeight: int,
                           segwit: bool)

  /** A test whether some buckets, with the sum of their values, are enough. */
  type Test = (seq<Bucket>, int) -> bool

  function ValueSum(b: seq<Bucket>): nat {
    if b == [] then 0 else ValueSum(b[..|b| - 1]) + b[|b| - 1].value
  }

  predicate Enough(test: Test, b: seq<Bucket>) {
    test(b, ValueSum(b))
  }

  /** The order of the buckets does not matter. */
  ghost predicate OrderFree(test: Test) {
    forall a, b, v :: multiset(a) == multiset(b) ==> test(a, v) == test(b, v)
  }

  // ----- sums and counts do not depend on the order

  function SumOf(b: seq<Bucket>, f: Bucket -> nat): nat {
    if b == [] then 0 else SumOf(b[..|b| - 1], f) + f(b[|b| - 1])
  }

  function Value(): Bucket -> nat {
    (x: Bucket) => x.value
  }

  function Weight(): Bucket -> nat {
    (x: Bucket) => x.weight
  }

  function LegacyInputs(): Bucket -> nat {
    (x: Bucket) => if x.segwit then 0 else x.numCoins
  }

  lemma {:induction false} SumRemove(b: seq<Bucket>, f: Bucket -> nat, i: nat)
    requires i < |b|
    ensures SumOf(b, f) == SumOf(b[..i] + b[i + 1..], f) + f(b[i])
  {
    if i == |b| - 1 {
      assert b[..i] + b[i + 1..] == b[..|b| - 1];
    } else {
      var front := b[..|b| - 1];
      SumRemove(front, f, i);
      var without := b[..i] + b[i + 1..];
      assert without[..|without| - 1] == front[..i] + front[i + 1..];
      assert without[|without| - 1] == b[|b| - 1];
    }
  }

  lemma {:induction false} SumPermuted(a: seq<Bucket>, b: seq<Bucket>, f: Bucket -> nat)
    requires multiset(a) == multiset(b)
    ensures SumOf(a, f) == SumOf(b, f)
    decreases |a|
  {
    if a == [] {
      EmptyPermuted(a, b);
    } else {
      var i := IndexOf(b, a[|a| - 1], a);
      DropLast(a);
      DropAt(b, i);
      SumRemove(b, f, i);
      SumPermuted(a[..|a| - 1], b[..i] + b[i + 1..], f);
    }
  }

  lemma IndexOf<T>(b: seq<T>, x: T, a: seq<T>) returns (i: nat)
    requires multiset(a) == multiset(b) && x in a
    ensures i < |b| && b[i] == x
  {
    assert x in multiset(b);
    i :| 0 <= i < |b| && b[i] == x;
  }

  lemma DropAt<T>(b: seq<T>, i: nat)
    requires i < |b|
    ensures multiset(b[..i] + b[i + 1..]) == multiset(b) - multiset{b[i]}
  {
    assert b == b[..i] + [b[i]] + b[i + 1..];
  }

  lemma DropLast<T>(a: seq<T>)
    requires a != []
    ensures multiset(a[..|a| - 1]) == multiset(a) - multiset{a[|a| - 1]}
  {
    assert a == a[..|a| - 1] + [a[|a| - 1]];
  }

  lemma {:induction false} ValueSumIs(b: seq<Bucket>)
    ensures ValueSum(b) == SumOf(b, Value())
  {
    if b != [] {
      ValueSumIs(b[..|b| - 1]);
    }
  }

  lemma ValuePermuted(a: seq<Bucket>, b: seq<Bucket>)
    requires multiset(a) == multiset(b)
    ensures ValueSum(a) == ValueSum(b)
  {
    ValueSumIs(a);
    ValueSumIs(b);
    SumPermuted(a, b, Value());
  }

  lemma {:induction false} ValueConcat(a: seq<Bucket>, b: seq<Bucket>)
    ensures ValueSum(a + b) == ValueSum(a) + ValueSum(b)
  {
    if b == [] {
      assert a + b == a;
    } else {
      ValueConcat(a, b[..|b| - 1]);
      assert (a + b)[..|a + b| - 1] == a + b[..|b| - 1];
    }
  }

  lemma EnoughPermuted(test: Test, a: seq<Bucket>, b: seq<Bucket>)
    requires OrderFree(test) && multiset(a) == multiset(b)
    ensures Enough(test, a) == Enough(test, b)
  {
    ValuePermuted(a, b);
  }

  // ----- the test that a transaction asks for

  /** What the transaction fixes: its own inputs and outputs, and the fee for a weight. */
  datatype Payment = Payment(inputValue: nat, hasInputs: bool, spentAmount: nat, baseWeight: nat, fee: nat -> int)

  predicate IsSegwit(b: seq<Bucket>) {
    exists i :: 0 <= i < |b| && b[i].segwit
  }

  /** Weight without change; a segwit transaction has a marker, and its legacy inputs an empty witness each. */
  function TxWeight(p: Payment, b: seq<Bucket>): nat {
    p.baseWeight + SumOf(b, Weight()) +
    if IsSegwit(b) then 2 + SumOf(b, LegacyInputs()) else 0
  }

  function SufficientFunds(p: Payment): Test {
    (b: seq<Bucket>, valueSum: int) =>
      if p.inputValue + valueSum < p.spentAmount then false
      else if b == [] && !p.hasInputs then false
      else p.inputValue + valueSum >= p.spentAmount + p.fee(TxWeight(p, b))
  }

  lemma WeightPermuted(p: Payment, a: seq<Bucket>, b: seq<Bucket>)
    requires multiset(a) == multiset(b)
    ensures TxWeight(p, a) == TxWeight(p, b)
  {
    SumPermuted(a, b, Weight());
    SumPermuted(a, b, LegacyInputs());
    if IsSegwit(a) {
      SegwitPermuted(a, b);
    }
    if IsSegwit(b) {
      SegwitPermuted(b, a);
    }
  }

  lemma SegwitPermuted(a: seq<Bucket>, b: seq<Bucket>)
    requires multiset(a) == multiset(b) && IsSegwit(a)
    ensures IsSegwit(b)
  {
    var i :| 0 <= i < |a| && a[i].segwit;
    assert a[i] in multiset(b);
    var j :| 0 <= j < |b| && b[j] == a[i];
  }

  lemma EmptyPermuted(a: seq<Bucket>, b: seq<Bucket>)
    requires multiset(a) == multiset(b)
    ensures a == [] <==> b == []
  {
    assert |multiset(a)| == |a| && |multiset(b)| == |b|;
  }

  /** Whether some buckets pay for the transaction does not depend on their order. */
  lemma SufficientFundsOrderFree(p: Payment)
    ensures OrderFree(SufficientFunds(p))
  {
    forall a: seq<Bucket>, b: seq<Bucket>, v: int | multiset(a) == multiset(b)
      ensures SufficientFunds(p)(a, v) == SufficientFunds(p)(b, v)
    {
      EmptyPermuted(a, b);
      WeightPermuted(p, a, b);
    }
  }

  /** Enough is to have an input, and to pay for the outputs and for the fee, which may be negative. */
  lemma EnoughPays(p: Payment, b: seq<Bucket>)
    ensures Enough(SufficientFunds(p), b) <==>
            && (b != [] || p.hasInputs)
            && p.inputValue + SumOf(b, Value()) - p.spentAmount >=
               if p.fee(TxWeight(p, b)) < 0 then 0 else p.fee(TxWeight(p, b))
  {
    ValueSumIs(b);
  }

  /** One segwit input makes all others cost one weight unit more, and the transaction two. */
  lemma WeightOfOne(p: Payment, x: Bucket)
    ensures TxWeight(p, [x]) == p.baseWeight + x.weight + if x.segwit then 2 else 0
  {
    assert [x][..0] == [] && SumOf([x], Weight()) == x.weight && SumOf([x], LegacyInputs()) == LegacyInputs()(x);
    assert x.segwit ==> [x][0].segwit;
  }

  // ----- sorting by value

  /** The bucket goes in front of the first one that is worth less, and behind equals. */
  function Insert(x: Bucket, s: seq<Bucket>): (r: seq<Bucket>)
    ensures multiset(r) == multiset(s) + multiset{x}
  {
    if s == [] then [x]
    else if s[|s| - 1].value >= x.value then s + [x]
    else
      assert s == s[..|s| - 1] + [s[|s| - 1]];
      Insert(x, s[..|s| - 1]) + [s[|s| - 1]]
  }

  function SortByValue(b: seq<Bucket>): (r: seq<Bucket>)
    ensures multiset(r) == multiset(b)
  {
    if b == [] then []
    else
      assert b == b[..|b| - 1] + [b[|b| - 1]];
      Insert(b[|b| - 1], SortByValue(b[..|b| - 1]))
  }

  predicate Descending(s: seq<Bucket>) {
    forall i, j :: 0 <= i < j < |s| ==> s[i].value >= s[j].value
  }

  lemma {:induction false} InsertDescending(x: Bucket, s: seq<Bucket>)
    requires Descending(s)
    ensures Descending(Insert(x, s))
  {
    if s != [] && s[|s| - 1].value < x.value {
      var front := s[..|s| - 1];
      InsertDescending(x, front);
      forall i | 0 <= i < |Insert(x, front)|
        ensures Insert(x, front)[i].value >= s[|s| - 1].value
      {
        assert Insert(x, front)[i] in multiset(Insert(x, front));
        assert Insert(x, front)[i] == x || Insert(x, front)[i] in multiset(front);
      }
    }
  }

  lemma {:induction false} SortDescending(b: seq<Bucket>)
    ensures Descending(SortByValue(b))
  {
    if b != [] {
      SortDescending(b[..|b| - 1]);
      InsertDescending(b[|b| - 1], SortByValue(b[..|b| - 1]));
    }
  }

  // ----- leaving out what is not needed

  /** `r` is the shortest sufficient run of the most valuable buckets of `b`. */
  ghost predicate Stripped(test: Test, b: seq<Bucket>, r: seq<Bucket>) {
    && r <= SortByValue(b) && Enough(test, r)
    && forall k :: 0 <= k < |r| ==> !Enough(test, r[..k])
  }

  /** None of the runs of fewer than `n` most valuable buckets is enough. */
  ghost predicate NoneBelow(test: Test, sorted: seq<Bucket>, n: nat)
    requires n <= |sorted| + 1
  {
    forall k :: 0 <= k < n ==> !Enough(test, sorted[..k])
  }

  ghost predicate NeverEnough(test: Test, sorted: seq<Bucket>) {
    NoneBelow(test, sorted, |sorted| + 1)
  }

  lemma AllIsEnough(test: Test, b: seq<Bucket>)
    requires OrderFree(test) && Enough(test, b)
    ensures !NeverEnough(test, SortByValue(b))
  {
    var sorted := SortByValue(b);
    EnoughPermuted(test, sorted, b);
    assert sorted[..|sorted|] == sorted;
  }

  lemma StrippedIs(test: Test, b: seq<Bucket>, sorted: seq<Bucket>, n: nat)
    requires sorted == SortByValue(b) && n <= |sorted| && Enough(test, sorted[..n]) && NoneBelow(test, sorted, n)
    ensures Stripped(test, b, sorted[..n])
  {
    forall k | 0 <= k < n
      ensures !Enough(test, sorted[..n][..k])
    {
      assert sorted[..n][..k] == sorted[..k];
    }
  }

  lemma NextRun(sorted: seq<Bucket>, i: nat)
    requires i < |sorted|
    ensures ValueSum(sorted[..i + 1]) == ValueSum(sorted[..i]) + sorted[i].value
  {
    assert sorted[..i + 1][..i] == sorted[..i];
  }

  lemma NoneYet(test: Test, sorted: seq<Bucket>, n: nat)
    requires n <= |sorted| && NoneBelow(test, sorted, n) && !Enough(test, sorted[..n])
    ensures NoneBelow(test, sorted, n + 1)
  {
  }

  /** None: not even all buckets are enough. */
  method StripUnneeded(b: seq<Bucket>, test: Test) returns (r: Option<seq<Bucket>>)
    ensures r.Some? ==> Stripped(test, b, r.value)
    ensures r.None? <==> NeverEnough(test, SortByValue(b))
  {
    hide SortByValue, Stripped;
    var sorted := SortByValue(b);
    assert sorted[..0] == [];
    if test([], 0) {
      StrippedIs(test, b, sorted, 0);
      return Some([]);
    }
    NoneYet(test, sorted, 0);
    var valueSum := 0;
    for i := 0 to |sorted|
      invariant valueSum == ValueSum(sorted[..i])
      invariant NoneBelow(test, sorted, i + 1)
    {
      NextRun(sorted, i);
      valueSum := valueSum + sorted[i].value;
      if test(sorted[..i + 1], valueSum) {
        StrippedIs(test, b, sorted, i + 1);
        return Some(sorted[..i + 1]);
      }
      NoneYet(test, sorted, i + 1);
    }
    r := None;
  }

  lemma StrippedPart(test: Test, b: seq<Bucket>, r: seq<Bucket>)
    requires Stripped(test, b, r)
    ensures multiset(r) <= multiset(b)
  {
    var sorted := SortByValue(b);
    assert sorted == r + sorted[|r|..];
  }
}
