/**
 Statements that proofs pass along without looking inside.

 A ghost function that returns a `Fact` states something that callers hand on as a whole: `F(x).holds` is proved from
 `F(x).holds`, whatever it says. Where what it says is a long statement over a whole tree of chains, it is moreover kept
 folded:

     Fact(forall n {:trigger Unfold(n)} :: Folded(n) ==> P(x))

 says `P(x)`, as `Folded` and `Unfold` are always true, but a proof can use `P(x)` only after it has said
 `assert Unfold(0)`. Lemmas that do so are the ones that open the statement; all others do not pay for its quantifiers.
 The models of the chains, of the wallet's coins and of one run of a payment channel use this.
 */
module Folding {
  datatype Fact = Fact(holds: bool)

  predicate Unfold(n: int) {
    true
  }

  predicate Folded(n: int) {
    true
  }
}
