/**
 * The SDK's `sdk.Coins` value type, as far as the name service relies on it.
 *
 * The SDK is not part of this model, so everything below is an ASSUMPTION
 * about it. A Coins value is a list of (denomination, amount) entries, like
 * the SDK's slice of `Coin`; what it means is the finite map
 * `d -> AmountOf(c, d)`. `Plus` and `Minus` combine entry lists and are
 * right with respect to that map. `IsPositive` holds when the list is
 * non-empty and every amount is positive; `IsGTE(a, b)` holds when every
 * denomination of `a - b` is non-negative.
 */
module Coins {
  import opened ByteStrings

  type Denom = Bytes

  datatype Coin = Coin(denom: Denom, amount: int)

  type Coins = seq<Coin>

  /** The amount of denomination `d` held by `c`: the map view of Coins. */
  function AmountOf(c: Coins, d: Denom): int
  {
    if c == [] then 0
    else (if c[0].denom == d then c[0].amount else 0) + AmountOf(c[1..], d)
  }

  /** Amounts of a concatenation add up denomination by denomination. */
  lemma {:induction false} AmountOfConcat(a: Coins, b: Coins)
    ensures forall d :: AmountOf(a + b, d) == AmountOf(a, d) + AmountOf(b, d)
  {
    if a == [] {
      assert a + b == b;
    } else {
      assert (a + b)[0] == a[0];
      assert (a + b)[1..] == a[1..] + b;
      AmountOfConcat(a[1..], b);
    }
  }

  /** A denomination that no entry names has amount zero. */
  lemma {:induction false} AmountOfAbsent(c: Coins, d: Denom)
    requires forall i :: 0 <= i < |c| ==> c[i].denom != d
    ensures AmountOf(c, d) == 0
  {
    if c != [] {
      AmountOfAbsent(c[1..], d);
    }
  }

  /** No entry has a negative amount. */
  predicate NoNegativeEntry(c: Coins)
  {
    forall i :: 0 <= i < |c| ==> c[i].amount >= 0
  }

  /** With no negative entry, no denomination has a negative amount. */
  lemma {:induction false} AmountOfNoNegativeEntry(c: Coins, d: Denom)
    requires NoNegativeEntry(c)
    ensures AmountOf(c, d) >= 0
  {
    if c != [] {
      AmountOfNoNegativeEntry(c[1..], d);
    }
  }

  /** Sum of two Coins values (the SDK's `Plus`). */
  function Plus(a: Coins, b: Coins): (r: Coins)
    ensures forall d :: AmountOf(r, d) == AmountOf(a, d) + AmountOf(b, d)
  {
    AmountOfConcat(a, b);
    a + b
  }

  /** Every amount negated (the SDK's `Negative`). */
  function Negate(c: Coins): (r: Coins)
    ensures |r| == |c|
    ensures forall i :: 0 <= i < |c| ==> r[i].denom == c[i].denom
    ensures forall d :: AmountOf(r, d) == -AmountOf(c, d)
  {
    if c == [] then []
    else
      var rest := Negate(c[1..]);
      var r := [Coin(c[0].denom, -c[0].amount)] + rest;
      assert r[1..] == rest;
      r
  }

  /** Difference of two Coins values (the SDK's `Minus`). */
  function Minus(a: Coins, b: Coins): (r: Coins)
    ensures forall d :: AmountOf(r, d) == AmountOf(a, d) - AmountOf(b, d)
  {
    Plus(a, Negate(b))
  }

  /** Every denomination that occurs in `c` has a non-negative amount (the SDK's `IsNotNegative`). */
  predicate NonNegative(c: Coins)
  {
    forall i :: 0 <= i < |c| ==> AmountOf(c, c[i].denom) >= 0
  }

  /** `a.IsGTE(b)`: every denomination of `a - b` is non-negative. */
  predicate IsGTE(a: Coins, b: Coins)
  {
    NonNegative(Minus(a, b))
  }

  /** `c.IsPositive()`: at least one entry, and every entry's amount is positive. */
  predicate IsPositive(c: Coins)
  {
    |c| > 0 && forall i :: 0 <= i < |c| ==> c[i].amount > 0
  }

  /** Checking only the denominations present is the same as checking all of them. */
  lemma NonNegativeMeaning(c: Coins)
    ensures NonNegative(c) <==> forall d :: AmountOf(c, d) >= 0
  {
    if NonNegative(c) {
      forall d
        ensures AmountOf(c, d) >= 0
      {
        if forall i :: 0 <= i < |c| ==> c[i].denom != d {
          AmountOfAbsent(c, d);
        } else {
          var i :| 0 <= i < |c| && c[i].denom == d;
          assert AmountOf(c, c[i].denom) >= 0;
        }
      }
    } else {
      var i :| 0 <= i < |c| && AmountOf(c, c[i].denom) < 0;
      assert !(AmountOf(c, c[i].denom) >= 0);
    }
  }

  /** Adding entries that are not negative to a non-negative value keeps it non-negative. */
  lemma NonNegativePlus(a: Coins, c: Coins)
    requires NonNegative(a) && NoNegativeEntry(c)
    ensures NonNegative(Plus(a, c))
  {
    var r := Plus(a, c);
    NonNegativeMeaning(a);
    NonNegativeMeaning(r);
    forall d
      ensures AmountOf(r, d) >= 0
    {
      assert AmountOf(a, d) >= 0;
      AmountOfNoNegativeEntry(c, d);
    }
  }

  /** Pointwise order on the map views: `a` holds at least as much of every denomination as `b`. */
  ghost predicate Covers(a: Coins, b: Coins)
  {
    forall d :: AmountOf(a, d) >= AmountOf(b, d)
  }

  /** `IsGTE` implies that `a` covers `b`. */
  lemma IsGTEPointwise(a: Coins, b: Coins)
    requires IsGTE(a, b)
    ensures Covers(a, b)
  {
    var m := Minus(a, b);
    NonNegativeMeaning(m);
    forall d
      ensures AmountOf(a, d) >= AmountOf(b, d)
    {
      assert AmountOf(m, d) >= 0;
    }
  }

  /** Covering every denomination implies `IsGTE`. */
  lemma PointwiseIsGTE(a: Coins, b: Coins)
    requires Covers(a, b)
    ensures IsGTE(a, b)
  {
    var m := Minus(a, b);
    forall i | 0 <= i < |m|
      ensures AmountOf(m, m[i].denom) >= 0
    {
      assert AmountOf(a, m[i].denom) >= AmountOf(b, m[i].denom);
    }
  }

  /** `IsGTE` is exactly the pointwise order on the two map views. */
  lemma IsGTEMeaning(a: Coins, b: Coins)
    ensures IsGTE(a, b) <==> Covers(a, b)
  {
    if IsGTE(a, b) {
      IsGTEPointwise(a, b);
    }
    if Covers(a, b) {
      PointwiseIsGTE(a, b);
    }
  }

  /** Every Coins value is at least itself. */
  lemma IsGTEReflexive(a: Coins)
    ensures IsGTE(a, a)
  {
    IsGTEMeaning(a, a);
  }

  /** A positive Coins value has a denomination with a positive amount. */
  lemma PositiveHasPositiveAmount(c: Coins)
    requires IsPositive(c)
    ensures AmountOf(c, c[0].denom) > 0
  {
    AmountOfNoNegativeEntry(c[1..], c[0].denom);
  }

  /** The empty Coins value is never at least a positive one. */
  lemma EmptyIsBelowPositive(b: Coins)
    requires IsPositive(b)
    ensures !IsGTE([], b)
  {
    PositiveHasPositiveAmount(b);
    IsGTEMeaning([], b);
    assert AmountOf([], b[0].denom) < AmountOf(b, b[0].denom);
    assert !Covers([], b);
  }
}
