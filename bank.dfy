/**
 * The SDK's bank keeper, reduced to the balance semantics the name service
 * relies on (its internals are not part of this model). Balances are a map
 * from address to Coins; an address that is absent holds the empty Coins.
 * `SubtractCoins` and `AddCoins` refuse, and change nothing, when some
 * denomination of the new balance would be negative; `SendCoins` is a
 * subtraction from the sender followed by an addition to the recipient.
 */
module Bank {
  import opened Wrappers
  import opened Coins
  import opened Sdk

  type Balances = map<Address, Coins>

  function Balance(b: Balances, a: Address): Coins
  {
    if a in b then b[a] else []
  }

  /** The balances after taking `amt` from `a`, or `None` when `a` cannot cover it. */
  function Subtract(b: Balances, a: Address, amt: Coins): Option<Balances>
  {
    var left := Minus(Balance(b, a), amt);
    if NonNegative(left) then Some(b[a := left]) else None
  }

  /**
   * The balances after giving `amt` to `a`, or `None` when some denomination
   * of the new balance would be negative.
   */
  function Add(b: Balances, a: Address, amt: Coins): Option<Balances>
  {
    var raised := Plus(Balance(b, a), amt);
    if NonNegative(raised) then Some(b[a := raised]) else None
  }

  /** A transfer's outcome: whether it went through, and the balances it leaves. */
  datatype Transfer = Transfer(ok: bool, balances: Balances)

  /**
   * Moving `amt` from `from` to `to`: the subtraction, then the addition.
   * When the addition is refused, the subtraction has already been applied
   * and stays in the balances.
   */
  function Send(b: Balances, from: Address, to: Address, amt: Coins): Transfer
  {
    match Subtract(b, from, amt)
    case None => Transfer(false, b)
    case Some(b1) =>
      match Add(b1, to, amt)
      case None => Transfer(false, b1)
      case Some(b2) => Transfer(true, b2)
  }

  /** The sender covers `amt`, but crediting it would leave the recipient with a negative denomination. */
  predicate CreditRefused(b: Balances, from: Address, to: Address, amt: Coins)
  {
    Subtract(b, from, amt).Some? && Add(Subtract(b, from, amt).value, to, amt).None?
  }

  /** No account holds a negative amount of any denomination it lists. */
  ghost predicate AllNonNegative(b: Balances)
  {
    forall a :: a in b ==> NonNegative(b[a])
  }

  /** `a` holds exactly `amt` less in every denomination. */
  ghost predicate Debited(before: Balances, after: Balances, a: Address, amt: Coins)
  {
    forall d :: AmountOf(Balance(after, a), d) == AmountOf(Balance(before, a), d) - AmountOf(amt, d)
  }

  /** `a` holds exactly `amt` more in every denomination. */
  ghost predicate Credited(before: Balances, after: Balances, a: Address, amt: Coins)
  {
    forall d :: AmountOf(Balance(after, a), d) == AmountOf(Balance(before, a), d) + AmountOf(amt, d)
  }

  /** `a` holds the same amount of every denomination. */
  ghost predicate SameAmounts(before: Balances, after: Balances, a: Address)
  {
    forall d :: AmountOf(Balance(after, a), d) == AmountOf(Balance(before, a), d)
  }

  /** No account other than `a1` and `a2` changes at all. */
  ghost predicate OthersUnchanged(before: Balances, after: Balances, a1: Address, a2: Address)
  {
    forall x :: x != a1 && x != a2 ==> Balance(after, x) == Balance(before, x)
  }

  /** Subtraction succeeds exactly when the balance covers the amount, and then debits only `a`. */
  lemma SubtractEffect(b: Balances, a: Address, amt: Coins)
    ensures Subtract(b, a, amt).Some? <==> IsGTE(Balance(b, a), amt)
    ensures Subtract(b, a, amt).Some? ==>
      && Debited(b, Subtract(b, a, amt).value, a, amt)
      && OthersUnchanged(b, Subtract(b, a, amt).value, a, a)
  {
  }

  /**
   * Addition succeeds exactly when the new balance has no negative
   * denomination, and then credits `a` and nobody else.
   */
  lemma AddEffect(b: Balances, a: Address, amt: Coins)
    ensures Add(b, a, amt).Some? <==> NonNegative(Plus(Balance(b, a), amt))
    ensures Add(b, a, amt).Some? ==>
      && Credited(b, Add(b, a, amt).value, a, amt)
      && OthersUnchanged(b, Add(b, a, amt).value, a, a)
  {
  }

  /**
   * A transfer succeeds exactly when the sender covers the amount and the
   * credit is not refused. Then the sender is debited and the recipient
   * credited by exactly `amt`, or, when they are the same account, its
   * amounts are unchanged; nobody else is affected. A sender that cannot
   * cover the amount changes nothing; a refused credit leaves the sender
   * debited and everybody else as before.
   */
  lemma SendEffect(b: Balances, from: Address, to: Address, amt: Coins)
    ensures Send(b, from, to, amt).ok <==> IsGTE(Balance(b, from), amt) && !CreditRefused(b, from, to, amt)
    ensures !IsGTE(Balance(b, from), amt) ==> Send(b, from, to, amt).balances == b
    ensures CreditRefused(b, from, to, amt) ==>
      var after := Send(b, from, to, amt).balances;
      Debited(b, after, from, amt) && OthersUnchanged(b, after, from, from)
    ensures Send(b, from, to, amt).ok ==>
      var after := Send(b, from, to, amt).balances;
      && (from != to ==> Debited(b, after, from, amt) && Credited(b, after, to, amt))
      && (from == to ==> SameAmounts(b, after, from))
      && OthersUnchanged(b, after, from, to)
  {
    SubtractEffect(b, from, amt);
    if Subtract(b, from, amt).Some? {
      var b1 := Subtract(b, from, amt).value;
      AddEffect(b1, to, amt);
      if Add(b1, to, amt).Some? {
        var after := Add(b1, to, amt).value;
        if from == to {
          forall d
            ensures AmountOf(Balance(after, from), d) == AmountOf(Balance(b, from), d)
          {
            assert AmountOf(Balance(b1, from), d) == AmountOf(Balance(b, from), d) - AmountOf(amt, d);
          }
        } else {
          assert Balance(b1, to) == Balance(b, to);
          assert Balance(after, from) == Balance(b1, from);
        }
      }
    }
  }

  /** From non-negative balances, crediting an amount with no negative entry is never refused. */
  lemma CreditNeverRefused(b: Balances, from: Address, to: Address, amt: Coins)
    requires AllNonNegative(b) && NoNegativeEntry(amt)
    ensures !CreditRefused(b, from, to, amt)
  {
    if Subtract(b, from, amt).Some? {
      var b1 := Subtract(b, from, amt).value;
      if to != from {
        assert Balance(b1, to) == Balance(b, to);
        if to !in b {
          assert Balance(b, to) == [];
        }
      }
      assert NonNegative(Balance(b1, to));
      NonNegativePlus(Balance(b1, to), amt);
    }
  }

  /** Subtraction and transfers never leave an account with a negative denomination. */
  lemma SendKeepsNonNegative(b: Balances, from: Address, to: Address, amt: Coins)
    requires AllNonNegative(b)
    ensures Subtract(b, from, amt).Some? ==> AllNonNegative(Subtract(b, from, amt).value)
    ensures AllNonNegative(Send(b, from, to, amt).balances)
  {
  }

  /** The bank keeper object: the balances it updates in place. */
  class BankKeeper {
    var balances: Balances

    constructor (initial: Balances)
      ensures balances == initial
    {
      balances := initial;
    }

    /** `SubtractCoins(addr, amt)`: `err` is the insufficient-coins error. */
    method SubtractCoins(a: Address, amt: Coins) returns (err: bool)
      modifies this
      ensures err <==> Subtract(old(balances), a, amt).None?
      ensures balances == if err then old(balances) else Subtract(old(balances), a, amt).value
    {
      var left := Minus(Balance(balances, a), amt);
      if !NonNegative(left) {
        return true;
      }
      balances := balances[a := left];
      return false;
    }

    /** `AddCoins(addr, amt)`: `err` is the insufficient-coins error. */
    method AddCoins(a: Address, amt: Coins) returns (err: bool)
      modifies this
      ensures err <==> Add(old(balances), a, amt).None?
      ensures balances == if err then old(balances) else Add(old(balances), a, amt).value
    {
      var raised := Plus(Balance(balances, a), amt);
      if !NonNegative(raised) {
        return true;
      }
      balances := balances[a := raised];
      return false;
    }

    /**
     * `SendCoins(from, to, amt)`: subtract from the sender, then add to the
     * recipient; a refused addition returns its error with the subtraction
     * already applied.
     */
    method SendCoins(from: Address, to: Address, amt: Coins) returns (err: bool)
      modifies this
      ensures err <==> !Send(old(balances), from, to, amt).ok
      ensures balances == Send(old(balances), from, to, amt).balances
    {
      err := SubtractCoins(from, amt);
      if err {
        return;
      }
      err := AddCoins(to, amt);
    }
  }
}
