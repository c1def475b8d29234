/**
 * The name service handler. `BuyDomain` and `Dispatch` say what handling a
 * message does to the store and to the balances; the methods `Handle` and
 * `HandleMsgBuyDomain` do it through the keeper and the bank keeper, and
 * are proved to agree with them.
 */
module Handler {
  import opened Wrappers
  import opened Coins
  import opened Sdk
  import opened Keys
  import opened Msgs
  import opened Keeper
  import opened Bank
  import Codec

  /** The messages the handler can be given: a closed set instead of a type switch. */
  datatype Msg = BuyDomainMsg(buy: MsgBuyDomain) | UnrecognizedMsg(typeName: string)

  /** The result of handling a message together with the store and balances it leaves. */
  datatype Outcome = Outcome(result: TxResult, store: Store, balances: Balances)

  const BidTooLowLog: string := "Bid not high enough"
  const CannotPayLog: string := "Buyer does not have enough coins"
  const UnrecognizedLog: string := "Unrecognized nameservice Msg type: "

  /** The payment step: to the current owner if there is one, otherwise out of the buyer alone. */
  function Pay(s: Store, b: Balances, msg: MsgBuyDomain): Transfer
  {
    if HasOwnerIn(s, msg.domain) then Send(b, msg.buyer, OwnerOf(s, msg.domain), msg.bid)
    else
      match Subtract(b, msg.buyer, msg.bid)
      case None => Transfer(false, b)
      case Some(b1) => Transfer(true, b1)
  }

  /** The buyer covers the bid, but the current owner's bank refuses the credit. */
  predicate OwnerRefusesCredit(s: Store, b: Balances, msg: MsgBuyDomain)
  {
    HasOwnerIn(s, msg.domain) && CreditRefused(b, msg.buyer, OwnerOf(s, msg.domain), msg.bid)
  }

  /** The three writes of a successful purchase, in the code's order. */
  function Record(s: Store, msg: MsgBuyDomain): Store
  {
    s[OwnerKey(msg.domain) := msg.buyer][msg.domain := Codec.Encode(msg.bid)][ValueKey(msg.domain) := msg.value]
  }

  /** `handleMsgBuyDomain`: price check, payment, then the writes. */
  function BuyDomain(s: Store, b: Balances, msg: MsgBuyDomain): Outcome
  {
    match PriceOf(s, msg.domain)
    case None => Outcome(Panicked, s, b)
    case Some(price) =>
      if IsGTE(price, msg.bid) then Outcome(Failed(InsufficientCoins(BidTooLowLog)), s, b)
      else
        var paid := Pay(s, b, msg);
        if !paid.ok then Outcome(Failed(InsufficientCoins(CannotPayLog)), s, paid.balances)
        else Outcome(OK, Record(s, msg), paid.balances)
  }

  /** The handler returned by `NewHandler`. */
  function Dispatch(s: Store, b: Balances, m: Msg): Outcome
  {
    match m
    case BuyDomainMsg(msg) => BuyDomain(s, b, msg)
    case UnrecognizedMsg(t) => Outcome(Failed(UnknownRequest(UnrecognizedLog + t)), s, b)
  }

  method HandleMsgBuyDomain(k: Keeper, msg: MsgBuyDomain) returns (r: TxResult)
    modifies k, k.bk
    ensures Outcome(r, k.store, k.bk.balances) == BuyDomain(old(k.store), old(k.bk.balances), msg)
  {
    var price := k.GetPrice(msg.domain);
    if price.None? {
      return Panicked;
    }
    if IsGTE(price.value, msg.bid) {
      return Failed(InsufficientCoins(BidTooLowLog));
    }
    var owned := k.HasOwner(msg.domain);
    if owned {
      var owner := k.GetOwner(msg.domain);
      var err := k.bk.SendCoins(msg.buyer, owner, msg.bid);
      if err {
        return Failed(InsufficientCoins(CannotPayLog));
      }
    } else {
      var err := k.bk.SubtractCoins(msg.buyer, msg.bid);
      if err {
        return Failed(InsufficientCoins(CannotPayLog));
      }
    }
    k.SetOwner(msg.domain, msg.buyer);
    k.SetPrice(msg.domain, msg.bid);
    k.SetValue(msg.domain, msg.value);
    return OK;
  }

  method Handle(k: Keeper, m: Msg) returns (r: TxResult)
    modifies k, k.bk
    ensures Outcome(r, k.store, k.bk.balances) == Dispatch(old(k.store), old(k.bk.balances), m)
  {
    match m
    case BuyDomainMsg(msg) =>
      r := HandleMsgBuyDomain(k, msg);
    case UnrecognizedMsg(t) =>
      r := Failed(UnknownRequest(UnrecognizedLog + t));
  }

  /** A message of any other kind is refused as an unknown request and changes nothing. */
  lemma UnrecognizedRejected(s: Store, b: Balances, t: string)
    ensures Dispatch(s, b, UnrecognizedMsg(t)) == Outcome(Failed(UnknownRequest(UnrecognizedLog + t)), s, b)
  {
  }

  /**
   * No outcome other than `OK` writes the store. The balances are as they
   * were too, except after a refused credit to the current owner, where the
   * buyer's debit stays.
   */
  lemma FailureWritesNothing(s: Store, b: Balances, m: Msg)
    ensures Dispatch(s, b, m).result != OK ==> Dispatch(s, b, m).store == s
    ensures Dispatch(s, b, m).result != OK && !(m.BuyDomainMsg? && OwnerRefusesCredit(s, b, m.buy)) ==>
      Dispatch(s, b, m).balances == b
  {
    if m.BuyDomainMsg? && HasOwnerIn(s, m.buy.domain) {
      SendEffect(b, m.buy.buyer, OwnerOf(s, m.buy.domain), m.buy.bid);
    }
  }

  /**
   * From non-negative balances, and with a bid that has no negative entry
   * (which `ValidateBasic` ensures), every outcome other than `OK` leaves
   * store and balances exactly as they were.
   */
  lemma FailureChangesNothing(s: Store, b: Balances, m: Msg)
    requires AllNonNegative(b)
    requires m.BuyDomainMsg? ==> NoNegativeEntry(m.buy.bid)
    ensures Dispatch(s, b, m).result != OK ==> Dispatch(s, b, m).store == s && Dispatch(s, b, m).balances == b
  {
    FailureWritesNothing(s, b, m);
    if m.BuyDomainMsg? && HasOwnerIn(s, m.buy.domain) {
      CreditNeverRefused(b, m.buy.buyer, OwnerOf(s, m.buy.domain), m.buy.bid);
    }
  }

  /** A bid that the stored price is at least is refused before any payment. */
  lemma LowBidRejected(s: Store, b: Balances, msg: MsgBuyDomain, price: Coins)
    requires PriceOf(s, msg.domain) == Some(price) && IsGTE(price, msg.bid)
    ensures BuyDomain(s, b, msg) == Outcome(Failed(InsufficientCoins(BidTooLowLog)), s, b)
  {
  }

  /**
   * Payment succeeds exactly when the buyer's balance covers the bid and the
   * owner's credit is not refused; from non-negative balances, with a bid
   * that has no negative entry, covering the bid is enough.
   */
  lemma PayIff(s: Store, b: Balances, msg: MsgBuyDomain)
    ensures Pay(s, b, msg).ok <==> IsGTE(Balance(b, msg.buyer), msg.bid) && !OwnerRefusesCredit(s, b, msg)
    ensures AllNonNegative(b) && NoNegativeEntry(msg.bid) ==>
      (Pay(s, b, msg).ok <==> IsGTE(Balance(b, msg.buyer), msg.bid))
  {
    if HasOwnerIn(s, msg.domain) {
      SendEffect(b, msg.buyer, OwnerOf(s, msg.domain), msg.bid);
      if AllNonNegative(b) && NoNegativeEntry(msg.bid) {
        CreditNeverRefused(b, msg.buyer, OwnerOf(s, msg.domain), msg.bid);
      }
    } else {
      SubtractEffect(b, msg.buyer, msg.bid);
    }
  }

  /** A bid that passes the price check but that the buyer cannot cover is refused, and nothing changes. */
  lemma UnpayableBidRejected(s: Store, b: Balances, msg: MsgBuyDomain, price: Coins)
    requires PriceOf(s, msg.domain) == Some(price) && !IsGTE(price, msg.bid)
    requires !IsGTE(Balance(b, msg.buyer), msg.bid)
    ensures BuyDomain(s, b, msg) == Outcome(Failed(InsufficientCoins(CannotPayLog)), s, b)
  {
    PayIff(s, b, msg);
    SubtractEffect(b, msg.buyer, msg.bid);
  }

  /**
   * A bid that passes the price check and that the buyer covers, but whose
   * credit the owner's bank refuses, is refused as unpayable; nothing is
   * written, and the buyer's debit stays.
   */
  lemma RefusedCreditKeepsDebit(s: Store, b: Balances, msg: MsgBuyDomain, price: Coins)
    requires PriceOf(s, msg.domain) == Some(price) && !IsGTE(price, msg.bid)
    requires OwnerRefusesCredit(s, b, msg)
    ensures var o := BuyDomain(s, b, msg);
      && o.result == Failed(InsufficientCoins(CannotPayLog))
      && o.store == s
      && Debited(b, o.balances, msg.buyer, msg.bid)
      && OthersUnchanged(b, o.balances, msg.buyer, msg.buyer)
  {
    SendEffect(b, msg.buyer, OwnerOf(s, msg.domain), msg.bid);
  }

  /**
   * A purchase succeeds exactly when the price decodes and does not cover
   * the bid, the buyer covers it, and the owner's credit is not refused.
   */
  lemma BuySucceedsIff(s: Store, b: Balances, msg: MsgBuyDomain)
    ensures BuyDomain(s, b, msg).result == OK <==>
      && PriceOf(s, msg.domain).Some?
      && !IsGTE(PriceOf(s, msg.domain).value, msg.bid)
      && IsGTE(Balance(b, msg.buyer), msg.bid)
      && !OwnerRefusesCredit(s, b, msg)
  {
    PayIff(s, b, msg);
  }

  /** Handling never leaves an account with a negative denomination. */
  lemma DispatchKeepsBalancesNonNegative(s: Store, b: Balances, m: Msg)
    requires AllNonNegative(b)
    ensures AllNonNegative(Dispatch(s, b, m).balances)
  {
    if m.BuyDomainMsg? {
      SendKeepsNonNegative(b, m.buy.buyer, OwnerOf(s, m.buy.domain), m.buy.bid);
    }
  }

  /**
   * A successful purchase makes the buyer the owner, stores the message's
   * value, writes the encoded bid under the raw domain bytes, and changes
   * no other key.
   */
  lemma BuyRecords(s: Store, b: Balances, msg: MsgBuyDomain)
    requires BuyDomain(s, b, msg).result == OK
    ensures var after := BuyDomain(s, b, msg).store;
      && HasOwnerIn(after, msg.domain) && OwnerOf(after, msg.domain) == msg.buyer
      && ValueOf(after, msg.domain) == msg.value
      && msg.domain in after && after[msg.domain] == Codec.Encode(msg.bid)
      && forall key :: key != OwnerKey(msg.domain) && key != ValueKey(msg.domain) && key != msg.domain ==>
           (key in after <==> key in s) && (key in s ==> after[key] == s[key])
  {
    RawDomainIsNoKeyOfItself(msg.domain);
    KeyKindsDisjoint(msg.domain, msg.domain);
  }

  /** No purchase changes the price that `GetPrice` reports for the purchased domain. */
  lemma BuyKeepsPrice(s: Store, b: Balances, msg: MsgBuyDomain)
    ensures PriceOf(BuyDomain(s, b, msg).store, msg.domain) == PriceOf(s, msg.domain)
  {
    RawDomainIsNoKeyOfItself(msg.domain);
    KeyKindsDisjoint(msg.domain, msg.domain);
  }

  /**
   * Buying an owned domain moves exactly the bid from the buyer to the
   * current owner (no net change when they are the same account) and
   * touches no other account.
   */
  lemma BuyPaysOwner(s: Store, b: Balances, msg: MsgBuyDomain)
    requires HasOwnerIn(s, msg.domain)
    requires BuyDomain(s, b, msg).result == OK
    ensures var owner := OwnerOf(s, msg.domain);
      var after := BuyDomain(s, b, msg).balances;
      && (msg.buyer != owner ==> Debited(b, after, msg.buyer, msg.bid) && Credited(b, after, owner, msg.bid))
      && (msg.buyer == owner ==> SameAmounts(b, after, owner))
      && OthersUnchanged(b, after, msg.buyer, owner)
  {
    SendEffect(b, msg.buyer, OwnerOf(s, msg.domain), msg.bid);
  }

  /** Buying an unowned domain takes exactly the bid from the buyer and credits nobody. */
  lemma BuyUnownedDebitsBuyer(s: Store, b: Balances, msg: MsgBuyDomain)
    requires !HasOwnerIn(s, msg.domain)
    requires BuyDomain(s, b, msg).result == OK
    ensures var after := BuyDomain(s, b, msg).balances;
      Debited(b, after, msg.buyer, msg.bid) && OthersUnchanged(b, after, msg.buyer, msg.buyer)
  {
    SubtractEffect(b, msg.buyer, msg.bid);
  }

  /**
   * On a domain whose price was never stored, every positive bid passes the
   * price check, so only the payment decides the purchase; from non-negative
   * balances, the purchase succeeds exactly when the buyer covers the bid.
   */
  lemma FirstBidOnlyNeedsFunds(s: Store, b: Balances, msg: MsgBuyDomain)
    requires PriceKey(msg.domain) !in s && IsPositive(msg.bid)
    ensures BuyDomain(s, b, msg).result == OK <==>
      IsGTE(Balance(b, msg.buyer), msg.bid) && !OwnerRefusesCredit(s, b, msg)
    ensures AllNonNegative(b) ==>
      (BuyDomain(s, b, msg).result == OK <==> IsGTE(Balance(b, msg.buyer), msg.bid))
  {
    EmptyIsBelowPositive(msg.bid);
    BuySucceedsIff(s, b, msg);
    PayIff(s, b, msg);
  }

  /** Handling keeps every price slot decodable, so where that holds the handler never panics. */
  lemma DispatchKeepsPriceSlotsDecode(s: Store, b: Balances, m: Msg)
    requires PriceSlotsDecode(s)
    ensures Dispatch(s, b, m).result != Panicked
    ensures PriceSlotsDecode(Dispatch(s, b, m).store)
  {
    if m.BuyDomainMsg? {
      var msg := m.buy;
      GetPriceNoPanic(s, msg.domain);
      var s1 := s[OwnerKey(msg.domain) := msg.buyer];
      SettersKeepPriceSlotsDecode(s, msg.domain, msg.value, msg.buyer, msg.bid);
      var s2 := s1[msg.domain := Codec.Encode(msg.bid)];
      SettersKeepPriceSlotsDecode(s1, msg.domain, msg.value, msg.buyer, msg.bid);
      SettersKeepPriceSlotsDecode(s2, msg.domain, msg.value, msg.buyer, msg.bid);
    }
  }
}
