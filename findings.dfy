/**
 * Two consequences of `SetPrice` writing under the raw domain bytes instead
 * of `PriceKey(domain)`, shown on the handler as written, and the corrected
 * purchase that writes the price where `GetPrice` reads it.
 */
module Findings {
  import opened Wrappers
  import opened ByteStrings
  import opened Coins
  import opened Sdk
  import opened Keys
  import opened Msgs
  import opened Keeper
  import opened Bank
  import opened Handler
  import Codec

  // ----- As written: the paid price is never read back -----

  /**
   * On a domain whose price slot is empty, after a successful purchase the
   * next purchase of the same domain passes the price check with any
   * positive bid, however small: only the payment decides it, and from
   * non-negative balances it succeeds exactly when its buyer covers it.
   */
  lemma RebidIgnoresPaidPrice(s: Store, b: Balances, first: MsgBuyDomain, second: MsgBuyDomain)
    requires PriceKey(first.domain) !in s
    requires BuyDomain(s, b, first).result == OK
    requires second.domain == first.domain && IsPositive(second.bid)
    ensures var o := BuyDomain(s, b, first);
      BuyDomain(o.store, o.balances, second).result == OK <==>
        IsGTE(Balance(o.balances, second.buyer), second.bid) && !OwnerRefusesCredit(o.store, o.balances, second)
    ensures var o := BuyDomain(s, b, first);
      AllNonNegative(b) ==>
        (BuyDomain(o.store, o.balances, second).result == OK <==> IsGTE(Balance(o.balances, second.buyer), second.bid))
  {
    var o := BuyDomain(s, b, first);
    RawDomainIsNoKeyOfItself(first.domain);
    KeyKindsDisjoint(first.domain, first.domain);
    assert PriceKey(first.domain) !in o.store;
    if AllNonNegative(b) {
      DispatchKeepsBalancesNonNegative(s, b, BuyDomainMsg(first));
    }
    FirstBidOnlyNeedsFunds(o.store, o.balances, second);
  }

  const Steak: Denom := [0x73, 0x74, 0x65, 0x61, 0x6B]
  const Alice: Address := [0x0A]
  const Bob: Address := [0x0B]

  /**
   * Alice buys the unclaimed domain "a" for 10 steak; Bob then buys it from
   * her for 1 steak, although 10 steak covers 1 steak.
   */
  lemma LowerRebidExample()
    ensures var first := MsgBuyDomain([0x61], [0x31], [Coin(Steak, 10)], Alice);
      var second := MsgBuyDomain([0x61], [0x32], [Coin(Steak, 1)], Bob);
      var b := map[Alice := [Coin(Steak, 10)], Bob := [Coin(Steak, 1)]];
      var o := BuyDomain(map[], b, first);
      && o.result == OK
      && IsGTE(first.bid, second.bid)
      && BuyDomain(o.store, o.balances, second).result == OK
  {
    var first := MsgBuyDomain([0x61], [0x31], [Coin(Steak, 10)], Alice);
    var second := MsgBuyDomain([0x61], [0x32], [Coin(Steak, 1)], Bob);
    var b := map[Alice := [Coin(Steak, 10)], Bob := [Coin(Steak, 1)]];
    IsGTEReflexive(first.bid);
    assert Balance(b, Alice) == first.bid;
    assert NonNegative(b[Alice]) && NonNegative(b[Bob]);
    assert AllNonNegative(b);
    FirstBidOnlyNeedsFunds(map[], b, first);
    var o := BuyDomain(map[], b, first);
    BuyUnownedDebitsBuyer(map[], b, first);
    assert Balance(o.balances, Bob) == second.bid;
    IsGTEReflexive(second.bid);
    RebidIgnoresPaidPrice(map[], b, first, second);
    assert Covers(first.bid, second.bid);
    PointwiseIsGTE(first.bid, second.bid);
  }

  // ----- As written: the raw domain key is another domain's key -----

  /** Buying the domain `[0x01] + e` overwrites the owner of `e` with the encoded bid. */
  lemma BuyOverwritesForeignOwner(s: Store, b: Balances, msg: MsgBuyDomain, e: Bytes)
    requires msg.domain == OwnerKey(e)
    requires BuyDomain(s, b, msg).result == OK
    ensures var after := BuyDomain(s, b, msg).store;
      HasOwnerIn(after, e) && OwnerOf(after, e) == Codec.Encode(msg.bid)
  {
    KeyKindsDisjoint(msg.domain, e);
    assert |OwnerKey(msg.domain)| != |OwnerKey(e)|;
  }

  /** Buying the domain `[0x00] + e` overwrites the value of `e` with the encoded bid. */
  lemma BuyOverwritesForeignValue(s: Store, b: Balances, msg: MsgBuyDomain, e: Bytes)
    requires msg.domain == ValueKey(e)
    requires BuyDomain(s, b, msg).result == OK
    ensures ValueOf(BuyDomain(s, b, msg).store, e) == Codec.Encode(msg.bid)
  {
    assert |ValueKey(msg.domain)| != |ValueKey(e)|;
  }

  /** Buying the domain `[0x02] + e` sets the price of `e`, a different domain, to the bid. */
  lemma BuySetsForeignPrice(s: Store, b: Balances, msg: MsgBuyDomain, e: Bytes)
    requires msg.domain == PriceKey(e)
    requires BuyDomain(s, b, msg).result == OK
    ensures msg.domain != e
    ensures PriceOf(BuyDomain(s, b, msg).store, e) == Some(msg.bid)
  {
    KeyKindsDisjoint(msg.domain, e);
    KeyKindsDisjoint(e, msg.domain);
    Codec.RoundTrip(msg.bid);
  }

  // ----- Corrected: the price is written under PriceKey(domain) -----

  /** The writes of a successful purchase with the price stored where `GetPrice` reads it. */
  function RecordCorrected(s: Store, msg: MsgBuyDomain): Store
  {
    s[OwnerKey(msg.domain) := msg.buyer][PriceKey(msg.domain) := Codec.Encode(msg.bid)][ValueKey(msg.domain) := msg.value]
  }

  /** The purchase with the corrected writes; the checks and the payment are unchanged. */
  function BuyDomainCorrected(s: Store, b: Balances, msg: MsgBuyDomain): Outcome
  {
    var o := BuyDomain(s, b, msg);
    if o.result == OK then Outcome(OK, RecordCorrected(s, msg), o.balances) else o
  }

  /** After a corrected purchase, the getters report the buyer, the value and the bid as price. */
  lemma CorrectedBuyRecords(s: Store, b: Balances, msg: MsgBuyDomain)
    requires BuyDomainCorrected(s, b, msg).result == OK
    ensures var after := BuyDomainCorrected(s, b, msg).store;
      && HasOwnerIn(after, msg.domain) && OwnerOf(after, msg.domain) == msg.buyer
      && ValueOf(after, msg.domain) == msg.value
      && PriceOf(after, msg.domain) == Some(msg.bid)
  {
    KeyKindsDisjoint(msg.domain, msg.domain);
    Codec.RoundTrip(msg.bid);
  }

  /** A corrected purchase changes no fact of any other domain. */
  lemma CorrectedBuyTouchesOnlyItsDomain(s: Store, b: Balances, msg: MsgBuyDomain)
    ensures var after := BuyDomainCorrected(s, b, msg).store;
      forall e :: e != msg.domain ==>
        && ValueOf(after, e) == ValueOf(s, e)
        && OwnerOf(after, e) == OwnerOf(s, e)
        && HasOwnerIn(after, e) == HasOwnerIn(s, e)
        && PriceOf(after, e) == PriceOf(s, e)
  {
    var o := BuyDomain(s, b, msg);
    if o.result == OK {
      RecordCorrectedTouchesOnlyItsDomain(s, msg);
    } else {
      FailureWritesNothing(s, b, BuyDomainMsg(msg));
    }
  }

  /** The corrected writes change no fact of any other domain. */
  lemma RecordCorrectedTouchesOnlyItsDomain(s: Store, msg: MsgBuyDomain)
    ensures var after := RecordCorrected(s, msg);
      forall e :: e != msg.domain ==>
        && ValueOf(after, e) == ValueOf(s, e)
        && OwnerOf(after, e) == OwnerOf(s, e)
        && HasOwnerIn(after, e) == HasOwnerIn(s, e)
        && PriceOf(after, e) == PriceOf(s, e)
  {
    var after := RecordCorrected(s, msg);
    forall e | e != msg.domain
      ensures ValueOf(after, e) == ValueOf(s, e)
      ensures OwnerOf(after, e) == OwnerOf(s, e)
      ensures HasOwnerIn(after, e) == HasOwnerIn(s, e)
      ensures PriceOf(after, e) == PriceOf(s, e)
    {
      KeyKindsDisjoint(msg.domain, e);
      KeyKindsDisjoint(e, msg.domain);
      KeysInjective(msg.domain, e);
    }
  }

  /**
   * Strict outbidding holds for the corrected purchase: after a successful
   * purchase, a later bid on the same domain that the paid bid covers is
   * refused as too low and changes nothing, and a later purchase that
   * succeeds had a bid the paid bid does not cover.
   */
  lemma CorrectedRebidMustBeatPaidPrice(s: Store, b: Balances, first: MsgBuyDomain, second: MsgBuyDomain)
    requires BuyDomainCorrected(s, b, first).result == OK
    requires second.domain == first.domain
    ensures var o := BuyDomainCorrected(s, b, first);
      && (IsGTE(first.bid, second.bid) ==>
            BuyDomainCorrected(o.store, o.balances, second) == Outcome(Failed(InsufficientCoins(BidTooLowLog)), o.store, o.balances))
      && (BuyDomainCorrected(o.store, o.balances, second).result == OK ==> !IsGTE(first.bid, second.bid))
  {
    CorrectedBuyRecords(s, b, first);
  }
}
