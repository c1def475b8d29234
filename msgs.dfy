/** The one message of the name service, `MsgBuyDomain`, and its stateless checks. */
module Msgs {
  import opened Wrappers
  import opened ByteStrings
  import opened Coins
  import opened Sdk

  const EmptyFieldsLog: string := "Domain and Value cannot be empty"
  const NonPositiveBidLog: string := "Bids must be positive"

  datatype MsgBuyDomain = MsgBuyDomain(domain: Bytes, value: Bytes, bid: Coins, buyer: Address)
  {
    function Name(): (name: string)
      ensures name == "buy_domain"
    {
      "buy_domain"
    }

    function Type(): (route: string)
      ensures route == "nameservice"
    {
      "nameservice"
    }

    /**
     * `nil` (here `None`) exactly when buyer, domain and value are non-empty
     * and the bid is positive; otherwise the error of the first check that
     * fails, in the order buyer, then domain and value, then bid.
     */
    function ValidateBasic(): (err: Option<SdkError>)
      ensures err.None? <==> !IsEmpty(buyer) && |domain| > 0 && |value| > 0 && IsPositive(bid)
      ensures IsEmpty(buyer) ==> err == Some(InvalidAddress(buyer))
      ensures !IsEmpty(buyer) && (|domain| == 0 || |value| == 0) ==>
        err == Some(UnknownRequest(EmptyFieldsLog))
      ensures !IsEmpty(buyer) && |domain| > 0 && |value| > 0 && !IsPositive(bid) ==>
        err == Some(InsufficientCoins(NonPositiveBidLog))
    {
      if IsEmpty(buyer) then Some(InvalidAddress(buyer))
      else if |domain| == 0 || |value| == 0 then Some(UnknownRequest(EmptyFieldsLog))
      else if !IsPositive(bid) then Some(InsufficientCoins(NonPositiveBidLog))
      else None
    }

    /** The buyer is the one and only signer. */
    function GetSigners(): (signers: seq<Address>)
      ensures |signers| == 1 && signers[0] == buyer
    {
      [buyer]
    }
  }

  function NewMsgBuyDomain(domain: Bytes, value: Bytes, bid: Coins, buyer: Address): (msg: MsgBuyDomain)
    ensures msg.domain == domain && msg.value == value && msg.bid == bid && msg.buyer == buyer
  {
    MsgBuyDomain(domain, value, bid, buyer)
  }
}
