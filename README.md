# Name service state transitions, modelled in Dafny

This project models the core of the Cosmos SDK name service example module
(`x/nameservice`). The core covers:

- the store keys of a domain's three facts;
- the keeper's typed accessors over one key-value store;
- the `MsgBuyDomain` message and its basic validation;
- the handler that prices, pays for and records a domain purchase.

It proves what these promise, and what the code actually does where the two differ.

Layout, one module per file:

| file | module | models |
|---|---|---|
| keys.dfy | `Keys` | `x/nameservice/keys.go` (pure functions) |
| keeper.dfy | `Keeper` | `x/nameservice/keeper.go`: class `Keeper` with the store as a `map` field; the getters are spec functions over a store value |
| msgs.dfy | `Msgs` | `x/nameservice/msgs.go` (pure functions on the message datatype) |
| handler.dfy | `Handler` | `x/nameservice/handler.go`: the methods `Handle` and `HandleMsgBuyDomain` mutate the keeper and the bank keeper, and are proved equal to the spec functions `Dispatch` and `BuyDomain` |
| findings.dfy | `Findings` | consequences of the price-key defect, and the corrected purchase |
| coins.dfy, codec.dfy, bank.dfy, sdk.dfy | `Coins`, `Codec`, `Bank`, `Sdk` | stand-ins for the SDK pieces the core calls, stated as assumptions |
| bytes.dfy, wrappers.dfy | `ByteStrings`, `Wrappers` | bytes and `Option` |

Modelling choices:

- **Bytes.** Go strings and byte slices are `Bytes = seq<byte>`, with `byte` an
  integer newtype in 0..255. This covers domains, values, denominations and
  addresses (`sdk.AccAddress`). Fixed log texts and `Name()`/`Type()` are
  Dafny strings.
- **Coins.** These definitions are ASSUMPTIONS about the SDK, which is not
  part of this model. A Coins value is a list of (denomination, amount)
  entries, read as the finite map `d -> AmountOf(c, d)`. `IsPositive` holds
  when the list is non-empty and every amount is above 0. `a.IsGTE(b)` holds
  when every denomination of `a - b` is at least 0. `Coins.IsGTEMeaning`
  proves that this is the pointwise order on the map views.
- **Codec.** The amino binary codec is replaced by a concrete injective
  encoding, and its round trip is proved (`Codec.RoundTrip`).
  `MustUnmarshalBinary` panics on bytes it cannot decode. That panic is
  `None` from `GetPrice` and `Panicked` from the handler;
  `Handler.DispatchKeepsPriceSlotsDecode` shows it cannot arise from the
  keeper's own writes.
- **Bank.** A class `BankKeeper` holds `balances: map<Address, Coins>`; an
  absent account holds no coins. `SubtractCoins` and `AddCoins` refuse, and
  change nothing, when a denomination of the new balance would be negative.
  `SendCoins` is a subtraction followed by an addition. When the addition is
  refused, the subtraction stays applied and the error is returned, as in the
  SDK. Whether the balances are non-negative is never a precondition of the
  operations. Lemmas that rely on it, or on a bid with no negative entry
  (which `ValidateBasic`'s `IsPositive` check guarantees), say so in their
  contract.
- **Context.** The store handle that `ctx.KVStore(key)` opens is the keeper's
  `store` field.
- **Dispatch.** The type switch in `NewHandler` becomes the closed datatype
  `Handler.Msg`. It has a case for `MsgBuyDomain` and a case for any other
  message, which carries that message's type name.

Where the code and its comments disagree, the model follows the code:

- The comment at keeper.go:57 promises a default price of one steak.
  keeper.go:61-62 returns the empty Coins value (`Keeper.GetPriceDefault`).
  With that default, any positive bid beats an unset price
  (`Handler.FirstBidOnlyNeedsFunds`).
- The comment at handler.go:25 compares the bid with "the price paid by the
  current owner", and client/cli/query.go:41 reads the price from
  `PriceKey(domain)`. But keeper.go:71 stores the price under the raw domain
  bytes, while keeper.go:60 reads it from `PriceKey(domain)`. So a purchase
  never changes the price that later bids on the same domain are compared with
  (`Handler.BuyKeepsPrice`). See "## Findings".
- x/nameservice/msgs.go defines only `MsgBuyDomain`, so no set-value
  operation is modelled. The querier that app.go:74 registers is query glue,
  left out with the CLI.

## Model

| member | source | states |
|---|---|---|
| `Keys.ValueKey` | x/nameservice/keys.go:9-11 | the value key is one byte longer than the domain, starts with 0x00 and continues with the domain's bytes |
| `Keys.OwnerKey` | x/nameservice/keys.go:13-15 | the owner key is 0x01 followed by the domain's bytes |
| `Keys.PriceKey` | x/nameservice/keys.go:17-19 | the price key is 0x02 followed by the domain's bytes |
| `Keys.DomainRecovered` | x/nameservice/keys.go:9-19 | dropping the first byte of any of the three keys gives back the domain |
| `Keys.KeyKindsDisjoint` | x/nameservice/keys.go:3-7 | keys of different kinds never coincide, for any two domains |
| `Keys.KeysInjective` | x/nameservice/keys.go:9-19 | each key function is injective |
| `Keys.RawDomainIsNoKeyOfItself` | x/nameservice/keeper.go:71 | the raw domain bytes that `SetPrice` writes are none of that domain's three keys |
| `Keys.RawDomainAsKey` | x/nameservice/keeper.go:71 | raw domain bytes starting with 0x00, 0x01 or 0x02 are the value, owner or price key of the domain after that byte |
| `Keeper.Keeper.constructor` | x/nameservice/keeper.go:17-23 | the keeper holds the given bank keeper and store |
| `Keeper.Keeper.GetValue` | x/nameservice/keeper.go:26-31 | the result is what is stored at `ValueKey(d)`, or empty; no `modifies` clause, so the store is unchanged |
| `Keeper.Keeper.SetValue` | x/nameservice/keeper.go:33-36 | the new store is the old one with only `ValueKey(d)` set to the value |
| `Keeper.Keeper.HasOwner` | x/nameservice/keeper.go:39-42 | true exactly when `OwnerKey(d)` is present; the store is unchanged |
| `Keeper.Keeper.GetOwner` | x/nameservice/keeper.go:45-49 | the result is the address at `OwnerKey(d)`, or the empty address; the store is unchanged |
| `Keeper.Keeper.SetOwner` | x/nameservice/keeper.go:52-55 | the new store is the old one with only `OwnerKey(d)` set to the owner |
| `Keeper.Keeper.GetPrice` | x/nameservice/keeper.go:58-66 | the result is the empty Coins value when `PriceKey(d)` is absent, otherwise the decoding of the stored bytes, or the panic; the store is unchanged |
| `Keeper.Keeper.SetPrice` | x/nameservice/keeper.go:69-72 | the new store is the old one with only the raw key `d` set to the encoded price |
| `Keeper.GetValueDefault` | x/nameservice/keeper.go:26-31 | an unset value reads as the empty string, and a set one reads back unchanged |
| `Keeper.GetPriceDefault` | x/nameservice/keeper.go:57-66 | an unset price reads as the empty Coins value (not one steak), and a set one reads as its decoding |
| `Keeper.SetValueEffect` | x/nameservice/keeper.go:33-36 | after `SetValue(d, v)`, `GetValue(d)` is `v` and every other domain's value, and every owner and price, is as before |
| `Keeper.SetOwnerEffect` | x/nameservice/keeper.go:52-55 | after `SetOwner(d, o)`, `HasOwner(d)` holds and `GetOwner(d)` is `o`; every other owner, and every value and price, is as before |
| `Keeper.SetPriceKeepsOwnFacts` | x/nameservice/keeper.go:69-72 | `SetPrice(d, c)` leaves `GetPrice(d)`, `GetValue(d)`, `GetOwner(d)` and `HasOwner(d)` as they were |
| `Keeper.SettersKeepPriceSlotsDecode` | x/nameservice/keeper.go:33-72 | none of the three setters puts undecodable bytes under a key with the price prefix |
| `Keeper.GetPriceNoPanic` | x/nameservice/keeper.go:58-66 | when all price slots decode, `GetPrice` does not panic for any domain |
| `Msgs.NewMsgBuyDomain` | x/nameservice/msgs.go:16-23 | the four arguments are stored unchanged in the matching fields |
| `Msgs.MsgBuyDomain.Name` | x/nameservice/msgs.go:26 | the message name is "buy_domain" |
| `Msgs.MsgBuyDomain.Type` | x/nameservice/msgs.go:29 | the message route is "nameservice" |
| `Msgs.MsgBuyDomain.ValidateBasic` | x/nameservice/msgs.go:32-43 | no error exactly when buyer, domain and value are non-empty and the bid is positive; otherwise, in this order: invalid address for an empty buyer, unknown request for an empty domain or value, insufficient coins for a bid that is not positive |
| `Msgs.MsgBuyDomain.GetSigners` | x/nameservice/msgs.go:55-57 | the signers are exactly the buyer |
| `Handler.Handle` | x/nameservice/handler.go:11-21 | the result, store and balances after handling are those of `Dispatch` on the old store and balances |
| `Handler.HandleMsgBuyDomain` | x/nameservice/handler.go:24-47 | the result, store and balances after the purchase are those of `BuyDomain` on the old store and balances |
| `Handler.UnrecognizedRejected` | x/nameservice/handler.go:16-18 | every other message kind gives an unknown-request error naming its type, with store and balances unchanged |
| `Handler.FailureWritesNothing` | x/nameservice/handler.go:24-46 | no result other than OK writes the store; the balances are unchanged too, except after a refused credit to the owner |
| `Handler.FailureChangesNothing` | x/nameservice/handler.go:24-46 | from non-negative balances and with a bid that has no negative entry, every result other than OK leaves store and balances exactly as they were |
| `Handler.LowBidRejected` | x/nameservice/handler.go:25-27 | when the stored price `IsGTE` the bid, the result is insufficient coins ("Bid not high enough") and nothing changes |
| `Handler.PayIff` | x/nameservice/handler.go:29-40 | the payment step succeeds exactly when the buyer's balance `IsGTE` the bid and the owner's credit is not refused; from non-negative balances and a bid with no negative entry, covering the bid is enough |
| `Handler.UnpayableBidRejected` | x/nameservice/handler.go:30-40 | a bid that passes the price check but exceeds the buyer's balance gives insufficient coins ("Buyer does not have enough coins"), and the store and balances are unchanged |
| `Handler.RefusedCreditKeepsDebit` | x/nameservice/handler.go:31-33 | when the buyer covers the bid but the owner's credit is refused, the result is insufficient coins, the store is unchanged, the buyer stays debited and no other account changes |
| `Handler.BuySucceedsIff` | x/nameservice/handler.go:24-46 | a purchase returns OK exactly when the price decodes, does not cover the bid, the buyer's balance covers it, and the owner's credit is not refused |
| `Handler.DispatchKeepsBalancesNonNegative` | x/nameservice/handler.go:29-40 | handling from non-negative balances leaves every balance non-negative |
| `Handler.BuyRecords` | x/nameservice/handler.go:42-46 | after success, the buyer is the owner, the value is the message's value, the raw key holds the encoded bid, and no other key changes |
| `Handler.BuyKeepsPrice` | x/nameservice/handler.go:43 | no purchase changes the price `GetPrice` reports for the purchased domain |
| `Handler.BuyPaysOwner` | x/nameservice/handler.go:30-34 | buying an owned domain takes exactly the bid from the buyer and gives it to the owner, or changes neither when they are the same account; no other account changes |
| `Handler.BuyUnownedDebitsBuyer` | x/nameservice/handler.go:35-39 | buying an unowned domain takes exactly the bid from the buyer and credits no account |
| `Handler.FirstBidOnlyNeedsFunds` | x/nameservice/handler.go:25-27 | with no stored price, a positive bid always passes the price check, so only the payment decides; from non-negative balances, success is exactly the buyer covering the bid |
| `Handler.DispatchKeepsPriceSlotsDecode` | x/nameservice/handler.go:25 | starting from decodable price slots, handling never panics and keeps them decodable |
| `Bank.SubtractEffect` | x/nameservice/handler.go:36 | subtraction succeeds exactly when the balance `IsGTE` the amount, then debits exactly that amount from that account alone |
| `Bank.AddEffect` | x/nameservice/handler.go:31 | addition succeeds exactly when the new balance has no negative denomination, and then credits exactly the amount to that account alone |
| `Bank.SendEffect` | x/nameservice/handler.go:31 | a transfer succeeds exactly when the sender covers the amount and the credit is not refused; it then debits the sender and credits the recipient by the amount, nets to zero for a self-transfer, and touches nobody else; an uncovered amount changes nothing; a refused credit leaves only the sender debited |
| `Bank.CreditNeverRefused` | x/nameservice/handler.go:31 | from non-negative balances, a credit of an amount with no negative entry is never refused |
| `Bank.SendKeepsNonNegative` | x/nameservice/handler.go:31-36 | subtraction and transfers keep every balance non-negative |
| `Bank.BankKeeper.SubtractCoins` | x/nameservice/handler.go:36 | error exactly when the new balance would have a negative denomination; then balances are unchanged, otherwise only the account's balance is lowered |
| `Bank.BankKeeper.AddCoins` | x/nameservice/handler.go:31 | error exactly when the raised balance would have a negative denomination; then balances are unchanged, otherwise only the account's balance is raised |
| `Bank.BankKeeper.SendCoins` | x/nameservice/handler.go:31 | error exactly when `Bank.Send` does not go through, and the balances are those `Bank.Send` leaves |
| `Coins.IsGTEMeaning` | x/nameservice/handler.go:25 | `a.IsGTE(b)` holds exactly when `a` holds at least as much of every denomination as `b` |
| `Coins.IsGTEReflexive` | x/nameservice/handler.go:25 | every Coins value `IsGTE` itself, so a bid equal to the price is too low |
| `Coins.NonNegativePlus` | x/nameservice/handler.go:31 | adding entries with no negative amount to a non-negative value keeps it non-negative |
| `Coins.EmptyIsBelowPositive` | x/nameservice/handler.go:25 | the empty Coins value is never `IsGTE` a positive one |
| `Codec.RoundTrip` | x/nameservice/keeper.go:64-71 | decoding what the price encoding wrote gives back the same Coins value |
| `Codec.EncodeInjective` | x/nameservice/keeper.go:71 | two different Coins values never encode to the same bytes |
| `Findings.RebidIgnoresPaidPrice` | x/nameservice/handler.go:25-43 | after a first purchase of a domain, the next purchase passes the price check with any positive bid, so only its payment decides it |
| `Findings.LowerRebidExample` | x/nameservice/keeper.go:71 | Alice buys "a" for 10 steak; Bob then succeeds with 1 steak, although 10 steak covers 1 steak |
| `Findings.BuyOverwritesForeignOwner` | x/nameservice/keeper.go:71 | buying the domain `[0x01] + e` makes the encoded bid the owner of `e` |
| `Findings.BuyOverwritesForeignValue` | x/nameservice/keeper.go:71 | buying the domain `[0x00] + e` makes the encoded bid the value of `e` |
| `Findings.BuySetsForeignPrice` | x/nameservice/keeper.go:71 | buying the domain `[0x02] + e` sets the price of the different domain `e` to the bid |
| `Findings.CorrectedBuyRecords` | x/nameservice/handler.go:42-44 | with the price stored under `PriceKey`, `GetPrice` returns the bid after a purchase, alongside the new owner and value |
| `Findings.CorrectedBuyTouchesOnlyItsDomain` | x/nameservice/handler.go:42-44 | the corrected purchase changes no value, owner or price of another domain |
| `Findings.RecordCorrectedTouchesOnlyItsDomain` | x/nameservice/handler.go:42-44 | the three corrected writes leave every other domain's value, owner and price as they were |
| `Findings.CorrectedRebidMustBeatPaidPrice` | x/nameservice/handler.go:25-27 | after a corrected purchase, a later bid that the paid bid covers is refused as too low and changes nothing; any later success outbid the paid price |

## Findings

| source | as written | input that shows it | evidently intended | confidence | as-written member | corrected member |
|---|---|---|---|---|---|---|
| x/nameservice/keeper.go:71 | `SetPrice` stores the price under `[]byte(domain)`, but `GetPrice` reads `PriceKey(domain)`, so a paid price is never read back | Alice buys "a" for 10 steak, then Bob buys "a" for 1 steak and succeeds | store the price under `PriceKey(domain)`, so every later bid must outbid the last price paid | not executed | `Findings.LowerRebidExample` | `Findings.CorrectedRebidMustBeatPaidPrice` |
| x/nameservice/keeper.go:71 | the raw domain key can be another domain's key: for a domain starting with 0x00, 0x01 or 0x02, the price write lands on the value, owner or price of the domain after that byte | buying the domain "\x01a" makes the encoded bid the owner of "a", so the next buyer of "a" pays that byte string | a purchase writes only the keys of the purchased domain | not executed | `Findings.BuyOverwritesForeignOwner` | `Findings.CorrectedBuyTouchesOnlyItsDomain` |

The handler model keeps the code's write as written. `Findings.BuyDomainCorrected` is the purchase with the price stored under `PriceKey(domain)`. It reuses the handler's checks and payment, and the corrected lemmas are stated about it.

## Left out

- `GetSignBytes` (msgs.go:46-52): it is JSON marshalling plus `MustSortJSON`, both library code.
- The amino binary encoding: `Codec.Encode`/`Codec.Decode` are an injective stand-in with the same round-trip property, not amino's byte layout.
- The SDK's Coins normal form (sorted, merged entries, no zero amounts): `Plus` and `Minus` concatenate entry lists, and all amounts are compared through `AmountOf`.
- The bank's account storage, fees and tags: balances are only a map from address to Coins.
- The Bech32 text that `ErrInvalidAddress` carries: the error keeps the raw address.
- `reflect.TypeOf(msg).Name()`: the type name is a field of the catch-all message case.
- The host: the context, multistore and store keys; running `ValidateBasic` before the handler; recovering panics; rolling back failed transactions. The handler is modelled on every message, validated or not. Where a refused credit leaves the buyer debited, the model shows that debit; discarding it with the failed transaction is host behaviour.
- What the store does with a nil value in `Set`: the model stores any byte string, including the empty one.
- Application wiring, genesis, codec registration, the daemon and CLI commands, and RPC queries (app.go, cmd/, client/cli/, codec.go): bootstrapping and I/O glue.
- The querier that app.go:74 registers: query glue, left out with the CLI.
