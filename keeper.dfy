/**
 * The name service keeper: typed accessors over one key-value store. The
 * spec functions give what each getter reads from a store value; the
 * `Keeper` class holds the store the setters update in place.
 *
 * As in the code, `SetPrice` writes the domain's raw bytes as key while
 * `GetPrice` reads `PriceKey(domain)`, and an unset price reads as the empty
 * Coins value.
 */
module Keeper {
  import opened Wrappers
  import opened ByteStrings
  import opened Coins
  import opened Sdk
  import opened Keys
  import Codec
  import Bank

  /** The KV store: `Get` yields nil for an absent key, `Has` tests presence. */
  type Store = map<Bytes, Bytes>

  /** What `GetValue` returns: the stored bytes, or the empty string when unset. */
  function ValueOf(s: Store, domain: Bytes): Bytes
  {
    if ValueKey(domain) in s then s[ValueKey(domain)] else []
  }

  /** What `HasOwner` returns. */
  predicate HasOwnerIn(s: Store, domain: Bytes)
  {
    OwnerKey(domain) in s
  }

  /** What `GetOwner` returns: the stored address, or the empty (nil) address when unset. */
  function OwnerOf(s: Store, domain: Bytes): Address
  {
    if OwnerKey(domain) in s then s[OwnerKey(domain)] else []
  }

  /**
   * What `GetPrice` returns: the empty Coins value when `PriceKey(domain)` is
   * unset, otherwise the decoding of the stored bytes; `None` when decoding
   * fails, which is where `MustUnmarshalBinary` panics.
   */
  function PriceOf(s: Store, domain: Bytes): Option<Coins>
  {
    if PriceKey(domain) in s then Codec.Decode(s[PriceKey(domain)]) else Some([])
  }

  /** Every key that begins with the price prefix holds bytes that decode as Coins. */
  ghost predicate PriceSlotsDecode(s: Store)
  {
    forall k :: k in s && |k| > 0 && k[0] == 0x02 ==> Codec.Decode(s[k]).Some?
  }

  /** An unset value reads as the empty string; a set one reads back unchanged. */
  lemma GetValueDefault(s: Store, d: Bytes)
    ensures ValueKey(d) !in s ==> ValueOf(s, d) == []
    ensures ValueKey(d) in s ==> ValueOf(s, d) == s[ValueKey(d)]
  {
  }

  /**
   * An unset price reads as the empty Coins value, not as one unit of any
   * denomination; a set one reads as the decoding of the stored bytes.
   */
  lemma GetPriceDefault(s: Store, d: Bytes)
    ensures PriceKey(d) !in s ==> PriceOf(s, d) == Some([])
    ensures PriceKey(d) in s ==> PriceOf(s, d) == Codec.Decode(s[PriceKey(d)])
  {
  }

  /** After `SetValue(d, v)`, `GetValue(d)` is `v` and every other fact of every domain is as before. */
  lemma SetValueEffect(s: Store, d: Bytes, v: Bytes)
    ensures ValueOf(s[ValueKey(d) := v], d) == v
    ensures forall e :: e != d ==> ValueOf(s[ValueKey(d) := v], e) == ValueOf(s, e)
    ensures forall e :: OwnerOf(s[ValueKey(d) := v], e) == OwnerOf(s, e)
    ensures forall e :: HasOwnerIn(s[ValueKey(d) := v], e) == HasOwnerIn(s, e)
    ensures forall e :: PriceOf(s[ValueKey(d) := v], e) == PriceOf(s, e)
  {
  }

  /** After `SetOwner(d, o)`, `d` has owner `o` and every other fact of every domain is as before. */
  lemma SetOwnerEffect(s: Store, d: Bytes, o: Address)
    ensures HasOwnerIn(s[OwnerKey(d) := o], d) && OwnerOf(s[OwnerKey(d) := o], d) == o
    ensures forall e :: e != d ==> OwnerOf(s[OwnerKey(d) := o], e) == OwnerOf(s, e)
    ensures forall e :: e != d ==> HasOwnerIn(s[OwnerKey(d) := o], e) == HasOwnerIn(s, e)
    ensures forall e :: ValueOf(s[OwnerKey(d) := o], e) == ValueOf(s, e)
    ensures forall e :: PriceOf(s[OwnerKey(d) := o], e) == PriceOf(s, e)
  {
  }

  /**
   * `SetPrice(d, c)` writes the raw key `d`, which is none of `d`'s own keys,
   * so the price, value and owner that the getters report for `d` are as before.
   */
  lemma SetPriceKeepsOwnFacts(s: Store, d: Bytes, c: Coins)
    ensures PriceOf(s[d := Codec.Encode(c)], d) == PriceOf(s, d)
    ensures ValueOf(s[d := Codec.Encode(c)], d) == ValueOf(s, d)
    ensures OwnerOf(s[d := Codec.Encode(c)], d) == OwnerOf(s, d)
    ensures HasOwnerIn(s[d := Codec.Encode(c)], d) == HasOwnerIn(s, d)
  {
    RawDomainIsNoKeyOfItself(d);
  }

  /** The three setters keep every price slot decodable, so `GetPrice` never panics from them. */
  lemma SettersKeepPriceSlotsDecode(s: Store, d: Bytes, v: Bytes, o: Address, c: Coins)
    requires PriceSlotsDecode(s)
    ensures PriceSlotsDecode(s[ValueKey(d) := v])
    ensures PriceSlotsDecode(s[OwnerKey(d) := o])
    ensures PriceSlotsDecode(s[d := Codec.Encode(c)])
  {
    Codec.RoundTrip(c);
  }

  /** Where every price slot decodes, `GetPrice` returns a value for every domain. */
  lemma GetPriceNoPanic(s: Store, d: Bytes)
    requires PriceSlotsDecode(s)
    ensures PriceOf(s, d).Some?
  {
    if PriceKey(d) in s {
      assert PriceKey(d)[0] == 0x02;
    }
  }

  /** `Keeper`: the store it reads and writes, and the bank keeper it holds. */
  class Keeper {
    var store: Store
    const bk: Bank.BankKeeper

    /** `NewKeeper(cdc, key, bk)`, with the store that `key` opens in the context. */
    constructor (bk: Bank.BankKeeper, store: Store)
      ensures this.bk == bk && this.store == store
    {
      this.bk := bk;
      this.store := store;
    }

    method GetValue(domain: Bytes) returns (value: Bytes)
      ensures value == ValueOf(store, domain)
    {
      if ValueKey(domain) in store {
        value := store[ValueKey(domain)];
      } else {
        value := [];
      }
    }

    method SetValue(domain: Bytes, value: Bytes)
      modifies this
      ensures store == old(store)[ValueKey(domain) := value]
    {
      store := store[ValueKey(domain) := value];
    }

    method HasOwner(domain: Bytes) returns (has: bool)
      ensures has == HasOwnerIn(store, domain)
    {
      has := OwnerKey(domain) in store;
    }

    method GetOwner(domain: Bytes) returns (owner: Address)
      ensures owner == OwnerOf(store, domain)
    {
      if OwnerKey(domain) in store {
        owner := store[OwnerKey(domain)];
      } else {
        owner := [];
      }
    }

    method SetOwner(domain: Bytes, owner: Address)
      modifies this
      ensures store == old(store)[OwnerKey(domain) := owner]
    {
      store := store[OwnerKey(domain) := owner];
    }

    /** `None` is the panic of `MustUnmarshalBinary` on bytes that do not decode. */
    method GetPrice(domain: Bytes) returns (price: Option<Coins>)
      ensures price == PriceOf(store, domain)
    {
      if PriceKey(domain) !in store {
        return Some([]);
      }
      price := Codec.Decode(store[PriceKey(domain)]);
    }

    /** Writes under the raw domain bytes, not under `PriceKey(domain)`. */
    method SetPrice(domain: Bytes, price: Coins)
      modifies this
      ensures store == old(store)[domain := Codec.Encode(price)]
    {
      store := store[domain := Codec.Encode(price)];
    }
  }
}
