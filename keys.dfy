/**
 * Store keys of the name service: each fact about a domain lives under a
 * one-byte prefix (value 0x00, owner 0x01, price 0x02) followed by the
 * domain's bytes.
 */
module Keys {
  import opened ByteStrings

  const ValuePrefix: Bytes := [0x00]
  const OwnerPrefix: Bytes := [0x01]
  const PricePrefix: Bytes := [0x02]

  function ValueKey(domain: Bytes): (key: Bytes)
    ensures |key| == |domain| + 1 && key[0] == 0x00 && key[1..] == domain
  {
    ValuePrefix + domain
  }

  function OwnerKey(domain: Bytes): (key: Bytes)
    ensures |key| == |domain| + 1 && key[0] == 0x01 && key[1..] == domain
  {
    OwnerPrefix + domain
  }

  function PriceKey(domain: Bytes): (key: Bytes)
    ensures |key| == |domain| + 1 && key[0] == 0x02 && key[1..] == domain
  {
    PricePrefix + domain
  }

  /** The domain a key was derived from: the key without its prefix byte. */
  function DomainOf(key: Bytes): (domain: Bytes)
    requires |key| > 0
    ensures |domain| == |key| - 1
  {
    key[1..]
  }

  /** Dropping the prefix recovers the domain from each kind of key. */
  lemma DomainRecovered(d: Bytes)
    ensures DomainOf(ValueKey(d)) == d
    ensures DomainOf(OwnerKey(d)) == d
    ensures DomainOf(PriceKey(d)) == d
  {
  }

  /** Keys of different kinds never coincide, whatever the two domains. */
  lemma KeyKindsDisjoint(d1: Bytes, d2: Bytes)
    ensures ValueKey(d1) != OwnerKey(d2)
    ensures ValueKey(d1) != PriceKey(d2)
    ensures OwnerKey(d1) != PriceKey(d2)
  {
    assert ValueKey(d1)[0] != OwnerKey(d2)[0];
    assert ValueKey(d1)[0] != PriceKey(d2)[0];
    assert OwnerKey(d1)[0] != PriceKey(d2)[0];
  }

  /** Each key function is injective. */
  lemma KeysInjective(d1: Bytes, d2: Bytes)
    ensures ValueKey(d1) == ValueKey(d2) ==> d1 == d2
    ensures OwnerKey(d1) == OwnerKey(d2) ==> d1 == d2
    ensures PriceKey(d1) == PriceKey(d2) ==> d1 == d2
  {
    DomainRecovered(d1);
    DomainRecovered(d2);
  }

  /** A domain's raw bytes are none of its own three keys: their lengths differ. */
  lemma RawDomainIsNoKeyOfItself(d: Bytes)
    ensures d != ValueKey(d) && d != OwnerKey(d) && d != PriceKey(d)
  {
    assert |ValueKey(d)| != |d|;
  }

  /** A non-empty raw domain is exactly the key of the domain after its first byte, when that byte is a prefix. */
  lemma RawDomainAsKey(d: Bytes)
    requires |d| > 0
    ensures d[0] == 0x00 ==> d == ValueKey(d[1..])
    ensures d[0] == 0x01 ==> d == OwnerKey(d[1..])
    ensures d[0] == 0x02 ==> d == PriceKey(d[1..])
  {
    assert d == [d[0]] + d[1..];
  }
}
