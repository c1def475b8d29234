/**
 * The binary codec the keeper uses for prices (`MustMarshalBinary` and
 * `MustUnmarshalBinary` of `sdk.Coins`).
 *
 * The real codec is the amino library, which is not part of this model. It is
 * replaced by a concrete injective stand-in with the same interface: a
 * uvarint count of entries, then per entry a uvarint-length-prefixed
 * denomination and the zig-zag uvarint of its amount. What the keeper relies
 * on is proved below: decoding an encoding gives back the same Coins value.
 */
module Codec {
  import opened Wrappers
  import opened ByteStrings
  import opened Coins

  /** Unsigned LEB128: seven bits per byte, high bit set on every byte but the last. */
  function EncodeUvarint(n: nat): (r: Bytes)
    ensures |r| >= 1
    decreases n
  {
    if n < 128 then [n as byte]
    else [(128 + n % 128) as byte] + EncodeUvarint(n / 128)
  }

  /** Reads one uvarint off the front of `s` and returns it with the bytes after it. */
  function DecodeUvarint(s: Bytes): Option<(nat, Bytes)>
    decreases |s|
  {
    if s == [] then None
    else if s[0] < 128 then Some((s[0] as int, s[1..]))
    else
      match DecodeUvarint(s[1..])
      case None => None
      case Some(p) => Some(((s[0] as int - 128) + 128 * p.0, p.1))
  }

  /** Zig-zag mapping of integers to naturals: 0, -1, 1, -2, ... become 0, 1, 2, 3, ... */
  function ZigZag(i: int): nat
  {
    if i >= 0 then 2 * i else -2 * i - 1
  }

  function UnZigZag(n: nat): int
  {
    if n % 2 == 0 then n / 2 else -(n + 1) / 2
  }

  function EncodeDenom(d: Denom): Bytes
  {
    EncodeUvarint(|d|) + d
  }

  function DecodeDenom(s: Bytes): Option<(Denom, Bytes)>
  {
    match DecodeUvarint(s)
    case None => None
    case Some(p) =>
      if p.0 <= |p.1| then Some((p.1[..p.0], p.1[p.0..])) else None
  }

  function EncodeCoin(c: Coin): Bytes
  {
    EncodeDenom(c.denom) + EncodeUvarint(ZigZag(c.amount))
  }

  function DecodeCoin(s: Bytes): Option<(Coin, Bytes)>
  {
    match DecodeDenom(s)
    case None => None
    case Some(p) =>
      match DecodeUvarint(p.1)
      case None => None
      case Some(q) => Some((Coin(p.0, UnZigZag(q.0)), q.1))
  }

  function EncodeEntries(cs: Coins): Bytes
  {
    if cs == [] then [] else EncodeCoin(cs[0]) + EncodeEntries(cs[1..])
  }

  /** Reads `n` entries off the front of `s`. */
  function DecodeEntries(n: nat, s: Bytes): Option<(Coins, Bytes)>
  {
    if n == 0 then Some(([], s))
    else
      match DecodeCoin(s)
      case None => None
      case Some(p) =>
        match DecodeEntries(n - 1, p.1)
        case None => None
        case Some(q) => Some(([p.0] + q.0, q.1))
  }

  /** `MustMarshalBinary(price)`. */
  function Encode(cs: Coins): Bytes
  {
    EncodeUvarint(|cs|) + EncodeEntries(cs)
  }

  /** `MustUnmarshalBinary(bz, &price)`: `None` is the case where it panics. */
  function Decode(s: Bytes): Option<Coins>
  {
    match DecodeUvarint(s)
    case None => None
    case Some(p) =>
      match DecodeEntries(p.0, p.1)
      case None => None
      case Some(q) => if q.1 == [] then Some(q.0) else None
  }

  lemma {:induction false} UvarintRoundTrip(n: nat, t: Bytes)
    ensures DecodeUvarint(EncodeUvarint(n) + t) == Some((n, t))
    decreases n
  {
    var s := EncodeUvarint(n) + t;
    if n < 128 {
      assert s[0] == n as byte && s[1..] == t;
    } else {
      var rest := EncodeUvarint(n / 128);
      assert s[0] == (128 + n % 128) as byte;
      assert s[1..] == rest + t;
      UvarintRoundTrip(n / 128, t);
    }
  }

  lemma ZigZagRoundTrip(i: int)
    ensures UnZigZag(ZigZag(i)) == i
  {
  }

  lemma DenomRoundTrip(d: Denom, t: Bytes)
    ensures DecodeDenom(EncodeDenom(d) + t) == Some((d, t))
  {
    var s := EncodeDenom(d) + t;
    assert s == EncodeUvarint(|d|) + (d + t);
    UvarintRoundTrip(|d|, d + t);
    assert (d + t)[..|d|] == d && (d + t)[|d|..] == t;
  }

  lemma CoinRoundTrip(c: Coin, t: Bytes)
    ensures DecodeCoin(EncodeCoin(c) + t) == Some((c, t))
  {
    var tail := EncodeUvarint(ZigZag(c.amount)) + t;
    assert EncodeCoin(c) + t == EncodeDenom(c.denom) + tail;
    DenomRoundTrip(c.denom, tail);
    UvarintRoundTrip(ZigZag(c.amount), t);
    ZigZagRoundTrip(c.amount);
  }

  lemma {:induction false} EntriesRoundTrip(cs: Coins, t: Bytes)
    ensures DecodeEntries(|cs|, EncodeEntries(cs) + t) == Some((cs, t))
  {
    if cs != [] {
      var tail := EncodeEntries(cs[1..]) + t;
      assert EncodeEntries(cs) + t == EncodeCoin(cs[0]) + tail;
      CoinRoundTrip(cs[0], tail);
      EntriesRoundTrip(cs[1..], t);
      assert |cs[1..]| == |cs| - 1;
      assert [cs[0]] + cs[1..] == cs;
    } else {
      assert EncodeEntries(cs) + t == t;
    }
  }

  /** Decoding what `Encode` wrote gives back the same Coins value. */
  lemma RoundTrip(cs: Coins)
    ensures Decode(Encode(cs)) == Some(cs)
  {
    UvarintRoundTrip(|cs|, EncodeEntries(cs));
    EntriesRoundTrip(cs, []);
    assert EncodeEntries(cs) + [] == EncodeEntries(cs);
  }

  /** Hence the encoding is injective. */
  lemma EncodeInjective(a: Coins, b: Coins)
    ensures Encode(a) == Encode(b) ==> a == b
  {
    RoundTrip(a);
    RoundTrip(b);
  }
}
