/** Page tokens: positions packed as little-endian bytes in URL-safe Base64. */
module PageToken {
  import opened Outcomes
  import opened Base64

  /** The position of a row: its block and its offset in the block. */
  datatype Key = Key(round: nat, intra: nat)

  function LittleEndian(n: nat, k: nat): (b: seq<Byte>)
    ensures |b| == k
    decreases k
  {
    if k == 0 then [] else [n % 256] + LittleEndian(n / 256, k - 1)
  }

  function FromLittleEndian(b: seq<Byte>): nat {
    if b == [] then 0 else b[0] + 256 * FromLittleEndian(b[1..])
  }

  function Pow256(k: nat): nat {
    if k == 0 then 1 else 256 * Pow256(k - 1)
  }

  lemma {:induction false} LittleEndianRoundTrip(n: nat, k: nat)
    requires n < Pow256(k)
    ensures FromLittleEndian(LittleEndian(n, k)) == n
    decreases k
  {
    if k > 0 {
      LittleEndianRoundTrip(n / 256, k - 1);
    }
  }

  /** The first `k` bytes as digits to the base 256, the lowest one first. */
  function Weighted(b: seq<Byte>, k: nat): nat
    requires k <= |b|
  {
    if k == 0 then 0 else Weighted(b, k - 1) + b[k - 1] * Pow256(k - 1)
  }

  lemma {:induction false} WeightedTail(b: seq<Byte>, k: nat)
    requires k < |b|
    ensures Weighted(b, k + 1) == b[0] + 256 * Weighted(b[1..], k)
  {
    if k > 0 {
      WeightedTail(b, k - 1);
      assert b[k] * Pow256(k) == 256 * (b[1..][k - 1] * Pow256(k - 1));
    }
  }

  lemma {:induction false} ReadsDigits(b: seq<Byte>)
    ensures FromLittleEndian(b) == Weighted(b, |b|)
  {
    if b != [] {
      ReadsDigits(b[1..]);
      WeightedTail(b, |b| - 1);
    }
  }

  const TWO_32 := 0x1_0000_0000
  const TWO_64 := 0x1_0000_0000_0000_0000

  lemma WordSizes()
    ensures Pow256(4) == TWO_32 && Pow256(8) == TWO_64
  {
    assert Pow256(2) == 0x1_0000;
    assert Pow256(4) == TWO_32;
    assert Pow256(6) == 0x1_0000_0000_0000;
  }

  /** The 32-bit field keeps only the low bits of the offset. */
  function EncodeToken(key: Key): string {
    Encode(Url, LittleEndian(key.round, 8) + LittleEndian(key.intra, 4))
  }

  function DecodeToken(s: string): Option<Key> {
    match Decode(Url, s)
    case None => None
    case Some(b) =>
      if |b| != 12 then None else Some(Key(FromLittleEndian(b[..8]), FromLittleEndian(b[8..])))
  }

  lemma TokenRoundTrip(key: Key)
    requires key.round < TWO_64 && key.intra < TWO_32
    ensures DecodeToken(EncodeToken(key)) == Some(key)
    ensures EncodeToken(key) != ""
  {
    var b := LittleEndian(key.round, 8) + LittleEndian(key.intra, 4);
    RoundTrip(Url, b);
    WordSizes();
    LittleEndianRoundTrip(key.round, 8);
    LittleEndianRoundTrip(key.intra, 4);
    assert b[..8] == LittleEndian(key.round, 8) && b[8..] == LittleEndian(key.intra, 4);
  }

  /** The token is the Base64 text of twelve bytes: eight for the round, then four for the offset, each with
      the low byte first. */
  ghost predicate IsTokenOf(token: string, b: seq<Byte>, key: Key) {
    token == Encode(Url, b) && |b| == 12 && Weighted(b[..8], 8) == key.round && Weighted(b[8..], 4) == key.intra
  }

  lemma TokenBytes(key: Key)
    requires key.round < TWO_64 && key.intra < TWO_32
    ensures exists b :: IsTokenOf(EncodeToken(key), b, key)
  {
    var b := LittleEndian(key.round, 8) + LittleEndian(key.intra, 4);
    WordSizes();
    LittleEndianRoundTrip(key.round, 8);
    LittleEndianRoundTrip(key.intra, 4);
    assert b[..8] == LittleEndian(key.round, 8) && b[8..] == LittleEndian(key.intra, 4);
    ReadsDigits(b[..8]);
    ReadsDigits(b[8..]);
    assert IsTokenOf(EncodeToken(key), b, key);
  }

  /** A text is a token exactly when it is the Base64 text of twelve bytes, and a block token when of eight. */
  lemma TokenShape(s: string)
    ensures DecodeToken(s).Some? <==> Decode(Url, s).Some? && |Decode(Url, s).value| == 12
    ensures DecodeBlockToken(s).Some? <==> Decode(Url, s).Some? && |Decode(Url, s).value| == 8
  {}

  function EncodeBlockToken(round: nat): string {
    Encode(Url, LittleEndian(round, 8))
  }

  function DecodeBlockToken(s: string): Option<nat> {
    match Decode(Url, s)
    case None => None
    case Some(b) => if |b| != 8 then None else Some(FromLittleEndian(b))
  }

  lemma BlockTokenRoundTrip(round: nat)
    requires round < TWO_64
    ensures DecodeBlockToken(EncodeBlockToken(round)) == Some(round)
  {
    RoundTrip(Url, LittleEndian(round, 8));
    WordSizes();
    LittleEndianRoundTrip(round, 8);
  }
}
