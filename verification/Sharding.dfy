/** Splitting the 32-byte address space into shards for the account validator. */
module Sharding {
  import opened Outcomes
  import opened Base64
  import opened PageToken

  // ---------------------------------------------------------------- big-endian numbers

  function Value(b: seq<Byte>): nat {
    if b == [] then 0 else 256 * Value(b[..|b| - 1]) + b[|b| - 1]
  }

  function BigEndian(n: nat, k: nat): (b: seq<Byte>)
    ensures |b| == k
    decreases k
  {
    if k == 0 then [] else BigEndian(n / 256, k - 1) + [n % 256]
  }

  function Repeat(x: Byte, k: nat): (b: seq<Byte>)
    ensures |b| == k && forall i | 0 <= i < k :: b[i] == x
  {
    if k == 0 then [] else Repeat(x, k - 1) + [x]
  }

  lemma {:induction false} BigEndianValue(n: nat, k: nat)
    requires n < Pow256(k)
    ensures Value(BigEndian(n, k)) == n
    decreases k
  {
    if k > 0 {
      BigEndianValue(n / 256, k - 1);
    }
  }

  /** Byte order on strings of one length: the first difference decides. */
  predicate Before(a: seq<Byte>, b: seq<Byte>) {
    if a == [] || |a| != |b| then false
    else
      var n := |a| - 1;
      Before(a[..n], b[..n]) || (a[..n] == b[..n] && a[n] < b[n])
  }

  /** Byte strings of one length compare like numbers. */
  lemma {:induction false} BeforeIsLess(a: seq<Byte>, b: seq<Byte>)
    requires |a| == |b|
    ensures Before(a, b) <==> Value(a) < Value(b)
    ensures a == b <==> Value(a) == Value(b)
  {
    if a != [] {
      var n := |a| - 1;
      BeforeIsLess(a[..n], b[..n]);
      assert a == a[..n] + [a[n]] && b == b[..n] + [b[n]];
    }
  }

  lemma Extend(b: seq<Byte>, x: Byte, k: nat)
    requires k > 0
    ensures Value(b + Repeat(x, k)) == 256 * Value(b + Repeat(x, k - 1)) + x
  {
    assert (b + Repeat(x, k))[..|b| + k - 1] == b + Repeat(x, k - 1);
  }

  lemma Shift(v: nat, k: nat)
    requires k > 0
    ensures 256 * (v * Pow256(k - 1)) == v * Pow256(k)
  {}

  lemma {:induction false} TrailingZeros(b: seq<Byte>, k: nat)
    ensures Value(b + Repeat(0, k)) == Value(b) * Pow256(k)
  {
    if k == 0 {
      assert b + Repeat(0, k) == b;
    } else {
      TrailingZeros(b, k - 1);
      Extend(b, 0, k);
      Shift(Value(b), k);
    }
  }

  lemma {:induction false} TrailingOnes(b: seq<Byte>, k: nat)
    ensures Value(b + Repeat(255, k)) == Value(b) * Pow256(k) + Pow256(k) - 1
  {
    if k == 0 {
      assert b + Repeat(255, k) == b;
    } else {
      TrailingOnes(b, k - 1);
      Extend(b, 255, k);
      Shift(Value(b), k);
    }
  }

  // ---------------------------------------------------------------- subtracting one

  lemma OneMore(v: nat, p: nat)
    ensures (v + 1) * p == v * p + p
  {}

  /** A borrow through k trailing zeros subtracts exactly one. */
  lemma Borrow(front: seq<Byte>, d: Byte, k: nat)
    requires d > 0
    ensures Value(front + [d - 1] + Repeat(255, k)) == Value(front + [d] + Repeat(0, k)) - 1
  {
    var x: Byte := d - 1;
    TrailingZeros(front + [d], k);
    TrailingOnes(front + [x], k);
    assert (front + [d])[..|front|] == front && (front + [x])[..|front|] == front;
    OneMore(Value(front + [x]), Pow256(k));
  }

  /** What the borrow loop has done: zeros after `pos` have become 255. */
  predicate Borrowing(bs: seq<Byte>, list: seq<Byte>, pos: int) {
    && -1 <= pos < |bs| == |list|
    && (forall i | 0 <= i < |bs| :: if i <= pos then list[i] == bs[i] else bs[i] == 0 && list[i] == 255)
  }

  lemma BorrowFrom(bs: seq<Byte>, list: seq<Byte>, pos: nat)
    requires Borrowing(bs, list, pos) && bs[pos] > 0
    ensures Value(list[pos := list[pos] - 1]) == Value(bs) - 1
  {
    var k := |bs| - 1 - pos;
    Borrow(bs[..pos], bs[pos], k);
    assert bs == bs[..pos] + [bs[pos]] + Repeat(0, k);
    assert list[pos := list[pos] - 1] == bs[..pos] + [bs[pos] - 1] + Repeat(255, k);
  }

  lemma BorrowAround(bs: seq<Byte>, list: seq<Byte>)
    requires Borrowing(bs, list, -1) && bs != []
    ensures Value(bs) == 0 && Value(list[|bs| - 1 := 254]) == Pow256(|bs|) - 2
  {
    var n := |bs| - 1;
    TrailingZeros([], n + 1);
    assert bs == [] + Repeat(0, n + 1);
    TrailingOnes([], n);
    assert list[n := 254][..n] == [] + Repeat(255, n);
  }

  /** The number minus one. On zero the borrow runs off the front and comes back, as a negative index
      does, to the last byte. */
  method ByteDec(bs: seq<Byte>) returns (r: Result<seq<Byte>>)
    ensures r.Err? <==> bs == []
    ensures r.Ok? ==> |r.value| == |bs| && Value(r.value) == if Value(bs) > 0 then Value(bs) - 1 else Pow256(|bs|) - 2
  {
    if bs == [] {
      return Err("index out of range");
    }
    var n, list, pos := |bs|, bs, |bs| - 1;
    while list[if pos < 0 then n + pos else pos] == 0
      invariant Borrowing(bs, list, pos)
      decreases pos
    {
      list := list[pos := 255];
      pos := pos - 1;
    }
    if pos < 0 {
      BorrowAround(bs, list);
      list := list[n - 1 := list[n - 1] - 1];
    } else {
      BorrowFrom(bs, list, pos);
      list := list[pos := list[pos] - 1];
    }
    r := Ok(list);
  }

  // ---------------------------------------------------------------- shards

  /** The address range of a shard: above the first and up to the second, where they are given. */
  datatype Bounds = Bounds(above: Option<seq<Byte>>, upTo: Option<seq<Byte>>)

  /** The number of addresses with one value of the first eight bytes. */
  const BLOCK: nat := Pow256(24)

  function Split(n: nat): seq<Byte> {
    BigEndian(n, 8) + Repeat(0, 24)
  }

  lemma SplitValue(n: nat)
    requires n < TWO_64
    ensures |Split(n)| == 32 && Value(Split(n)) == n * BLOCK
  {
    WordSizes();
    BigEndianValue(n, 8);
    TrailingZeros(BigEndian(n, 8), 24);
  }

  /** The first eight bytes of the address that ends shard k and starts the next. */
  function Edge(b: nat, k: nat): nat {
    if b == 0 then 0 else TWO_64 / b * k
  }

  /** That address as a number. */
  function EdgeAddress(b: nat, k: nat): nat {
    Edge(b, k) * BLOCK
  }

  lemma Division(n: nat, b: nat)
    requires 1 <= b <= n
    ensures n / b >= 1 && n / b * b <= n
  {}

  lemma {:induction false} Times(c: nat, j: nat, k: nat)
    requires j < k
    ensures c * k >= c * j + c
    decreases k
  {
    if j + 1 < k {
      Times(c, j, k - 1);
    }
    assert c * k == c * (k - 1) + c;
  }

  lemma Greater(x: nat, y: nat, z: nat)
    requires x < y && z > 0
    ensures x * z < y * z
  {}

  lemma {:induction false} Positive(k: nat)
    ensures Pow256(k) > 0
  {
    if k > 0 {
      Positive(k - 1);
    }
  }

  /** Edges ascend and stay inside the 64 bits. */
  lemma EdgesAscend(b: nat, j: nat, k: nat)
    requires 1 <= b <= TWO_64 && j < k
    ensures Edge(b, j) < Edge(b, k) && EdgeAddress(b, j) < EdgeAddress(b, k)
    ensures k <= b ==> Edge(b, j) < TWO_64
  {
    Division(TWO_64, b);
    Times(TWO_64 / b, j, k);
    if k < b {
      Times(TWO_64 / b, k, b);
    }
    Positive(24);
    Greater(Edge(b, j), Edge(b, k), BLOCK);
  }

  /** Where shard k starts. With more than 2^64 shards every edge is 0, and the borrow comes around. */
  function Start(b: nat, k: nat): int
    requires k > 1
  {
    if Edge(b, k - 1) > 0 then EdgeAddress(b, k - 1) else Pow256(32) - 1
  }

  lemma StartIsEdge(b: nat, k: nat)
    requires 1 < k <= b <= TWO_64
    ensures Start(b, k) == EdgeAddress(b, k - 1)
  {
    EdgesAscend(b, 0, k - 1);
  }

  /** From the address at the edge before shard k, as the successor of an exclusive bound,
      to the one at its own edge. */
  ghost predicate IsShard(r: Bounds, k: int, b: nat) {
    && 1 <= k <= b
    && (if k == 1 then r.above.None?
        else r.above.Some? && |r.above.value| == 32 && Value(r.above.value) + 1 == Start(b, k))
    && (if k == b then r.upTo.None? else r.upTo == Some(Split(Edge(b, k))))
  }

  /** In numbers: shard k starts k - 1 and ends k equal steps of 2^64 / b times 2^192 into the address space. */
  lemma ShardMeans(r: Bounds, k: int, b: nat)
    requires IsShard(r, k, b) && b <= TWO_64
    ensures r.above.None? <==> k == 1
    ensures r.upTo.None? <==> k == b
    ensures k > 1 ==> |r.above.value| == 32 && Value(r.above.value) + 1 == TWO_64 / b * (k - 1) * Pow256(24)
    ensures k < b ==> |r.upTo.value| == 32 && Value(r.upTo.value) == TWO_64 / b * k * Pow256(24)
  {
    if k > 1 {
      StartIsEdge(b, k);
    }
    if k < b {
      EdgesAscend(b, k, k + 1);
      SplitValue(Edge(b, k));
    }
  }

  lemma SplitZero(n: nat)
    ensures n * BLOCK > 0 <==> n > 0
  {
    Positive(24);
    if n > 0 {
      Greater(0, n, BLOCK);
    }
  }

  lemma NoEdges(b: nat, k: nat)
    requires b > TWO_64
    ensures Edge(b, k) == 0
  {
    assert TWO_64 / b == 0;
  }

  /** Division that rounds down, for any sign of the divisor. */
  function FloorDiv(n: nat, b: int): int
    requires b != 0
  {
    if b > 0 then n / b else 0 - (n + (0 - b) - 1) / (0 - b)
  }

  lemma RoundedUp(n: nat, m: nat)
    requires m > 0
    ensures (n + m - 1) / m * m >= n
  {
    var c := (n + m - 1) / m;
    assert n + m - 1 == m * c + (n + m - 1) % m;
  }

  /** A negative number of shards asks for a split that does not fit its eight bytes. */
  lemma NegativeTooLarge(b: int)
    requires b < 0
    ensures FloorDiv(TWO_64, b) * (b - 1) >= TWO_64
  {
    var m := 0 - b;
    var c := (TWO_64 + m - 1) / m;
    RoundedUp(TWO_64, m);
    Minus(c, m);
  }

  lemma Minus(c: nat, m: nat)
    ensures (0 - c) * (0 - m - 1) == c * m + c
  {}

  /** Eight bytes and 24 zeros; numbers that do not fit are refused. */
  method PackSplit(n: int) returns (r: Result<seq<Byte>>)
    ensures r == if 0 <= n < TWO_64 then Ok(Split(n)) else Err("number does not fit")
  {
    r := if 0 <= n < TWO_64 then Ok(Split(n)) else Err("number does not fit");
  }

  method UpperBound(chunk: int, k: nat, ghost b: nat) returns (r: Result<seq<Byte>>)
    requires 1 <= k < b && chunk == FloorDiv(TWO_64, b)
    ensures r == Ok(Split(Edge(b, k)))
  {
    EdgeFits(b, k);
    r := PackSplit(chunk * k);
  }

  lemma EdgeFits(b: nat, k: nat)
    requires k < b
    ensures Edge(b, k) < TWO_64
  {
    if b <= TWO_64 {
      EdgesAscend(b, k, k + 1);
    } else {
      NoEdges(b, k);
    }
  }

  method LowerBound(chunk: int, k: int, ghost b: int) returns (r: Result<seq<Byte>>)
    requires b != 0 && chunk == FloorDiv(TWO_64, b) && if b > 0 then 1 < k <= b else k == b
    ensures r.Err? <==> b < 0
    ensures r.Ok? ==> |r.value| == 32 && Value(r.value) + 1 == Start(b, k)
  {
    if k < 0 {
      NegativeTooLarge(b);
    } else {
      EdgeFits(b, k - 1);
    }
    var split := PackSplit(chunk * (k - 1));
    if split.Err? {
      return split;
    }
    SplitValue(Edge(b, k - 1));
    SplitZero(Edge(b, k - 1));
    r := ByteDec(split.value);
  }

  /** The bounds of shard `a` of `b`; fails exactly unless there is at least one shard. */
  method ShardBounds(a: int, b: int) returns (r: Result<Bounds>)
    ensures r.Ok? <==> b >= 1
    ensures r.Ok? ==> IsShard(r.value, if a < 1 then 1 else if a > b then b else a, b)
  {
    if b == 0 {
      return Err("division by zero");
    }
    var chunk := FloorDiv(TWO_64, b);
    var k := a;
    if k < 1 {
      k := 1;
    }
    if k > b {
      k := b;
    }
    var above, upTo := None, None;
    if k != 1 {
      var low := LowerBound(chunk, k, b);
      if low.Err? {
        return Err(low.error);
      }
      above := Some(low.value);
    }
    if k != b {
      var high := UpperBound(chunk, k, b);
      upTo := Some(high.value);
    }
    r := Ok(Bounds(above, upTo));
  }

  predicate InShard(r: Bounds, addr: seq<Byte>) {
    && (r.above.Some? ==> Before(r.above.value, addr))
    && (r.upTo.Some? ==> !Before(r.upTo.value, addr))
  }

  /** Membership in numbers. */
  lemma InShardMeans(r: Bounds, k: nat, b: nat, addr: seq<Byte>)
    requires IsShard(r, k, b) && |addr| == 32 && b <= TWO_64
    ensures InShard(r, addr) <==>
              (k > 1 ==> EdgeAddress(b, k - 1) <= Value(addr)) && (k < b ==> Value(addr) <= EdgeAddress(b, k))
  {
    if k > 1 {
      StartIsEdge(b, k);
      BeforeIsLess(r.above.value, addr);
    }
    if k < b {
      EdgesAscend(b, k, k + 1);
      SplitValue(Edge(b, k));
      BeforeIsLess(r.upTo.value, addr);
    }
  }

  lemma {:induction false} FindShard(b: nat, k: nat, v: nat) returns (s: nat)
    requires 1 <= k <= b
    requires k > 1 ==> EdgeAddress(b, k - 1) <= v
    ensures 1 <= s <= b
    ensures s > 1 ==> EdgeAddress(b, s - 1) <= v
    ensures s < b ==> v <= EdgeAddress(b, s)
    decreases b - k
  {
    s := k;
    if k < b && v > EdgeAddress(b, k) {
      s := FindShard(b, k + 1, v);
    }
  }

  /** Every address lies in some shard. */
  lemma ShardsCover(shards: seq<Bounds>, addr: seq<Byte>)
    requires 1 <= |shards| <= TWO_64 && |addr| == 32
    requires forall i | 0 <= i < |shards| :: IsShard(shards[i], i + 1, |shards|)
    ensures exists i :: 0 <= i < |shards| && InShard(shards[i], addr)
  {
    var b := |shards|;
    var s := FindShard(b, 1, Value(addr));
    assert IsShard(shards[s - 1], s, b);
    InShardMeans(shards[s - 1], s, b, addr);
  }

  lemma NotBetween(b: nat, j: nat, k: nat, v: nat)
    requires 1 <= j < k <= b <= TWO_64
    ensures EdgeAddress(b, k - 1) <= v <= EdgeAddress(b, j) <==> k == j + 1 && v == EdgeAddress(b, j)
    ensures j > 1 ==> EdgeAddress(b, j - 1) < EdgeAddress(b, j)
    ensures EdgeAddress(b, j) < EdgeAddress(b, k)
  {
    if j < k - 1 {
      EdgesAscend(b, j, k - 1);
    }
    if j > 1 {
      EdgesAscend(b, j - 1, j);
    }
    EdgesAscend(b, j, k);
  }

  /** Two shards share an address exactly when they are neighbours and it is the one at the edge between them. */
  lemma ShardsShare(x: Bounds, y: Bounds, j: nat, k: nat, b: nat, addr: seq<Byte>)
    requires IsShard(x, j, b) && IsShard(y, k, b) && j < k && b <= TWO_64 && |addr| == 32
    ensures InShard(x, addr) && InShard(y, addr) <==> k == j + 1 && addr == Split(Edge(b, j))
  {
    InShardMeans(x, j, b, addr);
    InShardMeans(y, k, b, addr);
    EdgesAscend(b, j, j + 1);
    SplitValue(Edge(b, j));
    BeforeIsLess(addr, Split(Edge(b, j)));
    NotBetween(b, j, k, Value(addr));
  }

  /** With more shards than that, only the first and the last address lie in a shard. */
  lemma TooManyShards(r: Bounds, k: nat, b: nat, addr: seq<Byte>)
    requires IsShard(r, k, b) && b > TWO_64 && |addr| == 32
    ensures InShard(r, addr) ==> Value(addr) == 0 || Value(addr) >= Pow256(32) - 1
  {
    if k < b {
      NoEdges(b, k);
      SplitValue(Edge(b, k));
      BeforeIsLess(r.upTo.value, addr);
    } else {
      NoEdges(b, k - 1);
      BeforeIsLess(r.above.value, addr);
    }
  }
}
