/** Transactions, blocks and the rows that the block writer stores for them in the tables
    `txn` and `txn_participation`. */
module Ledger {
  import opened Outcomes
  import opened Base64

  /** A 32-byte address read as a number; 0 is the zero address, which stands for "not set". */
  type Address = nat

  datatype Kind = Pay | KeyReg | AssetConfig | AssetTransfer | AssetFreeze | AppCall | StateProof | Heartbeat

  /** What one signed transaction with its apply data says, without its inner transactions. Zero addresses,
      zero amounts and empty byte strings are unset fields. `id` is the hash of the transaction,
      `creatable` the asset or application it refers to or creates; `badIndex` tells whether one of its
      local deltas refers to an account that the transaction does not list. */
  datatype Body = Body(
    id: string, kind: Kind, sender: Address, fee: nat, rekeyTo: Address, group: seq<Byte>, note: seq<Byte>,
    signatures: set<string>, receiver: Address, amount: nat, closeTo: Address, closingAmount: nat,
    senderRewards: nat, receiverRewards: nat, closeRewards: nat, creatable: nat, configAsset: nat,
    assetTotal: nat, assetAmount: nat, assetSender: Address, assetReceiver: Address,
    assetCloseTo: Address, freezeAccount: Address, accounts: seq<Address>, heartbeat: Address,
    logs: seq<string>, badIndex: bool)

  datatype Txn = Txn(body: Body, inner: seq<Txn>)

  datatype Block = Block(payset: seq<Txn>, payout: nat, feeSink: Address, proposer: Address, payoutId: string)

  /** A row of `txn`: only a root has a `txid`, only an inner transaction has `rootIntra` (with
      `rootTxid`), and the stored form of an inner transaction has no inner transactions. */
  datatype Row = Row(round: nat, intra: nat, txid: Option<string>, txn: Txn, rootIntra: Option<nat>, rootTxid: string)

  /** A row of `txn_participation`, which has a unique index over all three columns. */
  datatype PartRow = PartRow(addr: Address, round: nat, intra: nat)

  // ---------------------------------------------------------------- counting inner transactions

  /** The number of transactions below `t`, at any depth. */
  ghost function InnerCount(t: Txn): nat
    decreases t
  {
    Size(t.inner, |t.inner|)
  }

  /** The number of transactions in the first `k` trees of `ts`. */
  ghost function Size(ts: seq<Txn>, k: nat): nat
    requires k <= |ts|
    decreases ts, k
  {
    if k == 0 then 0 else Size(ts, k - 1) + 1 + InnerCount(ts[k - 1])
  }

  method CountInner(t: Txn) returns (num: nat)
    ensures num == InnerCount(t)
    decreases t
  {
    num := 0;
    for k := 0 to |t.inner|
      invariant num == Size(t.inner, k)
    {
      num := num + 1;
      var below := CountInner(t.inner[k]);
      num := num + below;
    }
  }

  /** No transaction of the tree has a local delta for an account it does not list. */
  predicate Convertible(t: Txn) {
    !t.body.badIndex && forall i | 0 <= i < |t.inner| :: Convertible(t.inner[i])
  }

  // ---------------------------------------------------------------- rows of the table `txn`

  function InnerRow(t: Txn, round: nat, intra: nat, root: nat, rootId: string): Row {
    Row(round, intra, None, Txn(t.body, []), Some(root), rootId)
  }

  function RootRow(t: Txn, round: nat, intra: nat): Row {
    Row(round, intra, Some(t.body.id), t, None, "")
  }

  function BytesOf(s: string): seq<Byte> {
    seq(|s|, i requires 0 <= i < |s| => s[i] as int % 256)
  }

  function Decimal(n: nat): seq<Byte> {
    if n < 10 then [48 + n] else Decimal(n / 10) + [48 + n % 10]
  }

  function PayoutNote(round: nat): seq<Byte> {
    BytesOf("ProposerPayout for Round ") + Decimal(round)
  }

  function PayoutTxn(b: Block, round: nat): Txn {
    Txn(Body(b.payoutId, Pay, b.feeSink, 0, 0, [], PayoutNote(round), {}, b.proposer, b.payout, 0, 0, 0, 0, 0, 0,
             0, 0, 0, 0, 0, 0, 0, [], 0, [], false), [])
  }

  /** The payout is a payment of the fee sink to the proposer with a note that names the round. */
  lemma PayoutMeans(b: Block, round: nat)
    ensures var t := PayoutTxn(b, round);
            && t.inner == [] && t.body.kind == Pay && t.body.id == b.payoutId && t.body.amount == b.payout
            && t.body.sender == b.feeSink && t.body.receiver == b.proposer && t.body.closeTo == 0 && t.body.fee == 0
            && |t.body.note| > 25 && t.body.note[..25] == BytesOf("ProposerPayout for Round ")
            && NumberOf(t.body.note[25..]) == round
  {
    DecimalMeans(round);
    var text := BytesOf("ProposerPayout for Round ");
    assert |text| == 25;
    assert (text + Decimal(round))[25..] == Decimal(round);
  }

  /** Decimal digits read as a number. */
  function NumberOf(digits: seq<Byte>): int {
    if digits == [] then 0 else NumberOf(digits[..|digits| - 1]) * 10 + digits[|digits| - 1] - 48
  }

  lemma {:induction false} DecimalMeans(n: nat)
    ensures |Decimal(n)| > 0 && NumberOf(Decimal(n)) == n && forall d | d in Decimal(n) :: 48 <= d <= 57
    ensures n > 0 ==> Decimal(n)[0] != 48
  {
    if n < 10 {
      assert Decimal(n)[..0] == [];
    } else {
      DecimalMeans(n / 10);
      assert Decimal(n)[..|Decimal(n)| - 1] == Decimal(n / 10);
    }
  }

  /** The rows of the inner transaction `t` and of those below it, in preorder from offset `next`. */
  ghost function SubtreeRows(t: Txn, round: nat, next: nat, root: nat, rootId: string): seq<Row>
    decreases t
  {
    [InnerRow(t, round, next, root, rootId)] + ForestRows(t.inner, |t.inner|, round, next + 1, root, rootId)
  }

  ghost function ForestRows(ts: seq<Txn>, k: nat, round: nat, next: nat, root: nat, rootId: string): seq<Row>
    requires k <= |ts|
    decreases ts, k
  {
    if k == 0 then []
    else
      ForestRows(ts, k - 1, round, next, root, rootId)
      + SubtreeRows(ts[k - 1], round, next + Size(ts, k - 1), root, rootId)
  }

  /** The rows of a whole group: the root at offset `next`, then everything below it. */
  ghost function TreeRows(t: Txn, round: nat, next: nat): seq<Row> {
    [RootRow(t, round, next)] + ForestRows(t.inner, |t.inner|, round, next + 1, next, t.body.id)
  }

  ghost function PaysetRows(ts: seq<Txn>, k: nat, round: nat): seq<Row>
    requires k <= |ts|
  {
    if k == 0 then [] else PaysetRows(ts, k - 1, round) + TreeRows(ts[k - 1], round, Size(ts, k - 1))
  }

  /** The rows that a block adds to `txn`: its payset, then the proposer payout if there is one. */
  ghost function BlockRows(b: Block, round: nat): seq<Row> {
    var n := |b.payset|;
    PaysetRows(b.payset, n, round)
    + if b.payout > 0 then [RootRow(PayoutTxn(b, round), round, Size(b.payset, n))] else []
  }

  /** Walks the inner transactions in preorder; returns the rows sent and the next free offset. */
  method YieldInnerTransactions(t: Txn, round: nat, intra: nat, root: nat, rootId: string)
    returns (next: nat, rows: seq<Row>)
    ensures rows == ForestRows(t.inner, |t.inner|, round, intra, root, rootId)
    ensures next == intra + InnerCount(t)
    decreases t
  {
    next, rows := intra, [];
    for k := 0 to |t.inner|
      invariant next == intra + Size(t.inner, k)
      invariant rows == ForestRows(t.inner, k, round, intra, root, rootId)
    {
      var row := InnerRow(t.inner[k], round, next, root, rootId);
      var below;
      next, below := YieldInnerTransactions(t.inner[k], round, next + 1, root, rootId);
      rows := rows + ([row] + below);
    }
  }

  method YieldTransactions(b: Block, round: nat) returns (rows: seq<Row>)
    ensures rows == BlockRows(b, round)
  {
    rows := [];
    var intra := 0;
    for k := 0 to |b.payset|
      invariant intra == Size(b.payset, k)
      invariant rows == PaysetRows(b.payset, k, round)
    {
      var row := RootRow(b.payset[k], round, intra);
      var below;
      intra, below := YieldInnerTransactions(b.payset[k], round, intra + 1, intra, b.payset[k].body.id);
      rows := rows + ([row] + below);
    }
    if b.payout > 0 {
      rows := rows + [RootRow(PayoutTxn(b, round), round, intra)];
    }
  }

  // ---------------------------------------------------------------- layout of the rows

  /** The offset of the root that a row belongs to. */
  function Start(r: Row): nat {
    if r.rootIntra.Some? then r.rootIntra.value else r.intra
  }

  lemma {:induction false} ForestLayout(ts: seq<Txn>, n: nat, round: nat, next: nat, root: nat, rootId: string)
    requires n <= |ts|
    ensures var rows := ForestRows(ts, n, round, next, root, rootId);
            && |rows| == Size(ts, n)
            && forall k | 0 <= k < |rows| ::
                 && rows[k].round == round && rows[k].intra == next + k && rows[k].txid.None?
                 && rows[k].rootIntra == Some(root) && rows[k].rootTxid == rootId && rows[k].txn.inner == []
    decreases ts, n
  {
    if n > 0 {
      var t := ts[n - 1];
      ForestLayout(ts, n - 1, round, next, root, rootId);
      ForestLayout(t.inner, |t.inner|, round, next + Size(ts, n - 1) + 1, root, rootId);
    }
  }

  /** The rows `rows`, whose offsets run from `next`, fall into groups: a root at offset g and the
      `InnerCount` rows after it, which all point back to g and carry its id. */
  ghost predicate Grouped(rows: seq<Row>, round: nat, next: nat) {
    && (forall k | 0 <= k < |rows| :: rows[k].round == round && rows[k].intra == next + k)
    && (forall k | 0 <= k < |rows| :: HasRoot(rows, next, k))
    && (forall k, g | 0 <= k < |rows| && 0 <= g < |rows| && rows[g].rootIntra.None? ::
          Start(rows[k]) == next + g <==> g <= k <= g + InnerCount(rows[g].txn))
  }

  ghost predicate HasRoot(rows: seq<Row>, next: nat, k: nat)
    requires k < |rows|
  {
    var g := Start(rows[k]) - next;
    && 0 <= g < |rows|
    && rows[g].rootIntra.None?
    && rows[g].txid == Some(rows[g].txn.body.id)
    && g + InnerCount(rows[g].txn) < |rows|
    && (rows[k].rootIntra.Some? ==>
          rows[k].rootTxid == rows[g].txn.body.id && rows[k].txid.None? && rows[k].txn.inner == [])
  }

  lemma TreeLayout(t: Txn, round: nat, next: nat)
    ensures Grouped(TreeRows(t, round, next), round, next)
    ensures |TreeRows(t, round, next)| == 1 + InnerCount(t)
  {
    ForestLayout(t.inner, |t.inner|, round, next + 1, next, t.body.id);
  }

  lemma RootsAppend(a: seq<Row>, b: seq<Row>, round: nat, next: nat, k: nat)
    requires Grouped(a, round, next) && Grouped(b, round, next + |a|) && k < |a + b|
    ensures HasRoot(a + b, next, k)
    ensures k < |a| <==> Start((a + b)[k]) < next + |a|
  {
    if k < |a| {
      assert HasRoot(a, next, k);
    } else {
      assert HasRoot(b, next + |a|, k - |a|);
    }
  }

  lemma RunsAppend(a: seq<Row>, b: seq<Row>, round: nat, next: nat, k: nat, g: nat)
    requires Grouped(a, round, next) && Grouped(b, round, next + |a|)
    requires k < |a + b| && g < |a + b| && (a + b)[g].rootIntra.None?
    ensures Start((a + b)[k]) == next + g <==> g <= k <= g + InnerCount((a + b)[g].txn)
  {
    RootsAppend(a, b, round, next, k);
    if g < |a| {
      assert HasRoot(a, next, g);
    }
  }

  lemma GroupedAppend(a: seq<Row>, b: seq<Row>, round: nat, next: nat)
    requires Grouped(a, round, next) && Grouped(b, round, next + |a|)
    ensures Grouped(a + b, round, next)
  {
    var c := a + b;
    forall k | 0 <= k < |c| ensures HasRoot(c, next, k) {
      RootsAppend(a, b, round, next, k);
    }
    forall k, g | 0 <= k < |c| && 0 <= g < |c| && c[g].rootIntra.None?
      ensures Start(c[k]) == next + g <==> g <= k <= g + InnerCount(c[g].txn)
    {
      RunsAppend(a, b, round, next, k, g);
    }
  }

  lemma {:induction false} PaysetLayout(ts: seq<Txn>, k: nat, round: nat)
    requires k <= |ts|
    ensures Grouped(PaysetRows(ts, k, round), round, 0)
    ensures |PaysetRows(ts, k, round)| == Size(ts, k)
  {
    if k > 0 {
      PaysetLayout(ts, k - 1, round);
      TreeLayout(ts[k - 1], round, Size(ts, k - 1));
      GroupedAppend(PaysetRows(ts, k - 1, round), TreeRows(ts[k - 1], round, Size(ts, k - 1)), round, 0);
    }
  }

  /** The rows a block writes are numbered 0, 1, 2, ... and every group is one contiguous run. */
  lemma BlockLayout(b: Block, round: nat)
    ensures Grouped(BlockRows(b, round), round, 0)
  {
    var n := |b.payset|;
    PaysetLayout(b.payset, n, round);
    if b.payout > 0 {
      TreeLayout(PayoutTxn(b, round), round, Size(b.payset, n));
      var p, at := PayoutTxn(b, round), Size(b.payset, n);
      assert TreeRows(p, round, at) == [RootRow(p, round, at)];
      GroupedAppend(PaysetRows(b.payset, n, round), TreeRows(PayoutTxn(b, round), round, Size(b.payset, n)), round, 0);
    } else {
      assert BlockRows(b, round) == PaysetRows(b.payset, n, round);
    }
  }

  /** Tree k of the payset stands at its own offset, after the trees before it, and the payout comes last. */
  lemma {:induction false} RootsInOrder(b: Block, round: nat, k: nat)
    requires k < |b.payset|
    ensures var rows, at := BlockRows(b, round), Size(b.payset, k);
            && |rows| == Size(b.payset, |b.payset|) + (if b.payout > 0 then 1 else 0)
            && at < Size(b.payset, |b.payset|) && rows[at] == RootRow(b.payset[k], round, at)
            && (b.payout > 0 ==> rows[|rows| - 1] == RootRow(PayoutTxn(b, round), round, |rows| - 1))
  {
    PaysetLayout(b.payset, |b.payset|, round);
    RootAt(b.payset, |b.payset|, round, k);
  }

  lemma {:induction false} RootAt(ts: seq<Txn>, n: nat, round: nat, k: nat)
    requires k < n <= |ts|
    ensures |PaysetRows(ts, n, round)| == Size(ts, n)
    ensures Size(ts, k) < Size(ts, n) && PaysetRows(ts, n, round)[Size(ts, k)] == RootRow(ts[k], round, Size(ts, k))
    decreases n
  {
    PaysetLayout(ts, n, round);
    PaysetLayout(ts, n - 1, round);
    if k < n - 1 {
      RootAt(ts, n - 1, round, k);
    }
  }

  ghost predicate AllIndexesGood(rows: seq<Row>) {
    forall r | r in rows :: !r.txn.body.badIndex
  }

  lemma GoodAppend(a: seq<Row>, b: seq<Row>)
    ensures AllIndexesGood(a + b) <==> AllIndexesGood(a) && AllIndexesGood(b)
  {
    assert forall r :: r in a + b <==> r in a || r in b;
  }

  lemma GoodFirst(r: Row, rows: seq<Row>)
    ensures AllIndexesGood([r] + rows) <==> !r.txn.body.badIndex && AllIndexesGood(rows)
  {
    GoodAppend([r], rows);
    assert r in [r];
  }

  /** A tree can be converted exactly when none of the rows it is stored in has a bad index. */
  lemma {:induction false} ConvertibleRows(t: Txn, round: nat, next: nat)
    ensures Convertible(t) <==> AllIndexesGood(TreeRows(t, round, next))
  {
    ForestConvertible(t.inner, |t.inner|, round, next + 1, next, t.body.id);
    GoodFirst(RootRow(t, round, next), ForestRows(t.inner, |t.inner|, round, next + 1, next, t.body.id));
  }

  lemma {:induction false} ForestConvertible(ts: seq<Txn>, k: nat, round: nat, intra: nat, root: nat, rootId: string)
    requires k <= |ts|
    ensures (forall i | 0 <= i < k :: Convertible(ts[i])) <==>
              AllIndexesGood(ForestRows(ts, k, round, intra, root, rootId))
    decreases ts, k
  {
    if k > 0 {
      var t, here := ts[k - 1], intra + Size(ts, k - 1);
      var before, own := ForestRows(ts, k - 1, round, intra, root, rootId), InnerRow(t, round, here, root, rootId);
      var below := ForestRows(t.inner, |t.inner|, round, here + 1, root, rootId);
      ForestConvertible(ts, k - 1, round, intra, root, rootId);
      ForestConvertible(t.inner, |t.inner|, round, here + 1, root, rootId);
      ForestSnoc(ts, k - 1, round, intra, here, root, rootId);
      GoodAppend(before, [own] + below);
      GoodFirst(own, below);
    }
  }

  // ---------------------------------------------------------------- rows of `txn_participation`

  function OptionalAddress(a: Address): seq<Address> {
    if a == 0 then [] else [a]
  }

  /** The addresses a transaction names itself, possibly with repetition. */
  function DirectAddresses(b: Body): seq<Address> {
    [b.sender] + match b.kind
                 case Pay => [b.receiver] + OptionalAddress(b.closeTo)
                 case AssetTransfer =>
                   OptionalAddress(b.assetSender) + [b.assetReceiver] + OptionalAddress(b.assetCloseTo)
                 case AssetFreeze => [b.freezeAccount]
                 case AppCall => b.accounts
                 case Heartbeat => [b.heartbeat]
                 case _ => []
  }

  /** The addresses named by a transaction or by any transaction below it. */
  function AllAddresses(t: Txn): seq<Address> {
    DirectAddresses(t.body) + ForestAddresses(t.inner)
  }

  function ForestAddresses(ts: seq<Txn>): seq<Address> {
    if ts == [] then [] else AllAddresses(ts[0]) + ForestAddresses(ts[1..])
  }

  ghost predicate NoRepeats<T>(s: seq<T>) {
    forall i, j | 0 <= i < j < |s| :: s[i] != s[j]
  }

  /** Keeps the first occurrence of each address. */
  method Distinct(addrs: seq<Address>) returns (r: seq<Address>)
    ensures NoRepeats(r)
    ensures forall a :: a in r <==> a in addrs
  {
    r := [];
    for k := 0 to |addrs|
      invariant NoRepeats(r)
      invariant forall a :: a in r <==> a in addrs[..k]
    {
      if addrs[k] !in r {
        r := r + [addrs[k]];
      }
    }
  }

  /** The participants recorded with a transaction: its own addresses, and for a root (`deep`) those
      of the whole tree. */
  ghost predicate IsParticipants(t: Txn, deep: bool, r: seq<Address>) {
    NoRepeats(r) && forall a :: a in r <==> a in (if deep then AllAddresses(t) else DirectAddresses(t.body))
  }

  /** Kind by kind, the addresses that take part in a transaction itself. */
  predicate TakesPart(b: Body, a: Address) {
    || a == b.sender
    || (b.kind == Pay && (a == b.receiver || (a == b.closeTo && a != 0)))
    || (b.kind == AssetTransfer && (a == b.assetReceiver || (a in {b.assetSender, b.assetCloseTo} && a != 0)))
    || (b.kind == AssetFreeze && a == b.freezeAccount)
    || (b.kind == AppCall && a in b.accounts)
    || (b.kind == Heartbeat && a == b.heartbeat)
  }

  /** The address takes part in the transaction or in one below it. */
  predicate TakesPartBelow(t: Txn, a: Address) {
    TakesPart(t.body, a) || exists i | 0 <= i < |t.inner| :: TakesPartBelow(t.inner[i], a)
  }

  lemma DirectMeans(b: Body, a: Address)
    ensures a in DirectAddresses(b) <==> TakesPart(b, a)
  {}

  lemma {:induction false} TreeMeans(t: Txn, a: Address)
    ensures a in AllAddresses(t) <==> TakesPartBelow(t, a)
    decreases t
  {
    DirectMeans(t.body, a);
    ForestMeans(t.inner, a);
  }

  lemma {:induction false} ForestMeans(ts: seq<Txn>, a: Address)
    ensures a in ForestAddresses(ts) <==> exists i | 0 <= i < |ts| :: TakesPartBelow(ts[i], a)
    decreases ts
  {
    if ts != [] {
      TreeMeans(ts[0], a);
      ForestMeans(ts[1..], a);
      assert forall i | 1 <= i < |ts| :: ts[i] == ts[1..][i - 1];
      if exists i | 0 <= i < |ts[1..]| :: TakesPartBelow(ts[1..][i], a) {
        var i :| 0 <= i < |ts[1..]| && TakesPartBelow(ts[1..][i], a);
        assert TakesPartBelow(ts[i + 1], a);
      }
    }
  }

  method GetParticipants(t: Txn, deep: bool) returns (r: seq<Address>)
    ensures IsParticipants(t, deep, r)
    ensures forall a :: a in r <==> if deep then TakesPartBelow(t, a) else TakesPart(t.body, a)
  {
    forall a ensures a in AllAddresses(t) <==> TakesPartBelow(t, a) {
      TreeMeans(t, a);
    }
    r := Distinct(if deep then AllAddresses(t) else DirectAddresses(t.body));
  }

  function PartRows(addrs: seq<Address>, round: nat, intra: nat): seq<PartRow> {
    seq(|addrs|, k requires 0 <= k < |addrs| => PartRow(addrs[k], round, intra))
  }

  /** No row is repeated and all have offsets in [next, next + size). */
  ghost predicate Records(rows: seq<PartRow>, round: nat, next: nat, size: nat) {
    NoRepeats(rows) && forall r | r in rows :: r.round == round && next <= r.intra < next + size
  }

  lemma RecordsAppend(a: seq<PartRow>, b: seq<PartRow>, round: nat, next: nat, m: nat, n: nat)
    requires Records(a, round, next, m) && Records(b, round, next + m, n)
    ensures Records(a + b, round, next, m + n)
  {
    var c := a + b;
    forall i, j | 0 <= i < j < |c| ensures c[i] != c[j] {
      if i < |a| <= j {
        assert c[i] in a && c[j] in b;
      }
    }
  }

  lemma ParticipantRows(addrs: seq<Address>, round: nat, intra: nat)
    ensures Records(PartRows(addrs, round, intra), round, intra, 1) <==> NoRepeats(addrs)
  {
    var rows := PartRows(addrs, round, intra);
    if NoRepeats(addrs) {
      assert forall i, j | 0 <= i < j < |rows| :: addrs[i] != addrs[j];
    } else {
      var i, j :| 0 <= i < j < |addrs| && addrs[i] == addrs[j];
      assert rows[i] == rows[j];
    }
  }

  /** The addresses recorded for a stored row: of the whole tree for a root, its own for an inner
      transaction. */
  function RowAddresses(r: Row): seq<Address> {
    if r.rootIntra.None? then AllAddresses(r.txn) else DirectAddresses(r.txn.body)
  }

  /** The participation that the transaction rows `rows` call for. */
  ghost function Participation(rows: seq<Row>): set<PartRow> {
    set r, a | r in rows && a in RowAddresses(r) :: PartRow(a, r.round, r.intra)
  }

  /** Who takes part in the rows: for a root anybody in its tree, for an inner row those it names itself. */
  lemma ParticipationMeans(rows: seq<Row>, p: PartRow)
    ensures p in Participation(rows) <==>
              exists r | r in rows :: r.round == p.round && r.intra == p.intra
                && if r.rootIntra.None? then TakesPartBelow(r.txn, p.addr) else TakesPart(r.txn.body, p.addr)
  {
    forall r | r in rows
      ensures p.addr in RowAddresses(r) <==>
                if r.rootIntra.None? then TakesPartBelow(r.txn, p.addr) else TakesPart(r.txn.body, p.addr)
    {
      TreeMeans(r.txn, p.addr);
      DirectMeans(r.txn.body, p.addr);
    }
    if r :| r in rows && r.round == p.round && r.intra == p.intra && p.addr in RowAddresses(r) {
      assert p == PartRow(p.addr, r.round, r.intra);
    }
  }

  ghost function Members<T(!new)>(s: seq<T>): set<T> {
    set x | x in s
  }

  /** The participation rows `parts` say exactly who takes part in the transaction rows `rows`. */
  ghost predicate Covers(parts: seq<PartRow>, rows: seq<Row>) {
    Members(parts) == Participation(rows)
  }

  lemma CoversAppend(a: seq<PartRow>, b: seq<PartRow>, x: seq<Row>, y: seq<Row>)
    requires Covers(a, x) && Covers(b, y)
    ensures Covers(a + b, x + y)
  {
    assert Members(a + b) == Members(a) + Members(b);
    assert Participation(x + y) == Participation(x) + Participation(y);
  }

  lemma CoversRow(addrs: seq<Address>, r: Row)
    requires forall a :: a in addrs <==> a in RowAddresses(r)
    ensures Covers(PartRows(addrs, r.round, r.intra), [r])
  {
    var parts := PartRows(addrs, r.round, r.intra);
    forall p ensures p in Members(parts) <==> p in Participation([r]) {
      if p in Members(parts) {
        var k :| 0 <= k < |parts| && parts[k] == p;
        assert r in [r] && addrs[k] in RowAddresses(r);
      }
      if p in Participation([r]) {
        var k :| 0 <= k < |addrs| && addrs[k] == p.addr;
        assert parts[k] == p;
      }
    }
  }

  /** Participation of one transaction followed by that of the transactions below it. */
  lemma GroupParticipation(addrs: seq<Address>, r: Row, below: seq<PartRow>, rows: seq<Row>, size: nat)
    requires IsParticipants(r.txn, r.rootIntra.None?, addrs)
    requires Covers(below, rows) && Records(below, r.round, r.intra + 1, size)
    ensures Covers(PartRows(addrs, r.round, r.intra) + below, [r] + rows)
    ensures Records(PartRows(addrs, r.round, r.intra) + below, r.round, r.intra, 1 + size)
  {
    CoversRow(addrs, r);
    CoversAppend(PartRows(addrs, r.round, r.intra), below, [r], rows);
    ParticipantRows(addrs, r.round, r.intra);
    RecordsAppend(PartRows(addrs, r.round, r.intra), below, r.round, r.intra, 1, size);
  }

  /** Participation of the trees so far, followed by that of the next tree. */
  lemma AppendGroup(parts: seq<PartRow>, rows: seq<Row>, round: nat, next: nat, done: nat, here: nat,
                    addrs: seq<Address>, r: Row, below: seq<PartRow>, rowsBelow: seq<Row>, size: nat, total: nat)
    requires r.round == round && r.intra == here == next + done && total == done + 1 + size
    requires Covers(parts, rows) && Records(parts, round, next, done)
    requires IsParticipants(r.txn, r.rootIntra.None?, addrs)
    requires Covers(below, rowsBelow) && Records(below, round, here + 1, size)
    ensures Covers(parts + (PartRows(addrs, round, here) + below), rows + ([r] + rowsBelow))
    ensures Records(parts + (PartRows(addrs, round, here) + below), round, next, total)
  {
    GroupParticipation(addrs, r, below, rowsBelow, size);
    CoversAppend(parts, PartRows(addrs, round, here) + below, rows, [r] + rowsBelow);
    RecordsAppend(parts, PartRows(addrs, round, here) + below, round, next, done, 1 + size);
  }

  lemma {:induction false} ForestSnoc(ts: seq<Txn>, k: nat, round: nat, intra: nat, here: nat, root: nat,
                                      rootId: string)
    requires k < |ts| && here == intra + Size(ts, k)
    ensures Size(ts, k + 1) == Size(ts, k) + 1 + InnerCount(ts[k])
    ensures ForestRows(ts, k + 1, round, intra, root, rootId)
         == ForestRows(ts, k, round, intra, root, rootId)
          + ([InnerRow(ts[k], round, here, root, rootId)]
             + ForestRows(ts[k].inner, |ts[k].inner|, round, here + 1, root, rootId))
  {}

  lemma ForestParticipation(ts: seq<Txn>, k: nat, round: nat, intra: nat, here: nat, root: nat, rootId: string,
                            parts: seq<PartRow>, addrs: seq<Address>, t: Txn, below: seq<PartRow>)
    requires k < |ts| && here == intra + Size(ts, k) && t == ts[k]
    requires Covers(parts, ForestRows(ts, k, round, intra, root, rootId)) && Records(parts, round, intra, Size(ts, k))
    requires IsParticipants(t, false, addrs)
    requires Covers(below, ForestRows(t.inner, |t.inner|, round, here + 1, root, rootId))
    requires Records(below, round, here + 1, InnerCount(t))
    ensures var all := parts + (PartRows(addrs, round, here) + below);
            && Covers(all, ForestRows(ts, k + 1, round, intra, root, rootId))
            && Records(all, round, intra, Size(ts, k + 1))
  {
    ForestSnoc(ts, k, round, intra, here, root, rootId);
    AppendGroup(parts, ForestRows(ts, k, round, intra, root, rootId), round, intra, Size(ts, k), here, addrs,
                InnerRow(t, round, here, root, rootId), below,
                ForestRows(t.inner, |t.inner|, round, here + 1, root, rootId), InnerCount(t), Size(ts, k + 1));
  }

  method AddInnerParticipation(t: Txn, round: nat, intra: nat, ghost root: nat, ghost rootId: string)
    returns (next: nat, parts: seq<PartRow>)
    ensures next == intra + InnerCount(t)
    ensures Covers(parts, ForestRows(t.inner, |t.inner|, round, intra, root, rootId))
    ensures Records(parts, round, intra, InnerCount(t))
    decreases t
  {
    next, parts := intra, [];
    for k := 0 to |t.inner|
      invariant next == intra + Size(t.inner, k)
      invariant Covers(parts, ForestRows(t.inner, k, round, intra, root, rootId))
      invariant Records(parts, round, intra, Size(t.inner, k))
    {
      var itxn, here := t.inner[k], next;
      var addrs := GetParticipants(itxn, false);
      var below;
      next, below := AddInnerParticipation(itxn, round, here + 1, root, rootId);
      ForestParticipation(t.inner, k, round, intra, here, root, rootId, parts, addrs, itxn, below);
      var more := PartRows(addrs, round, here) + below;
      parts := parts + more;
    }
  }

  lemma {:induction false} PaysetSnoc(ts: seq<Txn>, k: nat, round: nat, here: nat)
    requires k < |ts| && here == Size(ts, k)
    ensures Size(ts, k + 1) == here + 1 + InnerCount(ts[k])
    ensures PaysetRows(ts, k + 1, round) == PaysetRows(ts, k, round) + TreeRows(ts[k], round, here)
  {}

  lemma TreeParticipation(t: Txn, round: nat, here: nat, addrs: seq<Address>, r: Row, below: seq<PartRow>,
                          rowsBelow: seq<Row>, tree: seq<Row>, size: nat)
    requires r == RootRow(t, round, here) && tree == [r] + rowsBelow
    requires IsParticipants(r.txn, r.rootIntra.None?, addrs)
    requires Covers(below, rowsBelow) && Records(below, round, here + 1, size)
    ensures Covers(PartRows(addrs, round, here) + below, tree)
    ensures Records(PartRows(addrs, round, here) + below, round, here, 1 + size)
  {
    GroupParticipation(addrs, r, below, rowsBelow, size);
  }

  lemma PaysetParticipation(ts: seq<Txn>, k: nat, round: nat, here: nat, parts: seq<PartRow>, more: seq<PartRow>,
                            tree: seq<Row>, size: nat)
    requires k < |ts| && here == Size(ts, k) && tree == TreeRows(ts[k], round, here) && size == 1 + InnerCount(ts[k])
    requires Covers(parts, PaysetRows(ts, k, round)) && Records(parts, round, 0, here)
    requires Covers(more, tree) && Records(more, round, here, size)
    ensures Covers(parts + more, PaysetRows(ts, k + 1, round))
    ensures Records(parts + more, round, 0, Size(ts, k + 1))
  {
    PaysetSnoc(ts, k, round, here);
    CoversAppend(parts, more, PaysetRows(ts, k, round), tree);
    RecordsAppend(parts, more, round, 0, here, size);
  }

  /** Whether the block names the same address twice in its payout's participation. */
  predicate PaysItself(b: Block) {
    b.payout > 0 && b.feeSink == b.proposer
  }

  /** The participation rows of a block say exactly who takes part in its transaction rows. They can
      be inserted under the unique index unless the fee sink pays the payout to itself: then the
      payout's row is generated twice. */
  method AddTransactionParticipation(b: Block, round: nat) returns (parts: seq<PartRow>)
    ensures Covers(parts, BlockRows(b, round))
    ensures NoRepeats(parts) <==> !PaysItself(b)
  {
    parts := [];
    var next := 0;
    for k := 0 to |b.payset|
      invariant next == Size(b.payset, k)
      invariant Covers(parts, PaysetRows(b.payset, k, round))
      invariant Records(parts, round, 0, next)
    {
      var t, here := b.payset[k], next;
      var addrs := GetParticipants(t, true);
      var below;
      next, below := AddInnerParticipation(t, round, here + 1, here, t.body.id);
      TreeParticipation(t, round, here, addrs, RootRow(t, round, here), below,
                        ForestRows(t.inner, |t.inner|, round, here + 1, here, t.body.id), TreeRows(t, round, here),
                        InnerCount(t));
      var more := PartRows(addrs, round, here) + below;
      PaysetParticipation(b.payset, k, round, here, parts, more, TreeRows(t, round, here), 1 + InnerCount(t));
      parts := parts + more;
    }
    if b.payout > 0 {
      PayoutParticipation(b, round, parts);
      parts := parts + PartRows([b.feeSink, b.proposer], round, next);
    } else {
      assert BlockRows(b, round) == PaysetRows(b.payset, |b.payset|, round);
    }
  }

  lemma PayoutParticipation(b: Block, round: nat, parts: seq<PartRow>)
    requires b.payout > 0
    requires Covers(parts, PaysetRows(b.payset, |b.payset|, round))
    requires Records(parts, round, 0, Size(b.payset, |b.payset|))
    ensures var all := parts + PartRows([b.feeSink, b.proposer], round, Size(b.payset, |b.payset|));
            Covers(all, BlockRows(b, round)) && (NoRepeats(all) <==> b.feeSink != b.proposer)
  {
    var next, addrs := Size(b.payset, |b.payset|), [b.feeSink, b.proposer];
    var last, r := PartRows(addrs, round, next), RootRow(PayoutTxn(b, round), round, next);
    assert ForestAddresses(PayoutTxn(b, round).inner) == [];
    assert RowAddresses(r) == addrs;
    CoversRow(addrs, r);
    CoversAppend(parts, last, PaysetRows(b.payset, |b.payset|, round), [r]);
    ParticipantRows(addrs, round, next);
    if b.feeSink != b.proposer {
      RecordsAppend(parts, last, round, 0, next, 1);
    } else {
      assert (parts + last)[|parts|] == (parts + last)[|parts| + 1];
    }
  }
}
