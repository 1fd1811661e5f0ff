/** Rolling an account back to an earlier round by undoing its transactions, with the wrap-around of
    64-bit unsigned arithmetic. */
module Rewind {
  import opened Outcomes
  import opened Ledger
  import opened PageToken

  const M := TWO_64

  function Add64(a: nat, b: nat): nat {
    (a + b) % M
  }

  function Sub64(a: nat, b: nat): nat {
    (a - b) % M
  }

  datatype Holding = Holding(assetId: nat, amount: nat, frozen: bool)

  /** One row of the account's history. `txn` is None for an inner transaction, whose root is returned
      instead; `closeAmount` is what an asset close moved. `destroyed` is what the creator held of an
      asset this transaction destroyed: the ledger takes it away, but the row does not show it. Nor does
      the row of an inner transaction, or of an application call with inner transactions, show what those
      moved: `movedAlgos` and `movedAssets` are what the account gained by them. */
  datatype Entry = Entry(txn: Option<Body>, closeAmount: nat, destroyed: nat, movedAlgos: int,
                         movedAssets: map<nat, int>)

  // ---------------------------------------------------------------- asset holdings

  function Adjusted(s: seq<Holding>, id: nat, add: nat, sub: nat): seq<Holding> {
    if s == [] then [Holding(id, Sub64(add, sub), false)]
    else if s[0].assetId == id then [s[0].(amount := Sub64(Add64(s[0].amount, add), sub))] + s[1..]
    else [s[0]] + Adjusted(s[1..], id, add, sub)
  }

  /** The amount held of an asset; not holding it counts as 0. */
  function AmountOf(s: seq<Holding>, id: nat): nat {
    if s == [] then 0 else if s[0].assetId == id then s[0].amount else AmountOf(s[1..], id)
  }

  ghost predicate DistinctIds(s: seq<Holding>) {
    forall i, j | 0 <= i < j < |s| :: s[i].assetId != s[j].assetId
  }

  lemma {:induction false} AdjustedAmount(s: seq<Holding>, id: nat, add: nat, sub: nat, x: nat)
    requires AmountOf(s, id) < M
    ensures AmountOf(Adjusted(s, id, add, sub), x)
         == if x == id then (AmountOf(s, id) + add - sub) % M else AmountOf(s, x)
  {
    if s != [] && s[0].assetId != id {
      AdjustedAmount(s[1..], id, add, sub, x);
    }
  }

  /** Only the holding of this asset changes, or is added at the end. */
  lemma {:induction false} AdjustedHoldings(s: seq<Holding>, id: nat, add: nat, sub: nat)
    ensures var t := Adjusted(s, id, add, sub);
            && |s| <= |t| <= |s| + 1
            && (forall k | 0 <= k < |s| ::
                  t[k] == s[k].(amount := t[k].amount) && (s[k].assetId != id ==> t[k] == s[k]))
            && (|t| > |s| ==> t[|s|].assetId == id && forall k | 0 <= k < |s| :: s[k].assetId != id)
  {
    if s != [] && s[0].assetId != id {
      AdjustedHoldings(s[1..], id, add, sub);
    }
  }

  /** The first holding of the asset changes in place; without one, a holding is added. */
  lemma {:induction false} AdjustedFirst(s: seq<Holding>, id: nat, add: nat, sub: nat, i: nat)
    requires i <= |s| && forall j | 0 <= j < i :: s[j].assetId != id
    ensures i < |s| && s[i].assetId == id ==>
              Adjusted(s, id, add, sub) == s[i := s[i].(amount := Sub64(Add64(s[i].amount, add), sub))]
    ensures i == |s| ==> Adjusted(s, id, add, sub) == s + [Holding(id, Sub64(add, sub), false)]
  {
    if i > 0 {
      AdjustedFirst(s[1..], id, add, sub, i - 1);
    }
  }

  lemma AdjustedDistinct(s: seq<Holding>, id: nat, add: nat, sub: nat)
    requires DistinctIds(s)
    ensures DistinctIds(Adjusted(s, id, add, sub))
  {
    AdjustedHoldings(s, id, add, sub);
  }

  // ---------------------------------------------------------------- the account and the loop

  /** A list that several accounts may refer to. */
  class HoldingList {
    var list: seq<Holding>

    constructor (holdings: seq<Holding>)
      ensures list == holdings
    {
      list := holdings;
    }
  }

  class Account {
    var round: nat
    var amount: nat
    var amountWithoutPendingRewards: nat
    var pendingRewards: nat
    var rewards: nat
    var minBalance: nat
    var assets: HoldingList?

    constructor Copy(other: Account)
      ensures round == other.round && amount == other.amount && assets == other.assets
      ensures amountWithoutPendingRewards == other.amountWithoutPendingRewards
      ensures pendingRewards == other.pendingRewards && rewards == other.rewards && minBalance == other.minBalance
    {
      round, amount, assets := other.round, other.amount, other.assets;
      amountWithoutPendingRewards := other.amountWithoutPendingRewards;
      pendingRewards, rewards, minBalance := other.pendingRewards, other.rewards, other.minBalance;
    }

    function Held(): seq<Holding>
      reads this, assets
    {
      if assets == null then [] else assets.list
    }

    /** The list is changed where it is; an account without one gets a new one. */
    method AssetUpdate(id: nat, add: nat, sub: nat)
      modifies this`assets, assets
      ensures assets != null && (if old(assets) == null then fresh(assets) else assets == old(assets))
      ensures assets.list == Adjusted(old(Held()), id, add, sub)
    {
      if assets == null {
        assets := new HoldingList([]);
      }
      var list := assets.list;
      var i := 0;
      while i < |list|
        invariant 0 <= i <= |list|
        invariant forall j | 0 <= j < i :: list[j].assetId != id
      {
        if list[i].assetId == id {
          var ah := list[i];
          ah := ah.(amount := Add64(ah.amount, add));
          ah := ah.(amount := Sub64(ah.amount, sub));
          AdjustedFirst(list, id, add, sub, i);
          assets.list := list[i := ah];
          return;
        }
        i := i + 1;
      }
      AdjustedFirst(list, id, add, sub, i);
      assets.list := list + [Holding(id, Sub64(add, sub), false)];
    }
  }

  predicate Supported(k: Kind) {
    k != AppCall && k != StateProof
  }

  /** The balance after undoing one transaction, update by update. */
  function UndoBalance(b: Body, addr: Address, bal: nat): nat {
    var b1 := if addr == b.sender then Sub64(Add64(bal, b.fee), b.senderRewards) else bal;
    if b.kind != Pay then b1
    else
      var b2 := if addr == b.sender then Add64(b1, b.amount) else b1;
      var b3 := if addr == b.receiver then Sub64(Sub64(b2, b.amount), b.receiverRewards) else b2;
      if addr == b.closeTo then Sub64(Sub64(b3, b.closingAmount), b.closeRewards)
      else if b.closeTo != 0 then Add64(b3, b.closingAmount)
      else b3
  }

  function AdjustedIf(cond: bool, s: seq<Holding>, id: nat, add: nat, sub: nat): seq<Holding> {
    if cond then Adjusted(s, id, add, sub) else s
  }

  function UndoAssets(b: Body, closeAmount: nat, addr: Address, s: seq<Holding>): seq<Holding> {
    match b.kind
    case AssetConfig =>
      if b.configAsset == 0 then Adjusted(s, b.creatable, 0, b.assetTotal) else s
    case AssetTransfer =>
      var moved := Add64(b.assetAmount, closeAmount);
      var s1 := AdjustedIf(addr == b.assetSender || addr == b.sender, s, b.creatable, moved, 0);
      var s2 := AdjustedIf(addr == b.assetReceiver, s1, b.creatable, 0, b.assetAmount);
      AdjustedIf(addr == b.assetCloseTo, s2, b.creatable, 0, closeAmount)
    case _ => s
  }

  ghost predicate CanUndo(e: Entry) {
    e.txn.Some? && Supported(e.txn.value.kind)
  }

  /** The balance and the holdings after undoing the rows in order. */
  function UndoneBalance(rows: seq<Entry>, addr: Address, bal: nat): nat {
    if rows == [] then bal
    else
      var n := |rows| - 1;
      var before := UndoneBalance(rows[..n], addr, bal);
      if rows[n].txn.Some? then UndoBalance(rows[n].txn.value, addr, before) else before
  }

  function UndoneAssets(rows: seq<Entry>, addr: Address, s: seq<Holding>): seq<Holding> {
    if rows == [] then s
    else
      var n := |rows| - 1;
      var before := UndoneAssets(rows[..n], addr, s);
      if rows[n].txn.Some? then UndoAssets(rows[n].txn.value, rows[n].closeAmount, addr, before) else before
  }

  method UndoTxn(acct: Account, b: Body, closeAmount: nat, addr: Address)
    requires Supported(b.kind)
    modifies acct`amountWithoutPendingRewards, acct`assets, acct.assets
    ensures acct.amountWithoutPendingRewards == UndoBalance(b, addr, old(acct.amountWithoutPendingRewards))
    ensures acct.Held() == UndoAssets(b, closeAmount, addr, old(acct.Held()))
    ensures acct.assets == old(acct.assets) || (old(acct.assets) == null && fresh(acct.assets))
  {
    if addr == b.sender {
      acct.amountWithoutPendingRewards := Add64(acct.amountWithoutPendingRewards, b.fee);
      acct.amountWithoutPendingRewards := Sub64(acct.amountWithoutPendingRewards, b.senderRewards);
    }
    match b.kind
    case Pay =>
      if addr == b.sender {
        acct.amountWithoutPendingRewards := Add64(acct.amountWithoutPendingRewards, b.amount);
      }
      if addr == b.receiver {
        acct.amountWithoutPendingRewards := Sub64(acct.amountWithoutPendingRewards, b.amount);
        acct.amountWithoutPendingRewards := Sub64(acct.amountWithoutPendingRewards, b.receiverRewards);
      }
      if addr == b.closeTo {
        acct.amountWithoutPendingRewards := Sub64(acct.amountWithoutPendingRewards, b.closingAmount);
        acct.amountWithoutPendingRewards := Sub64(acct.amountWithoutPendingRewards, b.closeRewards);
      } else if b.closeTo != 0 {
        acct.amountWithoutPendingRewards := Add64(acct.amountWithoutPendingRewards, b.closingAmount);
      }
    case AssetConfig =>
      if b.configAsset == 0 {
        acct.AssetUpdate(b.creatable, 0, b.assetTotal);
      }
    case AssetTransfer =>
      if addr == b.assetSender || addr == b.sender {
        acct.AssetUpdate(b.creatable, Add64(b.assetAmount, closeAmount), 0);
      }
      if addr == b.assetReceiver {
        acct.AssetUpdate(b.creatable, 0, b.assetAmount);
      }
      if addr == b.assetCloseTo {
        acct.AssetUpdate(b.creatable, 0, closeAmount);
      }
    case _ =>
  }

  /** The first row that cannot be undone, or the number of rows. */
  ghost function FirstStop(rows: seq<Entry>): (k: nat)
    ensures k <= |rows|
    ensures (forall i | 0 <= i < k :: CanUndo(rows[i])) && (k < |rows| ==> !CanUndo(rows[k]))
  {
    if rows == [] || !CanUndo(rows[0]) then 0 else 1 + FirstStop(rows[1..])
  }

  lemma StopsAt(rows: seq<Entry>, k: nat)
    requires k <= |rows| && (forall i | 0 <= i < k :: CanUndo(rows[i])) && (k < |rows| ==> !CanUndo(rows[k]))
    ensures FirstStop(rows) == k
  {}

  /** Rewinds a copy of `account` to `round`. It fails for the two special accounts, for a query answered
      at an older round than the account's, and at the first row that is an inner transaction or of an
      unsupported type. The copy shares the list of holdings, so the rows undone before a failure, or all
      of them, are also undone in the caller's list. */
  method AccountAtRound(account: Account, addr: Address, round: nat, feeSink: Address, rewardsPool: Address,
                        queried: nat, rows: seq<Entry>) returns (acct: Account, error: Option<string>)
    modifies account.assets
    ensures fresh(acct)
    ensures error.None? <==>
              && addr != feeSink && addr != rewardsPool && queried >= account.round
              && forall i | 0 <= i < |rows| ::
                   && rows[i].txn.Some?
                   && rows[i].txn.value.kind in {Pay, KeyReg, AssetConfig, AssetTransfer, AssetFreeze, Heartbeat}
    ensures error.None? ==>
              && acct.amount == acct.amountWithoutPendingRewards
              && acct.amount == UndoneBalance(rows, addr, account.amountWithoutPendingRewards)
              && acct.Held() == UndoneAssets(rows, addr, old(account.Held()))
              && acct.round == round && acct.rewards == acct.pendingRewards == acct.minBalance == 0
    ensures account.assets != null ==>
              var undone := if addr == feeSink || addr == rewardsPool || queried < account.round then 0
                            else FirstStop(rows);
              account.assets.list == UndoneAssets(rows[..undone], addr, old(account.assets.list))
  {
    acct := new Account.Copy(account);
    if feeSink == addr {
      return acct, Some("unable to rewind the FeeSink");
    }
    if rewardsPool == addr {
      return acct, Some("unable to rewind the RewardsPool");
    }
    if queried < acct.round {
      return acct, Some("queried round < account.Round");
    }
    error := Replay(account, acct, addr, rows);
    if error.Some? {
      return acct, error;
    }
    assert rows[..|rows|] == rows;
    acct.round := round;
    acct.rewards := 0;
    acct.pendingRewards := 0;
    acct.amount := acct.amountWithoutPendingRewards;
    acct.minBalance := 0;
  }

  /** The loop over the rows. */
  method Replay(account: Account, acct: Account, addr: Address, rows: seq<Entry>) returns (error: Option<string>)
    requires acct != account && acct.assets == account.assets
    modifies acct`amountWithoutPendingRewards, acct`assets, acct.assets
    ensures error.None? <==> FirstStop(rows) == |rows|
    ensures acct.amountWithoutPendingRewards
         == UndoneBalance(rows[..FirstStop(rows)], addr, old(acct.amountWithoutPendingRewards))
    ensures acct.Held() == UndoneAssets(rows[..FirstStop(rows)], addr, old(acct.Held()))
    ensures acct.assets == account.assets || (account.assets == null && fresh(acct.assets))
  {
    ghost var shared := acct.assets;
    for k := 0 to |rows|
      invariant forall i | 0 <= i < k :: CanUndo(rows[i])
      invariant acct.amountWithoutPendingRewards
             == UndoneBalance(rows[..k], addr, old(acct.amountWithoutPendingRewards))
      invariant acct.Held() == UndoneAssets(rows[..k], addr, old(acct.Held()))
      invariant acct.assets == shared || (shared == null && fresh(acct.assets))
    {
      if rows[k].txn.None? {
        StopsAt(rows, k);
        return Some("rewinding past inner transactions is not supported");
      }
      if !Supported(rows[k].txn.value.kind) {
        StopsAt(rows, k);
        return Some("rewinding past txn type is not currently supported");
      }
      UndoTxn(acct, rows[k].txn.value, rows[k].closeAmount, addr);
      assert rows[..k + 1][..k] == rows[..k];
    }
    StopsAt(rows, |rows|);
    return None;
  }

  // ---------------------------------------------------------------- what the ledger did

  /** The change of the balance of `addr` when the ledger applied a transaction. */
  function BalanceEffect(b: Body, addr: Address): int {
    (if addr == b.sender then b.senderRewards - b.fee else 0)
    + if b.kind != Pay then 0
      else
        (if addr == b.sender then 0 - b.amount else 0)
        + (if addr == b.receiver then b.amount + b.receiverRewards else 0)
        + (if b.closeTo != 0 && addr == b.sender then 0 - b.closingAmount else 0)
        + (if b.closeTo != 0 && addr == b.closeTo then b.closingAmount + b.closeRewards else 0)
  }

  /** By how much undoing misses: it undoes a close for any account the transaction does not close
      to, not only for its sender, and never for an account that closes to itself. The case without a
      close address only matters for the zero address and amounts that are then 0. */
  function BalanceError(b: Body, addr: Address): int {
    if b.kind != Pay then 0
    else if b.closeTo == 0 then (if addr == 0 then 0 - (b.closingAmount + b.closeRewards) else 0)
    else if addr == b.closeTo then (if addr == b.sender then 0 - b.closingAmount else 0)
    else if addr == b.sender then 0
    else b.closingAmount
  }

  /** The effect of the row lies in inner transactions, which it does not show. */
  predicate Hides(e: Entry) {
    e.txn.None? || e.txn.value.kind == AppCall
  }

  function EffectOf(e: Entry, addr: Address): int {
    (if e.txn.Some? then BalanceEffect(e.txn.value, addr) else 0) + if Hides(e) then e.movedAlgos else 0
  }

  function ErrorOf(e: Entry, addr: Address): int {
    (if e.txn.Some? then BalanceError(e.txn.value, addr) else 0) + if Hides(e) then e.movedAlgos else 0
  }

  lemma ModShift(x: int, q: int)
    ensures (x + q * M) % M == x % M
  {
    var y := x + q * M;
    assert y == (x / M + q) * M + x % M;
    assert (y / M - (x / M + q)) * M == x % M - y % M;
  }

  /** Adding and subtracting commute with wrapping around. */
  lemma Wrap(x: int, y: nat)
    ensures Add64(x % M, y) == (x + y) % M && Sub64(x % M, y) == (x - y) % M
  {
    assert x == x / M * M + x % M;
    ModShift(x % M + y, x / M);
    ModShift(x % M - y, x / M);
  }

  lemma UndoFee(b: Body, addr: Address, bal: nat)
    requires bal < M && b.kind != Pay
    ensures UndoBalance(b, addr, bal) == (bal - BalanceEffect(b, addr)) % M
  {
    Wrap(bal, b.fee);
    Wrap(bal + b.fee, b.senderRewards);
  }

  lemma UndoPay(b: Body, addr: Address, bal: nat)
    requires bal < M && b.kind == Pay
    ensures UndoBalance(b, addr, bal) == (bal - BalanceEffect(b, addr) + BalanceError(b, addr)) % M
  {
    var x1 := if addr == b.sender then bal + b.fee - b.senderRewards else bal;
    var b1 := if addr == b.sender then Sub64(Add64(bal, b.fee), b.senderRewards) else bal;
    assert b1 == x1 % M by {
      Wrap(bal, b.fee);
      Wrap(bal + b.fee, b.senderRewards);
    }
    var x2 := if addr == b.sender then x1 + b.amount else x1;
    var b2 := if addr == b.sender then Add64(b1, b.amount) else b1;
    assert b2 == x2 % M by {
      Wrap(x1, b.amount);
    }
    var x3 := if addr == b.receiver then x2 - b.amount - b.receiverRewards else x2;
    var b3 := if addr == b.receiver then Sub64(Sub64(b2, b.amount), b.receiverRewards) else b2;
    assert b3 == x3 % M by {
      Wrap(x2, b.amount);
      Wrap(x2 - b.amount, b.receiverRewards);
    }
    Wrap(x3, b.closingAmount);
    Wrap(x3 - b.closingAmount, b.closeRewards);
  }

  // ---------------------------------------------------------------- whole histories

  /** The sum of `f` over a history. */
  function Sum(h: seq<Entry>, f: Entry -> int): int {
    if h == [] then 0 else Sum(h[..|h| - 1], f) + f(h[|h| - 1])
  }

  lemma {:induction false} SumRemove(h: seq<Entry>, k: nat, f: Entry -> int)
    requires k < |h|
    ensures Sum(h, f) == Sum(h[..k] + h[k + 1..], f) + f(h[k])
  {
    var n := |h| - 1;
    if k == n {
      assert h[..k] + h[k + 1..] == h[..n];
    } else {
      SumRemove(h[..n], k, f);
      assert h[..n][..k] + h[..n][k + 1..] == (h[..k] + h[k + 1..])[..n - 1];
    }
  }

  lemma TakeOut(s: seq<Entry>, k: nat)
    requires k < |s|
    ensures multiset(s[..k] + s[k + 1..]) == multiset(s) - multiset{s[k]}
  {
    assert s == s[..k] + [s[k]] + s[k + 1..];
  }

  /** A sum does not depend on the order. */
  lemma {:induction false} SumAnyOrder(a: seq<Entry>, b: seq<Entry>, f: Entry -> int)
    requires multiset(a) == multiset(b)
    ensures Sum(a, f) == Sum(b, f)
  {
    assert |a| == |multiset(a)| && |b| == |multiset(b)|;
    if a != [] {
      var n := |a| - 1;
      assert a[n] in multiset(a);
      assert a[n] in multiset(b);
      var k :| 0 <= k < |b| && b[k] == a[n];
      SumRemove(b, k, f);
      TakeOut(a, n);
      TakeOut(b, k);
      assert a[..n] + a[n + 1..] == a[..n];
      SumAnyOrder(a[..n], b[..k] + b[k + 1..], f);
    }
  }

  /** The balance after the ledger applied the history, oldest transaction first. */
  function Applied(h: seq<Entry>, addr: Address, bal: nat): nat {
    if h == [] then bal % M else (Applied(h[..|h| - 1], addr, bal) + EffectOf(h[|h| - 1], addr)) % M
  }

  lemma {:induction false} AppliedSum(h: seq<Entry>, addr: Address, bal: nat)
    ensures Applied(h, addr, bal) == (bal + Sum(h, (e: Entry) => EffectOf(e, addr))) % M
  {
    if h != [] {
      AppliedSum(h[..|h| - 1], addr, bal);
      WrapInt(bal + Sum(h[..|h| - 1], (e: Entry) => EffectOf(e, addr)), EffectOf(h[|h| - 1], addr));
    }
  }

  lemma WrapInt(x: int, y: int)
    ensures (x % M + y) % M == (x + y) % M
  {
    assert x == x / M * M + x % M;
    ModShift(x % M + y, x / M);
  }

  lemma {:induction false} UndoneSum(rows: seq<Entry>, addr: Address, bal: nat)
    requires bal < M
    ensures UndoneBalance(rows, addr, bal)
         == (bal - Sum(rows, (e: Entry) => EffectOf(e, addr)) + Sum(rows, (e: Entry) => ErrorOf(e, addr))) % M
  {
    if rows != [] {
      var n := |rows| - 1;
      UndoneSum(rows[..n], addr, bal);
      if rows[n].txn.Some? {
        var b, before := rows[n].txn.value, UndoneBalance(rows[..n], addr, bal);
        if b.kind == Pay {
          UndoPay(b, addr, before);
        } else {
          UndoFee(b, addr, before);
        }
        var x := bal - Sum(rows[..n], (e: Entry) => EffectOf(e, addr)) + Sum(rows[..n], (e: Entry) => ErrorOf(e, addr));
        WrapInt(x, ErrorOf(rows[n], addr) - EffectOf(rows[n], addr));
      }
    }
  }

  /** Rewinding a history, in any order of its rows, gives the balance before it plus the error terms
      of its transactions, modulo 2^64. */
  lemma RewindBalance(h: seq<Entry>, rows: seq<Entry>, addr: Address, bal: nat)
    requires bal < M && multiset(rows) == multiset(h)
    ensures UndoneBalance(rows, addr, Applied(h, addr, bal)) == (bal + Sum(h, (e: Entry) => ErrorOf(e, addr))) % M
  {
    var effect, error := (e: Entry) => EffectOf(e, addr), (e: Entry) => ErrorOf(e, addr);
    AppliedSum(h, addr, bal);
    UndoneSum(rows, addr, Applied(h, addr, bal));
    SumAnyOrder(rows, h, effect);
    SumAnyOrder(rows, h, error);
    WrapInt(bal + Sum(h, effect), Sum(h, error) - Sum(h, effect));
  }

  lemma SmallMod(bal: nat, x: int)
    requires bal < M
    ensures (bal + x) % M == bal <==> x % M == 0
  {
    WrapInt(x, bal);
    if (bal + x) % M == bal {
      var q := (bal + x) / M;
      assert x == q * M;
      ModShift(0, q);
    }
  }

  /** The balance is restored exactly when the errors cancel out. */
  lemma RewindExact(h: seq<Entry>, rows: seq<Entry>, addr: Address, bal: nat)
    requires bal < M && multiset(rows) == multiset(h)
    ensures UndoneBalance(rows, addr, Applied(h, addr, bal)) == bal <==> Sum(h, (e: Entry) => ErrorOf(e, addr)) % M == 0
  {
    RewindBalance(h, rows, addr, bal);
    SmallMod(bal, Sum(h, (e: Entry) => ErrorOf(e, addr)));
  }

  /** On transactions the ledger accepts, the only error is the closing amount of a payment that
      another account closes to a third one. */
  lemma ErrorOnLedgerTxn(b: Body, addr: Address)
    requires b.closeTo == 0 ==> b.closingAmount == 0 && b.closeRewards == 0
    requires b.closeTo != b.sender
    ensures BalanceError(b, addr) ==
              if b.kind == Pay && b.closeTo != 0 && b.closeTo != addr && b.sender != addr then b.closingAmount else 0
  {}

  /** The ledger's rules for a payment's close; nobody else closes to a third account. */
  predicate OwnCloses(e: Entry, addr: Address) {
    e.txn.Some? ==>
      var b := e.txn.value;
      && (b.closeTo == 0 ==> b.closingAmount == 0 && b.closeRewards == 0) && b.closeTo != b.sender
      && (b.kind == Pay && b.closeTo != 0 ==> b.closeTo == addr || b.sender == addr || b.closingAmount == 0)
  }

  /** A history that is not refused, without such closes, is rewound to the balance before it, in any order. */
  lemma RewindBalanceExact(h: seq<Entry>, rows: seq<Entry>, addr: Address, bal: nat)
    requires bal < M && multiset(rows) == multiset(h)
    requires FirstStop(rows) == |rows| && forall e | e in rows :: OwnCloses(e, addr)
    ensures UndoneBalance(rows, addr, Applied(h, addr, bal)) == bal
  {
    var error := (e: Entry) => ErrorOf(e, addr);
    forall e | e in rows ensures error(e) == 0 {
      var i :| 0 <= i < |rows| && rows[i] == e;
      assert CanUndo(rows[i]);
      ErrorOnLedgerTxn(e.txn.value, addr);
    }
    SumZero(rows, error);
    SumAnyOrder(rows, h, error);
    RewindExact(h, rows, addr, bal);
  }

  /** A row that hides a movement spoils the balance, whatever undoing does: such rows must be refused. */
  lemma HiddenMoveSpoils(e: Entry, addr: Address, bal: nat)
    requires bal < M && Hides(e) && OwnCloses(e, addr)
    ensures UndoneBalance([e], addr, Applied([e], addr, bal)) == bal <==> e.movedAlgos % M == 0
  {
    if e.txn.Some? {
      ErrorOnLedgerTxn(e.txn.value, addr);
    }
    RewindExact([e], [e], addr, bal);
    assert Sum([e], (x: Entry) => ErrorOf(x, addr)) == Sum([], (x: Entry) => ErrorOf(x, addr)) + ErrorOf(e, addr) by {
      assert [e][..0] == [];
    }
  }

  // ---------------------------------------------------------------- assets

  function HiddenAsset(e: Entry, x: nat): int {
    if Hides(e) && x in e.movedAssets then e.movedAssets[x] else 0
  }

  /** The account whose holding an asset transfer draws on: a clawback names it. */
  function EffectiveSender(b: Body): Address {
    if b.assetSender != 0 then b.assetSender else b.sender
  }

  /** The change of the holding of asset `x` of `addr` when the ledger applied a transaction. */
  function AssetEffect(e: Entry, addr: Address, x: nat): int {
    if Hides(e) then HiddenAsset(e, x)
    else
      var b := e.txn.value;
      match b.kind
      case AssetConfig =>
        if addr != b.sender then 0
        else if b.configAsset == 0 then (if b.creatable == x then b.assetTotal else 0)
        else if b.configAsset == x then 0 - e.destroyed
        else 0
      case AssetTransfer =>
        if b.creatable != x then 0
        else
          (if addr == EffectiveSender(b) then 0 - b.assetAmount - e.closeAmount else 0)
          + (if addr == b.assetReceiver then b.assetAmount else 0)
          + (if addr == b.assetCloseTo then e.closeAmount else 0)
      case _ => 0
  }

  /** By how much undoing misses: it does not see inner transactions, it treats the initiator of a clawback
      as the one whose assets moved, it does not give back what a destroyed asset's creator held, and it
      takes a created asset away from whoever the history belongs to. */
  function AssetError(e: Entry, addr: Address, x: nat): int {
    if Hides(e) then HiddenAsset(e, x)
    else
      var b := e.txn.value;
      match b.kind
      case AssetConfig =>
        if b.configAsset == 0 then (if b.creatable == x && addr != b.sender then 0 - b.assetTotal else 0)
        else if b.configAsset == x && addr == b.sender then 0 - e.destroyed
        else 0
      case AssetTransfer =>
        if b.creatable == x && (addr == b.sender || addr == b.assetSender) && addr != EffectiveSender(b)
        then b.assetAmount + e.closeAmount else 0
      case _ => 0
  }

  ghost predicate SmallAmounts(s: seq<Holding>) {
    forall h | h in s :: h.amount < M
  }

  lemma {:induction false} AmountSmall(s: seq<Holding>, x: nat)
    requires SmallAmounts(s)
    ensures AmountOf(s, x) < M
  {
    if s != [] {
      assert s[0] in s;
      assert forall h | h in s[1..] :: h in s;
      AmountSmall(s[1..], x);
    }
  }

  lemma {:induction false} AdjustedSmall(s: seq<Holding>, id: nat, add: nat, sub: nat)
    requires SmallAmounts(s)
    ensures SmallAmounts(Adjusted(s, id, add, sub))
  {
    if s != [] && s[0].assetId != id {
      assert s[0] in s;
      assert forall h | h in s[1..] :: h in s;
      AdjustedSmall(s[1..], id, add, sub);
    }
  }

  /** One adjustment, as seen from any asset. */
  lemma AdjustOne(s: seq<Holding>, id: nat, add: nat, sub: nat, x: nat)
    requires SmallAmounts(s)
    ensures SmallAmounts(Adjusted(s, id, add, sub))
    ensures AmountOf(s, x) < M && AmountOf(Adjusted(s, id, add, sub), x) < M
    ensures AmountOf(Adjusted(s, id, add, sub), x) == (AmountOf(s, x) + if x == id then add - sub else 0) % M
  {
    AmountSmall(s, x);
    AmountSmall(s, id);
    AdjustedSmall(s, id, add, sub);
    AdjustedAmount(s, id, add, sub, x);
  }

  /** An adjustment made under a condition, where the amount so far is known modulo 2^64. */
  lemma AdjustIf(s: seq<Holding>, y: int, cond: bool, id: nat, add: nat, sub: nat, x: nat)
    requires SmallAmounts(s) && AmountOf(s, x) == y % M
    ensures var t := AdjustedIf(cond, s, id, add, sub);
            && SmallAmounts(t)
            && AmountOf(t, x) == (y + if cond && x == id then add - sub else 0) % M
  {
    if cond {
      AdjustOne(s, id, add, sub, x);
      WrapInt(y, if x == id then add - sub else 0);
    }
  }

  /** The three adjustments of a transfer, as seen from any asset. */
  lemma AdjustThrice(s: seq<Holding>, from: bool, to: bool, closes: bool, id: nat, amount: nat, close: nat, x: nat)
    requires SmallAmounts(s)
    ensures var s1 := AdjustedIf(from, s, id, Add64(amount, close), 0);
            var s2 := AdjustedIf(to, s1, id, 0, amount);
            var s3 := AdjustedIf(closes, s2, id, 0, close);
            var change := (if from then amount + close else 0) - (if to then amount else 0)
                        - (if closes then close else 0);
            && SmallAmounts(s3)
            && AmountOf(s3, x) == (AmountOf(s, x) + if x == id then change else 0) % M
  {
    var moved, y, mine := Add64(amount, close), AmountOf(s, x), x == id;
    AmountSmall(s, x);
    AdjustIf(s, y, from, id, moved, 0, x);
    var s1 := AdjustedIf(from, s, id, moved, 0);
    var y1 := if from && mine then y + amount + close else y;
    WrapInt(amount + close, y);
    AdjustIf(s1, y1, to, id, 0, amount, x);
    var y2 := if to && mine then y1 - amount else y1;
    AdjustIf(AdjustedIf(to, s1, id, 0, amount), y2, closes, id, 0, close, x);
  }

  lemma UndoTransfer(b: Body, closeAmount: nat, addr: Address, s: seq<Holding>, x: nat)
    requires SmallAmounts(s) && b.kind == AssetTransfer
    ensures var e := Entry(Some(b), closeAmount, 0, 0, map[]);
            && SmallAmounts(UndoAssets(b, closeAmount, addr, s))
            && AmountOf(UndoAssets(b, closeAmount, addr, s), x)
            == (AmountOf(s, x) - AssetEffect(e, addr, x) + AssetError(e, addr, x)) % M
  {
    var from, to, closes := addr == b.assetSender || addr == b.sender, addr == b.assetReceiver, addr == b.assetCloseTo;
    AdjustThrice(s, from, to, closes, b.creatable, b.assetAmount, closeAmount, x);
  }

  lemma UndoAssetOne(e: Entry, addr: Address, s: seq<Holding>, x: nat)
    requires SmallAmounts(s) && e.txn.Some?
    ensures var t := UndoAssets(e.txn.value, e.closeAmount, addr, s);
            && SmallAmounts(t)
            && AmountOf(t, x) == (AmountOf(s, x) - AssetEffect(e, addr, x) + AssetError(e, addr, x)) % M
  {
    var b := e.txn.value;
    AmountSmall(s, x);
    if b.kind == AssetTransfer {
      UndoTransfer(b, e.closeAmount, addr, s, x);
    } else if b.kind == AssetConfig && b.configAsset == 0 {
      AdjustOne(s, b.creatable, 0, b.assetTotal, x);
    }
  }

  lemma {:induction false} UndoneAssetSum(rows: seq<Entry>, addr: Address, s: seq<Holding>, x: nat)
    requires SmallAmounts(s)
    ensures SmallAmounts(UndoneAssets(rows, addr, s))
    ensures AmountOf(UndoneAssets(rows, addr, s), x)
         == (AmountOf(s, x) - Sum(rows, (e: Entry) => AssetEffect(e, addr, x))
             + Sum(rows, (e: Entry) => AssetError(e, addr, x))) % M
  {
    AmountSmall(s, x);
    if rows != [] {
      var n, effect, error := |rows| - 1, (e: Entry) => AssetEffect(e, addr, x), (e: Entry) => AssetError(e, addr, x);
      var last := rows[n];
      UndoneAssetSum(rows[..n], addr, s, x);
      var y := AmountOf(s, x) - Sum(rows[..n], effect) + Sum(rows[..n], error);
      assert Sum(rows, effect) == Sum(rows[..n], effect) + effect(last);
      assert Sum(rows, error) == Sum(rows[..n], error) + error(last);
      if last.txn.Some? {
        UndoAssetOne(last, addr, UndoneAssets(rows[..n], addr, s), x);
        WrapInt(y, error(last) - effect(last));
      }
    }
  }

  /** The holdings `after` are those the ledger reached from `before` through the history. */
  ghost predicate LedgerReached(h: seq<Entry>, addr: Address, before: seq<Holding>, after: seq<Holding>, x: nat) {
    AmountOf(after, x) == (AmountOf(before, x) + Sum(h, (e: Entry) => AssetEffect(e, addr, x))) % M
  }

  lemma UndoneAmount(before: nat, after: nat, effect: int, error: int)
    requires before < M && after == (before + effect) % M
    ensures (after - effect + error) % M == (before + error) % M
    ensures (before + error) % M == before <==> error % M == 0
  {
    WrapInt(before + effect, error - effect);
    SmallMod(before, error);
  }

  /** Rewinding gives, for every asset, the amount held before plus the error terms, modulo 2^64,
      whatever the order of the rows; it is exact exactly when the errors cancel out. */
  lemma RewindAssets(h: seq<Entry>, rows: seq<Entry>, addr: Address, before: seq<Holding>, after: seq<Holding>, x: nat)
    requires SmallAmounts(before) && SmallAmounts(after) && multiset(rows) == multiset(h)
    requires LedgerReached(h, addr, before, after, x)
    ensures var error := Sum(h, (e: Entry) => AssetError(e, addr, x));
            && AmountOf(UndoneAssets(rows, addr, after), x) == (AmountOf(before, x) + error) % M
            && (AmountOf(UndoneAssets(rows, addr, after), x) == AmountOf(before, x) <==> error % M == 0)
  {
    var effect, error := (e: Entry) => AssetEffect(e, addr, x), (e: Entry) => AssetError(e, addr, x);
    UndoneAssetSum(rows, addr, after, x);
    SumAnyOrder(rows, h, effect);
    SumAnyOrder(rows, h, error);
    AmountSmall(before, x);
    UndoneAmount(AmountOf(before, x), AmountOf(after, x), Sum(h, effect), Sum(h, error));
  }

  /** The account creates what its history creates, destroys nothing it holds, and starts no clawback from
      another account, unless that moves nothing; and no inner transaction moves anything. */
  predicate OwnAssetMoves(e: Entry, addr: Address) {
    if Hides(e) then forall x | x in e.movedAssets :: e.movedAssets[x] == 0
    else
      var b := e.txn.value;
      && (b.kind == AssetConfig && b.configAsset == 0 ==> addr == b.sender || b.assetTotal == 0)
      && (b.kind == AssetConfig && b.configAsset != 0 ==> addr != b.sender || e.destroyed == 0)
      && (b.kind == AssetTransfer && (addr == b.sender || addr == b.assetSender) ==>
            addr == EffectiveSender(b) || b.assetAmount + e.closeAmount == 0)
  }

  /** Such rows are undone without error, for every asset. */
  lemma NoAssetError(e: Entry, addr: Address, x: nat)
    requires OwnAssetMoves(e, addr)
    ensures AssetError(e, addr, x) == 0
  {}

  /** A row is undone without error for every asset exactly when it is such a row. */
  lemma AssetErrorExact(e: Entry, addr: Address)
    ensures (forall x: nat :: AssetError(e, addr, x) == 0) <==> OwnAssetMoves(e, addr)
  {
    if OwnAssetMoves(e, addr) {
      forall x: nat ensures AssetError(e, addr, x) == 0 {
        NoAssetError(e, addr, x);
      }
    } else if Hides(e) {
      var x :| x in e.movedAssets && e.movedAssets[x] != 0;
      assert AssetError(e, addr, x) != 0;
    } else {
      var b := e.txn.value;
      var x := if b.kind == AssetConfig && b.configAsset != 0 then b.configAsset else b.creatable;
      assert AssetError(e, addr, x) != 0;
    }
  }

  lemma {:induction false} SumZero(h: seq<Entry>, f: Entry -> int)
    requires forall e | e in h :: f(e) == 0
    ensures Sum(h, f) == 0
  {
    if h != [] {
      var n := |h| - 1;
      assert h[n] in h && forall e | e in h[..n] :: e in h;
      SumZero(h[..n], f);
    }
  }

  /** A history of such rows only: rewinding restores every asset amount, in any order of the rows. */
  lemma RewindAssetsExact(h: seq<Entry>, rows: seq<Entry>, addr: Address, before: seq<Holding>, after: seq<Holding>)
    requires SmallAmounts(before) && SmallAmounts(after) && multiset(rows) == multiset(h)
    requires forall x :: LedgerReached(h, addr, before, after, x)
    requires forall e | e in h :: OwnAssetMoves(e, addr)
    ensures forall x :: AmountOf(UndoneAssets(rows, addr, after), x) == AmountOf(before, x)
  {
    forall x ensures AmountOf(UndoneAssets(rows, addr, after), x) == AmountOf(before, x) {
      var error := (e: Entry) => AssetError(e, addr, x);
      forall e | e in h ensures error(e) == 0 {
        NoAssetError(e, addr, x);
      }
      SumZero(h, error);
      RewindAssets(h, rows, addr, before, after, x);
    }
  }

  /** Assets that appear in no row keep their holdings, in place; ids stay distinct. */
  lemma {:induction false} RewindKeepsOthers(rows: seq<Entry>, addr: Address, s: seq<Holding>)
    requires DistinctIds(s)
    ensures var t := UndoneAssets(rows, addr, s);
            && DistinctIds(t) && |s| <= |t|
            && forall k | 0 <= k < |s| ::
                 && t[k] == s[k].(amount := t[k].amount)
                 && ((forall e | e in rows :: e.txn.Some? ==> e.txn.value.creatable != s[k].assetId) ==> t[k] == s[k])
  {
    if rows != [] {
      var n := |rows| - 1;
      RewindKeepsOthers(rows[..n], addr, s);
      assert rows[n] in rows && forall e | e in rows[..n] :: e in rows;
      if rows[n].txn.Some? {
        UndoKeepsOthers(rows[n].txn.value, rows[n].closeAmount, addr, UndoneAssets(rows[..n], addr, s));
      }
    }
  }

  /** Of the holdings `s`, which are still there, only those of the asset `id` changed. */
  ghost predicate KeepsOthers(s: seq<Holding>, t: seq<Holding>, id: nat) {
    && DistinctIds(t) && |s| <= |t|
    && forall k | 0 <= k < |s| :: t[k] == s[k].(amount := t[k].amount) && (id != s[k].assetId ==> t[k] == s[k])
  }

  lemma AdjustedKeepsOthers(cond: bool, s: seq<Holding>, t: seq<Holding>, id: nat, add: nat, sub: nat)
    requires KeepsOthers(s, t, id)
    ensures KeepsOthers(s, AdjustedIf(cond, t, id, add, sub), id)
  {
    AdjustedDistinct(t, id, add, sub);
    AdjustedHoldings(t, id, add, sub);
  }

  lemma UndoKeepsOthers(b: Body, closeAmount: nat, addr: Address, s: seq<Holding>)
    requires DistinctIds(s)
    ensures KeepsOthers(s, UndoAssets(b, closeAmount, addr, s), b.creatable)
  {
    var id := b.creatable;
    if b.kind == AssetConfig {
      AdjustedKeepsOthers(b.configAsset == 0, s, s, id, 0, b.assetTotal);
    } else if b.kind == AssetTransfer {
      var from, to := addr == b.assetSender || addr == b.sender, addr == b.assetReceiver;
      var moved := Add64(b.assetAmount, closeAmount);
      var s1 := AdjustedIf(from, s, id, moved, 0);
      AdjustedKeepsOthers(from, s, s, id, moved, 0);
      AdjustedKeepsOthers(to, s, s1, id, 0, b.assetAmount);
      AdjustedKeepsOthers(addr == b.assetCloseTo, s, AdjustedIf(to, s1, id, 0, b.assetAmount), id, 0, closeAmount);
    }
  }
}
