/** What the transaction filter is documented to ask for, and exactly when the query answers that: block
    times are compared through rounds, and amounts and addresses of zero are not stored. */
module FilterMeaning {
  import opened Outcomes
  import opened Ledger
  import opened TxnQuery
  import opened Paging

  // ---------------------------------------------------------------- times as rounds

  /** `SELECT round FROM block_header WHERE realtime < t ORDER BY realtime DESC LIMIT 1`: which of
      several headers with the same latest time is returned is left to the database. */
  ghost predicate IsRoundBefore(headers: map<nat, nat>, t: nat, r: Option<nat>) {
    match r
    case None => forall k | k in headers :: headers[k] >= t
    case Some(m) => IsLatestBelow(headers, t, m)
  }

  /** Round `m` has the latest time below `t`. */
  ghost predicate IsLatestBelow(headers: map<nat, nat>, t: nat, m: nat) {
    m in headers && headers[m] < t && forall k | k in headers && headers[k] < t :: headers[k] <= headers[m]
  }

  /** `SELECT round FROM block_header WHERE realtime > t ORDER BY realtime ASC LIMIT 1`. */
  ghost predicate IsRoundAfter(headers: map<nat, nat>, t: nat, r: Option<nat>) {
    match r
    case None => forall k | k in headers :: headers[k] <= t
    case Some(m) => IsEarliestAbove(headers, t, m)
  }

  /** Round `m` has the earliest time above `t`. */
  ghost predicate IsEarliestAbove(headers: map<nat, nat>, t: nat, m: nat) {
    m in headers && headers[m] > t && forall k | k in headers && headers[k] > t :: headers[k] >= headers[m]
  }

  ghost predicate NonDecreasing(headers: map<nat, nat>) {
    forall j, k | j in headers && k in headers && j <= k :: headers[j] <= headers[k]
  }

  /** Two rounds share the latest time below `t`. */
  ghost predicate TiedBelow(headers: map<nat, nat>, t: nat) {
    exists j: nat, k: nat :: j < k && IsLatestBelow(headers, t, j) && IsLatestBelow(headers, t, k)
  }

  /** Two rounds share the earliest time above `t`. */
  ghost predicate TiedAbove(headers: map<nat, nat>, t: nat) {
    exists j: nat, k: nat :: j < k && IsEarliestAbove(headers, t, j) && IsEarliestAbove(headers, t, k)
  }

  /** An earlier round shares the latest time below `t` with round `k`. */
  ghost predicate LosableBelow(headers: map<nat, nat>, t: nat, k: nat) {
    IsLatestBelow(headers, t, k) && exists j: nat :: j < k && IsLatestBelow(headers, t, j)
  }

  /** A later round shares the earliest time above `t` with round `k`. */
  ghost predicate LosableAbove(headers: map<nat, nat>, t: nat, k: nat) {
    IsEarliestAbove(headers, t, k) && exists j: nat :: k < j && IsEarliestAbove(headers, t, j)
  }

  /** The round bound `r` lets in exactly the rounds before time `t`. */
  ghost predicate ExactBelow(headers: map<nat, nat>, t: nat, r: Option<nat>) {
    forall k | k in headers :: headers[k] < t <==> r.Some? && k <= r.value
  }

  ghost predicate ExactAbove(headers: map<nat, nat>, t: nat, r: Option<nat>) {
    forall k | k in headers :: headers[k] > t <==> r.Some? && k >= r.value
  }

  /** The sub-select always has an answer. */
  lemma {:induction false} SomeRoundBefore(headers: map<nat, nat>, t: nat)
    ensures exists r :: IsRoundBefore(headers, t, r)
    decreases |headers|
  {
    if k :| k in headers && headers[k] < t {
      var rest := headers - {k};
      assert rest.Keys == headers.Keys - {k};
      assert |rest.Keys| == |rest| && |headers.Keys| == |headers|;
      SomeRoundBefore(rest, t);
      var r :| IsRoundBefore(rest, t, r);
      var best := if r.Some? && rest[r.value] > headers[k] then r.value else k;
      forall l | l in headers && headers[l] < t ensures headers[l] <= headers[best] {
        assert l == k || (l in rest && rest[l] == headers[l]);
      }
      assert IsRoundBefore(headers, t, Some(best));
    } else {
      assert IsRoundBefore(headers, t, None);
    }
  }

  lemma {:induction false} SomeRoundAfter(headers: map<nat, nat>, t: nat)
    ensures exists r :: IsRoundAfter(headers, t, r)
    decreases |headers|
  {
    if k :| k in headers && headers[k] > t {
      var rest := headers - {k};
      assert rest.Keys == headers.Keys - {k};
      assert |rest.Keys| == |rest| && |headers.Keys| == |headers|;
      SomeRoundAfter(rest, t);
      var r :| IsRoundAfter(rest, t, r);
      var best := if r.Some? && rest[r.value] < headers[k] then r.value else k;
      forall l | l in headers && headers[l] > t ensures headers[l] >= headers[best] {
        assert l == k || (l in rest && rest[l] == headers[l]);
      }
      assert IsRoundAfter(headers, t, Some(best));
    } else {
      assert IsRoundAfter(headers, t, None);
    }
  }

  /** An upper time bound never lets in a block that is too late. */
  lemma NotTooLate(headers: map<nat, nat>, t: nat, r: Option<nat>, k: nat)
    requires NonDecreasing(headers) && IsRoundBefore(headers, t, r) && k in headers
    ensures r.Some? && k <= r.value ==> headers[k] < t
    ensures !LosableBelow(headers, t, k) && headers[k] < t ==> r.Some? && k <= r.value
    ensures LosableBelow(headers, t, k) ==> TiedBelow(headers, t)
  {
    if headers[k] < t && r.value < k {
      assert IsLatestBelow(headers, t, k);
    }
  }

  lemma NotTooEarly(headers: map<nat, nat>, t: nat, r: Option<nat>, k: nat)
    requires NonDecreasing(headers) && IsRoundAfter(headers, t, r) && k in headers
    ensures r.Some? && k >= r.value ==> headers[k] > t
    ensures !LosableAbove(headers, t, k) && headers[k] > t ==> r.Some? && k >= r.value
    ensures LosableAbove(headers, t, k) ==> TiedAbove(headers, t)
  {
    if headers[k] > t && k < r.value {
      assert IsEarliestAbove(headers, t, k);
    }
  }

  /** Whatever the database may answer, an upper time bound is exact exactly when no two rounds share the
      latest time below it. */
  lemma BeforeTimeBound(headers: map<nat, nat>, t: nat)
    requires NonDecreasing(headers)
    ensures (forall r | IsRoundBefore(headers, t, r) :: ExactBelow(headers, t, r)) <==> !TiedBelow(headers, t)
  {
    if TiedBelow(headers, t) {
      var j, k :| j < k && IsLatestBelow(headers, t, j) && IsLatestBelow(headers, t, k);
      assert IsRoundBefore(headers, t, Some(j)) && !ExactBelow(headers, t, Some(j));
    } else {
      forall r, k | IsRoundBefore(headers, t, r) && k in headers
        ensures headers[k] < t <==> r.Some? && k <= r.value
      {
        NotTooLate(headers, t, r, k);
      }
    }
  }

  /** The same for a lower time bound and the earliest time above it. */
  lemma AfterTimeBound(headers: map<nat, nat>, t: nat)
    requires NonDecreasing(headers)
    ensures (forall r | IsRoundAfter(headers, t, r) :: ExactAbove(headers, t, r)) <==> !TiedAbove(headers, t)
  {
    if TiedAbove(headers, t) {
      var j, k :| j < k && IsEarliestAbove(headers, t, j) && IsEarliestAbove(headers, t, k);
      assert IsRoundAfter(headers, t, Some(k)) && !ExactAbove(headers, t, Some(k));
    } else {
      forall r, k | IsRoundAfter(headers, t, r) && k in headers
        ensures headers[k] > t <==> r.Some? && k >= r.value
      {
        NotTooEarly(headers, t, r, k);
      }
    }
  }

  /** Rounds 1 and 2 share a time: a bound just after it may lose round 2, one just before it round 1. */
  lemma TieWitness()
    ensures var headers := map[1 := 5, 2 := 5];
            && NonDecreasing(headers)
            && IsRoundBefore(headers, 6, Some(1)) && !ExactBelow(headers, 6, Some(1))
            && IsRoundAfter(headers, 4, Some(2)) && !ExactAbove(headers, 4, Some(2))
  {
    var headers: map<nat, nat> := map[1 := 5, 2 := 5];
    assert headers[2] < 6 && headers[1] > 4;
  }

  // ---------------------------------------------------------------- the documented filter

  predicate Within(x: nat, gt: Option<nat>, lt: Option<nat>) {
    (gt.Some? ==> x > gt.value) && (lt.Some? ==> x < lt.value)
  }

  predicate Bounded(gt: Option<nat>, lt: Option<nat>) {
    gt.Some? || lt.Some?
  }

  /** Bounds on Algos ask for payments: of the amount, or of the amount together with what a close moved. */
  predicate DocumentedAmounts(c: Criteria, b: Body) {
    && Within(b.assetAmount, c.assetAmountGT, c.assetAmountLT)
    && (Bounded(c.algosGT, c.algosLT) ==> b.kind == Pay && Within(b.amount, c.algosGT, c.algosLT))
    && (Bounded(c.effectiveGT, c.effectiveLT) ==>
          b.kind == Pay && Within(b.amount + b.closingAmount, c.effectiveGT, c.effectiveLT))
  }

  /** The numbers by which a request names the kinds of transactions. */
  predicate IsKindNumber(n: nat, k: Kind) {
    || (n == 1 && k == Pay) || (n == 2 && k == KeyReg) || (n == 3 && k == AssetConfig)
    || (n == 4 && k == AssetTransfer) || (n == 5 && k == AssetFreeze) || (n == 6 && k == AppCall)
    || (n == 7 && k == StateProof) || (n == 8 && k == Heartbeat)
  }

  predicate PlaysRole(b: Body, role: Role, a: Address) {
    || (role == Sender && a == b.sender) || (role == Receiver && a == b.receiver)
    || (role == CloseRemainderTo && a == b.closeTo) || (role == Freeze && a == b.freezeAccount)
    || (role == AssetSender && a == b.assetSender) || (role == AssetReceiver && a == b.assetReceiver)
    || (role == AssetCloseTo && a == b.assetCloseTo)
  }

  /** Rounds and offsets within their bounds; the upper bound 0 on rounds stands for none. */
  predicate DocumentedPosition(w: Window, t: Row) {
    && (w.minRound != 0 ==> t.round >= w.minRound) && (w.maxRound != 0 ==> t.round <= w.maxRound)
    && (w.round.Some? ==> t.round == w.round.value) && (w.offset.Some? ==> t.intra == w.offset.value)
    && (w.offsetLT.Some? ==> t.intra < w.offsetLT.value) && (w.offsetGT.Some? ==> t.intra > w.offsetGT.value)
  }

  predicate DocumentedCriteria(c: Criteria, t: Row) {
    var b := t.txn.body;
    && (c.assetId.Some? ==> b.creatable == c.assetId.value)
    && (c.appId.Some? ==> b.creatable == c.appId.value)
    && (c.typeEnum != 0 ==> IsKindNumber(c.typeEnum, b.kind))
    && (c.txid != "" ==> t.txid == Some(c.txid))
    && (c.groupId != [] ==> b.group == c.groupId)
    && (c.sigType != "" ==> c.sigType in b.signatures)
    && c.notePrefix <= b.note
    && (c.rekeyTo == Some(true) ==> b.rekeyTo != 0)
    && (c.requireLogs ==> b.logs != [])
    && DocumentedAmounts(c, b)
  }

  predicate DocumentedTime(headers: map<nat, nat>, tf: Filter, t: Row) {
    && t.round in headers
    && (tf.beforeTime.Some? ==> headers[t.round] < tf.beforeTime.value)
    && (tf.afterTime.Some? ==> headers[t.round] > tf.afterTime.value)
  }

  predicate DocumentedAddress(db: Db, tf: Filter, t: Row) {
    tf.address.Some? ==>
      && PartRow(tf.address.value, t.round, t.intra) in db.parts
      && (tf.roles != {} ==> exists role | role in tf.roles :: PlaysRole(t.txn.body, role, tf.address.value))
  }

  /** What the caller asks of a stored row. */
  predicate Documented(db: Db, tf: Filter, t: Row) {
    && DocumentedTime(db.headers, tf, t) && DocumentedAddress(db, tf, t) && DocumentedCriteria(tf.criteria, t)
    && (tf.skipInner ==> t.txid.Some?) && DocumentedPosition(tf.window, t)
  }

  // ---------------------------------------------------------------- when the query answers it

  /** Each amount that is bounded is stored, that is, not zero; the effective amount needs both its parts. */
  predicate AmountsStored(c: Criteria, b: Body) {
    && (Bounded(c.assetAmountGT, c.assetAmountLT) ==> b.assetAmount != 0)
    && (Bounded(c.algosGT, c.algosLT) ==> b.amount != 0)
    && (Bounded(c.effectiveGT, c.effectiveLT) ==> b.amount != 0 && b.closingAmount != 0)
  }

  /** A role is not asked of the zero address, which is not stored. */
  predicate RoleStored(tf: Filter) {
    tf.address.Some? && tf.roles != {} ==> tf.address.value != 0
  }

  /** No two rounds share the block time next to a given time bound. */
  ghost predicate Untied(headers: map<nat, nat>, tf: Filter) {
    && (tf.beforeTime.Some? ==> !TiedBelow(headers, tf.beforeTime.value))
    && (tf.afterTime.Some? ==> !TiedAbove(headers, tf.afterTime.value))
  }

  /** Only payments have an amount and a closing amount. */
  predicate PaysOnlyInPayments(b: Body) {
    b.kind != Pay ==> b.amount == 0 && b.closingAmount == 0
  }

  /** The sub-selects are answered as the database may answer them, over times that never go back. */
  ghost predicate Answered(db: Db) {
    && NonDecreasing(db.headers)
    && (forall t: nat :: IsRoundBefore(db.headers, t, db.before(t)))
    && (forall t: nat :: IsRoundAfter(db.headers, t, db.after(t)))
  }

  lemma TimeMeaning(db: Db, tf: Filter, t: Row)
    requires Answered(db) && t.round in db.headers
    ensures InTime(db, tf, t) ==> DocumentedTime(db.headers, tf, t)
    ensures Untied(db.headers, tf) ==> (InTime(db, tf, t) <==> DocumentedTime(db.headers, tf, t))
  {
    if tf.beforeTime.Some? {
      NotTooLate(db.headers, tf.beforeTime.value, db.before(tf.beforeTime.value), t.round);
    }
    if tf.afterTime.Some? {
      NotTooEarly(db.headers, tf.afterTime.value, db.after(tf.afterTime.value), t.round);
    }
  }

  lemma CriteriaMeaning(c: Criteria, t: Row)
    requires PaysOnlyInPayments(t.txn.body)
    ensures MeetsCriteria(c, t) <==> DocumentedCriteria(c, t) && AmountsStored(c, t.txn.body)
  {}

  /** The row satisfies the filter as the tables answer it exactly when it is asked for and every value the
      filter compares is stored. Ties in block times can only lose rows. */
  lemma SatisfiesDocumented(db: Db, tf: Filter, t: Row)
    requires Answered(db) && PaysOnlyInPayments(t.txn.body)
    ensures Satisfies(db, tf, t) ==> Documented(db, tf, t)
    ensures Untied(db.headers, tf) ==>
              (Satisfies(db, tf, t) <==>
               Documented(db, tf, t) && AmountsStored(tf.criteria, t.txn.body) && RoleStored(tf))
  {
    if t.round in db.headers {
      TimeMeaning(db, tf, t);
    }
    CriteriaMeaning(tf.criteria, t);
  }

  /** The query built for a filter selects a row exactly when the caller asks for it, the amounts that are
      bounded are stored, and no role is asked of the zero address, unless block times tie at a bound. */
  lemma QueryMeansDocumented(db: Db, q: Query, tf: Filter, t: Row)
    requires IsQueryFor(q, tf) && !CreatableClash(tf.criteria)
    requires Answered(db) && PaysOnlyInPayments(t.txn.body)
    ensures Selected(db, q, t) ==> Documented(db, tf, t)
    ensures Untied(db.headers, tf) ==>
              (Selected(db, q, t) <==>
               Documented(db, tf, t) && AmountsStored(tf.criteria, t.txn.body) && RoleStored(tf))
  {
    QueryMeansFilter(db, q, tf, t);
    SatisfiesDocumented(db, tf, t);
  }

  // ---------------------------------------------------------------- rows that ties can lose

  ghost predicate Losable(headers: map<nat, nat>, tf: Filter, k: nat) {
    || (tf.beforeTime.Some? && LosableBelow(headers, tf.beforeTime.value, k))
    || (tf.afterTime.Some? && LosableAbove(headers, tf.afterTime.value, k))
  }

  ghost predicate SameTables(a: Db, b: Db) {
    a.rows == b.rows && a.headers == b.headers && a.parts == b.parts
  }

  lemma KeptByAny(db: Db, tf: Filter, t: Row)
    requires Answered(db) && DocumentedTime(db.headers, tf, t) && !Losable(db.headers, tf, t.round)
    ensures InTime(db, tf, t)
  {
    if tf.beforeTime.Some? {
      NotTooLate(db.headers, tf.beforeTime.value, db.before(tf.beforeTime.value), t.round);
    }
    if tf.afterTime.Some? {
      NotTooEarly(db.headers, tf.afterTime.value, db.after(tf.afterTime.value), t.round);
    }
  }

  /** A database with the same tables whose answers lose the row. */
  lemma LostBySome(db: Db, tf: Filter, t: Row) returns (other: Db)
    requires Answered(db) && Losable(db.headers, tf, t.round)
    ensures SameTables(db, other) && Answered(other) && !InTime(other, tf, t)
  {
    var h, k := db.headers, t.round;
    if tf.beforeTime.Some? && LosableBelow(h, tf.beforeTime.value, k) {
      var v := tf.beforeTime.value;
      var j: nat :| j < k && IsLatestBelow(h, v, j);
      other := db.(before := (x: nat) => if x == v then Some(j) else db.before(x));
      assert IsRoundBefore(h, v, Some(j));
    } else {
      var v := tf.afterTime.value;
      var j: nat :| k < j && IsEarliestAbove(h, v, j);
      other := db.(after := (x: nat) => if x == v then Some(j) else db.after(x));
      assert IsRoundAfter(h, v, Some(j));
    }
  }

  lemma SelectedByAny(db: Db, other: Db, q: Query, tf: Filter, t: Row)
    requires IsQueryFor(q, tf) && !CreatableClash(tf.criteria) && PaysOnlyInPayments(t.txn.body)
    requires SameTables(db, other) && Answered(other)
    requires Documented(db, tf, t) && AmountsStored(tf.criteria, t.txn.body) && RoleStored(tf)
    requires !Losable(db.headers, tf, t.round)
    ensures Selected(other, q, t)
  {
    QueryMeansFilter(other, q, tf, t);
    CriteriaMeaning(tf.criteria, t);
    KeptByAny(other, tf, t);
  }

  /** Whatever the database answers where block times tie, the query selects a row exactly when the caller
      asks for it, what the filter compares is stored, and no tie at a time bound can lose its round. */
  lemma AlwaysSelected(db: Db, q: Query, tf: Filter, t: Row)
    requires IsQueryFor(q, tf) && !CreatableClash(tf.criteria)
    requires Answered(db) && PaysOnlyInPayments(t.txn.body)
    ensures (forall other | SameTables(db, other) && Answered(other) :: Selected(other, q, t)) <==>
              && Documented(db, tf, t) && AmountsStored(tf.criteria, t.txn.body) && RoleStored(tf)
              && !Losable(db.headers, tf, t.round)
  {
    if forall other | SameTables(db, other) && Answered(other) :: Selected(other, q, t) {
      assert SameTables(db, db) && Selected(db, q, t);
      QueryMeansFilter(db, q, tf, t);
      SatisfiesDocumented(db, tf, t);
      CriteriaMeaning(tf.criteria, t);
      if Losable(db.headers, tf, t.round) {
        var other := LostBySome(db, tf, t);
        QueryMeansFilter(other, q, tf, t);
      }
    } else if Documented(db, tf, t) && AmountsStored(tf.criteria, t.txn.body) && RoleStored(tf) {
      var other :| SameTables(db, other) && Answered(other) && !Selected(other, q, t);
      if !Losable(db.headers, tf, t.round) {
        SelectedByAny(db, other, q, tf, t);
      }
    }
  }

  /** The rows that a search finds, page by page, are those the caller asks for. */
  lemma FoundDocumented(db: Db, tf: Filter, t: Row)
    requires Answered(db) && Untied(db.headers, tf) && PaysOnlyInPayments(t.txn.body)
    ensures t in Found(db, tf) <==>
              && t in db.rows && Documented(db, tf, t)
              && AmountsStored(tf.criteria, t.txn.body) && RoleStored(tf)
  {
    KeepMember(Scan(db.rows, tf.address.None?), (r: Row) => Satisfies(db, tf, r), t);
    ScanMember(tf.address.None?, db.rows, t);
    SatisfiesDocumented(db, tf, t);
  }

  // ---------------------------------------------------------------- what is asked for and not found

  function Payment(amount: nat, closing: nat): Row {
    var b := Body("id", Pay, 1, 0, 0, [], [], {}, 2, amount, 0, closing, 0, 0, 0, 0, 0, 0, 0, 0, 0, 0, 0, [], 0, [],
                  false);
    Row(1, 0, Some("id"), Txn(b, []), None, "")
  }

  function Searching(c: Criteria): Filter {
    Filter(None, {}, Window(0, 0, None, None, None, None), None, None, c, "", 0, false, false, false, false)
  }

  ghost function OneRow(t: Row): Db {
    Db([t], map[1 := 0], {}, x => if x > 0 then Some(1) else None, x => None)
  }

  /** A payment of 5 that closes nothing is more than 1 in effect, and is not found. */
  lemma EffectiveAmountLost()
    ensures var t, tf := Payment(5, 0), Searching(NoCriteria.(effectiveGT := Some(1)));
            Documented(OneRow(t), tf, t) && t !in Found(OneRow(t), tf)
  {
    var t, tf := Payment(5, 0), Searching(NoCriteria.(effectiveGT := Some(1)));
    assert OneRow(t).headers[1] == 0;
    KeepMember(Scan(OneRow(t).rows, true), (r: Row) => Satisfies(OneRow(t), tf, r), t);
  }

  /** A payment of nothing is less than 10, and is not found. */
  lemma ZeroAmountLost()
    ensures var t, tf := Payment(0, 0), Searching(NoCriteria.(algosLT := Some(10)));
            Documented(OneRow(t), tf, t) && t !in Found(OneRow(t), tf)
  {
    var t, tf := Payment(0, 0), Searching(NoCriteria.(algosLT := Some(10)));
    assert OneRow(t).headers[1] == 0;
    KeepMember(Scan(OneRow(t).rows, true), (r: Row) => Satisfies(OneRow(t), tf, r), t);
  }
}
