/** Two departures from the plain search: leaving out inner transactions when a filter only restricts
    positions and times, and returning inner transactions themselves instead of their roots. */
module SearchModes {
  import opened Outcomes
  import opened Ledger
  import opened PageToken
  import opened TxnQuery
  import opened Paging
  import opened TxnSearch
  import opened StoredChain
  import opened FilterMeaning

  // ---------------------------------------------------------------- skipping inner transactions

  /** Which filters are rewritten, and how: those without an address, a role or any condition on what a
      transaction says, in the plain mode; inner transactions are then skipped. */
  lemma OptimizationMeans(tf: Filter)
    ensures var c := tf.criteria;
            TxnFilterOptimization(tf) != tf <==>
              && tf.address.None? && tf.roles == {}
              && c.typeEnum == 0 && c.txid == c.sigType == "" && c.notePrefix == c.groupId == []
              && c.algosGT.None? && c.algosLT.None? && c.effectiveGT.None? && c.effectiveLT.None?
              && c.assetId.None? && c.appId.None? && c.assetAmountGT.None? && c.assetAmountLT.None?
              && c.rekeyTo.None? && !c.requireLogs
              && !tf.skipConversion && !tf.skipInner && !tf.skipOptimization && !tf.headerOnly
    ensures TxnFilterOptimization(tf) == tf || TxnFilterOptimization(tf) == tf.(skipInner := true)
  {
    assert tf.criteria == NoCriteria <==>
             var c := tf.criteria;
             && c.typeEnum == 0 && c.txid == c.sigType == "" && c.notePrefix == c.groupId == []
             && c.algosGT.None? && c.algosLT.None? && c.effectiveGT.None? && c.effectiveLT.None?
             && c.assetId.None? && c.appId.None? && c.assetAmountGT.None? && c.assetAmountLT.None?
             && c.rekeyTo.None? && !c.requireLogs;
  }

  predicate OffsetAllowed(w: Window, i: nat) {
    && (w.offset.Some? ==> i == w.offset.value)
    && (w.offsetLT.Some? ==> i < w.offsetLT.value)
    && (w.offsetGT.Some? ==> i > w.offsetGT.value)
  }

  /** The least offset that can be allowed. */
  function LeastOffset(w: Window): nat {
    if w.offset.Some? then w.offset.value else if w.offsetGT.Some? then w.offsetGT.value + 1 else 0
  }

  /** Offset 0 is allowed, or no offset is. A filter without offsets always meets this. */
  predicate KeepsRoots(w: Window) {
    OffsetAllowed(w, 0) || !OffsetAllowed(w, LeastOffset(w))
  }

  lemma KeepsRootsMeaning(w: Window)
    ensures KeepsRoots(w) <==> forall i, j :: 0 <= j <= i && OffsetAllowed(w, i) ==> OffsetAllowed(w, j)
  {
    if OffsetAllowed(w, LeastOffset(w)) && !OffsetAllowed(w, 0) {
      assert 0 <= 0 <= LeastOffset(w);
    }
  }

  /** Both filters lead to the same answer. */
  ghost predicate SameAnswer(db: Db, tf: Filter, o: Filter) {
    forall hits :: AnswersRows(db.rows, tf.address.None?, Found(db, tf), hits)
              <==> AnswersRows(db.rows, tf.address.None?, Found(db, o), hits)
  }

  /** With the optimization every root is still found through its own row. */
  lemma RootFound(db: Db, tf: Filter, r: Row)
    requires WellStored(db.rows) && KeepsRoots(tf.window)
    requires TxnFilterOptimization(tf) != tf && r in Found(db, tf)
    ensures RootOf(db.rows, r) in Found(db, TxnFilterOptimization(tf))
    ensures HitOf(db.rows, RootOf(db.rows, r)) == HitOf(db.rows, r)
  {
    var o, g := TxnFilterOptimization(tf), RootOf(db.rows, r);
    LeftRows(db, tf, None);
    LeftRows(db, o, None);
    assert IsLeft(db, tf, None, r);
    assert Satisfies(db, tf, r);
    KeepsRootsMeaning(tf.window);
    InOwnGroup(db.rows, r);
    assert OffsetAllowed(tf.window, r.intra) && OffsetAllowed(tf.window, g.intra);
    assert Satisfies(db, o, g);
    assert IsLeft(db, o, None, g);
    HitPerGroup(db.rows, g, r);
  }

  lemma OptimizedFound(db: Db, tf: Filter, r: Row)
    requires WellStored(db.rows) && TxnFilterOptimization(tf) != tf && r in Found(db, TxnFilterOptimization(tf))
    ensures r in Found(db, tf)
  {
    var o := TxnFilterOptimization(tf);
    LeftRows(db, tf, None);
    LeftRows(db, o, None);
    assert IsLeft(db, o, None, r);
    assert Satisfies(db, tf, r);
    assert IsLeft(db, tf, None, r);
  }

  /** The optimization changes no answer when the offsets keep roots, in particular without offsets. */
  lemma OptimizationSound(db: Db, tf: Filter)
    requires WellStored(db.rows) && KeepsRoots(tf.window)
    ensures SameAnswer(db, tf, TxnFilterOptimization(tf))
  {
    var o := TxnFilterOptimization(tf);
    if o != tf {
      forall h ensures IsHitIn(db.rows, Found(db, tf), h) <==> IsHitIn(db.rows, Found(db, o), h) {
        if IsHitIn(db.rows, Found(db, tf), h) {
          var r :| r in Found(db, tf) && HitOf(db.rows, r) == h;
          RootFound(db, tf, r);
        }
        if IsHitIn(db.rows, Found(db, o), h) {
          var r :| r in Found(db, o) && HitOf(db.rows, r) == h;
          OptimizedFound(db, tf, r);
        }
      }
    }
  }

  // A chain whose only transactions are a root with `m` inner ones, in block `at`.

  function Leaf(id: string): Txn {
    Txn(Body(id, AppCall, 1, 0, 0, [], [], {}, 0, 0, 0, 0, 0, 0, 0, 0, 0, 0, 0, 0, 0, 0, 0, [], 0, [], false), [])
  }

  function Fan(m: nat): Txn {
    Txn(Leaf("root").body, seq(m, _ => Leaf("inner")))
  }

  lemma {:induction false} LeavesSize(ts: seq<Txn>, k: nat)
    requires k <= |ts| && forall t | t in ts :: t.inner == []
    ensures Size(ts, k) == k
  {
    if k > 0 {
      LeavesSize(ts, k - 1);
      assert ts[k - 1] in ts;
      assert Size(ts[k - 1].inner, 0) == 0;
    }
  }

  const EmptyBlock := Block([], 0, 0, 0, "")

  function FanBlock(m: nat): Block {
    Block([Fan(m)], 0, 0, 0, "")
  }

  function FanChain(m: nat, at: nat): seq<Block> {
    seq(at, _ => EmptyBlock) + [FanBlock(m)]
  }

  lemma FanRows(m: nat, at: nat)
    ensures var rows := BlockRows(FanBlock(m), at);
            && |rows| == m + 1
            && rows[0] == RootRow(Fan(m), at, 0) && InnerCount(Fan(m)) == m
            && forall k | 0 <= k <= m :: rows[k].round == at && rows[k].intra == k && Start(rows[k]) == 0
  {
    var b := FanBlock(m);
    LeavesSize(Fan(m).inner, m);
    assert InnerCount(Fan(m)) == m;
    PaysetLayout(b.payset, 1, at);
    BlockLayout(b, at);
    var rows := BlockRows(b, at);
    assert PaysetRows(b.payset, 1, at) == PaysetRows(b.payset, 0, at) + TreeRows(Fan(m), at, 0);
    assert rows[0] == RootRow(Fan(m), at, 0);
    assert Size(b.payset, 1) == m + 1;
  }

  lemma FanBlocks(m: nat, at: nat, k: nat)
    requires k <= at
    ensures BlockRows(FanChain(m, at)[k], k) == if k == at then BlockRows(FanBlock(m), at) else []
  {}

  lemma FanOwnId(m: nat, at: nat, g: Row, h: Row)
    requires g in BlockRows(FanBlock(m), at) && h in BlockRows(FanBlock(m), at)
    ensures OwnId(g, h)
  {
    FanRows(m, at);
    var rows := BlockRows(FanBlock(m), at);
    var i :| 0 <= i < |rows| && rows[i] == g;
    var j :| 0 <= j < |rows| && rows[j] == h;
  }

  lemma FanValid(m: nat, at: nat)
    requires m < INT_32 && 1 <= at < INT_64
    ensures ValidChain(FanChain(m, at))
  {
    var chain := FanChain(m, at);
    FanRows(m, at);
    forall k | 0 <= k < |chain| ensures |BlockRows(chain[k], k)| <= INT_32 {
      FanBlocks(m, at, k);
    }
    forall j, k, g, h
      | 0 <= j < |chain| && 0 <= k < |chain| && g in BlockRows(chain[j], j) && h in BlockRows(chain[k], k)
      ensures OwnId(g, h)
    {
      FanBlocks(m, at, j);
      FanBlocks(m, at, k);
      FanOwnId(m, at, g, h);
    }
  }

  lemma {:induction false} FanTable(m: nat, at: nat, n: nat)
    requires 1 <= at && n <= at + 1
    ensures TableRows(FanChain(m, at), {at}, n) == if n <= at then [] else BlockRows(FanBlock(m), at)
  {
    if n > 1 {
      FanTable(m, at, n - 1);
      FanBlocks(m, at, n - 1);
    }
  }

  /** The table of that chain, with block `at` at time `time`. */
  ghost function FanDb(m: nat, at: nat, time: nat): Db {
    Db(BlockRows(FanBlock(m), at), map[at := time], {},
       t => if time < t then Some(at) else None, t => if time > t then Some(at) else None)
  }

  lemma FanDbStored(m: nat, at: nat, time: nat)
    requires m < INT_32 && 1 <= at < INT_64
    ensures WellStored(FanDb(m, at, time).rows) && WholeGroups(FanDb(m, at, time).rows) && Answered(FanDb(m, at, time))
  {
    FanValid(m, at);
    FanTable(m, at, at + 1);
    TableWellStored(FanChain(m, at), {at}, at + 1);
    TableWholeGroups(FanChain(m, at), {at}, at + 1);
    FanAnswered(m, at, time);
  }

  lemma FanAnswered(m: nat, at: nat, time: nat)
    ensures Answered(FanDb(m, at, time))
  {}

  /** The only root has offset 0. */
  lemma FanRoots(m: nat, at: nat, time: nat, r: Row)
    requires m < INT_32 && 1 <= at < INT_64 && r in FanDb(m, at, time).rows && r.txid.Some?
    ensures r.intra == 0
  {
    FanRows(m, at);
    FanDbStored(m, at, time);
    var rows := FanDb(m, at, time).rows;
    assert HasStoredRoot(rows, r);
    var k :| 0 <= k < |rows| && rows[k] == r;
  }

  // ---------------------------------------------------------------- when the optimization is right

  predicate RoundAllowed(w: Window, r: nat) {
    && 1 <= r < INT_64 && w.minRound <= r && (w.maxRound == 0 || r <= w.maxRound)
    && (w.round.Some? ==> r == w.round.value)
  }

  function LeastRound(w: Window): nat {
    if w.round.Some? then w.round.value else if w.minRound == 0 then 1 else w.minRound
  }

  predicate TimeAllowed(tf: Filter, time: nat) {
    (tf.beforeTime.Some? ==> time < tf.beforeTime.value) && (tf.afterTime.Some? ==> time > tf.afterTime.value)
  }

  function LeastTime(tf: Filter): nat {
    if tf.afterTime.Some? then tf.afterTime.value + 1 else 0
  }

  /** No stored offset, no round and time of a block lie within the bounds of the filter. */
  predicate NothingFits(tf: Filter) {
    || LeastOffset(tf.window) >= INT_32
    || !RoundAllowed(tf.window, LeastRound(tf.window))
    || !TimeAllowed(tf, LeastTime(tf))
  }

  lemma NothingFitsMeaning(tf: Filter, r: nat, time: nat)
    requires RoundAllowed(tf.window, r) && TimeAllowed(tf, time)
    ensures RoundAllowed(tf.window, LeastRound(tf.window)) && TimeAllowed(tf, LeastTime(tf))
  {}

  lemma SomeMember<T>(s: seq<T>)
    requires s != []
    ensures exists x :: x in s
  {
    assert s[0] in s;
  }

  lemma NothingFound(db: Db, tf: Filter)
    requires WellStored(db.rows) && Answered(db) && NothingFits(tf)
    ensures Found(db, tf) == []
  {
    LeftRows(db, tf, None);
    forall r ensures r !in Found(db, tf) {
      if r in db.rows && IsLeft(db, tf, None, r) {
        assert InRange(r) && Satisfies(db, tf, r);
        TimeMeaning(db, tf, r);
        NothingFitsMeaning(tf, r.round, db.headers[r.round]);
      }
    }
    if Found(db, tf) != [] {
      SomeMember(Found(db, tf));
    }
  }

  /** A table on which the optimization loses the root. */
  lemma OptimizationUnsound(tf: Filter)
    requires TxnFilterOptimization(tf) != tf && !KeepsRoots(tf.window) && !NothingFits(tf)
    ensures var db := FanDb(LeastOffset(tf.window), LeastRound(tf.window), LeastTime(tf));
            WellStored(db.rows) && Answered(db) && !SameAnswer(db, tf, TxnFilterOptimization(tf))
  {
    var m, at, time, o := LeastOffset(tf.window), LeastRound(tf.window), LeastTime(tf), TxnFilterOptimization(tf);
    var db := FanDb(m, at, time);
    FanRows(m, at);
    FanDbStored(m, at, time);
    LeftRows(db, tf, None);
    LeftRows(db, o, None);
    var r := db.rows[m];
    assert r in db.rows && IsLeft(db, tf, None, r);
    forall x ensures x !in Found(db, o) {
      if x in db.rows && x.txid.Some? {
        FanRoots(m, at, time, x);
      }
    }
    if Found(db, o) != [] {
      SomeMember(Found(db, o));
    }
    assert IsHitIn(db.rows, Found(db, tf), HitOf(db.rows, r));
    assert AnswersRows(db.rows, true, Found(db, o), []);
    assert !AnswersRows(db.rows, true, Found(db, tf), []);
  }

  /** For every filter it applies to, the optimization is right on every table exactly when the offsets keep
      roots, or no position and time can meet the bounds. */
  lemma OptimizationExact(tf: Filter)
    requires TxnFilterOptimization(tf) != tf
    ensures (forall db: Db | WellStored(db.rows) && Answered(db) :: SameAnswer(db, tf, TxnFilterOptimization(tf))) <==>
              KeepsRoots(tf.window) || NothingFits(tf)
  {
    if KeepsRoots(tf.window) || NothingFits(tf) {
      forall db: Db | WellStored(db.rows) && Answered(db) ensures SameAnswer(db, tf, TxnFilterOptimization(tf)) {
        if KeepsRoots(tf.window) {
          OptimizationSound(db, tf);
        } else {
          NothingFound(db, tf);
          NothingFound(db, TxnFilterOptimization(tf));
        }
      }
    } else {
      OptimizationUnsound(tf);
    }
  }

  // ---------------------------------------------------------------- returning inner transactions

  /** Resuming at `next` continues with exactly the rows that follow `r`. */
  ghost predicate ResumesAfter(rows: seq<Row>, asc: bool, r: Row, next: Key) {
    forall s | s in rows :: Precedes(asc, KeyOf(r), KeyOf(s)) <==> Precedes(asc, next, KeyOf(s))
  }

  /** When inner transactions are returned themselves, the stored form of the last row decides the token. A
      page that ends with an inner row starts again at its root when ascending, and skips its root when
      descending; an ascending page that ends with a root skips the rows of its tree. The token is right
      exactly in the other cases. */
  lemma InnerRowToken(rows: seq<Row>, r: Row)
    requires WellStored(rows) && WholeGroups(rows) && r in rows
    ensures var tr := Returned(rows, false, r);
            && (ResumesAfter(rows, true, r, NextKey(tr, true)) <==> r.rootIntra.None? && InnerCount(r.txn) == 0)
            && (ResumesAfter(rows, false, r, NextKey(tr, false)) <==> r.rootIntra.None?)
  {
    var g := RootOf(rows, r);
    InOwnGroup(rows, r);
    assert InRange(r);
    if r.rootIntra.Some? {
      assert InnerCount(r.txn) == Size(r.txn.inner, 0);
      if r.intra == g.intra {
        UniqueKey(rows, g, r);
      }
      assert g in rows && Before(KeyOf(g), KeyOf(r));
    } else if InnerCount(r.txn) > 0 {
      assert HasOffset(rows, r.round, r.intra + 1);
      var s :| s in rows && KeyOf(s) == Key(r.round, r.intra + 1);
    }
  }

  /** A root with one inner transaction: after the root the ascending token skips the inner row; after the
      inner row the ascending token repeats it and the descending one skips the root. */
  lemma InnerRowTokenFails()
    ensures var rows := FanDb(1, 1, 0).rows;
            && |rows| == 2 && Before(KeyOf(rows[0]), KeyOf(rows[1]))
            && !Before(NextKey(Returned(rows, false, rows[0]), true), KeyOf(rows[1]))
            && Before(NextKey(Returned(rows, false, rows[1]), true), KeyOf(rows[1]))
            && !Before(KeyOf(rows[0]), NextKey(Returned(rows, false, rows[1]), false))
  {
    FanRows(1, 1);
    FanDbStored(1, 1, 0);
    var rows := FanDb(1, 1, 0).rows;
    assert rows[0] in rows && rows[1] in rows;
    assert InRange(rows[0]) && InRange(rows[1]);
    assert Start(rows[1]) == 0 && rows[1].rootIntra.Some?;
    assert InnerCount(rows[1].txn) == Size(rows[1].txn.inner, 0);
  }
}
