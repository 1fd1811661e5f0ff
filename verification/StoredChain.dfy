/** The table `txn` of an indexed chain is well stored, so every search pages correctly over it. */
module StoredChain {
  import opened Outcomes
  import opened Ledger
  import opened PageToken
  import opened Paging

  /** The rows of the blocks below `n` whose round is in `kept`; round 0 stores no rows. */
  ghost function TableRows(chain: seq<Block>, kept: set<nat>, n: nat): seq<Row>
    requires n <= |chain|
  {
    if n <= 1 then []
    else TableRows(chain, kept, n - 1) + if n - 1 in kept then BlockRows(chain[n - 1], n - 1) else []
  }

  /** Blocks fit their columns and no two root transactions of the chain have the same id. */
  ghost predicate ValidChain(chain: seq<Block>) {
    && |chain| <= INT_64
    && (forall k {:trigger chain[k]} | 0 <= k < |chain| :: |BlockRows(chain[k], k)| <= INT_32)
    && (forall j, k, g, h {:trigger g in BlockRows(chain[j], j), h in BlockRows(chain[k], k)}
          | 0 <= j < |chain| && 0 <= k < |chain| && g in BlockRows(chain[j], j) && h in BlockRows(chain[k], k) ::
            OwnId(g, h))
  }

  lemma {:induction false} TableRowOrigin(chain: seq<Block>, kept: set<nat>, n: nat, r: Row)
    requires n <= |chain| && r in TableRows(chain, kept, n)
    ensures 1 <= r.round < n && r.round in kept && r in BlockRows(chain[r.round], r.round)
  {
    if r in TableRows(chain, kept, n - 1) {
      TableRowOrigin(chain, kept, n - 1, r);
    } else {
      BlockLayout(chain[n - 1], n - 1);
    }
  }

  lemma BlockRowFacts(b: Block, round: nat, g: Row, r: Row)
    requires 1 <= round < INT_64 && |BlockRows(b, round)| <= INT_32
    requires g in BlockRows(b, round) && r in BlockRows(b, round)
    ensures InRange(r) && HasStoredRoot(BlockRows(b, round), r) && OneRun(g, r)
  {
    var rows := BlockRows(b, round);
    BlockLayout(b, round);
    var k :| 0 <= k < |rows| && rows[k] == r;
    var j :| 0 <= j < |rows| && rows[j] == g;
    assert HasRoot(rows, 0, k) && HasRoot(rows, 0, j);
    var root := rows[Start(r)];
    assert root in rows && IsRootOf(root, r);
  }

  lemma AppendSorted(a: seq<Row>, b: seq<Row>, round: nat)
    requires Sorted(true, a) && (forall r | r in a :: r.round < round)
    requires forall k | 0 <= k < |b| :: b[k].round == round && b[k].intra == k
    ensures Sorted(true, a + b)
  {
    var c := a + b;
    forall i, j | 0 <= i < j < |c| ensures Before(KeyOf(c[i]), KeyOf(c[j])) {
      if i < |a| {
        assert c[i] in a;
      }
    }
  }

  lemma {:induction false} TableSorted(chain: seq<Block>, kept: set<nat>, n: nat)
    requires n <= |chain|
    ensures Sorted(true, TableRows(chain, kept, n))
  {
    if n > 1 {
      TableSorted(chain, kept, n - 1);
      forall r | r in TableRows(chain, kept, n - 1) ensures r.round < n - 1 {
        TableRowOrigin(chain, kept, n - 1, r);
      }
      BlockLayout(chain[n - 1], n - 1);
      AppendSorted(TableRows(chain, kept, n - 1), if n - 1 in kept then BlockRows(chain[n - 1], n - 1) else [], n - 1);
    }
  }

  lemma InTable(chain: seq<Block>, kept: set<nat>, n: nat, r: Row)
    requires 1 < n <= |chain|
    requires r in TableRows(chain, kept, n - 1) || (n - 1 in kept && r in BlockRows(chain[n - 1], n - 1))
    ensures r in TableRows(chain, kept, n)
  {}

  lemma {:induction false} WholeBlocks(chain: seq<Block>, kept: set<nat>, n: nat, k: nat, r: Row)
    requires n <= |chain| && 1 <= k < n && k in kept && r in BlockRows(chain[k], k)
    ensures r in TableRows(chain, kept, n)
  {
    if k < n - 1 {
      WholeBlocks(chain, kept, n - 1, k, r);
    }
    InTable(chain, kept, n, r);
  }

  /** Whatever blocks of a valid chain are kept, the table that holds exactly their rows is well stored. */
  lemma TableWellStored(chain: seq<Block>, kept: set<nat>, n: nat)
    requires ValidChain(chain) && n <= |chain|
    ensures WellStored(TableRows(chain, kept, n))
  {
    var rows := TableRows(chain, kept, n);
    TableSorted(chain, kept, n);
    forall r | r in rows ensures InRange(r) && HasStoredRoot(rows, r) {
      TableRowOrigin(chain, kept, n, r);
      BlockRowFacts(chain[r.round], r.round, r, r);
      var g :| g in BlockRows(chain[r.round], r.round) && IsRootOf(g, r);
      WholeBlocks(chain, kept, n, r.round, g);
    }
    forall g, r | g in rows && r in rows ensures OneRun(g, r) && OwnId(g, r) {
      TableRowOrigin(chain, kept, n, g);
      TableRowOrigin(chain, kept, n, r);
      if g.round == r.round {
        BlockRowFacts(chain[r.round], r.round, g, r);
      }
    }
  }

  ghost predicate HasOffset(rows: seq<Row>, round: nat, i: nat) {
    exists s :: s in rows && KeyOf(s) == Key(round, i)
  }

  /** Every root is followed by a row for each transaction of its tree. */
  ghost predicate WholeGroups(rows: seq<Row>) {
    forall g, i: nat {:trigger g in rows, HasOffset(rows, g.round, i)}
      | g in rows && g.rootIntra.None? && g.intra <= i <= g.intra + InnerCount(g.txn) :: HasOffset(rows, g.round, i)
  }

  lemma BlockWholeGroup(b: Block, round: nat, g: Row, i: nat) returns (s: Row)
    requires g in BlockRows(b, round) && g.rootIntra.None? && g.intra <= i <= g.intra + InnerCount(g.txn)
    ensures s in BlockRows(b, round) && KeyOf(s) == Key(round, i)
  {
    var rows := BlockRows(b, round);
    BlockLayout(b, round);
    var k :| 0 <= k < |rows| && rows[k] == g;
    assert HasRoot(rows, 0, k);
    s := rows[i];
  }

  /** The table of any set of whole blocks holds whole groups. */
  lemma TableWholeGroups(chain: seq<Block>, kept: set<nat>, n: nat)
    requires n <= |chain|
    ensures WholeGroups(TableRows(chain, kept, n))
  {
    var rows := TableRows(chain, kept, n);
    forall g, i: nat | g in rows && g.rootIntra.None? && g.intra <= i <= g.intra + InnerCount(g.txn)
      ensures HasOffset(rows, g.round, i)
    {
      TableRowOrigin(chain, kept, n, g);
      var s := BlockWholeGroup(chain[g.round], g.round, g, i);
      WholeBlocks(chain, kept, n, g.round, s);
    }
  }
}
