/** Adding blocks as a protocol of two database transactions. A side transaction writes the rows of
    `txn` and `txn_participation`; the main one writes everything else, here the counter of the next
    round and the block header. They commit separately, the process may die at any point, and a
    unique violation of the side transaction counts as "already done". */
module BlockImport {
  import opened Outcomes
  import opened Ledger
  import opened PageToken
  import opened TxnQuery
  import opened Paging
  import opened StoredChain

  /** How far the side transaction of the current call is. */
  datatype Side = Running | Committed | Violated | Failed

  /** A call of AddBlock whose main transaction has checked the round and not ended yet. */
  datatype Call = Call(round: nat, side: Side)

  /** The committed tables, the call in progress, side transactions that outlived their process
      (the server may still commit them), and the largest round ever given to the pruner. */
  datatype State = State(
    next: nat, headers: set<nat>, rows: set<Row>, parts: set<PartRow>, call: Option<Call>, orphans: set<nat>,
    pruned: nat)

  datatype Event =
    | Begin(round: nat)          // AddBlock opens its main transaction and starts the side one
    | SideCommit | SideViolation | SideFailure
    | MainCommit | MainAbort     // an abort is followed by a retry or by an error to the caller
    | Crash
    | OrphanCommit(round: nat) | OrphanAbort(round: nat)
    | Prune(keep: nat)

  const Init := State(0, {}, {}, {}, None, {}, 0)

  ghost function RowsOf(chain: seq<Block>, r: nat): set<Row> {
    if r < |chain| then Members(BlockRows(chain[r], r)) else {}
  }

  ghost function PartsOf(chain: seq<Block>, r: nat): set<PartRow> {
    if r < |chain| then Participation(BlockRows(chain[r], r)) else {}
  }

  /** Inserting the rows of block `r` breaks a unique index: some row is there already, or the block's
      own participation repeats a row. */
  ghost predicate Violates(chain: seq<Block>, s: State, r: nat) {
    || (r < |chain| && PaysItself(chain[r]))
    || (exists x, y :: x in s.rows && y in RowsOf(chain, r) && KeyOf(x) == KeyOf(y))
    || (exists p :: p in s.parts && p in PartsOf(chain, r))
  }

  ghost function Insert(chain: seq<Block>, s: State, r: nat): State {
    s.(rows := s.rows + RowsOf(chain, r), parts := s.parts + PartsOf(chain, r))
  }

  ghost function Account(s: State, r: nat): State {
    s.(next := r + 1, headers := s.headers + {r}, call := None)
  }

  ghost function WithSide(s: State, side: Side): State
    requires s.call.Some?
  {
    s.(call := Some(s.call.value.(side := side)))
  }

  /** One step; an event that is not possible in a state leaves it as it is. */
  ghost function Apply(chain: seq<Block>, s: State, e: Event): State {
    var running := s.call.Some? && s.call.value.side == Running;
    match e
    case Begin(r) =>
      if s.call.Some? || r != s.next || r >= |chain| then s
      else if r == 0 then Account(s, 0)
      else s.(call := Some(Call(r, Running)))
    case SideCommit =>
      if running && !Violates(chain, s, s.call.value.round)
      then WithSide(Insert(chain, s, s.call.value.round), Committed)
      else s
    case SideViolation =>
      if running && Violates(chain, s, s.call.value.round) then WithSide(s, Violated) else s
    case SideFailure =>
      if running then WithSide(s, Failed) else s
    case MainCommit =>
      if s.call.Some? && (s.call.value.side == Committed || s.call.value.side == Violated)
      then Account(s, s.call.value.round) else s
    case MainAbort =>
      if s.call.Some? && !running then s.(call := None) else s
    case Crash =>
      s.(call := None, orphans := if running then s.orphans + {s.call.value.round} else s.orphans)
    case OrphanCommit(r) =>
      if r in s.orphans && !Violates(chain, s, r) then Insert(chain, s, r).(orphans := s.orphans - {r}) else s
    case OrphanAbort(r) => s.(orphans := s.orphans - {r})
    case Prune(keep) =>
      s.(rows := (set x | x in s.rows && x.round >= keep),
         parts := (set p | p in s.parts && p.round >= keep),
         pruned := if keep > s.pruned then keep else s.pruned)
  }

  ghost function RunFrom(chain: seq<Block>, s: State, events: seq<Event>): State {
    if events == [] then s else Apply(chain, RunFrom(chain, s, events[..|events| - 1]), events[|events| - 1])
  }

  ghost function StateAfter(chain: seq<Block>, events: seq<Event>): State {
    RunFrom(chain, Init, events)
  }

  // ---------------------------------------------------------------- the invariant

  ghost predicate AllStored(chain: seq<Block>, s: State, r: nat) {
    RowsOf(chain, r) <= s.rows && PartsOf(chain, r) <= s.parts
  }

  ghost predicate NoneStored(s: State, r: nat) {
    (forall x | x in s.rows :: x.round != r) && (forall p | p in s.parts :: p.round != r)
  }

  predicate Clean(chain: seq<Block>, r: nat) {
    r < |chain| ==> !PaysItself(chain[r])
  }

  /** Whatever is stored belongs to a block up to the next round. */
  ghost predicate OnlyKnown(chain: seq<Block>, s: State) {
    && (forall x | x in s.rows :: 1 <= x.round <= s.next && x in RowsOf(chain, x.round))
    && (forall p | p in s.parts :: 1 <= p.round <= s.next && p in PartsOf(chain, p.round))
  }

  /** A block is stored as a whole or not at all; never if it cannot be inserted. */
  ghost predicate WholeBlocksOnly(chain: seq<Block>, s: State) {
    forall r: nat {:trigger NoneStored(s, r)} {:trigger AllStored(chain, s, r)} ::
      NoneStored(s, r) || (Clean(chain, r) && AllStored(chain, s, r))
  }

  ghost predicate AccountedStored(chain: seq<Block>, s: State) {
    forall r {:trigger AllStored(chain, s, r)} | s.pruned <= r && 1 <= r && Clean(chain, r) ::
      (r < s.next ==> AllStored(chain, s, r)) &&
      (s.call.Some? && s.call.value.round == r && s.call.value.side in {Committed, Violated} ==> AllStored(chain, s, r))
  }

  ghost predicate Inv(chain: seq<Block>, s: State) {
    && s.next <= |chain|
    && (forall r: nat :: r in s.headers <==> r < s.next)
    && (s.call.Some? ==> s.call.value.round == s.next && 1 <= s.next < |chain|)
    && (forall r | r in s.orphans :: 1 <= r <= s.next && r < |chain|)
    && OnlyKnown(chain, s) && WholeBlocksOnly(chain, s) && AccountedStored(chain, s)
  }

  lemma BlockContents(chain: seq<Block>, r: nat)
    requires r < |chain|
    ensures forall x | x in RowsOf(chain, r) :: x.round == r
    ensures forall p | p in PartsOf(chain, r) :: p.round == r
  {
    BlockLayout(chain[r], r);
  }

  /** Under the invariant a clean block violates an index exactly when it is there already. */
  lemma ViolationMeansStored(chain: seq<Block>, s: State, r: nat)
    requires Inv(chain, s) && r < |chain| && Clean(chain, r) && Violates(chain, s, r)
    ensures AllStored(chain, s, r)
  {
    BlockContents(chain, r);
    assert !NoneStored(s, r);
  }

  /** A successful insertion stores the block and leaves every other block as it was. */
  lemma InsertStored(chain: seq<Block>, s: State, r: nat, q: nat)
    requires r < |chain| && r != q
    ensures NoneStored(Insert(chain, s, r), q) <==> NoneStored(s, q)
    ensures q < |chain| ==> (AllStored(chain, Insert(chain, s, r), q) <==> AllStored(chain, s, q))
  {
    var t := Insert(chain, s, r);
    BlockContents(chain, r);
    if q < |chain| {
      BlockContents(chain, q);
    }
    if NoneStored(t, q) {
      assert s.rows <= t.rows && s.parts <= t.parts;
    }
  }

  lemma InsertWhole(chain: seq<Block>, s: State, r: nat)
    requires WholeBlocksOnly(chain, s) && r < |chain| && Clean(chain, r)
    ensures WholeBlocksOnly(chain, Insert(chain, s, r))
  {
    var t := Insert(chain, s, r);
    forall q ensures NoneStored(t, q) || (Clean(chain, q) && AllStored(chain, t, q)) {
      if q != r {
        InsertStored(chain, s, r, q);
        assert NoneStored(s, q) || (Clean(chain, q) && AllStored(chain, s, q));
      }
    }
  }

  lemma InsertAccounted(chain: seq<Block>, s: State, r: nat)
    requires AccountedStored(chain, s)
    ensures AccountedStored(chain, Insert(chain, s, r))
  {
    var t := Insert(chain, s, r);
    forall q | t.pruned <= q && 1 <= q && Clean(chain, q)
      ensures (q < t.next ==> AllStored(chain, t, q)) &&
              (t.call.Some? && t.call.value.round == q && t.call.value.side in {Committed, Violated} ==>
               AllStored(chain, t, q))
    {
      assert AllStored(chain, s, q) ==> AllStored(chain, t, q);
    }
  }

  lemma InsertInv(chain: seq<Block>, s: State, r: nat)
    requires Inv(chain, s) && 1 <= r <= s.next && r < |chain| && !Violates(chain, s, r)
    ensures Inv(chain, Insert(chain, s, r)) && AllStored(chain, Insert(chain, s, r), r)
  {
    BlockContents(chain, r);
    InsertWhole(chain, s, r);
    InsertAccounted(chain, s, r);
  }

  lemma PruneInv(chain: seq<Block>, s: State, keep: nat)
    requires Inv(chain, s)
    ensures Inv(chain, Apply(chain, s, Prune(keep)))
  {
    var t := Apply(chain, s, Prune(keep));
    forall q: nat
      ensures NoneStored(t, q) || (Clean(chain, q) && AllStored(chain, t, q))
      ensures q >= keep && AllStored(chain, s, q) ==> AllStored(chain, t, q)
    {
      if q < |chain| {
        BlockContents(chain, q);
      }
      if q >= keep {
        assert AllStored(chain, s, q) ==> AllStored(chain, t, q);
        assert NoneStored(s, q) ==> NoneStored(t, q);
        assert NoneStored(s, q) || (Clean(chain, q) && AllStored(chain, s, q));
      }
    }
    assert AccountedStored(chain, t);
  }

  /** Changing what is not stored keeps the tables as they are. */
  lemma SameTables(chain: seq<Block>, s: State, t: State)
    requires t.rows == s.rows && t.parts == s.parts && OnlyKnown(chain, s) && WholeBlocksOnly(chain, s)
               && s.next <= t.next
    ensures OnlyKnown(chain, t) && WholeBlocksOnly(chain, t)
    ensures forall r: nat :: AllStored(chain, t, r) <==> AllStored(chain, s, r)
  {
    forall r: nat ensures NoneStored(t, r) || (Clean(chain, r) && AllStored(chain, t, r)) {
      assert NoneStored(s, r) || (Clean(chain, r) && AllStored(chain, s, r));
    }
  }

  lemma AccountInv(chain: seq<Block>, s: State, r: nat)
    requires Inv(chain, s) && r == s.next < |chain|
    requires r >= 1 && s.pruned <= r && Clean(chain, r) ==> AllStored(chain, s, r)
    ensures Inv(chain, Account(s, r))
  {
    SameTables(chain, s, Account(s, r));
  }

  lemma SideInv(chain: seq<Block>, s: State, side: Side)
    requires Inv(chain, s) && s.call.Some?
    requires side in {Committed, Violated} && s.pruned <= s.next && Clean(chain, s.next) ==> AllStored(chain, s, s.next)
    ensures Inv(chain, WithSide(s, side))
  {
    SameTables(chain, s, WithSide(s, side));
  }

  lemma BeginInv(chain: seq<Block>, s: State, r: nat)
    requires Inv(chain, s)
    ensures Inv(chain, Apply(chain, s, Begin(r)))
  {
    var t := Apply(chain, s, Begin(r));
    if t != s && r == 0 {
      AccountInv(chain, s, 0);
    } else {
      SameTables(chain, s, t);
    }
  }

  lemma OrphanInv(chain: seq<Block>, s: State, r: nat)
    requires Inv(chain, s)
    ensures Inv(chain, Apply(chain, s, OrphanCommit(r)))
  {
    var t := Apply(chain, s, OrphanCommit(r));
    if t != s {
      InsertInv(chain, s, r);
      SameTables(chain, Insert(chain, s, r), t);
    }
  }

  lemma EndInv(chain: seq<Block>, s: State, e: Event)
    requires Inv(chain, s) && (e == MainAbort || e == Crash || e.OrphanAbort?)
    ensures Inv(chain, Apply(chain, s, e))
  {
    SameTables(chain, s, Apply(chain, s, e));
  }

  /** Every step keeps the invariant. */
  lemma StepInv(chain: seq<Block>, s: State, e: Event)
    requires Inv(chain, s)
    ensures Inv(chain, Apply(chain, s, e))
  {
    var t := Apply(chain, s, e);
    match e
    case Begin(r) => BeginInv(chain, s, r);
    case SideCommit =>
      if t != s {
        InsertInv(chain, s, s.next);
        SideInv(chain, Insert(chain, s, s.next), Committed);
      }
    case SideViolation =>
      if t != s {
        if Clean(chain, s.next) {
          ViolationMeansStored(chain, s, s.next);
        }
        SideInv(chain, s, Violated);
      }
    case SideFailure =>
      if t != s {
        SideInv(chain, s, Failed);
      }
    case MainCommit =>
      if t != s {
        AccountInv(chain, s, s.next);
      }
    case MainAbort => EndInv(chain, s, e);
    case Crash => EndInv(chain, s, e);
    case OrphanCommit(r) => OrphanInv(chain, s, r);
    case OrphanAbort(_) => EndInv(chain, s, e);
    case Prune(keep) => PruneInv(chain, s, keep);
  }

  lemma {:induction false} RunInv(chain: seq<Block>, events: seq<Event>)
    ensures Inv(chain, StateAfter(chain, events))
  {
    if events != [] {
      RunInv(chain, events[..|events| - 1]);
      StepInv(chain, StateAfter(chain, events[..|events| - 1]), events[|events| - 1]);
    }
  }

  // ---------------------------------------------------------------- one call

  /** How the side transaction of a call ends. */
  datatype SideEnd = Commits | Conflicts | Fails

  /** The steps a call takes, by how its two transactions end. */
  function CallEvents(next: nat, round: nat, side: SideEnd, main: bool): seq<Event> {
    if round != next || (round == 0 && !main) then []
    else if round == 0 then [Begin(0)]
    else [Begin(round),
          match side case Commits => SideCommit case Conflicts => SideViolation case Fails => SideFailure,
          if main && side != Fails then MainCommit else MainAbort]
  }

  class Importer {
    var nextRoundToAccount: nat
    ghost var tables: State

    ghost predicate Valid()
      reads this
    {
      tables.next == nextRoundToAccount && tables.call.None?
    }

    /** One call for one block. `side` is how the side transaction ends, which conflicts exactly if the rows
        break a unique index; `main` tells whether the writes and the commit of the main one succeed. */
    method AddBlock(chain: seq<Block>, round: nat, side: SideEnd, main: bool) returns (error: Option<string>)
      requires Valid() && round < |chain|
      requires side != Fails ==> (side == Conflicts <==> Violates(chain, tables, round))
      modifies this
      ensures Valid() && tables == RunFrom(chain, old(tables), CallEvents(old(nextRoundToAccount), round, side, main))
      ensures error.None? <==> round == old(nextRoundToAccount) && main && (round == 0 || side != Fails)
      ensures nextRoundToAccount == if error.None? then round + 1 else old(nextRoundToAccount)
    {
      var next := nextRoundToAccount;
      if round != next {
        return Some("next round to account differs");
      }
      next := next + 1;
      if round == 0 {
        if !main {
          return Some("main transaction failed");
        }
        tables := Apply(chain, tables, Begin(0));
        nextRoundToAccount := next;
        return None;
      }
      ghost var before := tables;
      tables := Apply(chain, tables, Begin(round));
      assert Violates(chain, tables, round) <==> Violates(chain, before, round);
      var conflict, err0 := false, side == Fails;
      match side {
        case Commits => tables := Apply(chain, tables, SideCommit);
        case Conflicts => tables := Apply(chain, tables, SideViolation); conflict, err0 := true, true;
        case Fails => tables := Apply(chain, tables, SideFailure);
      }
      if !main || (err0 && !conflict) {
        tables := Apply(chain, tables, MainAbort);
        error := Some("main transaction failed");
      } else {
        tables := Apply(chain, tables, MainCommit);
        nextRoundToAccount := next;
        error := None;
      }
      ThreeSteps(chain, before, CallEvents(round, round, side, main));
    }
  }

  lemma ThreeSteps(chain: seq<Block>, s: State, events: seq<Event>)
    requires |events| == 3
    ensures RunFrom(chain, s, events) == Apply(chain, Apply(chain, Apply(chain, s, events[0]), events[1]), events[2])
  {
    assert events[..2][..1][..0] == [];
    assert RunFrom(chain, s, events[..2][..1]) == Apply(chain, RunFrom(chain, s, []), events[0]);
    assert RunFrom(chain, s, events[..2]) == Apply(chain, Apply(chain, s, events[0]), events[1]);
  }

  // ---------------------------------------------------------------- what every run guarantees

  /** In every state of every run: an accounted block that was not pruned has all its rows exactly
      when its participation can be inserted at all, and otherwise it has none; the next block has none
      or all of them; later blocks have none. */
  lemma ImportIsComplete(chain: seq<Block>, events: seq<Event>, r: nat)
    requires 1 <= r
    ensures var s := StateAfter(chain, events);
            && (r < s.next && s.pruned <= r ==> (AllStored(chain, s, r) <==> Clean(chain, r)))
            && (!Clean(chain, r) ==> NoneStored(s, r))
            && (r == s.next ==> NoneStored(s, r) || AllStored(chain, s, r))
            && (r > s.next ==> NoneStored(s, r))
  {
    var s := StateAfter(chain, events);
    RunInv(chain, events);
    assert NoneStored(s, r) || (Clean(chain, r) && AllStored(chain, s, r));
    if r < s.next && !Clean(chain, r) {
      SelfPayoutStoresARow(chain, r);
    }
  }

  /** A block whose fee sink pays itself has rows to store. */
  lemma SelfPayoutStoresARow(chain: seq<Block>, r: nat)
    requires r < |chain| && PaysItself(chain[r])
    ensures exists x :: x in RowsOf(chain, r) && x.round == r
  {
    var b, rows := chain[r], BlockRows(chain[r], r);
    BlockLayout(b, r);
    assert rows[|rows| - 1] == RootRow(PayoutTxn(b, r), r, Size(b.payset, |b.payset|));
    assert rows[|rows| - 1] in rows;
  }

  /** Whatever happened before, an undisturbed call adds the next block: it is accounted, its header is
      written, and its rows are there from this call or from an earlier one. */
  lemma CallAddsBlock(chain: seq<Block>, s: State)
    requires s.call.None? && s.next < |chain|
    ensures var r := s.next;
            var t := Apply(chain, Apply(chain, Apply(chain, Apply(chain, s, Begin(r)), SideCommit), SideViolation),
                           MainCommit);
            && t.call.None? && t.next == r + 1 && t.headers == s.headers + {r}
            && t.rows == (if r == 0 || Violates(chain, s, r) then s.rows else s.rows + RowsOf(chain, r))
            && t.parts == (if r == 0 || Violates(chain, s, r) then s.parts else s.parts + PartsOf(chain, r))
  {
    var r := s.next;
    if r > 0 {
      var a := Apply(chain, s, Begin(r));
      assert Violates(chain, a, r) <==> Violates(chain, s, r);
      var b := Apply(chain, a, SideCommit);
      var c := Apply(chain, b, SideViolation);
      if Violates(chain, s, r) {
        assert b == a && c == WithSide(a, Violated);
      } else {
        assert b == WithSide(Insert(chain, a, r), Committed) && c == b;
      }
    }
  }

  function MaxRoundAccounted(s: State): nat {
    if s.next > 0 then s.next - 1 else 0
  }

  /** The tables a reader's snapshot sees. */
  ghost predicate Snapshot(s: State, db: Db) {
    Members(db.rows) == s.rows && db.parts == s.parts && db.headers.Keys == s.headers
  }

  /** No search returns a row beyond the round reported with it, and it sees every matching row of an
      accounted block that was not pruned. */
  lemma SnapshotIsConsistent(chain: seq<Block>, events: seq<Event>, db: Db, tf: Filter, x: Row)
    requires Snapshot(StateAfter(chain, events), db)
    ensures var s := StateAfter(chain, events);
            && (x in Found(db, tf) ==> 1 <= x.round <= MaxRoundAccounted(s) && x in RowsOf(chain, x.round))
            && (1 <= x.round <= MaxRoundAccounted(s) && s.pruned <= x.round && Clean(chain, x.round) ==>
                  (x in RowsOf(chain, x.round) ==> (x in Found(db, tf) <==> Satisfies(db, tf, x))))
  {
    var s := StateAfter(chain, events);
    RunInv(chain, events);
    KeepMember(Scan(db.rows, tf.address.None?), (r: Row) => Satisfies(db, tf, r), x);
    ScanMember(tf.address.None?, db.rows, x);
    assert x in db.rows <==> x in s.rows;
    ImportIsComplete(chain, events, if x.round >= 1 then x.round else 1);
  }

  /** The reported round is the last one accounted, as soon as there is one. */
  lemma ReportedRound(chain: seq<Block>, events: seq<Event>)
    ensures var s := StateAfter(chain, events);
            && (s.headers == {} ==> MaxRoundAccounted(s) == 0)
            && (s.headers != {} ==>
                  MaxRoundAccounted(s) in s.headers && forall r | r in s.headers :: r <= MaxRoundAccounted(s))
  {
    var s := StateAfter(chain, events);
    RunInv(chain, events);
    assert s.next > 0 <==> 0 in s.headers;
  }

  /** Some pruning of the run was told to keep only rounds beyond `r`. */
  ghost predicate PrunedBeyond(events: seq<Event>, r: nat) {
    exists i | 0 <= i < |events| :: events[i].Prune? && r < events[i].keep
  }

  /** What may be missing is exactly what the run has pruned. */
  lemma {:induction false} PrunedByRun(chain: seq<Block>, events: seq<Event>, r: nat)
    ensures r < StateAfter(chain, events).pruned <==> PrunedBeyond(events, r)
  {
    if events != [] {
      var n := |events| - 1;
      PrunedByRun(chain, events[..n], r);
      assert PrunedBeyond(events, r) <==> PrunedBeyond(events[..n], r) || (events[n].Prune? && r < events[n].keep) by {
        if PrunedBeyond(events[..n], r) {
          var i :| 0 <= i < n && events[..n][i].Prune? && r < events[..n][i].keep;
          assert events[i].Prune?;
        }
        if PrunedBeyond(events, r) {
          var i :| 0 <= i < |events| && events[i].Prune? && r < events[i].keep;
          assert i < n ==> events[..n][i] == events[i];
        }
      }
    }
  }

  /** After a pruning nothing of the rounds below is stored or found, and everything else is as it was. */
  lemma PruneDeletes(chain: seq<Block>, events: seq<Event>, keep: nat, db: Db, tf: Filter)
    requires Snapshot(StateAfter(chain, events + [Prune(keep)]), db)
    ensures var s, t := StateAfter(chain, events), StateAfter(chain, events + [Prune(keep)]);
            && (forall r: nat | r < keep :: NoneStored(t, r))
            && (forall x: Row | x.round >= keep :: x in t.rows <==> x in s.rows)
            && (forall p: PartRow | p.round >= keep :: p in t.parts <==> p in s.parts)
            && (t.next, t.headers, t.call, t.orphans) == (s.next, s.headers, s.call, s.orphans)
            && (forall x | x in Found(db, tf) :: x.round >= keep)
  {
    assert (events + [Prune(keep)])[..|events|] == events;
    forall x | x in Found(db, tf) ensures x.round >= keep {
      KeepMember(Scan(db.rows, tf.address.None?), (r: Row) => Satisfies(db, tf, r), x);
      ScanMember(tf.address.None?, db.rows, x);
      assert x in Members(db.rows);
    }
  }

  const LATE := [Begin(0), Begin(1), Crash, OrphanCommit(1)]

  lemma LateState(chain: seq<Block>)
    requires |chain| >= 2 && Clean(chain, 1)
    ensures StateAfter(chain, LATE) == State(1, {0}, RowsOf(chain, 1), PartsOf(chain, 1), None, {}, 0)
  {
    RunSnoc(chain, [], Begin(0));
    assert [] + [Begin(0)] == [Begin(0)];
    RunSnoc(chain, [Begin(0)], Begin(1));
    assert [Begin(0)] + [Begin(1)] == [Begin(0), Begin(1)];
    RunSnoc(chain, [Begin(0), Begin(1)], Crash);
    assert [Begin(0), Begin(1)] + [Crash] == [Begin(0), Begin(1), Crash];
    RunSnoc(chain, [Begin(0), Begin(1), Crash], OrphanCommit(1));
    assert [Begin(0), Begin(1), Crash] + [OrphanCommit(1)] == LATE;
    assert !Violates(chain, State(1, {0}, {}, {}, None, {1}, 0), 1);
  }

  /** The side transaction of a process that died may commit on its own: the block is stored before it is
      accounted, and the next attempt takes the violation for success and accounts it. */
  lemma LateCommitAhead(chain: seq<Block>)
    requires |chain| >= 2 && Clean(chain, 1) && BlockRows(chain[1], 1) != []
    ensures var s, t := StateAfter(chain, LATE), StateAfter(chain, LATE + [Begin(1), SideViolation, MainCommit]);
            && s.next == 1 && AllStored(chain, s, 1) && !NoneStored(s, 1)
            && t.next == 2 && t.rows == s.rows && t.parts == s.parts
  {
    LateState(chain);
    var row := BlockRows(chain[1], 1)[0];
    BlockContents(chain, 1);
    assert row in RowsOf(chain, 1);
    RunSnoc(chain, LATE, Begin(1));
    RunSnoc(chain, LATE + [Begin(1)], SideViolation);
    assert LATE + [Begin(1)] + [SideViolation] == LATE + [Begin(1), SideViolation];
    RunSnoc(chain, LATE + [Begin(1), SideViolation], MainCommit);
    assert LATE + [Begin(1), SideViolation] + [MainCommit] == LATE + [Begin(1), SideViolation, MainCommit];
    assert Violates(chain, StateAfter(chain, LATE + [Begin(1)]), 1);
  }

  lemma RunSnoc(chain: seq<Block>, events: seq<Event>, e: Event)
    ensures StateAfter(chain, events + [e]) == Apply(chain, StateAfter(chain, events), e)
  {
    assert (events + [e])[..|events|] == events;
  }

  /** The blocks that are stored. */
  ghost function KeptRounds(chain: seq<Block>, s: State): set<nat> {
    set r | 0 <= r < |chain| && !NoneStored(s, r)
  }

  /** In every state of every run the stored rows, in key order, are a well-stored table: searches page
      correctly at any moment of an import. */
  lemma ImportedTableWellStored(chain: seq<Block>, events: seq<Event>)
    requires ValidChain(chain)
    ensures var s := StateAfter(chain, events);
            var rows := TableRows(chain, KeptRounds(chain, s), |chain|);
            WellStored(rows) && Members(rows) == s.rows
  {
    var s := StateAfter(chain, events);
    var kept := KeptRounds(chain, s);
    var rows := TableRows(chain, kept, |chain|);
    RunInv(chain, events);
    TableWellStored(chain, kept, |chain|);
    forall x ensures x in rows <==> x in s.rows {
      if x in rows {
        TableRowOrigin(chain, kept, |chain|, x);
        assert NoneStored(s, x.round) || (Clean(chain, x.round) && AllStored(chain, s, x.round));
      }
      if x in s.rows {
        assert !NoneStored(s, x.round);
        WholeBlocks(chain, kept, |chain|, x.round, x);
      }
    }
  }
}
