/** Paging through the transactions that satisfy a filter. */
module Paging {
  import opened Outcomes
  import opened Base64
  import opened Ledger
  import opened PageToken
  import opened TxnQuery

  // ---------------------------------------------------------------- order of rows

  function KeyOf(r: Row): Key {
    Key(r.round, r.intra)
  }

  /** The position of the root a row belongs to. */
  function RootKey(r: Row): Key {
    Key(r.round, Start(r))
  }

  predicate Before(a: Key, b: Key) {
    a.round < b.round || (a.round == b.round && a.intra < b.intra)
  }

  /** The order of a result: into the future without an address, into the past with one. */
  predicate Precedes(asc: bool, a: Key, b: Key) {
    if asc then Before(a, b) else Before(b, a)
  }

  ghost predicate Sorted(asc: bool, s: seq<Row>) {
    forall i, j | 0 <= i < j < |s| :: Precedes(asc, KeyOf(s[i]), KeyOf(s[j]))
  }

  function Reverse<T>(s: seq<T>): (r: seq<T>)
    ensures |r| == |s|
    ensures forall k | 0 <= k < |s| :: r[k] == s[|s| - 1 - k]
  {
    if s == [] then [] else Reverse(s[1..]) + [s[0]]
  }

  /** The table in the order of the result. */
  function Scan(rows: seq<Row>, asc: bool): seq<Row> {
    if asc then rows else Reverse(rows)
  }

  function Keep(s: seq<Row>, p: Row -> bool): seq<Row> {
    if s == [] then []
    else if p(s[0]) then [s[0]] + Keep(s[1..], p)
    else Keep(s[1..], p)
  }

  lemma {:induction false} KeepMember(s: seq<Row>, p: Row -> bool, r: Row)
    ensures r in Keep(s, p) <==> r in s && p(r)
  {
    if s != [] {
      KeepMember(s[1..], p, r);
      assert s == [s[0]] + s[1..];
    }
  }

  lemma {:induction false} KeepSorted(asc: bool, s: seq<Row>, p: Row -> bool)
    requires Sorted(asc, s)
    ensures Sorted(asc, Keep(s, p))
  {
    if s != [] {
      KeepSorted(asc, s[1..], p);
      var rest := Keep(s[1..], p);
      if p(s[0]) {
        forall j | 0 <= j < |rest| ensures Precedes(asc, KeyOf(s[0]), KeyOf(rest[j])) {
          KeepMember(s[1..], p, rest[j]);
          var k :| 0 <= k < |s[1..]| && s[1..][k] == rest[j];
          assert s[k + 1] == rest[j];
        }
      }
    }
  }

  lemma {:induction false} KeepSame(s: seq<Row>, p: Row -> bool, q: Row -> bool)
    requires forall r | r in s :: p(r) <==> q(r)
    ensures Keep(s, p) == Keep(s, q)
  {
    if s != [] {
      assert s[0] in s;
      assert forall r | r in s[1..] :: r in s;
      KeepSame(s[1..], p, q);
    }
  }

  /** Rows kept by `p` are those kept by `a` followed by those kept by `b`, when all of the former
      come before all of the latter. */
  lemma {:induction false} KeepSplit(s: seq<Row>, p: Row -> bool, a: Row -> bool, b: Row -> bool)
    requires forall r | r in s :: p(r) <==> a(r) || b(r)
    requires forall i, j | 0 <= i <= j < |s| :: !(b(s[i]) && a(s[j]))
    ensures Keep(s, p) == Keep(s, a) + Keep(s, b)
  {
    if s != [] {
      assert s[0] in s;
      NoneBehind(s, a, b);
      KeepSplit(s[1..], p, a, b);
      if b(s[0]) {
        KeepNone(s[1..], a);
      }
    }
  }

  lemma NoneBehind(s: seq<Row>, a: Row -> bool, b: Row -> bool)
    requires s != [] && forall i, j | 0 <= i <= j < |s| :: !(b(s[i]) && a(s[j]))
    ensures !(b(s[0]) && a(s[0])) && forall r | r in s[1..] :: r in s && !(b(s[0]) && a(r))
    ensures forall i, j | 0 <= i <= j < |s[1..]| :: !(b(s[1..][i]) && a(s[1..][j]))
  {
    var t := s[1..];
    forall i | 0 <= i < |t| ensures t[i] in s && !(b(s[0]) && a(t[i])) {
      assert t[i] == s[i + 1];
    }
    forall i, j | 0 <= i <= j < |t| ensures !(b(t[i]) && a(t[j])) {
      assert t[i] == s[i + 1] && t[j] == s[j + 1];
    }
  }

  lemma {:induction false} KeepNone(s: seq<Row>, p: Row -> bool)
    requires forall r | r in s :: !p(r)
    ensures Keep(s, p) == []
  {
    if s != [] {
      assert s[0] in s;
      assert forall r | r in s[1..] :: r in s;
      KeepNone(s[1..], p);
    }
  }

  lemma ScanSorted(asc: bool, rows: seq<Row>)
    requires Sorted(true, rows)
    ensures Sorted(asc, Scan(rows, asc))
  {}

  lemma ScanMember(asc: bool, rows: seq<Row>, r: Row)
    ensures r in Scan(rows, asc) <==> r in rows
  {
    var s := Scan(rows, asc);
    if r in rows {
      var k :| 0 <= k < |rows| && rows[k] == r;
      assert s[if asc then k else |rows| - 1 - k] == r;
    }
  }

  // ---------------------------------------------------------------- the stored table

  const INT_32 := 0x8000_0000
  const INT_64 := 0x8000_0000_0000_0000

  ghost predicate IsRootOf(g: Row, r: Row) {
    && g.round == r.round && g.intra == Start(r) && g.rootIntra.None?
    && g.txid == Some(g.txn.body.id)
    && (r.rootIntra.Some? ==> r.rootTxid == g.txn.body.id && r.txid.None?)
  }

  ghost predicate HasStoredRoot(rows: seq<Row>, r: Row) {
    exists g :: g in rows && IsRootOf(g, r)
  }

  ghost predicate InRange(r: Row) {
    && 1 <= r.round < INT_64 && r.intra < INT_32
    && (if r.rootIntra.None? then r.intra + InnerCount(r.txn) < INT_32 else r.txn.inner == [])
  }

  /** If `g` is a root, exactly the `InnerCount` rows after it belong to it. */
  ghost predicate OneRun(g: Row, r: Row) {
    g.rootIntra.None? && g.round == r.round ==>
      (Start(r) == g.intra <==> g.intra <= r.intra <= g.intra + InnerCount(g.txn))
  }

  ghost predicate OwnId(g: Row, h: Row) {
    g.rootIntra.None? && h.rootIntra.None? && g.txn.body.id == h.txn.body.id ==> KeyOf(g) == KeyOf(h)
  }

  /** What the table `txn` looks like: in the order of its primary key, without rows of round 0, with
      whole groups at contiguous offsets, and with a different id for every root. */
  ghost predicate WellStored(rows: seq<Row>) {
    && Sorted(true, rows)
    && (forall r {:trigger InRange(r)} | r in rows :: InRange(r))
    && (forall r {:trigger HasStoredRoot(rows, r)} | r in rows :: HasStoredRoot(rows, r))
    && (forall g, r {:trigger OneRun(g, r)} | g in rows && r in rows :: OneRun(g, r))
    && (forall g, h {:trigger OwnId(g, h)} | g in rows && h in rows :: OwnId(g, h))
  }

  /** A sorted table has one row per position. */
  lemma UniqueKey(rows: seq<Row>, a: Row, b: Row)
    requires Sorted(true, rows) && a in rows && b in rows && KeyOf(a) == KeyOf(b)
    ensures a == b
  {
    var i :| 0 <= i < |rows| && rows[i] == a;
    var j :| 0 <= j < |rows| && rows[j] == b;
  }

  /** The stored root of a row; every row of a well-stored table has one. */
  ghost function RootOf(rows: seq<Row>, r: Row): (g: Row)
    ensures HasStoredRoot(rows, r) ==> g in rows && IsRootOf(g, r)
  {
    if HasStoredRoot(rows, r) then var g :| g in rows && IsRootOf(g, r); g else r
  }

  /** The last offset of the group of `r`. */
  ghost function End(rows: seq<Row>, r: Row): nat {
    Start(r) + InnerCount(RootOf(rows, r).txn)
  }

  // ---------------------------------------------------------------- one query

  function Limited(s: seq<Row>, limit: Option<nat>): seq<Row> {
    if limit.Some? && limit.value < |s| then s[..limit.value] else s
  }

  /** The rows the query for `tf` returns, by what the filter means. */
  ghost function Found(db: Db, tf: Filter): seq<Row> {
    Keep(Scan(db.rows, tf.address.None?), (r: Row) => Satisfies(db, tf, r))
  }

  ghost function QueryRows(db: Db, tf: Filter): seq<Row> {
    Limited(Found(db, tf), QueryLimit(tf))
  }

  /** Runs a query: joins, WHERE clause, order and limit. */
  function Execute(db: Db, q: Query): seq<Row> {
    Limited(Keep(Scan(db.rows, !q.descending), (r: Row) => Selected(db, q, r)), q.limit)
  }

  lemma ExecuteQuery(db: Db, q: Query, tf: Filter)
    requires IsQueryFor(q, tf) && !CreatableClash(tf.criteria)
    ensures Execute(db, q) == QueryRows(db, tf)
  {
    var s := Scan(db.rows, tf.address.None?);
    forall r | r in s ensures Selected(db, q, r) <==> Satisfies(db, tf, r) {
      QueryMeansFilter(db, q, tf, r);
    }
    KeepSame(s, (r: Row) => Selected(db, q, r), (r: Row) => Satisfies(db, tf, r));
  }

  // ---------------------------------------------------------------- resuming after a position

  /** The filter for the rest of the token's block. */
  function RestOfRound(tf: Filter, key: Key): Filter {
    if tf.address.Some? then
      tf.(window := tf.window.(round := Some(key.round), offsetLT := Some(key.intra)))
    else
      tf.(window := tf.window.(round := Some(key.round), offsetGT := Some(key.intra)))
  }

  /** The filter for the blocks beyond the token's. */
  function OtherRounds(tf: Filter, key: Key, limit: nat): Filter {
    if tf.address.Some? then
      tf.(limit := limit, window := tf.window.(maxRound := if key.round == 0 then 0 else key.round - 1))
    else
      tf.(limit := limit, window := tf.window.(minRound := key.round + 1))
  }

  /** The rows of a page that resumes after `key`. */
  ghost function RowsAfter(db: Db, tf: Filter, key: Key): seq<Row> {
    var first := QueryRows(db, RestOfRound(tf, key));
    if tf.address.Some? && key == Key(0, 0) then []
    else if |first| >= tf.limit || (tf.address.Some? && key.round <= 1) then first
    else first + QueryRows(db, OtherRounds(tf, key, tf.limit - |first|))
  }

  /** A position that a page of this filter can end at. */
  ghost predicate Fits(tf: Filter, key: Key) {
    var w := tf.window;
    && 1 <= key.round < INT_64 && key.intra < INT_32
    && (w.round.Some? ==> w.round.value == key.round)
    && if tf.address.Some? then
         && (w.maxRound == 0 || key.round <= w.maxRound)
         && (w.offsetLT.Some? ==> key.intra <= w.offsetLT.value)
       else
         && w.minRound <= key.round
         && (w.offsetGT.Some? ==> w.offsetGT.value <= key.intra)
  }

  /** What is still to come after `key`. */
  ghost function Remaining(db: Db, tf: Filter, key: Key): seq<Row> {
    Keep(Scan(db.rows, tf.address.None?),
         (r: Row) => Satisfies(db, tf, r) && Precedes(tf.address.None?, key, KeyOf(r)))
  }

  lemma MatchesAnyWindow(db: Db, tf: Filter, w: Window, limit: nat, r: Row)
    ensures Matches(db, tf.(window := w, limit := limit), r) <==> Matches(db, tf, r)
  {}

  lemma RestOfRoundMeaning(db: Db, tf: Filter, key: Key, r: Row)
    requires Fits(tf, key)
    ensures Satisfies(db, RestOfRound(tf, key), r) <==>
              Satisfies(db, tf, r) && Precedes(tf.address.None?, key, KeyOf(r)) && r.round == key.round
  {
    var rest := RestOfRound(tf, key);
    MatchesAnyWindow(db, tf, rest.window, tf.limit, r);
    assert rest == tf.(window := rest.window, limit := tf.limit);
    assert InWindow(rest.window, r) <==>
             InWindow(tf.window, r) && Precedes(tf.address.None?, key, KeyOf(r)) && r.round == key.round;
  }

  lemma OtherRoundsMeaning(db: Db, tf: Filter, key: Key, limit: nat, r: Row)
    requires Fits(tf, key) && r.round >= 1
    requires tf.address.Some? ==> key.round > 1
    ensures Satisfies(db, OtherRounds(tf, key, limit), r) <==>
              Satisfies(db, tf, r) && Precedes(tf.address.None?, key, KeyOf(r)) && r.round != key.round
  {
    var others := OtherRounds(tf, key, limit);
    MatchesAnyWindow(db, tf, others.window, limit, r);
    assert others == tf.(window := others.window, limit := limit);
    assert InWindow(others.window, r) <==>
             InWindow(tf.window, r) && Precedes(tf.address.None?, key, KeyOf(r)) && r.round != key.round;
  }

  /** Rows after `key`: first those of its own block, then all others. */
  lemma KeepAfter(asc: bool, s: seq<Row>, key: Key, p: Row -> bool, a: Row -> bool, b: Row -> bool)
    requires Sorted(asc, s)
    requires forall r | r in s :: p(r) ==> Precedes(asc, key, KeyOf(r))
    requires forall r | r in s :: a(r) <==> p(r) && r.round == key.round
    requires forall r | r in s :: b(r) <==> p(r) && r.round != key.round
    ensures Keep(s, p) == Keep(s, a) + Keep(s, b)
  {
    forall i, j | 0 <= i <= j < |s| ensures !(b(s[i]) && a(s[j])) {
      assert s[i] in s && s[j] in s;
    }
    KeepSplit(s, p, a, b);
  }

  /** The two queries together are all that remains. */
  lemma TwoQueries(db: Db, tf: Filter, key: Key, limit: nat)
    requires WellStored(db.rows) && Fits(tf, key)
    requires tf.address.Some? ==> key.round > 1
    ensures Remaining(db, tf, key) == Found(db, RestOfRound(tf, key)) + Found(db, OtherRounds(tf, key, limit))
  {
    var asc := tf.address.None?;
    var s := Scan(db.rows, asc);
    var p := (r: Row) => Satisfies(db, tf, r) && Precedes(asc, key, KeyOf(r));
    var a := (r: Row) => Satisfies(db, RestOfRound(tf, key), r);
    var b := (r: Row) => Satisfies(db, OtherRounds(tf, key, limit), r);
    ScanSorted(asc, db.rows);
    forall r | r in s
      ensures a(r) <==> p(r) && r.round == key.round
      ensures b(r) <==> p(r) && r.round != key.round
    {
      ScanMember(asc, db.rows, r);
      assert InRange(r);
      RestOfRoundMeaning(db, tf, key, r);
      OtherRoundsMeaning(db, tf, key, limit, r);
    }
    KeepAfter(asc, s, key, p, a, b);
  }

  /** When the token is in block 1 of a descending result, one query is enough. */
  lemma OneQuery(db: Db, tf: Filter, key: Key)
    requires WellStored(db.rows) && Fits(tf, key) && tf.address.Some? && key.round <= 1
    ensures Remaining(db, tf, key) == Found(db, RestOfRound(tf, key))
  {
    var s := Scan(db.rows, false);
    var p := (r: Row) => Satisfies(db, tf, r) && Precedes(false, key, KeyOf(r));
    var a := (r: Row) => Satisfies(db, RestOfRound(tf, key), r);
    forall r | r in s ensures p(r) <==> a(r) {
      ScanMember(false, db.rows, r);
      assert InRange(r);
      RestOfRoundMeaning(db, tf, key, r);
    }
    KeepSame(s, p, a);
  }

  /** A query without a limit, or one that returned fewer rows than asked for, is complete. */
  lemma QueryPrefix(db: Db, tf: Filter)
    ensures QueryRows(db, tf) <= Found(db, tf)
    ensures Found(db, tf) != [] ==> QueryRows(db, tf) != []
    ensures tf.limit == 0 || |QueryRows(db, tf)| < tf.limit ==> QueryRows(db, tf) == Found(db, tf)
  {}

  function Min(a: nat, b: nat): nat {
    if a < b then a else b
  }

  /** A limit applies to every query that does not ask for a group, and to small limits of one that does: a
      group has at most 16 transactions. Without one the query returns everything. */
  lemma QueryLength(db: Db, tf: Filter)
    ensures tf.limit > 0 && (tf.criteria.groupId == [] || tf.limit < 16) ==>
              |QueryRows(db, tf)| == Min(tf.limit, |Found(db, tf)|)
    ensures tf.limit == 0 || (tf.criteria.groupId != [] && tf.limit >= 16) ==> QueryRows(db, tf) == Found(db, tf)
  {}

  lemma RestLength(db: Db, tf: Filter, key: Key)
    requires tf.limit > 0 && (tf.criteria.groupId == [] || tf.limit < 16)
    ensures |QueryRows(db, RestOfRound(tf, key))| == Min(tf.limit, |Found(db, RestOfRound(tf, key))|)
    ensures QueryRows(db, RestOfRound(tf, key)) <= Found(db, RestOfRound(tf, key))
  {
    var rest := RestOfRound(tf, key);
    assert rest.limit == tf.limit && rest.criteria == tf.criteria;
    QueryLength(db, rest);
    QueryPrefix(db, rest);
  }

  lemma OthersLength(db: Db, tf: Filter, key: Key, limit: nat)
    requires 0 < limit <= tf.limit && (tf.criteria.groupId == [] || tf.limit < 16)
    ensures |QueryRows(db, OtherRounds(tf, key, limit))| == Min(limit, |Found(db, OtherRounds(tf, key, limit))|)
  {
    var others := OtherRounds(tf, key, limit);
    assert others.limit == limit && others.criteria == tf.criteria;
    QueryLength(db, others);
  }

  /** Where the limit applies, no page is longer. */
  lemma PageAtMost(db: Db, tf: Filter, key: Key)
    requires tf.limit > 0 && (tf.criteria.groupId == [] || tf.limit < 16)
    ensures |RowsAfter(db, tf, key)| <= tf.limit
  {
    var count := |QueryRows(db, RestOfRound(tf, key))|;
    RestLength(db, tf, key);
    if count < tf.limit {
      OthersLength(db, tf, key, tf.limit - count);
    }
  }

  lemma LengthOfTwo(db: Db, tf: Filter, key: Key, rem: seq<Row>)
    requires tf.limit > 0 && (tf.criteria.groupId == [] || tf.limit < 16)
    requires key.round >= 1 && (tf.address.Some? ==> key.round > 1)
    requires forall limit: nat :: rem == Found(db, RestOfRound(tf, key)) + Found(db, OtherRounds(tf, key, limit))
    ensures |RowsAfter(db, tf, key)| == Min(tf.limit, |rem|)
  {
    var count := |QueryRows(db, RestOfRound(tf, key))|;
    RestLength(db, tf, key);
    if count < tf.limit {
      OthersLength(db, tf, key, tf.limit - count);
      assert |rem| == count + |Found(db, OtherRounds(tf, key, tf.limit - count))|;
    } else {
      assert |rem| == |Found(db, RestOfRound(tf, key))| + |Found(db, OtherRounds(tf, key, 0))|;
    }
  }

  /** A page after `key` has as many rows as asked for, or all that remain. */
  lemma LengthAfter(db: Db, tf: Filter, key: Key)
    requires WellStored(db.rows) && Fits(tf, key)
    requires tf.limit > 0 && (tf.criteria.groupId == [] || tf.limit < 16)
    ensures |RowsAfter(db, tf, key)| == Min(tf.limit, |Remaining(db, tf, key)|)
  {
    if tf.address.Some? && key.round <= 1 {
      OneQuery(db, tf, key);
      QueryLength(db, RestOfRound(tf, key));
    } else {
      forall limit: nat {
        TwoQueries(db, tf, key, limit);
      }
      LengthOfTwo(db, tf, key, Remaining(db, tf, key));
    }
  }

  lemma PageOfTwo(db: Db, tf: Filter, key: Key, rem: seq<Row>)
    requires key.round >= 1 && (tf.address.Some? ==> key.round > 1)
    requires forall limit: nat :: rem == Found(db, RestOfRound(tf, key)) + Found(db, OtherRounds(tf, key, limit))
    ensures RowsAfter(db, tf, key) <= rem
    ensures tf.limit > 0 && rem != [] ==> RowsAfter(db, tf, key) != []
  {
    var rest := RestOfRound(tf, key);
    QueryPrefix(db, rest);
    var first := QueryRows(db, rest);
    if |first| < tf.limit {
      assert rem == first + Found(db, OtherRounds(tf, key, tf.limit - |first|));
      QueryPrefix(db, OtherRounds(tf, key, tf.limit - |first|));
    } else {
      assert rem == Found(db, rest) + Found(db, OtherRounds(tf, key, 0));
    }
  }

  /** A page after `key` is a prefix of what remains, and is empty only if nothing remains. */
  lemma PageIsPrefix(db: Db, tf: Filter, key: Key)
    requires WellStored(db.rows) && Fits(tf, key)
    ensures RowsAfter(db, tf, key) <= Remaining(db, tf, key)
    ensures tf.limit > 0 && Remaining(db, tf, key) != [] ==> RowsAfter(db, tf, key) != []
  {
    if tf.address.Some? && key.round <= 1 {
      OneQuery(db, tf, key);
      QueryPrefix(db, RestOfRound(tf, key));
    } else {
      forall limit: nat {
        TwoQueries(db, tf, key, limit);
      }
      PageOfTwo(db, tf, key, Remaining(db, tf, key));
    }
  }

  // ---------------------------------------------------------------- groups

  lemma InOwnGroup(rows: seq<Row>, r: Row)
    requires WellStored(rows) && r in rows
    ensures Start(r) <= r.intra <= End(rows, r) < INT_32
  {
    var g := RootOf(rows, r);
    assert OneRun(g, r) && InRange(g);
  }

  lemma GroupBounds(rows: seq<Row>, a: Row, b: Row)
    requires WellStored(rows) && a in rows && b in rows && a.round == b.round
    ensures Start(a) == Start(b) <==> Start(a) <= b.intra <= End(rows, a)
    ensures Start(a) == Start(b) <==> Start(a) <= Start(b) <= End(rows, a)
  {
    var g, h := RootOf(rows, a), RootOf(rows, b);
    assert OneRun(g, b) && OneRun(g, h);
  }

  /** Rows of different groups are ordered as their roots are. */
  lemma GroupOrder(rows: seq<Row>, a: Row, b: Row)
    requires WellStored(rows) && a in rows && b in rows && RootKey(a) != RootKey(b)
    ensures Before(KeyOf(a), KeyOf(b)) <==> Before(RootKey(a), RootKey(b))
    ensures Before(RootKey(a), RootKey(b)) ==> Before(Key(a.round, End(rows, a)), KeyOf(b))
    ensures Before(RootKey(a), RootKey(b)) ==> Before(KeyOf(a), RootKey(b))
  {
    InOwnGroup(rows, a);
    InOwnGroup(rows, b);
    if a.round == b.round {
      GroupBounds(rows, a, b);
      GroupBounds(rows, b, a);
    }
  }

  /** The position just past which a page that ends in the group of `r` resumes. */
  ghost function GroupEnd(rows: seq<Row>, asc: bool, r: Row): Key {
    Key(r.round, if asc then End(rows, r) else Start(r))
  }

  /** Resuming there skips exactly the groups up to and including that of `r`. */
  lemma PastGroup(rows: seq<Row>, asc: bool, r: Row, s: Row)
    requires WellStored(rows) && r in rows && s in rows
    ensures Precedes(asc, GroupEnd(rows, asc, r), KeyOf(s)) <==> Precedes(asc, RootKey(r), RootKey(s))
  {
    InOwnGroup(rows, s);
    if RootKey(r) == RootKey(s) {
      var g, h := RootOf(rows, r), RootOf(rows, s);
      UniqueKey(rows, g, h);
    } else {
      InOwnGroup(rows, r);
      GroupOrder(rows, r, s);
      GroupOrder(rows, s, r);
    }
  }

  predicate Repeats(rows: seq<Row>, r: Row) {
    exists q | q in rows :: RootKey(q) == RootKey(r)
  }

  /** The first row of every group that occurs in `rows`. */
  function FirstOfEach(rows: seq<Row>): (f: seq<Row>) {
    if rows == [] then []
    else
      var n := |rows| - 1;
      FirstOfEach(rows[..n]) + if Repeats(rows[..n], rows[n]) then [] else [rows[n]]
  }

  lemma {:induction false} FirstOfEachFrom(rows: seq<Row>)
    ensures forall f | f in FirstOfEach(rows) :: f in rows
  {
    if rows != [] {
      FirstOfEachFrom(rows[..|rows| - 1]);
    }
  }

  lemma {:induction false} FirstOfEachCovers(rows: seq<Row>, r: Row)
    requires r in rows
    ensures Repeats(FirstOfEach(rows), r)
  {
    var n := |rows| - 1;
    var before, f := FirstOfEach(rows[..n]), FirstOfEach(rows);
    if r in rows[..n] {
      FirstOfEachCovers(rows[..n], r);
      var q :| q in before && RootKey(q) == RootKey(r);
      assert q in f;
    } else if Repeats(rows[..n], r) {
      var q :| q in rows[..n] && RootKey(q) == RootKey(r);
      FirstOfEachCovers(rows[..n], q);
      var e :| e in before && RootKey(e) == RootKey(q);
      assert e in f;
    } else {
      assert r == rows[n];
      assert r in f;
    }
  }

  lemma RootsFollow(rows: seq<Row>, asc: bool, a: Row, b: Row)
    requires WellStored(rows) && a in rows && b in rows && Precedes(asc, KeyOf(a), KeyOf(b))
    ensures RootKey(a) == RootKey(b) || Precedes(asc, RootKey(a), RootKey(b))
  {
    if RootKey(a) != RootKey(b) {
      GroupOrder(rows, a, b);
      GroupOrder(rows, b, a);
    }
  }

  /** Groups do not interleave: from one row to a later one the root stays or moves on. */
  ghost predicate Contiguous(asc: bool, s: seq<Row>) {
    forall i, j | 0 <= i < j < |s| :: RootKey(s[i]) == RootKey(s[j]) || Precedes(asc, RootKey(s[i]), RootKey(s[j]))
  }

  lemma SortedContiguous(rows: seq<Row>, asc: bool, s: seq<Row>)
    requires WellStored(rows) && Sorted(asc, s) && (forall x | x in s :: x in rows)
    ensures Contiguous(asc, s)
  {
    forall i, j | 0 <= i < j < |s|
      ensures RootKey(s[i]) == RootKey(s[j]) || Precedes(asc, RootKey(s[i]), RootKey(s[j]))
    {
      assert s[i] in s && s[j] in s;
      RootsFollow(rows, asc, s[i], s[j]);
    }
  }

  ghost predicate RootsSorted(asc: bool, s: seq<Row>) {
    forall i, j | 0 <= i < j < |s| :: Precedes(asc, RootKey(s[i]), RootKey(s[j]))
  }

  /** A group that occurs before is the last one so far. */
  lemma LastGroup(asc: bool, s: seq<Row>)
    requires Contiguous(asc, s) && |s| > 1
    ensures Repeats(s[..|s| - 1], s[|s| - 1]) <==> RootKey(s[|s| - 2]) == RootKey(s[|s| - 1])
    ensures Repeats(s[..|s| - 1], s[|s| - 1]) || Precedes(asc, RootKey(s[|s| - 2]), RootKey(s[|s| - 1]))
  {
    var n := |s| - 1;
    if RootKey(s[n - 1]) == RootKey(s[n]) {
      assert s[..n][n - 1] in s[..n];
    }
    if Repeats(s[..n], s[n]) {
      var k :| 0 <= k < n && RootKey(s[k]) == RootKey(s[n]);
    }
  }

  lemma AppendRoot(asc: bool, f: seq<Row>, r: Row)
    requires RootsSorted(asc, f) && (f != [] ==> Precedes(asc, RootKey(f[|f| - 1]), RootKey(r)))
    ensures RootsSorted(asc, f + [r])
  {
    forall i | 0 <= i < |f| ensures Precedes(asc, RootKey(f[i]), RootKey(r)) {
      assert i < |f| - 1 ==> Precedes(asc, RootKey(f[i]), RootKey(f[|f| - 1]));
    }
  }

  lemma {:induction false} FirstOfEachSorted(asc: bool, s: seq<Row>)
    requires Contiguous(asc, s)
    ensures RootsSorted(asc, FirstOfEach(s))
    ensures s != [] ==> var f := FirstOfEach(s); f != [] && RootKey(f[|f| - 1]) == RootKey(s[|s| - 1])
  {
    if s != [] {
      var n := |s| - 1;
      FirstOfEachSorted(asc, s[..n]);
      if n > 0 {
        assert s[..n][n - 1] == s[n - 1];
        LastGroup(asc, s);
      }
      if !Repeats(s[..n], s[n]) {
        AppendRoot(asc, FirstOfEach(s[..n]), s[n]);
      } else {
        assert FirstOfEach(s) == FirstOfEach(s[..n]);
      }
    }
  }

  // ---------------------------------------------------------------- what a caller gets

  /** One entry of a response: a root transaction with its whole tree, at its own position. */
  datatype Hit = Hit(key: Key, txn: Txn)

  ghost function HitOf(rows: seq<Row>, r: Row): Hit {
    Hit(RootKey(r), RootOf(rows, r).txn)
  }

  lemma HitPerGroup(rows: seq<Row>, a: Row, b: Row)
    requires WellStored(rows) && a in rows && b in rows
    ensures RootKey(a) == RootKey(b) <==> HitOf(rows, a) == HitOf(rows, b)
    ensures RootKey(a) == RootKey(b) <==> RootOf(rows, a).txn.body.id == RootOf(rows, b).txn.body.id
  {
    if RootKey(a) == RootKey(b) {
      UniqueKey(rows, RootOf(rows, a), RootOf(rows, b));
    } else {
      assert OwnId(RootOf(rows, a), RootOf(rows, b));
    }
  }

  /** The page made of the query rows `s`: the root of every row, each once, in order. */
  ghost function PageHits(rows: seq<Row>, s: seq<Row>): seq<Hit> {
    var f := FirstOfEach(s);
    seq(|f|, k requires 0 <= k < |f| => HitOf(rows, f[k]))
  }

  ghost predicate IsHitIn(rows: seq<Row>, s: seq<Row>, h: Hit) {
    exists r :: r in s && HitOf(rows, r) == h
  }

  /** `hits` are exactly the roots of the rows in `s`, each once, in the order of the result. */
  ghost predicate AnswersRows(rows: seq<Row>, asc: bool, s: seq<Row>, hits: seq<Hit>) {
    && (forall i, j | 0 <= i < j < |hits| :: Precedes(asc, hits[i].key, hits[j].key))
    && (forall h :: h in hits <==> IsHitIn(rows, s, h))
  }

  lemma PageHitsSorted(rows: seq<Row>, asc: bool, s: seq<Row>)
    requires Contiguous(asc, s)
    ensures var hits := PageHits(rows, s);
            forall i, j | 0 <= i < j < |hits| :: Precedes(asc, hits[i].key, hits[j].key)
  {
    FirstOfEachSorted(asc, s);
  }

  lemma HitListed(rows: seq<Row>, s: seq<Row>, r: Row)
    requires WellStored(rows) && (forall x | x in s :: x in rows) && r in s
    ensures HitOf(rows, r) in PageHits(rows, s)
  {
    FirstOfEachFrom(s);
    FirstOfEachCovers(s, r);
    var f := FirstOfEach(s);
    var k :| 0 <= k < |f| && RootKey(f[k]) == RootKey(r);
    assert f[k] in f;
    HitPerGroup(rows, f[k], r);
    assert PageHits(rows, s)[k] == HitOf(rows, r);
  }

  lemma PageAnswers(rows: seq<Row>, asc: bool, s: seq<Row>)
    requires WellStored(rows) && Sorted(asc, s) && (forall r | r in s :: r in rows)
    ensures AnswersRows(rows, asc, s, PageHits(rows, s))
  {
    SortedContiguous(rows, asc, s);
    PageHitsSorted(rows, asc, s);
    FirstOfEachFrom(s);
    var f, hits := FirstOfEach(s), PageHits(rows, s);
    forall h ensures h in hits <==> IsHitIn(rows, s, h) {
      if h in hits {
        var k :| 0 <= k < |hits| && hits[k] == h;
        assert f[k] in f;
      }
      if IsHitIn(rows, s, h) {
        var r :| r in s && HitOf(rows, r) == h;
        HitListed(rows, s, r);
      }
    }
  }

  // ---------------------------------------------------------------- from one page to the next

  /** What is left to return, and the rows of the next page, at the start (None) or after a position. */
  ghost function Left(db: Db, tf: Filter, at: Option<Key>): seq<Row> {
    if at.None? then Found(db, tf) else Remaining(db, tf, at.value)
  }

  ghost function PageRows(db: Db, tf: Filter, at: Option<Key>): seq<Row> {
    if at.None? then QueryRows(db, tf) else RowsAfter(db, tf, at.value)
  }

  predicate IsLeft(db: Db, tf: Filter, at: Option<Key>, r: Row) {
    Satisfies(db, tf, r) && (at.Some? ==> Precedes(tf.address.None?, at.value, KeyOf(r)))
  }

  lemma LeftRows(db: Db, tf: Filter, at: Option<Key>)
    requires WellStored(db.rows)
    ensures Sorted(tf.address.None?, Left(db, tf, at))
    ensures forall r :: r in Left(db, tf, at) <==> r in db.rows && IsLeft(db, tf, at, r)
  {
    var asc := tf.address.None?;
    var s := Scan(db.rows, asc);
    var p := if at.None? then (r: Row) => Satisfies(db, tf, r)
             else (r: Row) => Satisfies(db, tf, r) && Precedes(tf.address.None?, at.value, KeyOf(r));
    ScanSorted(asc, db.rows);
    KeepSorted(asc, s, p);
    forall r ensures r in Keep(s, p) <==> r in db.rows && IsLeft(db, tf, at, r) {
      KeepMember(s, p, r);
      ScanMember(asc, db.rows, r);
    }
    assert Left(db, tf, at) == Keep(s, p);
  }

  /** How long a page is: at the start or after any position, and what a query without a limit returns. */
  lemma PageLength(db: Db, tf: Filter, at: Option<Key>)
    ensures tf.limit > 0 && (tf.criteria.groupId == [] || tf.limit < 16) ==>
              && |PageRows(db, tf, at)| <= tf.limit
              && (WellStored(db.rows) && (at.Some? ==> Fits(tf, at.value)) ==>
                    |PageRows(db, tf, at)| == Min(tf.limit, |Left(db, tf, at)|))
    ensures at.None? && (tf.limit == 0 || (tf.criteria.groupId != [] && tf.limit >= 16)) ==>
              PageRows(db, tf, at) == Found(db, tf)
  {
    if at.None? {
      QueryLength(db, tf);
    } else if tf.limit > 0 && (tf.criteria.groupId == [] || tf.limit < 16) {
      PageAtMost(db, tf, at.value);
      if WellStored(db.rows) && Fits(tf, at.value) {
        LengthAfter(db, tf, at.value);
      }
    }
  }

  lemma PageOfLeft(db: Db, tf: Filter, at: Option<Key>)
    requires WellStored(db.rows) && (at.Some? ==> Fits(tf, at.value))
    ensures PageRows(db, tf, at) <= Left(db, tf, at)
    ensures tf.limit > 0 || at.None? ==> (Left(db, tf, at) != [] ==> PageRows(db, tf, at) != [])
    ensures tf.limit == 0 && at.None? ==> PageRows(db, tf, at) == Left(db, tf, at)
  {
    if at.None? {
      QueryPrefix(db, tf);
    } else {
      PageIsPrefix(db, tf, at.value);
    }
  }

  lemma {:induction false} KeepFewer(s: seq<Row>, p: Row -> bool, q: Row -> bool, x: Row)
    requires forall r | r in s :: q(r) ==> p(r)
    requires x in s && p(x) && !q(x)
    ensures |Keep(s, q)| < |Keep(s, p)|
  {
    assert forall r | r in s[1..] :: r in s;
    assert s[0] in s;
    if x in s[1..] {
      KeepFewer(s[1..], p, q, x);
    } else {
      assert x == s[0];
      KeepNoMore(s[1..], p, q);
    }
  }

  lemma {:induction false} KeepNoMore(s: seq<Row>, p: Row -> bool, q: Row -> bool)
    requires forall r | r in s :: q(r) ==> p(r)
    ensures |Keep(s, q)| <= |Keep(s, p)|
  {
    if s != [] {
      assert s[0] in s;
      assert forall r | r in s[1..] :: r in s;
      KeepNoMore(s[1..], p, q);
    }
  }

  /** Everything that precedes a row of a prefix is in the prefix. */
  lemma InPrefix(asc: bool, s: seq<Row>, p: seq<Row>, x: Row, r: Row)
    requires Sorted(asc, s) && p <= s && x in p && r in s && Precedes(asc, KeyOf(r), KeyOf(x))
    ensures r in p
  {
    var i :| 0 <= i < |p| && p[i] == x;
    var j :| 0 <= j < |s| && s[j] == r;
    assert s[i] == x;
    assert j < i;
    assert p[j] == r;
  }

  ghost function LastRow(p: seq<Row>): Row
    requires p != []
  {
    var f := FirstOfEach(p);
    if f == [] then p[0] else f[|f| - 1]
  }

  /** The next page resumes with the groups after the last one of this page, `x`. */
  lemma LeftAfter(db: Db, tf: Filter, at: Option<Key>, x: Row, r: Row)
    requires WellStored(db.rows) && x in db.rows && r in db.rows && IsLeft(db, tf, at, x)
    ensures var next := GroupEnd(db.rows, tf.address.None?, x);
            && Fits(tf, next)
            && (IsLeft(db, tf, Some(next), r) <==>
                Satisfies(db, tf, r) && Precedes(tf.address.None?, RootKey(x), RootKey(r)))
            && (IsLeft(db, tf, Some(next), r) ==> IsLeft(db, tf, at, r) && r != x)
  {
    var asc := tf.address.None?;
    InOwnGroup(db.rows, x);
    assert InRange(x);
    PastGroup(db.rows, asc, x, r);
    if Precedes(asc, RootKey(x), RootKey(r)) {
      GroupOrder(db.rows, x, r);
      GroupOrder(db.rows, r, x);
    }
  }

  lemma LastRowGroup(asc: bool, p: seq<Row>)
    requires Contiguous(asc, p) && p != []
    ensures LastRow(p) in p
    ensures forall r | r in p :: RootKey(r) == RootKey(LastRow(p)) || Precedes(asc, RootKey(r), RootKey(LastRow(p)))
  {
    FirstOfEachSorted(asc, p);
    FirstOfEachFrom(p);
    var f := FirstOfEach(p);
    assert f[|f| - 1] in f;
  }

  /** A row that is left is covered by the page, or left after it. */
  lemma PageOrLater(db: Db, tf: Filter, at: Option<Key>, r: Row)
    requires WellStored(db.rows) && (at.Some? ==> Fits(tf, at.value)) && PageRows(db, tf, at) != []
    ensures var p := PageRows(db, tf, at);
            var next := GroupEnd(db.rows, tf.address.None?, LastRow(p));
            && Fits(tf, next)
            && (r in Left(db, tf, at) ==> r in Left(db, tf, Some(next)) || Repeats(p, r))
            && (r in Left(db, tf, Some(next)) ==> r in Left(db, tf, at) && r != LastRow(p))
            && (r in p ==> r in Left(db, tf, at) && r in db.rows)
  {
    var asc, p := tf.address.None?, PageRows(db, tf, at);
    var left, x := Left(db, tf, at), LastRow(p);
    var next := GroupEnd(db.rows, asc, x);
    LeftRows(db, tf, at);
    LeftRows(db, tf, Some(next));
    PageOfLeft(db, tf, at);
    assert forall y | y in p :: y in left;
    SortedContiguous(db.rows, asc, p);
    LastRowGroup(asc, p);
    LeftAfter(db, tf, at, x, if r in db.rows then r else x);
    if r in left && r !in Left(db, tf, Some(next)) && RootKey(r) != RootKey(x) {
      GroupOrder(db.rows, r, x);
      GroupOrder(db.rows, x, r);
      InPrefix(asc, left, p, x, r);
    }
  }

  lemma PageThenRest(db: Db, tf: Filter, at: Option<Key>, a: Row, b: Row)
    requires WellStored(db.rows) && (at.Some? ==> Fits(tf, at.value)) && PageRows(db, tf, at) != []
    requires a in PageRows(db, tf, at)
    requires b in Left(db, tf, Some(GroupEnd(db.rows, tf.address.None?, LastRow(PageRows(db, tf, at)))))
    ensures Precedes(tf.address.None?, RootKey(a), RootKey(b))
  {
    var asc, p := tf.address.None?, PageRows(db, tf, at);
    var x := LastRow(p);
    LeftRows(db, tf, at);
    LeftRows(db, tf, Some(GroupEnd(db.rows, asc, x)));
    PageOfLeft(db, tf, at);
    SortedContiguous(db.rows, asc, p);
    LastRowGroup(asc, p);
    LeftAfter(db, tf, at, x, b);
  }

  ghost predicate HitsSorted(asc: bool, hits: seq<Hit>) {
    forall i, j | 0 <= i < j < |hits| :: Precedes(asc, hits[i].key, hits[j].key)
  }

  /** All of `a` comes before all hits of the rows `s`. */
  ghost predicate HitsBefore(rows: seq<Row>, asc: bool, a: seq<Hit>, s: seq<Row>) {
    forall i, r | 0 <= i < |a| && r in s :: Precedes(asc, a[i].key, RootKey(r))
  }

  /** The invariant of a paged run: what was returned so far and what is left make up the answer. */
  ghost predicate Progress(db: Db, tf: Filter, at: Option<Key>, acc: seq<Hit>) {
    var asc := tf.address.None?;
    && (at.Some? ==> Fits(tf, at.value))
    && (tf.limit > 0 || at.None? || Left(db, tf, at) == [])
    && HitsSorted(asc, acc)
    && HitsBefore(db.rows, asc, acc, Left(db, tf, at))
    && (forall h :: IsHitIn(db.rows, Found(db, tf), h) <==> h in acc || IsHitIn(db.rows, Left(db, tf, at), h))
  }

  /** The position a nonempty page ends at. */
  ghost function NextPosition(db: Db, tf: Filter, at: Option<Key>): Key
    requires PageRows(db, tf, at) != []
  {
    GroupEnd(db.rows, tf.address.None?, LastRow(PageRows(db, tf, at)))
  }

  lemma Shrinks(db: Db, tf: Filter, at: Option<Key>)
    requires WellStored(db.rows) && (at.Some? ==> Fits(tf, at.value)) && PageRows(db, tf, at) != []
    ensures Fits(tf, NextPosition(db, tf, at))
    ensures |Left(db, tf, Some(NextPosition(db, tf, at)))| < |Left(db, tf, at)|
  {
    var asc, x := tf.address.None?, LastRow(PageRows(db, tf, at));
    var next := NextPosition(db, tf, at);
    var s := Scan(db.rows, asc);
    var p := (r: Row) => IsLeft(db, tf, at, r);
    var q := (r: Row) => IsLeft(db, tf, Some(next), r);
    LeftRows(db, tf, at);
    LeftRows(db, tf, Some(next));
    PageOrLater(db, tf, at, x);
    PageOfLeft(db, tf, at);
    SortedContiguous(db.rows, asc, PageRows(db, tf, at));
    LastRowGroup(asc, PageRows(db, tf, at));
    ScanMember(asc, db.rows, x);
    forall r | r in s ensures q(r) ==> p(r) {
      ScanMember(asc, db.rows, r);
      PageOrLater(db, tf, at, r);
    }
    KeepFewer(s, p, q, x);
    KeepSame(s, q, (r: Row) => Satisfies(db, tf, r) && Precedes(tf.address.None?, next, KeyOf(r)));
    if at.None? {
      KeepSame(s, p, (r: Row) => Satisfies(db, tf, r));
    } else {
      KeepSame(s, p, (r: Row) => Satisfies(db, tf, r) && Precedes(tf.address.None?, at.value, KeyOf(r)));
    }
  }

  /** The hits of what is left are those of the page and those left after it. */
  lemma HitsStep(db: Db, tf: Filter, at: Option<Key>, h: Hit)
    requires WellStored(db.rows) && (at.Some? ==> Fits(tf, at.value)) && PageRows(db, tf, at) != []
    ensures IsHitIn(db.rows, Left(db, tf, at), h) <==>
              || h in PageHits(db.rows, PageRows(db, tf, at))
              || IsHitIn(db.rows, Left(db, tf, Some(NextPosition(db, tf, at))), h)
  {
    var rows, p := db.rows, PageRows(db, tf, at);
    var left, later := Left(db, tf, at), Left(db, tf, Some(NextPosition(db, tf, at)));
    PageFromTable(db, tf, at);
    PageAnswers(rows, tf.address.None?, p);
    assert h in PageHits(rows, p) <==> IsHitIn(rows, p, h);
    if IsHitIn(rows, left, h) {
      var r :| r in left && HitOf(rows, r) == h;
      PageOrLater(db, tf, at, r);
      LeftRows(db, tf, at);
      if r !in later {
        var q :| q in p && RootKey(q) == RootKey(r);
        HitPerGroup(rows, q, r);
      }
    }
    if IsHitIn(rows, later, h) {
      var r :| r in later && HitOf(rows, r) == h;
      PageOrLater(db, tf, at, r);
    }
    if IsHitIn(rows, p, h) {
      var r :| r in p && HitOf(rows, r) == h;
      PageOrLater(db, tf, at, r);
    }
  }

  lemma PageFromTable(db: Db, tf: Filter, at: Option<Key>)
    requires WellStored(db.rows) && (at.Some? ==> Fits(tf, at.value))
    ensures Sorted(tf.address.None?, PageRows(db, tf, at))
    ensures forall r | r in PageRows(db, tf, at) :: r in db.rows && Satisfies(db, tf, r)
  {
    LeftRows(db, tf, at);
    PageOfLeft(db, tf, at);
    assert forall r | r in PageRows(db, tf, at) :: r in Left(db, tf, at);
  }

  lemma ProgressStart(db: Db, tf: Filter)
    ensures Progress(db, tf, None, [])
  {}

  lemma HitsSortedAppend(db: Db, tf: Filter, at: Option<Key>, acc: seq<Hit>)
    requires WellStored(db.rows) && (at.Some? ==> Fits(tf, at.value)) && PageRows(db, tf, at) != []
    requires HitsSorted(tf.address.None?, acc) && HitsBefore(db.rows, tf.address.None?, acc, Left(db, tf, at))
    ensures HitsSorted(tf.address.None?, acc + PageHits(db.rows, PageRows(db, tf, at)))
  {
    var asc, p := tf.address.None?, PageRows(db, tf, at);
    var hits := PageHits(db.rows, p);
    PageFromTable(db, tf, at);
    SortedContiguous(db.rows, asc, p);
    PageHitsSorted(db.rows, asc, p);
    FirstOfEachFrom(p);
    forall j | 0 <= j < |hits| ensures exists r :: r in Left(db, tf, at) && RootKey(r) == hits[j].key {
      var f := FirstOfEach(p);
      assert f[j] in f;
      PageOrLater(db, tf, at, f[j]);
    }
    SortedAppend(asc, acc, hits);
  }

  lemma SortedAppend(asc: bool, a: seq<Hit>, b: seq<Hit>)
    requires HitsSorted(asc, a) && HitsSorted(asc, b)
    requires forall i, j | 0 <= i < |a| && 0 <= j < |b| :: Precedes(asc, a[i].key, b[j].key)
    ensures HitsSorted(asc, a + b)
  {}

  lemma HitsBeforeLater(db: Db, tf: Filter, at: Option<Key>, acc: seq<Hit>)
    requires WellStored(db.rows) && (at.Some? ==> Fits(tf, at.value)) && PageRows(db, tf, at) != []
    requires HitsBefore(db.rows, tf.address.None?, acc, Left(db, tf, at))
    ensures HitsBefore(db.rows, tf.address.None?, acc + PageHits(db.rows, PageRows(db, tf, at)),
                       Left(db, tf, Some(NextPosition(db, tf, at))))
  {
    var asc, p := tf.address.None?, PageRows(db, tf, at);
    var all, later := acc + PageHits(db.rows, p), Left(db, tf, Some(NextPosition(db, tf, at)));
    FirstOfEachFrom(p);
    forall i, r | 0 <= i < |all| && r in later ensures Precedes(asc, all[i].key, RootKey(r)) {
      PageOrLater(db, tf, at, r);
      if i >= |acc| {
        var f := FirstOfEach(p);
        assert f[i - |acc|] in f;
        PageThenRest(db, tf, at, f[i - |acc|], r);
      }
    }
  }

  /** Without a limit the first page returns everything. */
  lemma NothingAfterAll(db: Db, tf: Filter)
    requires WellStored(db.rows) && tf.limit == 0 && PageRows(db, tf, None) != []
    ensures Left(db, tf, Some(NextPosition(db, tf, None))) == []
  {
    var later := Left(db, tf, Some(NextPosition(db, tf, None)));
    if later != [] {
      var r := later[0];
      PageOfLeft(db, tf, None);
      PageOrLater(db, tf, None, r);
      PageThenRest(db, tf, None, r, r);
    }
  }

  lemma ProgressStep(db: Db, tf: Filter, at: Option<Key>, acc: seq<Hit>)
    requires WellStored(db.rows) && Progress(db, tf, at, acc) && PageRows(db, tf, at) != []
    ensures Progress(db, tf, Some(NextPosition(db, tf, at)), acc + PageHits(db.rows, PageRows(db, tf, at)))
  {
    Shrinks(db, tf, at);
    HitsSortedAppend(db, tf, at, acc);
    HitsBeforeLater(db, tf, at, acc);
    PageOfLeft(db, tf, at);
    if tf.limit == 0 && at.None? {
      NothingAfterAll(db, tf);
    }
    forall h
      ensures IsHitIn(db.rows, Found(db, tf), h) <==>
                || h in acc + PageHits(db.rows, PageRows(db, tf, at))
                || IsHitIn(db.rows, Left(db, tf, Some(NextPosition(db, tf, at))), h)
    {
      HitsStep(db, tf, at, h);
    }
  }

  lemma ProgressEnd(db: Db, tf: Filter, at: Option<Key>, acc: seq<Hit>)
    requires WellStored(db.rows) && Progress(db, tf, at, acc) && PageRows(db, tf, at) == []
    ensures AnswersRows(db.rows, tf.address.None?, Found(db, tf), acc)
  {
    PageOfLeft(db, tf, at);
  }

  // ---------------------------------------------------------------- rows as they are returned

  /** A row of a query result: an inner transaction carries its root's tree, a root its own. */
  datatype TxnRow = TxnRow(
    round: nat, intra: nat, txn: Option<Txn>, rootTxn: Option<Txn>, rootIntra: Option<nat>, rootTxid: string)

  function Lookup(rows: seq<Row>, key: Key): Option<Txn> {
    if rows == [] then None
    else if KeyOf(rows[0]) == key then Some(rows[0].txn)
    else Lookup(rows[1..], key)
  }

  /** The left outer join with the root's row, if the query asks for it. */
  function JoinedRoot(rows: seq<Row>, joinRoot: bool, r: Row): Option<Txn> {
    if joinRoot && r.rootIntra.Some? then Lookup(rows, Key(r.round, r.rootIntra.value)) else None
  }

  function Returned(rows: seq<Row>, joinRoot: bool, r: Row): TxnRow {
    var root := JoinedRoot(rows, joinRoot, r);
    TxnRow(r.round, r.intra, if root.Some? then None else Some(r.txn), root, r.rootIntra, r.rootTxid)
  }

  function AllReturned(rows: seq<Row>, joinRoot: bool, s: seq<Row>): seq<TxnRow> {
    seq(|s|, k requires 0 <= k < |s| => Returned(rows, joinRoot, s[k]))
  }

  lemma {:induction false} LookupStored(rows: seq<Row>, g: Row)
    requires Sorted(true, rows) && g in rows
    ensures Lookup(rows, KeyOf(g)) == Some(g.txn)
  {
    if KeyOf(rows[0]) == KeyOf(g) {
      UniqueKey(rows, rows[0], g);
    } else {
      LookupStored(rows[1..], g);
    }
  }

  /** Whichever way a row is returned, its tree is that of its root. */
  function Tree(tr: TxnRow): Option<Txn> {
    if tr.rootTxn.Some? then tr.rootTxn else tr.txn
  }

  function TxnId(tr: TxnRow): string {
    if tr.rootIntra.Some? then tr.rootTxid else if tr.txn.Some? then tr.txn.value.body.id else ""
  }

  function Position(tr: TxnRow): Key {
    Key(tr.round, if tr.rootIntra.Some? then tr.rootIntra.value else tr.intra)
  }

  /** In root-converting mode, or when only roots are selected, every row shows its root. */
  lemma ReturnedRoot(rows: seq<Row>, joinRoot: bool, r: Row)
    requires WellStored(rows) && r in rows && (joinRoot || r.txid.Some?)
    ensures var tr := Returned(rows, joinRoot, r);
            && Tree(tr) == Some(RootOf(rows, r).txn)
            && TxnId(tr) == RootOf(rows, r).txn.body.id
            && Position(tr) == RootKey(r)
            && (tr.txn.Some? <==> tr.rootTxn.None?)
  {
    var g := RootOf(rows, r);
    if r.rootIntra.None? {
      UniqueKey(rows, g, r);
    } else {
      LookupStored(rows, g);
    }
  }
}
