/** The search for transactions, from the API call down to the queries. */
module TxnSearch {
  import opened Outcomes
  import opened Base64
  import opened Ledger
  import opened PageToken
  import opened TxnQuery
  import opened Paging

  // ---------------------------------------------------------------- the database side

  /** A filter that only restricts positions and times needs no inner transactions. */
  function TxnFilterOptimization(tf: Filter): Filter {
    var defaults := Filter(None, {}, tf.window, tf.afterTime, tf.beforeTime, NoCriteria, tf.nextToken, tf.limit,
                           false, false, false, false);
    if tf == defaults then tf.(skipInner := true) else tf
  }

  function JoinsRoot(tf: Filter): bool {
    !tf.skipConversion && !tf.skipInner
  }

  method YieldRows(rows: seq<Row>, joinRoot: bool, s: seq<Row>) returns (out: seq<TxnRow>, count: nat)
    ensures out == AllReturned(rows, joinRoot, s)
    ensures count == |s|
  {
    out, count := [], 0;
    for k := 0 to |s|
      invariant count == k
      invariant out == AllReturned(rows, joinRoot, s[..k])
    {
      var r := s[k];
      var roottxn := JoinedRoot(rows, joinRoot, r);
      var row := TxnRow(r.round, r.intra, None, None, r.rootIntra, r.rootTxid);
      if roottxn.Some? {
        row := row.(rootTxn := roottxn);
      } else {
        row := row.(txn := Some(r.txn));
      }
      out := out + [row];
      count := count + 1;
    }
    assert s[..|s|] == s;
  }

  method RunQuery(db: Db, tf: Filter) returns (r: Result<seq<Row>>)
    ensures r.Err? <==> CreatableClash(tf.criteria)
    ensures r.Ok? ==> r.value == QueryRows(db, tf)
  {
    var q := BuildTransactionQuery(tf);
    if q.Err? {
      return Err("txn query err " + q.error);
    }
    ExecuteQuery(db, q.value, tf);
    return Ok(Execute(db, q.value));
  }

  method QueryAndYield(db: Db, tf: Filter) returns (r: Result<seq<TxnRow>>, count: nat)
    ensures r.Err? <==> CreatableClash(tf.criteria)
    ensures r.Ok? ==> r.value == AllReturned(db.rows, JoinsRoot(tf), QueryRows(db, tf)) && count == |QueryRows(db, tf)|
  {
    var rows := RunQuery(db, tf);
    if rows.Err? {
      return Err(rows.error), 0;
    }
    var out;
    out, count := YieldRows(db.rows, JoinsRoot(tf), rows.value);
    r := Ok(out);
  }

  /** Rewrites the filter for the first query of a page: it selects the rows of the token's own round
      that the filter selects and that come after the token. */
  method NarrowToRound(tf: Filter, key: Key) returns (f: Filter)
    ensures f == RestOfRound(tf, key)
    ensures Fits(tf, key) ==>
              forall db, r :: Satisfies(db, f, r) <==>
                Satisfies(db, tf, r) && Precedes(tf.address.None?, key, KeyOf(r)) && r.round == key.round
  {
    if Fits(tf, key) {
      forall db, r ensures Satisfies(db, RestOfRound(tf, key), r) <==>
          Satisfies(db, tf, r) && Precedes(tf.address.None?, key, KeyOf(r)) && r.round == key.round {
        RestOfRoundMeaning(db, tf, key, r);
      }
    }
    if tf.address.Some? {
      f := tf.(window := tf.window.(round := Some(key.round), offsetLT := Some(key.intra)));
    } else {
      f := tf.(window := tf.window.(round := Some(key.round), offsetGT := Some(key.intra)));
    }
  }

  /** Rewrites it again for the second one: restores what the first rewriting replaced, moves the
      bound on the round and lowers the limit. */
  method WidenToOthers(f0: Filter, key: Key, count: nat, origRound: Option<nat>, origOLT: Option<nat>,
                       origOGT: Option<nat>, ghost tf: Filter)
    returns (f: Filter)
    requires f0 == RestOfRound(tf, key) && count < tf.limit && (tf.address.Some? ==> key.round >= 1)
    requires origRound == tf.window.round && origOLT == tf.window.offsetLT && origOGT == tf.window.offsetGT
    ensures f == OtherRounds(tf, key, tf.limit - count)
  {
    f := f0.(limit := f0.limit - count, window := f0.window.(round := origRound));
    if f0.address.Some? {
      f := f.(window := f.window.(offsetLT := origOLT));
      f := f.(window := f.window.(maxRound := key.round - 1));
    } else {
      f := f.(window := f.window.(offsetGT := origOGT));
      f := f.(window := f.window.(minRound := key.round + 1));
    }
  }

  /** A descending result that has reached the very beginning has no further page. */
  predicate AtBeginning(tf: Filter) {
    tf.address.Some? && StartOf(tf.nextToken) == Some(Key(0, 0))
  }

  lemma AllReturnedAppend(rows: seq<Row>, joinRoot: bool, a: seq<Row>, b: seq<Row>)
    ensures AllReturned(rows, joinRoot, a + b) == AllReturned(rows, joinRoot, a) + AllReturned(rows, joinRoot, b)
  {}

  /** The page that resumes after `key`: the rest of that block, then the others. */
  method ResumeAfter(db: Db, tf: Filter, key: Key) returns (r: Result<seq<TxnRow>>)
    ensures r.Err? <==> CreatableClash(tf.criteria) && !(tf.address.Some? && key == Key(0, 0))
    ensures r.Ok? ==> r.value == AllReturned(db.rows, JoinsRoot(tf), RowsAfter(db, tf, key))
  {
    var origRound, origOLT, origOGT := tf.window.round, tf.window.offsetLT, tf.window.offsetGT;
    if tf.address.Some? && key.round == 0 && key.intra == 0 {
      return Ok([]);
    }
    var f := NarrowToRound(tf, key);
    var count;
    r, count := QueryAndYield(db, f);
    if r.Err? || count >= f.limit || (f.address.Some? && key.round <= 1) {
      return;
    }
    ghost var first := QueryRows(db, f);
    f := WidenToOthers(f, key, count, origRound, origOLT, origOGT, tf);
    var more, _ := QueryAndYield(db, f);
    AllReturnedAppend(db.rows, JoinsRoot(tf), first, QueryRows(db, f));
    r := Ok(r.value + more.value);
  }

  method TxnsWithNext(db: Db, tf: Filter) returns (r: Result<seq<TxnRow>>)
    requires tf.nextToken != ""
    ensures r.Err? <==> BadToken(tf.nextToken) || (CreatableClash(tf.criteria) && !AtBeginning(tf))
    ensures r.Ok? ==> r.value == AllReturned(db.rows, JoinsRoot(tf), RowsAfter(db, tf, DecodeToken(tf.nextToken).value))
  {
    var token := DecodeToken(tf.nextToken);
    if token.None? {
      return Err("DecodeTxnRowNext()");
    }
    r := ResumeAfter(db, tf, token.value);
  }

  function StartOf(token: string): Option<Key> {
    if token == "" then None else DecodeToken(token)
  }

  predicate BadToken(token: string) {
    token != "" && DecodeToken(token).None?
  }

  method Transactions(db: Db, tf: Filter) returns (r: Result<seq<TxnRow>>)
    ensures r.Err? <==> BadToken(tf.nextToken) || (CreatableClash(tf.criteria) && !AtBeginning(tf))
    ensures r.Err? <==>
              var c, token := tf.criteria, tf.nextToken;
              || (token != "" && DecodeToken(token).None?)
              || (c.assetId.Some? && c.appId.Some? && c.assetId != c.appId
                  && !(tf.address.Some? && token != "" && DecodeToken(token) == Some(Key(0, 0))))
    ensures r.Ok? ==>
              var o := TxnFilterOptimization(tf);
              r.value == AllReturned(db.rows, JoinsRoot(o), PageRows(db, o, StartOf(tf.nextToken)))
    ensures r.Ok? && tf.limit > 0 && (tf.criteria.groupId == [] || tf.limit < 16) ==>
              var o, at := TxnFilterOptimization(tf), StartOf(tf.nextToken);
              && |r.value| <= tf.limit
              && (WellStored(db.rows) && (at.Some? ==> Fits(o, at.value)) ==>
                    |r.value| == Min(tf.limit, |Left(db, o, at)|))
    ensures r.Ok? && tf.nextToken == "" && (tf.limit == 0 || (tf.criteria.groupId != [] && tf.limit >= 16)) ==>
              |r.value| == |Found(db, TxnFilterOptimization(tf))|
  {
    var o := TxnFilterOptimization(tf);
    PageLength(db, o, StartOf(tf.nextToken));
    if |o.nextToken| > 0 {
      r := TxnsWithNext(db, o);
    } else {
      var count;
      r, count := QueryAndYield(db, o);
    }
  }

  // ---------------------------------------------------------------- the next token

  method PutLittleEndian(b: array<Byte>, from: nat, k: nat, n: nat)
    requires from + k <= b.Length
    modifies b
    ensures b[..] == old(b[..from]) + LittleEndian(n, k) + old(b[from + k..])
  {
    var value := n;
    for i := 0 to k
      invariant b[..from] == old(b[..from]) && b[from + k..] == old(b[from + k..])
      invariant b[from..from + i] + LittleEndian(value, k - i) == LittleEndian(n, k)
    {
      ghost var rest := LittleEndian(value, k - i);
      b[from + i] := value % 256;
      assert rest == [value % 256] + LittleEndian(value / 256, k - i - 1);
      assert b[from..from + i + 1] == b[from..from + i] + [value % 256];
      value := value / 256;
    }
    assert b[..] == b[..from] + b[from..from + k] + b[from + k..];
  }

  method PackToken(round: nat, intra: nat) returns (token: string)
    ensures token == EncodeToken(Key(round, intra))
  {
    var b := new Byte[12](_ => 0);
    PutLittleEndian(b, 0, 8, round);
    PutLittleEndian(b, 8, 4, intra);
    assert b[..] == LittleEndian(round, 8) + LittleEndian(intra, 4);
    token := Encode(Url, b[..]);
  }

  /** The position after a row: past its whole group when ascending, its root when descending. */
  ghost function NextKey(tr: TxnRow, asc: bool): Key
    requires asc ==> Tree(tr).Some?
  {
    Key(tr.round, Position(tr).intra + if asc then InnerCount(Tree(tr).value) else 0)
  }

  method Next(tr: TxnRow, asc: bool) returns (r: Result<string>)
    ensures r.Err? <==> asc && Tree(tr).None?
    ensures r.Ok? ==> r.value == EncodeToken(NextKey(tr, asc))
  {
    var intra := tr.intra;
    if tr.rootIntra.Some? {
      intra := tr.rootIntra.value;
    }
    if asc {
      var stxn := if tr.rootTxn.Some? then tr.rootTxn else tr.txn;
      if stxn.None? {
        return Err("Next() was not given transaction");
      }
      var n := CountInner(stxn.value);
      intra := intra + n;
    }
    var token := PackToken(tr.round, intra);
    return Ok(token);
  }

  // ---------------------------------------------------------------- the API side

  /** Every row of a page comes from the table, and is a root if only roots are selected. */
  lemma QueryRowsStored(db: Db, tf: Filter, r: Row)
    requires r in QueryRows(db, tf)
    ensures r in db.rows && (tf.skipInner ==> r.txid.Some?)
  {
    var s := Scan(db.rows, tf.address.None?);
    assert r in Found(db, tf);
    KeepMember(s, (x: Row) => Satisfies(db, tf, x), r);
    ScanMember(tf.address.None?, db.rows, r);
  }

  lemma PageRowsStored(db: Db, tf: Filter, at: Option<Key>)
    ensures forall r | r in PageRows(db, tf, at) :: r in db.rows && (tf.skipInner ==> r.txid.Some?)
  {
    forall r | r in PageRows(db, tf, at) ensures r in db.rows && (tf.skipInner ==> r.txid.Some?) {
      if r in QueryRows(db, tf) {
        QueryRowsStored(db, tf, r);
      } else {
        var rest := RestOfRound(tf, at.value);
        var others := OtherRounds(tf, at.value,
                                  if |QueryRows(db, rest)| < tf.limit then tf.limit - |QueryRows(db, rest)| else 0);
        if r in QueryRows(db, rest) {
          QueryRowsStored(db, rest, r);
        } else {
          QueryRowsStored(db, others, r);
        }
      }
    }
  }

  /** The converted row: the root transaction, with the id it is de-duplicated by. Converting fails for a
      tree with a local delta whose account is not listed. */
  function TxnRowToTransaction(tr: TxnRow): Result<(string, Hit)> {
    if tr.rootTxn.Some? && tr.txn.Some? then Err("Txn and RootTxn should be mutually exclusive")
    else if Tree(tr).None? then Err("transaction bytes missing")
    else if !Convertible(Tree(tr).value) then Err("invalid Account Index in LocalDelta")
    else Ok((TxnId(tr), Hit(Position(tr), Tree(tr).value)))
  }

  ghost predicate Shown(rows: seq<Row>, joinRoot: bool, r: Row) {
    r in rows && (joinRoot || r.txid.Some?)
  }

  ghost predicate RootConverts(rows: seq<Row>, r: Row) {
    Convertible(RootOf(rows, r).txn)
  }

  lemma Converted(rows: seq<Row>, joinRoot: bool, r: Row)
    requires WellStored(rows) && Shown(rows, joinRoot, r)
    ensures var tx := TxnRowToTransaction(Returned(rows, joinRoot, r));
            if RootConverts(rows, r) then tx == Ok((RootOf(rows, r).txn.body.id, HitOf(rows, r))) else tx.Err?
    ensures NextKey(Returned(rows, joinRoot, r), true) == GroupEnd(rows, true, r)
    ensures NextKey(Returned(rows, joinRoot, r), false) == GroupEnd(rows, false, r)
  {
    ReturnedRoot(rows, joinRoot, r);
  }

  ghost function RootIds(rows: seq<Row>, s: seq<Row>): set<string> {
    set x | x in s :: RootOf(rows, x).txn.body.id
  }

  /** The state of the de-duplication loop after the rows `s`. */
  ghost predicate Collected(rows: seq<Row>, joinRoot: bool, s: seq<Row>, seen: set<string>, results: seq<Hit>,
                            last: TxnRow) {
    && results == PageHits(rows, s)
    && seen == RootIds(rows, s)
    && (s != [] ==> last == Returned(rows, joinRoot, LastRow(s)))
  }

  lemma SeenBefore(rows: seq<Row>, s: seq<Row>, r: Row)
    requires WellStored(rows) && r in rows && (forall x | x in s :: x in rows)
    ensures RootOf(rows, r).txn.body.id in RootIds(rows, s) <==> Repeats(s, r)
  {
    if Repeats(s, r) {
      var q :| q in s && RootKey(q) == RootKey(r);
      HitPerGroup(rows, q, r);
    }
    if RootOf(rows, r).txn.body.id in RootIds(rows, s) {
      var x :| x in s && RootOf(rows, x).txn.body.id == RootOf(rows, r).txn.body.id;
      HitPerGroup(rows, x, r);
    }
  }

  /** What one more row adds to a page. */
  lemma PageHitsSnoc(rows: seq<Row>, s: seq<Row>, r: Row)
    ensures PageHits(rows, s + [r]) == PageHits(rows, s) + (if Repeats(s, r) then [] else [HitOf(rows, r)])
    ensures Repeats(s, r) && s != [] ==> LastRow(s + [r]) == LastRow(s)
    ensures !Repeats(s, r) ==> LastRow(s + [r]) == r
  {
    var t := s + [r];
    assert t[..|s|] == s && t[|s|] == r;
    if Repeats(s, r) {
      FirstOfEachCovers(s, s[0]);
    }
  }

  lemma CollectStep(rows: seq<Row>, joinRoot: bool, s: seq<Row>, r: Row, seen: set<string>, results: seq<Hit>,
                    last: TxnRow)
    requires WellStored(rows) && r in rows && (forall x | x in s :: x in rows)
    requires Collected(rows, joinRoot, s, seen, results, last)
    ensures var id := RootOf(rows, r).txn.body.id;
            if id in seen then Collected(rows, joinRoot, s + [r], seen, results, last)
            else Collected(rows, joinRoot, s + [r], seen + {id}, results + [HitOf(rows, r)],
                           Returned(rows, joinRoot, r))
  {
    SeenBefore(rows, s, r);
    PageHitsSnoc(rows, s, r);
    assert RootIds(rows, s + [r]) == RootIds(rows, s) + {RootOf(rows, r).txn.body.id};
  }

  /** One round of the loop: the next row `r` is skipped or added. */
  ghost predicate Steps(table: seq<Row>, join: bool, q: seq<Row>, r: Row, seen: set<string>, results: seq<Hit>,
                        last: TxnRow) {
    var tr := Returned(table, join, r);
    var tx := TxnRowToTransaction(tr);
    if tx.Err? then !RootConverts(table, r)
    else
      && RootConverts(table, r)
      && if tx.value.0 in seen then Collected(table, join, q, seen, results, last)
         else Collected(table, join, q, seen + {tx.value.0}, results + [tx.value.1], tr)
  }

  lemma DedupStep(table: seq<Row>, join: bool, p: seq<Row>, r: Row, q: seq<Row>,
                  seen: set<string>, results: seq<Hit>, last: TxnRow)
    requires WellStored(table) && Shown(table, join, r) && (forall x | x in p :: x in table) && q == p + [r]
    requires Collected(table, join, p, seen, results, last)
    ensures Steps(table, join, q, r, seen, results, last)
  {
    Converted(table, join, r);
    CollectStep(table, join, p, r, seen, results, last);
  }

  lemma PrefixShown(table: seq<Row>, join: bool, s: seq<Row>, k: nat)
    requires k <= |s| && forall x | x in s :: Shown(table, join, x)
    ensures forall x | x in s[..k] :: x in table
  {
    forall x | x in s[..k] ensures x in table {
      assert x in s;
    }
  }

  /** Converts one row; keeps it unless its root was seen before. */
  method Absorb(tr: TxnRow, seen: set<string>, results: seq<Hit>, last: TxnRow,
                ghost table: seq<Row>, ghost join: bool, ghost s: seq<Row>, ghost k: nat)
    returns (ok: bool, seen': set<string>, results': seq<Hit>, last': TxnRow)
    requires WellStored(table) && (forall x | x in s :: Shown(table, join, x)) && k < |s|
    requires tr == Returned(table, join, s[k]) && Collected(table, join, s[..k], seen, results, last)
    ensures ok <==> RootConverts(table, s[k])
    ensures ok ==> Collected(table, join, s[..k + 1], seen', results', last')
  {
    PrefixShown(table, join, s, k);
    assert s[k] in s;
    DedupStep(table, join, s[..k], s[k], s[..k + 1], seen, results, last);
    ok, seen', results', last' := true, seen, results, last;
    var tx := TxnRowToTransaction(tr);
    if tx.Err? {
      ok := false;
    } else if tx.value.0 !in seen {
      seen' := seen + {tx.value.0};
      results' := results + [tx.value.1];
      last' := tr;
    }
  }

  /** Converts the rows of a page, drops repeated roots and remembers the last row kept; stops at a tree
      that cannot be converted. */
  method Deduplicate(rows: seq<TxnRow>, ghost table: seq<Row>, ghost join: bool, ghost s: seq<Row>)
    returns (ok: bool, results: seq<Hit>, last: TxnRow)
    requires WellStored(table) && (forall x | x in s :: Shown(table, join, x))
    requires rows == AllReturned(table, join, s)
    ensures ok <==> forall x | x in s :: RootConverts(table, x)
    ensures ok ==> results == PageHits(table, s)
    ensures ok && s != [] ==> last == Returned(table, join, LastRow(s))
  {
    var seen: set<string> := {};
    ok, results, last := true, [], TxnRow(0, 0, None, None, None, "");
    for k := 0 to |rows|
      invariant ok && Collected(table, join, s[..k], seen, results, last)
      invariant forall x | x in s[..k] :: RootConverts(table, x)
    {
      assert s[k] in s && s[..k + 1] == s[..k] + [s[k]];
      ok, seen, results, last := Absorb(rows[k], seen, results, last, table, join, s, k);
      if !ok {
        return;
      }
    }
    assert s[..|rows|] == s;
  }

  ghost predicate AllConvert(rows: seq<Row>, s: seq<Row>) {
    forall x | x in s :: RootConverts(rows, x)
  }

  /** One page of a search: the root of every row of the page, each once, in order; and the token that
      skips the group of the page's last root. It fails for a bad token, for clashing ids, and for a root
      that cannot be converted. */
  method FetchTransactions(db: Db, tf: Filter) returns (r: Result<(seq<Hit>, string)>)
    requires WellStored(db.rows) && !tf.skipConversion
    ensures r.Err? <==>
              || BadToken(tf.nextToken) || (CreatableClash(tf.criteria) && !AtBeginning(tf))
              || !AllConvert(db.rows, PageRows(db, TxnFilterOptimization(tf), StartOf(tf.nextToken)))
    ensures r.Ok? ==>
              var s := PageRows(db, TxnFilterOptimization(tf), StartOf(tf.nextToken));
              && r.value.0 == PageHits(db.rows, s)
              && (s == [] <==> r.value.0 == [])
              && (s != [] ==> r.value.1 == EncodeToken(GroupEnd(db.rows, tf.address.None?, LastRow(s))))
    ensures r.Ok? && tf.limit > 0 && (tf.criteria.groupId == [] || tf.limit < 16) ==> |r.value.0| <= tf.limit
    ensures r.Ok? && tf.nextToken == "" && (tf.limit == 0 || (tf.criteria.groupId != [] && tf.limit >= 16)) ==>
              AnswersRows(db.rows, tf.address.None?, Found(db, TxnFilterOptimization(tf)), r.value.0)
  {
    var rows := Transactions(db, tf);
    ghost var at := StartOf(tf.nextToken);
    PageFacts(db, TxnFilterOptimization(tf), at);
    if rows.Err? {
      return Err(rows.error);
    }
    ghost var o := TxnFilterOptimization(tf);
    ghost var s := PageRows(db, o, StartOf(tf.nextToken));
    PageRowsStored(db, o, StartOf(tf.nextToken));
    PageEmpty(s);
    var ok, results, last := Deduplicate(rows.value, db.rows, JoinsRoot(o), s);
    if !ok {
      return Err("failure converting signed transaction to response");
    }
    if |results| == 0 {
      return Ok(([], ""));
    }
    Converted(db.rows, JoinsRoot(o), LastRow(s));
    var next := Next(last, tf.address.None?);
    return Ok((results, next.value));
  }

  lemma PageFacts(db: Db, o: Filter, at: Option<Key>)
    requires WellStored(db.rows)
    ensures var s := PageRows(db, o, at);
            && (o.limit > 0 && (o.criteria.groupId == [] || o.limit < 16) ==> |PageHits(db.rows, s)| <= o.limit)
            && (at.None? && (o.limit == 0 || (o.criteria.groupId != [] && o.limit >= 16)) ==>
                  AnswersRows(db.rows, o.address.None?, Found(db, o), PageHits(db.rows, s)))
  {
    PageLength(db, o, at);
    FewerFirst(PageRows(db, o, at));
    if at.None? && (o.limit == 0 || (o.criteria.groupId != [] && o.limit >= 16)) {
      PageFromTable(db, o, None);
      PageAnswers(db.rows, o.address.None?, PageRows(db, o, None));
    }
  }

  lemma {:induction false} FewerFirst(s: seq<Row>)
    ensures |FirstOfEach(s)| <= |s|
  {
    if s != [] {
      FewerFirst(s[..|s| - 1]);
    }
  }

  lemma PageEmpty(s: seq<Row>)
    ensures s == [] <==> FirstOfEach(s) == []
    ensures s != [] ==> LastRow(s) in s
  {
    if s != [] {
      FirstOfEachCovers(s, s[0]);
      FirstOfEachFrom(s);
      var f := FirstOfEach(s);
      assert f[|f| - 1] in f;
    }
  }

  // ---------------------------------------------------------------- a whole run

  lemma FoundAnyToken(db: Db, tf: Filter, token: string)
    ensures Found(db, tf.(nextToken := token)) == Found(db, tf)
  {
    var f := tf.(nextToken := token);
    var s := Scan(db.rows, tf.address.None?);
    forall r | r in s ensures Satisfies(db, f, r) <==> Satisfies(db, tf, r) {}
    KeepSame(s, (r: Row) => Satisfies(db, f, r), (r: Row) => Satisfies(db, tf, r));
  }

  lemma QueryAnyToken(db: Db, tf: Filter, f: Filter)
    requires f == tf.(nextToken := f.nextToken)
    ensures QueryRows(db, f) == QueryRows(db, tf)
  {
    FoundAnyToken(db, tf, f.nextToken);
  }

  lemma ResumeAnyToken(tf: Filter, f: Filter, key: Key, limit: nat)
    requires f == tf.(nextToken := f.nextToken)
    ensures RestOfRound(f, key) == RestOfRound(tf, key).(nextToken := f.nextToken)
    ensures OtherRounds(f, key, limit) == OtherRounds(tf, key, limit).(nextToken := f.nextToken)
  {}

  lemma RowsAfterAnyToken(db: Db, tf: Filter, f: Filter, key: Key)
    requires f == tf.(nextToken := f.nextToken)
    ensures RowsAfter(db, f, key) == RowsAfter(db, tf, key)
  {
    ResumeAnyToken(tf, f, key, 0);
    QueryAnyToken(db, RestOfRound(tf, key), RestOfRound(f, key));
    var count := |QueryRows(db, RestOfRound(tf, key))|;
    if count < tf.limit {
      ResumeAnyToken(tf, f, key, tf.limit - count);
      QueryAnyToken(db, OtherRounds(tf, key, tf.limit - count), OtherRounds(f, key, tf.limit - count));
    }
  }

  /** The page a token leads to depends on the token's position and on the rest of the filter. */
  lemma PageAnyToken(db: Db, tf: Filter, token: string)
    ensures PageRows(db, TxnFilterOptimization(tf.(nextToken := token)), StartOf(token))
         == PageRows(db, TxnFilterOptimization(tf.(nextToken := "")), StartOf(token))
  {
    var o, f := TxnFilterOptimization(tf.(nextToken := "")), TxnFilterOptimization(tf.(nextToken := token));
    assert f == o.(nextToken := token);
    QueryAnyToken(db, o, f);
    var at := StartOf(token);
    if at.Some? {
      RowsAfterAnyToken(db, o, f, at.value);
    }
  }

  /** The hits of a page that converts. */
  lemma HitsConvert(rows: seq<Row>, s: seq<Row>)
    requires AllConvert(rows, s)
    ensures forall h | h in PageHits(rows, s) :: Convertible(h.txn)
  {
    FirstOfEachFrom(s);
    var f := FirstOfEach(s);
    forall k | 0 <= k < |f| ensures Convertible(PageHits(rows, s)[k].txn) {
      assert f[k] in f && RootConverts(rows, f[k]);
    }
  }

  lemma AnswerConverts(rows: seq<Row>, asc: bool, s: seq<Row>, hits: seq<Hit>)
    requires AnswersRows(rows, asc, s, hits) && forall h | h in hits :: Convertible(h.txn)
    ensures AllConvert(rows, s)
  {
    forall x | x in s ensures RootConverts(rows, x) {
      assert IsHitIn(rows, s, HitOf(rows, x));
    }
  }

  lemma PageNotFound(db: Db, o: Filter, at: Option<Key>)
    requires WellStored(db.rows) && (at.Some? ==> Fits(o, at.value)) && !AllConvert(db.rows, PageRows(db, o, at))
    ensures !AllConvert(db.rows, Found(db, o))
  {
    var x :| x in PageRows(db, o, at) && !RootConverts(db.rows, x);
    PageFromTable(db, o, at);
    KeepMember(Scan(db.rows, o.address.None?), (r: Row) => Satisfies(db, o, r), x);
    ScanMember(o.address.None?, db.rows, x);
  }

  /** Following the tokens until a page is empty ends, and returns exactly the roots of all rows that
      satisfy the filter, each once, in the order of the result: for every well-stored table, every
      filter in root-converting mode, every limit and both directions. It fails exactly for clashing ids
      and when one of those roots cannot be converted. */
  method FetchAll(db: Db, tf: Filter) returns (r: Result<seq<Hit>>)
    requires WellStored(db.rows) && !tf.skipConversion
    ensures var found := Found(db, TxnFilterOptimization(tf.(nextToken := "")));
            && (r.Err? <==> CreatableClash(tf.criteria) || !AllConvert(db.rows, found))
            && (r.Ok? ==> AnswersRows(db.rows, tf.address.None?, found, r.value))
  {
    ghost var o := TxnFilterOptimization(tf.(nextToken := ""));
    var token, acc := "", [];
    ProgressStart(db, o);
    while true
      invariant token != "" ==> DecodeToken(token).Some? && !CreatableClash(tf.criteria)
      invariant Progress(db, o, StartOf(token), acc)
      invariant forall h | h in acc :: Convertible(h.txn)
      decreases |Left(db, o, StartOf(token))|
    {
      var page := FetchTransactions(db, tf.(nextToken := token));
      PageAnyToken(db, tf, token);
      ghost var at := StartOf(token);
      if page.Err? {
        if !CreatableClash(tf.criteria) {
          PageNotFound(db, o, at);
        }
        return Err(page.error);
      }
      if page.value.0 == [] {
        ProgressEnd(db, o, at, acc);
        AnswerConverts(db.rows, tf.address.None?, Found(db, o), acc);
        return Ok(acc);
      }
      ghost var next := NextPosition(db, o, at);
      ProgressStep(db, o, at, acc);
      Shrinks(db, o, at);
      TokenRoundTrip(next);
      HitsConvert(db.rows, PageRows(db, o, at));
      acc := acc + page.value.0;
      token := page.value.1;
    }
  }
}
