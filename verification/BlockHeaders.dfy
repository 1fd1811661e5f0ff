/** Searching block headers: time bounds turned into round bounds, and paging by the last round. */
module BlockHeaders {
  import opened Outcomes
  import opened Ledger
  import opened PageToken

  /** A row of `block_header`. Block times are whole seconds. */
  datatype Header = Header(round: nat, time: nat, proposer: Option<Address>, expired: set<Address>,
                           absent: set<Address>)

  const SECOND := 1_000_000_000

  /** Times of a filter are in nanoseconds. */
  datatype Filter = Filter(
    limit: nat, maxRound: Option<nat>, minRound: Option<nat>, afterTime: Option<nat>, beforeTime: Option<nat>,
    proposers: set<Address>, expired: set<Address>, absent: set<Address>)

  /** The table in the order of its primary key, with times that never go back. */
  ghost predicate WellOrdered(rows: seq<Header>) {
    forall i, j | 0 <= i < j < |rows| :: rows[i].round < rows[j].round && rows[i].time <= rows[j].time
  }

  // ---------------------------------------------------------------- the query

  datatype Term =
    | UpToRound(round: nat) | FromRound(round: nat)
    | FromTime(seconds: nat) | UpToTime(seconds: nat)
    | ProposedBy(addrs: set<Address>) | Expires(addrs: set<Address>) | Suspends(addrs: set<Address>)

  /** `SELECT round ... WHERE realtime > t ORDER BY realtime ASC, round ASC LIMIT 1` */
  function EarliestAfter(rows: seq<Header>, t: nat): Option<Header> {
    if rows == [] then None
    else
      var n := |rows| - 1;
      var best := EarliestAfter(rows[..n], t);
      if rows[n].time <= t then best
      else if best.None? || rows[n].time < best.value.time
        || (rows[n].time == best.value.time && rows[n].round < best.value.round)
      then Some(rows[n]) else best
  }

  /** `SELECT round ... WHERE realtime < t ORDER BY realtime DESC, round DESC LIMIT 1` */
  function LatestBefore(rows: seq<Header>, t: nat): Option<Header> {
    if rows == [] then None
    else
      var n := |rows| - 1;
      var best := LatestBefore(rows[..n], t);
      if rows[n].time >= t then best
      else if best.None? || rows[n].time > best.value.time
        || (rows[n].time == best.value.time && rows[n].round > best.value.round)
      then Some(rows[n]) else best
  }

  predicate TermHolds(rows: seq<Header>, h: Header, t: Term) {
    match t
    case UpToRound(n) => h.round <= n
    case FromRound(n) => h.round >= n
    case FromTime(s) => var r := EarliestAfter(rows, s); r.Some? && h.round >= r.value.round
    case UpToTime(s) => var r := LatestBefore(rows, s); r.Some? && h.round <= r.value.round
    case ProposedBy(a) => h.proposer.Some? && h.proposer.value in a
    case Expires(a) => !(h.expired !! a)
    case Suspends(a) => !(h.absent !! a)
  }

  predicate AllHold(rows: seq<Header>, h: Header, terms: seq<Term>) {
    forall k | 0 <= k < |terms| :: TermHolds(rows, h, terms[k])
  }

  function Add(terms: seq<Term>, b: bool, t: Term): seq<Term> {
    if b then terms + [t] else terms
  }

  function Value(o: Option<nat>): nat {
    if o.Some? then o.value else 0
  }

  /** The terms of the WHERE clause for a filter. */
  function Terms(bf: Filter): seq<Term> {
    var a := Add([], bf.maxRound.Some?, UpToRound(Value(bf.maxRound)));
    var b := Add(a, bf.minRound.Some?, FromRound(Value(bf.minRound)));
    var c := Add(b, bf.afterTime.Some?, FromTime(Value(bf.afterTime) / SECOND));
    var d := Add(c, bf.beforeTime.Some?, UpToTime(Value(bf.beforeTime) / SECOND));
    var e := Add(d, bf.proposers != {}, ProposedBy(bf.proposers));
    var f := Add(e, bf.expired != {}, Expires(bf.expired));
    Add(f, bf.absent != {}, Suspends(bf.absent))
  }

  lemma AddHolds(rows: seq<Header>, h: Header, terms: seq<Term>, b: bool, t: Term)
    ensures AllHold(rows, h, Add(terms, b, t)) <==> AllHold(rows, h, terms) && (b ==> TermHolds(rows, h, t))
  {
    var all := Add(terms, b, t);
    if b && AllHold(rows, h, all) {
      assert all[|terms|] == t;
      assert forall k | 0 <= k < |terms| :: all[k] == terms[k];
    }
  }

  lemma TermsMean(rows: seq<Header>, bf: Filter, h: Header)
    ensures AllHold(rows, h, Terms(bf)) <==> Asked(rows, bf, h)
  {
    var a := Add([], bf.maxRound.Some?, UpToRound(Value(bf.maxRound)));
    var b := Add(a, bf.minRound.Some?, FromRound(Value(bf.minRound)));
    var c := Add(b, bf.afterTime.Some?, FromTime(Value(bf.afterTime) / SECOND));
    var d := Add(c, bf.beforeTime.Some?, UpToTime(Value(bf.beforeTime) / SECOND));
    var e := Add(d, bf.proposers != {}, ProposedBy(bf.proposers));
    var f := Add(e, bf.expired != {}, Expires(bf.expired));
    AddHolds(rows, h, [], bf.maxRound.Some?, UpToRound(Value(bf.maxRound)));
    AddHolds(rows, h, a, bf.minRound.Some?, FromRound(Value(bf.minRound)));
    AddHolds(rows, h, b, bf.afterTime.Some?, FromTime(Value(bf.afterTime) / SECOND));
    AddHolds(rows, h, c, bf.beforeTime.Some?, UpToTime(Value(bf.beforeTime) / SECOND));
    AddHolds(rows, h, d, bf.proposers != {}, ProposedBy(bf.proposers));
    AddHolds(rows, h, e, bf.expired != {}, Expires(bf.expired));
    AddHolds(rows, h, f, bf.absent != {}, Suspends(bf.absent));
  }

  /** Builds the terms of the WHERE clause: whatever the table holds, a header meets them all exactly
      when it is what the filter asks for. */
  method BuildBlockHeadersQuery(bf: Filter) returns (terms: seq<Term>)
    ensures forall rows, h :: AllHold(rows, h, terms) <==> Asked(rows, bf, h)
  {
    terms := [];
    if bf.maxRound.Some? {
      terms := terms + [UpToRound(bf.maxRound.value)];
    }
    if bf.minRound.Some? {
      terms := terms + [FromRound(bf.minRound.value)];
    }
    if bf.afterTime.Some? {
      terms := terms + [FromTime(bf.afterTime.value / SECOND)];
    }
    if bf.beforeTime.Some? {
      terms := terms + [UpToTime(bf.beforeTime.value / SECOND)];
    }
    if bf.proposers != {} {
      terms := terms + [ProposedBy(bf.proposers)];
    }
    if bf.expired != {} {
      terms := terms + [Expires(bf.expired)];
    }
    if bf.absent != {} {
      terms := terms + [Suspends(bf.absent)];
    }
    assert terms == Terms(bf);
    forall rows, h ensures AllHold(rows, h, terms) <==> Asked(rows, bf, h) {
      TermsMean(rows, bf, h);
    }
  }

  predicate InRounds(bf: Filter, h: Header) {
    && (bf.maxRound.Some? ==> h.round <= bf.maxRound.value)
    && (bf.minRound.Some? ==> h.round >= bf.minRound.value)
  }

  predicate Takes(bf: Filter, h: Header) {
    && (bf.proposers != {} ==> h.proposer.Some? && h.proposer.value in bf.proposers)
    && (bf.expired != {} ==> !(h.expired !! bf.expired))
    && (bf.absent != {} ==> !(h.absent !! bf.absent))
  }

  /** What the query asks of a header. */
  predicate Asked(rows: seq<Header>, bf: Filter, h: Header) {
    && InRounds(bf, h) && Takes(bf, h)
    && (bf.afterTime.Some? ==> TermHolds(rows, h, FromTime(bf.afterTime.value / SECOND)))
    && (bf.beforeTime.Some? ==> TermHolds(rows, h, UpToTime(bf.beforeTime.value / SECOND)))
  }

  /** What the caller asks of a header: to lie strictly inside the time window. */
  predicate Wanted(bf: Filter, h: Header) {
    && InRounds(bf, h) && Takes(bf, h)
    && (bf.afterTime.Some? ==> h.time * SECOND > bf.afterTime.value)
    && (bf.beforeTime.Some? ==> h.time * SECOND < bf.beforeTime.value)
  }

  // ---------------------------------------------------------------- times as rounds

  lemma {:induction false} EarliestAfterIs(rows: seq<Header>, t: nat)
    ensures var r := EarliestAfter(rows, t);
            && (r.None? ==> forall h | h in rows :: h.time <= t)
            && (r.Some? ==>
                  && r.value in rows && r.value.time > t
                  && forall h | h in rows && h.time > t ::
                       h.time > r.value.time || (h.time == r.value.time && h.round >= r.value.round))
  {
    if rows != [] {
      EarliestAfterIs(rows[..|rows| - 1], t);
      assert rows == rows[..|rows| - 1] + [rows[|rows| - 1]];
    }
  }

  lemma {:induction false} LatestBeforeIs(rows: seq<Header>, t: nat)
    ensures var r := LatestBefore(rows, t);
            && (r.None? ==> forall h | h in rows :: h.time >= t)
            && (r.Some? ==>
                  && r.value in rows && r.value.time < t
                  && forall h | h in rows && h.time < t ::
                       h.time < r.value.time || (h.time == r.value.time && h.round <= r.value.round))
  {
    if rows != [] {
      LatestBeforeIs(rows[..|rows| - 1], t);
      assert rows == rows[..|rows| - 1] + [rows[|rows| - 1]];
    }
  }

  lemma Monotone(rows: seq<Header>, a: Header, b: Header)
    requires WellOrdered(rows) && a in rows && b in rows
    ensures a.round < b.round ==> a.time <= b.time
    ensures a.round == b.round ==> a == b
  {
    var i :| 0 <= i < |rows| && rows[i] == a;
    var j :| 0 <= j < |rows| && rows[j] == b;
  }

  /** The round bound selects exactly the headers on the right side of the time, ties and empty
      sub-selects included. */
  lemma TimeAsRound(rows: seq<Header>, h: Header, t: nat)
    requires WellOrdered(rows) && h in rows
    ensures TermHolds(rows, h, FromTime(t)) <==> h.time > t
    ensures TermHolds(rows, h, UpToTime(t)) <==> h.time < t
  {
    EarliestAfterIs(rows, t);
    LatestBeforeIs(rows, t);
    var a, b := EarliestAfter(rows, t), LatestBefore(rows, t);
    if a.Some? {
      Monotone(rows, a.value, h);
      Monotone(rows, h, a.value);
    }
    if b.Some? {
      Monotone(rows, b.value, h);
      Monotone(rows, h, b.value);
    }
  }

  /** The header's second is cut by an upper bound that is not a whole second. */
  predicate InCutSecond(bf: Filter, h: Header) {
    bf.beforeTime.Some? && bf.beforeTime.value % SECOND != 0 && h.time == bf.beforeTime.value / SECOND
  }

  /** The query returns a header exactly when the caller wants it, except that an upper bound that is
      not a whole second loses the blocks of the second it falls into. */
  lemma QueryIsExact(rows: seq<Header>, bf: Filter, h: Header)
    requires WellOrdered(rows) && h in rows
    ensures Asked(rows, bf, h) <==> Wanted(bf, h) && !InCutSecond(bf, h)
  {
    if bf.afterTime.Some? {
      TimeAsRound(rows, h, bf.afterTime.value / SECOND);
    }
    if bf.beforeTime.Some? {
      TimeAsRound(rows, h, bf.beforeTime.value / SECOND);
    }
  }

  // ---------------------------------------------------------------- pages

  function Keep(rows: seq<Header>, p: Header -> bool): seq<Header> {
    if rows == [] then []
    else Keep(rows[..|rows| - 1], p) + if p(rows[|rows| - 1]) then [rows[|rows| - 1]] else []
  }

  lemma {:induction false} KeepSame(rows: seq<Header>, p: Header -> bool, q: Header -> bool)
    requires forall h | h in rows :: p(h) <==> q(h)
    ensures Keep(rows, p) == Keep(rows, q)
  {
    if rows != [] {
      assert rows[|rows| - 1] in rows;
      assert forall h | h in rows[..|rows| - 1] :: h in rows;
      KeepSame(rows[..|rows| - 1], p, q);
    }
  }

  lemma {:induction false} KeepMember(rows: seq<Header>, p: Header -> bool, h: Header)
    ensures h in Keep(rows, p) <==> h in rows && p(h)
  {
    if rows != [] {
      KeepMember(rows[..|rows| - 1], p, h);
      assert rows == rows[..|rows| - 1] + [rows[|rows| - 1]];
    }
  }

  lemma {:induction false} KeepOrdered(rows: seq<Header>, p: Header -> bool)
    requires WellOrdered(rows)
    ensures WellOrdered(Keep(rows, p))
  {
    if rows != [] {
      var n := |rows| - 1;
      KeepOrdered(rows[..n], p);
      var front := Keep(rows[..n], p);
      if p(rows[n]) {
        forall i | 0 <= i < |front| ensures front[i].round < rows[n].round && front[i].time <= rows[n].time {
          KeepMember(rows[..n], p, front[i]);
        }
      }
    }
  }

  /** The headers beyond round `n` of an ordered list are those that follow the one with round `n`. */
  lemma {:induction false} KeepBeyond(rows: seq<Header>, p: Header -> bool, k: nat)
    requires WellOrdered(rows) && k < |Keep(rows, p)|
    ensures Keep(rows, (h: Header) => p(h) && h.round > Keep(rows, p)[k].round) == Keep(rows, p)[k + 1..]
  {
    var n := |rows| - 1;
    var front, all := Keep(rows[..n], p), Keep(rows, p);
    var q := (h: Header) => p(h) && h.round > all[k].round;
    KeepOrdered(rows, p);
    if k < |front| {
      KeepBeyond(rows[..n], p, k);
      KeepMember(rows[..n], p, front[k]);
      assert front[k] == all[k];
      assert rows[n].round > all[k].round;
      assert all[k + 1..] == front[k + 1..] + (if p(rows[n]) then [rows[n]] else []);
      KeepSame(rows[..n], q, (h: Header) => p(h) && h.round > front[k].round);
    } else {
      assert all[k] == rows[n];
      forall h | h in rows[..n] ensures !q(h) {}
      KeepNone(rows[..n], q);
    }
  }

  lemma {:induction false} KeepNone(rows: seq<Header>, p: Header -> bool)
    requires forall h | h in rows :: !p(h)
    ensures Keep(rows, p) == []
  {
    if rows != [] {
      assert rows[|rows| - 1] in rows;
      assert forall h | h in rows[..|rows| - 1] :: h in rows;
      KeepNone(rows[..|rows| - 1], p);
    }
  }

  /** All headers the filter asks for, in order. */
  function Answer(rows: seq<Header>, bf: Filter): seq<Header> {
    Keep(rows, (h: Header) => Asked(rows, bf, h))
  }

  /** The answer is the list of wanted headers exactly when no wanted header lies in a cut second. */
  lemma AnswerIsWanted(rows: seq<Header>, bf: Filter)
    requires WellOrdered(rows)
    ensures WellOrdered(Answer(rows, bf))
    ensures Answer(rows, bf) == Keep(rows, (h: Header) => Wanted(bf, h)) <==>
              forall h | h in rows && Wanted(bf, h) :: !InCutSecond(bf, h)
  {
    var asked, wanted := (h: Header) => Asked(rows, bf, h), (h: Header) => Wanted(bf, h);
    KeepOrdered(rows, asked);
    forall h | h in rows ensures asked(h) <==> wanted(h) && !InCutSecond(bf, h) {
      QueryIsExact(rows, bf, h);
    }
    if h :| h in rows && wanted(h) && InCutSecond(bf, h) {
      KeepMember(rows, asked, h);
      KeepMember(rows, wanted, h);
    } else {
      KeepSame(rows, asked, wanted);
    }
  }

  function Page(rows: seq<Header>, bf: Filter): seq<Header> {
    var all := Answer(rows, bf);
    if bf.limit < |all| then all[..bf.limit] else all
  }

  method FetchBlockHeaders(rows: seq<Header>, bf: Filter) returns (results: seq<Header>, next: string)
    requires forall h | h in rows :: h.round < MAX_INT64
    ensures results == Page(rows, bf)
    ensures next == if results == [] then "" else EncodeBlockToken(results[|results| - 1].round)
  {
    var terms := BuildBlockHeadersQuery(bf);
    KeepSame(rows, (h: Header) => AllHold(rows, h, terms), (h: Header) => Asked(rows, bf, h));
    var found := Keep(rows, (h: Header) => AllHold(rows, h, terms));
    var sent := if bf.limit < |found| then found[..bf.limit] else found;
    results, next := [], "";
    for k := 0 to |sent|
      invariant results == sent[..k]
    {
      results := results + [sent[k]];
    }
    if |results| != 0 {
      next := EncodeBlockToken(results[|results| - 1].round);
    }
  }

  /** The request's own bounds; the token of the previous page raises the lower one (as a 64-bit number). */
  function WithToken(bf: Filter, last: nat): Filter {
    var from := (last + 1) % TWO_64;
    bf.(minRound := Some(if bf.minRound.Some? && bf.minRound.value > from then bf.minRound.value else from))
  }

  lemma AskedWithToken(rows: seq<Header>, bf: Filter, last: nat, h: Header)
    requires last < MAX_INT64
    ensures Asked(rows, WithToken(bf, last), h) <==> Asked(rows, bf, h) && h.round > last
  {}

  /** After a page that ends with header k of the answer, the rest of the answer remains. */
  lemma Resume(rows: seq<Header>, bf: Filter, k: nat)
    requires WellOrdered(rows) && k < |Answer(rows, bf)| && Answer(rows, bf)[k].round < MAX_INT64
    ensures Answer(rows, WithToken(bf, Answer(rows, bf)[k].round)) == Answer(rows, bf)[k + 1..]
  {
    var last := Answer(rows, bf)[k].round;
    var p := (h: Header) => Asked(rows, bf, h);
    KeepBeyond(rows, p, k);
    forall h | h in rows ensures Asked(rows, WithToken(bf, last), h) <==> p(h) && h.round > last {
      AskedWithToken(rows, bf, last, h);
    }
    KeepSame(rows, (h: Header) => Asked(rows, WithToken(bf, last), h), (h: Header) => p(h) && h.round > last);
  }

  // ---------------------------------------------------------------- requests

  const MAX_INT64 := 0x7FFF_FFFF_FFFF_FFFF

  /** An address list of a request; None stands for a text that is no address. */
  type Addresses = Option<seq<Option<Address>>>

  datatype Lists = Lists(proposers: Addresses, expired: Addresses, absent: Addresses)

  datatype Params = Params(
    limit: Option<nat>, minRound: Option<nat>, maxRound: Option<nat>, afterTime: Option<nat>, beforeTime: Option<nat>,
    next: Option<string>, lists: Lists)

  datatype Options = Options(defaultLimit: nat, maxLimit: nat, maxListSize: nat)

  function Members(addrs: Addresses): set<Address> {
    if addrs.None? then {} else set a | a in addrs.value && a.Some? :: a.value
  }

  predicate BadList(addrs: Addresses, maxSize: nat) {
    addrs.Some? && (|addrs.value| > maxSize || None in addrs.value)
  }

  /** More than one list, a list that is too long, or a text that is no address. */
  predicate BadLists(l: Lists, maxSize: nat) {
    || (l.proposers.Some? && l.expired.Some?) || (l.proposers.Some? && l.absent.Some?)
    || (l.expired.Some? && l.absent.Some?)
    || BadList(l.proposers, maxSize) || BadList(l.expired, maxSize) || BadList(l.absent, maxSize)
  }

  /** Mixed-up rounds, a bad token, or bad lists. */
  predicate BadParams(p: Params, opts: Options) {
    || (p.minRound.Some? && p.maxRound.Some? && p.minRound.value > p.maxRound.value)
    || (p.next.Some? && DecodeBlockToken(p.next.value).None?)
    || BadLists(p.lists, opts.maxListSize)
  }

  function PlainFilter(p: Params, opts: Options): Filter {
    var limit := if p.limit.Some? then p.limit.value else opts.defaultLimit;
    Filter(if limit < opts.maxLimit then limit else opts.maxLimit,
           p.maxRound, p.minRound, p.afterTime, p.beforeTime,
           Members(p.lists.proposers), Members(p.lists.expired), Members(p.lists.absent))
  }

  /** What a well-formed request stands for. */
  function FilterOf(p: Params, opts: Options): Filter {
    if p.next.Some? && DecodeBlockToken(p.next.value).Some?
    then WithToken(PlainFilter(p, opts), DecodeBlockToken(p.next.value).value)
    else PlainFilter(p, opts)
  }

  method DecodeAddresses(addrs: Addresses, maxSize: nat) returns (members: set<Address>, bad: bool)
    ensures members == Members(addrs)
    ensures bad <==> BadList(addrs, maxSize)
  {
    members, bad := {}, addrs.Some? && |addrs.value| > maxSize;
    if addrs.Some? {
      var list := addrs.value;
      for k := 0 to |list|
        invariant members == Members(Some(list[..k]))
        invariant bad <==> |list| > maxSize || None in list[..k]
      {
        assert list[..k + 1] == list[..k] + [list[k]];
        if list[k].None? {
          bad := true;
        } else {
          members := members + {list[k].value};
        }
      }
      assert list[..|list|] == list;
    }
  }

  method DecodeLists(l: Lists, maxSize: nat) returns (p: set<Address>, e: set<Address>, a: set<Address>, bad: bool)
    ensures p == Members(l.proposers) && e == Members(l.expired) && a == Members(l.absent)
    ensures bad <==> BadLists(l, maxSize)
  {
    var num := 0;
    if l.proposers.Some? { num := num + 1; }
    if l.expired.Some? { num := num + 1; }
    if l.absent.Some? { num := num + 1; }
    var badP, badE, badA;
    p, badP := DecodeAddresses(l.proposers, maxSize);
    e, badE := DecodeAddresses(l.expired, maxSize);
    a, badA := DecodeAddresses(l.absent, maxSize);
    bad := num > 1 || badP || badE || badA;
  }

  method BlockParamsToBlockFilter(p: Params, opts: Options) returns (r: Result<Filter>)
    ensures r.Err? <==> BadParams(p, opts)
    ensures r.Ok? ==> r.value == FilterOf(p, opts)
  {
    var limit := if p.limit.Some? then p.limit.value else opts.defaultLimit;
    var errs := p.minRound.Some? && p.maxRound.Some? && p.minRound.value > p.maxRound.value;
    var minRound := p.minRound;
    if p.next.Some? {
      var n := DecodeBlockToken(p.next.value);
      errs := errs || n.None?;
      var from := if n.Some? then (n.value + 1) % TWO_64 else 1;
      if minRound.None? {
        minRound := Some(from);
      } else {
        minRound := Some(if minRound.value > from then minRound.value else from);
      }
    }
    var proposers, expired, absent, bad := DecodeLists(p.lists, opts.maxListSize);
    if errs || bad {
      return Err("invalid parameters");
    }
    r := Ok(Filter(if limit < opts.maxLimit then limit else opts.maxLimit, p.maxRound, minRound,
                   p.afterTime, p.beforeTime, proposers, expired, absent));
  }

  /** Rounds that do not fit a signed 64-bit number, or times the wrong way round. */
  predicate Invalid(bf: Filter) {
    || (bf.maxRound.Some? && bf.maxRound.value > MAX_INT64)
    || (bf.minRound.Some? && bf.minRound.value > MAX_INT64)
    || (bf.afterTime.Some? && bf.beforeTime.Some? && bf.afterTime.value > bf.beforeTime.value)
  }

  predicate Rejected(p: Params, opts: Options) {
    BadParams(p, opts) || Invalid(FilterOf(p, opts))
  }

  // ---------------------------------------------------------------- a request in its own terms

  /** The request lists addresses, and one of them meets `p`. */
  predicate SomeListed(addrs: Addresses, p: Address -> bool) {
    addrs.Some? && exists a | a in addrs.value :: a.Some? && p(a.value)
  }

  predicate Nonempty(addrs: Addresses) {
    addrs.Some? && addrs.value != []
  }

  /** What a request asks of a header: rounds within the bounds, a listed proposer, expired or absent
      account, a time after the lower bound, and a second that is over by the upper one. */
  predicate Requests(p: Params, h: Header) {
    && (p.minRound.Some? ==> h.round >= p.minRound.value)
    && (p.maxRound.Some? ==> h.round <= p.maxRound.value)
    && (Nonempty(p.lists.proposers) ==> SomeListed(p.lists.proposers, a => h.proposer == Some(a)))
    && (Nonempty(p.lists.expired) ==> SomeListed(p.lists.expired, a => a in h.expired))
    && (Nonempty(p.lists.absent) ==> SomeListed(p.lists.absent, a => a in h.absent))
    && (p.afterTime.Some? ==> h.time * 1_000_000_000 > p.afterTime.value)
    && (p.beforeTime.Some? ==> (h.time + 1) * 1_000_000_000 <= p.beforeTime.value)
  }

  lemma ListMeans(addrs: Addresses, p: Address -> bool)
    requires addrs.Some? ==> None !in addrs.value
    ensures Nonempty(addrs) <==> Members(addrs) != {}
    ensures SomeListed(addrs, p) <==> exists a :: a in Members(addrs) && p(a)
  {
    if Nonempty(addrs) {
      assert addrs.value[0] in addrs.value;
      assert addrs.value[0].value in Members(addrs);
    }
    if a :| a in Members(addrs) && p(a) {
      assert Some(a) in addrs.value;
    }
  }

  lemma TakesMeans(p: Params, opts: Options, h: Header)
    requires !BadLists(p.lists, opts.maxListSize)
    ensures Takes(PlainFilter(p, opts), h) <==>
              && (Nonempty(p.lists.proposers) ==> SomeListed(p.lists.proposers, a => h.proposer == Some(a)))
              && (Nonempty(p.lists.expired) ==> SomeListed(p.lists.expired, a => a in h.expired))
              && (Nonempty(p.lists.absent) ==> SomeListed(p.lists.absent, a => a in h.absent))
  {
    ListMeans(p.lists.proposers, a => h.proposer == Some(a));
    ListMeans(p.lists.expired, a => a in h.expired);
    ListMeans(p.lists.absent, a => a in h.absent);
    var e, x := Members(p.lists.expired), Members(p.lists.absent);
    assert !(h.expired !! e) <==> exists a :: a in e && a in h.expired;
    assert !(h.absent !! x) <==> exists a :: a in x && a in h.absent;
  }

  /** The query of an accepted request asks for exactly the headers the request asks for. */
  lemma RequestMeans(rows: seq<Header>, p: Params, opts: Options, h: Header)
    requires WellOrdered(rows) && h in rows && p.next.None? && !BadLists(p.lists, opts.maxListSize)
    ensures Asked(rows, FilterOf(p, opts), h) <==> Requests(p, h)
  {
    QueryIsExact(rows, PlainFilter(p, opts), h);
    TakesMeans(p, opts, h);
  }

  /** Why a first request is refused. */
  predicate Refused(p: Params, opts: Options) {
    || (p.minRound.Some? && p.maxRound.Some? && p.minRound.value > p.maxRound.value)
    || (p.lists.proposers.Some? && p.lists.expired.Some?)
    || (p.lists.proposers.Some? && p.lists.absent.Some?)
    || (p.lists.expired.Some? && p.lists.absent.Some?)
    || (exists l | l in {p.lists.proposers, p.lists.expired, p.lists.absent} ::
          l.Some? && (|l.value| > opts.maxListSize || None in l.value))
    || (p.maxRound.Some? && p.maxRound.value > 0x7FFF_FFFF_FFFF_FFFF)
    || (p.minRound.Some? && p.minRound.value > 0x7FFF_FFFF_FFFF_FFFF)
    || (p.afterTime.Some? && p.beforeTime.Some? && p.afterTime.value > p.beforeTime.value)
  }

  lemma RefusedMeans(p: Params, opts: Options)
    requires p.next.None?
    ensures Rejected(p, opts) <==> Refused(p, opts)
  {
    var l := p.lists;
    assert (exists x | x in {l.proposers, l.expired, l.absent} ::
              x.Some? && (|x.value| > opts.maxListSize || None in x.value))
      <==> BadList(l.proposers, opts.maxListSize) || BadList(l.expired, opts.maxListSize)
           || BadList(l.absent, opts.maxListSize);
  }

  /** The requested number of headers, or the default, but never more than the maximum. */
  function PageSize(p: Params, opts: Options): nat {
    match p.limit
    case Some(n) => if n <= opts.maxLimit then n else opts.maxLimit
    case None => if opts.defaultLimit <= opts.maxLimit then opts.defaultLimit else opts.maxLimit
  }

  /** `all` lists the requested headers of the table, each once, in the order of their rounds. */
  ghost predicate ListsRequested(rows: seq<Header>, p: Params, all: seq<Header>) {
    && (forall i, j | 0 <= i < j < |all| :: all[i].round < all[j].round)
    && (forall h :: h in all <==> h in rows && Requests(p, h))
  }

  lemma AnswerRequested(rows: seq<Header>, p: Params, opts: Options)
    requires WellOrdered(rows) && p.next.None? && !BadLists(p.lists, opts.maxListSize)
    ensures ListsRequested(rows, p, Answer(rows, FilterOf(p, opts)))
  {
    var asked := (h: Header) => Asked(rows, FilterOf(p, opts), h);
    KeepOrdered(rows, asked);
    forall h ensures h in Keep(rows, asked) <==> h in rows && Requests(p, h) {
      KeepMember(rows, asked, h);
      if h in rows {
        RequestMeans(rows, p, opts, h);
      }
    }
  }

  method SearchForBlockHeaders(rows: seq<Header>, p: Params, opts: Options)
    returns (r: Result<seq<Header>>, next: string)
    requires forall h | h in rows :: h.round < MAX_INT64
    ensures r.Err? <==> Rejected(p, opts)
    ensures r.Ok? ==>
              && r.value == Page(rows, FilterOf(p, opts))
              && (r.value != [] ==> next == EncodeBlockToken(r.value[|r.value| - 1].round))
              && |r.value| <= PageSize(p, opts)
              && (|r.value| == PageSize(p, opts) || r.value == Answer(rows, FilterOf(p, opts)))
  {
    next := "";
    var bf := BlockParamsToBlockFilter(p, opts);
    if bf.Err? {
      return Err(bf.error), next;
    }
    if Invalid(bf.value) {
      return Err("invalid input"), next;
    }
    var page;
    page, next := FetchBlockHeaders(rows, bf.value);
    r := Ok(page);
  }

  lemma TokenRequest(p: Params, opts: Options, token: string, last: nat)
    requires p.next.None? && !Rejected(p, opts)
    requires DecodeBlockToken(token) == Some(last) && last < MAX_INT64
    ensures !Rejected(p.(next := Some(token)), opts)
    ensures FilterOf(p.(next := Some(token)), opts) == WithToken(FilterOf(p, opts), last)
  {}

  /** With the token of header k, the request is accepted and stands for the headers after k. */
  method NextPage(rows: seq<Header>, p: Params, opts: Options, token: string, ghost all: seq<Header>, ghost k: nat)
    returns (page: seq<Header>, next: string)
    requires WellOrdered(rows) && forall h | h in rows :: h.round < MAX_INT64
    requires p.next.None? && !Rejected(p, opts) && all == Answer(rows, FilterOf(p, opts))
    requires k < |all| && token == EncodeBlockToken(all[k].round)
    ensures page <= all[k + 1..]
    ensures page != [] ==> next == EncodeBlockToken(page[|page| - 1].round)
    ensures page == [] && FilterOf(p, opts).limit > 0 ==> k + 1 == |all|
  {
    ghost var last := all[k];
    assert last.round < MAX_INT64 && DecodeBlockToken(token) == Some(last.round) by {
      KeepMember(rows, (h: Header) => Asked(rows, FilterOf(p, opts), h), last);
      BlockTokenRoundTrip(last.round);
    }
    Resume(rows, FilterOf(p, opts), k);
    TokenRequest(p, opts, token, last.round);
    var r;
    r, next := SearchForBlockHeaders(rows, p.(next := Some(token)), opts);
    page := r.value;
  }

  lemma LongerPrefix(all: seq<Header>, acc: seq<Header>, page: seq<Header>)
    requires acc <= all && page <= all[|acc|..]
    ensures acc + page <= all
    ensures page != [] ==> (acc + page)[|acc + page| - 1] == page[|page| - 1]
    ensures page == [] ==> acc + page == acc
  {}

  /** The pages after a first one, appended to it. */
  method FollowTokens(rows: seq<Header>, p: Params, opts: Options, first: seq<Header>, token: string,
                      ghost all: seq<Header>)
    returns (acc: seq<Header>)
    requires WellOrdered(rows) && forall h | h in rows :: h.round < MAX_INT64
    requires p.next.None? && !Rejected(p, opts) && all == Answer(rows, FilterOf(p, opts)) && FilterOf(p, opts).limit > 0
    requires first != [] && first <= all && token == EncodeBlockToken(first[|first| - 1].round)
    ensures acc == all
  {
    acc := first;
    var page, next := first, token;
    while page != []
      invariant acc != [] && acc <= all
      invariant page != [] ==> next == EncodeBlockToken(acc[|acc| - 1].round)
      invariant page == [] ==> acc == all
      decreases |all| - |acc|, |page|
    {
      page, next := NextPage(rows, p, opts, next, all, |acc| - 1);
      LongerPrefix(all, acc, page);
      acc := acc + page;
    }
  }

  /** Following the tokens returns every header the first request asks for, once, in order. A limit of
      0 returns nothing. */
  method FetchAllHeaders(rows: seq<Header>, p: Params, opts: Options) returns (r: Result<seq<Header>>)
    requires WellOrdered(rows) && p.next.None? && forall h | h in rows :: h.round < MAX_INT64
    ensures r.Err? <==> Refused(p, opts)
    ensures r.Ok? && PageSize(p, opts) == 0 ==> r.value == []
    ensures r.Ok? && PageSize(p, opts) > 0 ==>
              r.value == Answer(rows, FilterOf(p, opts)) && ListsRequested(rows, p, r.value)
  {
    RefusedMeans(p, opts);
    if !Refused(p, opts) {
      AnswerRequested(rows, p, opts);
    }
    var first, next := SearchForBlockHeaders(rows, p, opts);
    if first.Err? || first.value == [] {
      return first;
    }
    var all := FollowTokens(rows, p, opts, first.value, next, Answer(rows, FilterOf(p, opts)));
    r := Ok(all);
  }
}
