/** The transaction filter, the SQL query built from it, and what both mean on the stored tables. */
module TxnQuery {
  import opened Outcomes
  import opened Base64
  import opened Ledger

  // ---------------------------------------------------------------- filters

  datatype Role = Sender | Receiver | CloseRemainderTo | AssetSender | AssetReceiver | AssetCloseTo | Freeze

  /** Bounds on the position of a row. A zero `minRound` or `maxRound` is no bound. */
  datatype Window = Window(
    minRound: nat, maxRound: nat, round: Option<nat>,
    offset: Option<nat>, offsetLT: Option<nat>, offsetGT: Option<nat>)

  /** Conditions on what a row says. A zero type, an empty string and an empty byte string are no condition. */
  datatype Criteria = Criteria(
    typeEnum: nat, txid: string, sigType: string, notePrefix: seq<Byte>, groupId: seq<Byte>,
    algosGT: Option<nat>, algosLT: Option<nat>, rekeyTo: Option<bool>,
    assetId: Option<nat>, assetAmountGT: Option<nat>, assetAmountLT: Option<nat>, appId: Option<nat>,
    effectiveGT: Option<nat>, effectiveLT: Option<nat>, requireLogs: bool)

  datatype Filter = Filter(
    address: Option<Address>, roles: set<Role>, window: Window, afterTime: Option<nat>, beforeTime: Option<nat>,
    criteria: Criteria, nextToken: string, limit: nat, skipConversion: bool, skipInner: bool,
    skipOptimization: bool, headerOnly: bool)

  const NoCriteria := Criteria(0, "", "", [], [], None, None, None, None, None, None, None, None, None, false)

  // ---------------------------------------------------------------- stored tables

  /** The tables a query reads. `rows` is `txn` in the order of its primary key (round, intra),
      `headers` gives the block time of every stored block header, and `before(t)` and `after(t)` are
      the answers of the two sub-selects that turn a time into a round. Which answers a database may
      give is stated with the documented filter, in FilterMeaning. */
  datatype Db = Db(
    rows: seq<Row>, headers: map<nat, nat>, parts: set<PartRow>, before: nat -> Option<nat>, after: nat -> Option<nat>)

  // ---------------------------------------------------------------- the filter as the tables answer it

  function TypeEnum(k: Kind): nat {
    match k
    case Pay => 1
    case KeyReg => 2
    case AssetConfig => 3
    case AssetTransfer => 4
    case AssetFreeze => 5
    case AppCall => 6
    case StateProof => 7
    case Heartbeat => 8
  }

  function RoleAddress(b: Body, role: Role): Address {
    match role
    case Sender => b.sender
    case Receiver => b.receiver
    case CloseRemainderTo => b.closeTo
    case AssetSender => b.assetSender
    case AssetReceiver => b.assetReceiver
    case AssetCloseTo => b.assetCloseTo
    case Freeze => b.freezeAccount
  }

  predicate InWindow(w: Window, t: Row) {
    && w.minRound <= t.round
    && (w.maxRound == 0 || t.round <= w.maxRound)
    && (w.round.Some? ==> t.round == w.round.value)
    && (w.offset.Some? ==> t.intra == w.offset.value)
    && (w.offsetLT.Some? ==> t.intra < w.offsetLT.value)
    && (w.offsetGT.Some? ==> t.intra > w.offsetGT.value)
  }

  /** An amount is stored only when it is not zero, and a missing amount meets no bound. */
  predicate AmountWithin(amount: nat, gt: Option<nat>, lt: Option<nat>) {
    && (gt.Some? ==> amount != 0 && amount > gt.value)
    && (lt.Some? ==> amount != 0 && amount < lt.value)
  }

  /** The effective amount needs both the amount and the closing amount to be stored. */
  function EffectiveAmount(b: Body): nat {
    if b.amount == 0 || b.closingAmount == 0 then 0 else b.amount + b.closingAmount
  }

  predicate MeetsCriteria(c: Criteria, t: Row) {
    var b := t.txn.body;
    && (c.assetId.Some? ==> b.creatable == c.assetId.value)
    && (c.appId.Some? ==> b.creatable == c.appId.value)
    && AmountWithin(b.assetAmount, c.assetAmountGT, c.assetAmountLT)
    && (c.typeEnum != 0 ==> TypeEnum(b.kind) == c.typeEnum)
    && (c.txid != "" ==> t.txid == Some(c.txid))
    && (c.groupId != [] ==> b.group == c.groupId)
    && (c.sigType != "" ==> c.sigType in b.signatures)
    && c.notePrefix <= b.note
    && AmountWithin(b.amount, c.algosGT, c.algosLT)
    && AmountWithin(EffectiveAmount(b), c.effectiveGT, c.effectiveLT)
    && (c.rekeyTo == Some(true) ==> b.rekeyTo != 0)
    && (c.requireLogs ==> b.logs != [])
  }

  predicate InTime(db: Db, tf: Filter, t: Row) {
    && (tf.beforeTime.Some? ==> var r := db.before(tf.beforeTime.value); r.Some? && t.round <= r.value)
    && (tf.afterTime.Some? ==> var r := db.after(tf.afterTime.value); r.Some? && t.round >= r.value)
  }

  predicate HasRole(b: Body, roles: set<Role>, addr: Address) {
    addr != 0 && exists role | role in roles :: RoleAddress(b, role) == addr
  }

  predicate ForAddress(db: Db, tf: Filter, t: Row) {
    tf.address.Some? ==>
      && PartRow(tf.address.value, t.round, t.intra) in db.parts
      && (tf.roles != {} ==> HasRole(t.txn.body, tf.roles, tf.address.value))
  }

  /** Everything the filter asks of a row except its position. */
  predicate Matches(db: Db, tf: Filter, t: Row) {
    && t.round in db.headers
    && ForAddress(db, tf, t)
    && InTime(db, tf, t)
    && MeetsCriteria(tf.criteria, t)
    && (tf.skipInner ==> t.txid.Some?)
  }

  predicate Satisfies(db: Db, tf: Filter, t: Row) {
    Matches(db, tf, t) && InWindow(tf.window, t)
  }

  /** The one filter the builder refuses. */
  predicate CreatableClash(c: Criteria) {
    c.assetId.Some? && c.appId.Some? && c.assetId.value != c.appId.value
  }

  // ---------------------------------------------------------------- SQL conditions

  datatype Val = Num(n: nat) | Text(s: string) | Addr(a: Address) | Bytes(b: seq<Byte>)

  datatype Column =
    | PAddr | PRound | TRound | TIntra | TAsset | TTypeEnum | TTxid
    | RoleColumn(role: Role) | AssetAmount | Amount | Effective | Group | Note | RekeyTo | Logs

  datatype Cmp = Eq | Lt | Le | Gt | Ge

  /** One alternative of the role condition: the address in this role equals `v`. */
  datatype Alt<V> = Alt(role: Role, v: V)

  /** A condition of the WHERE clause over values of type `V`: argument positions ($1, $2, ...) in the
      query text, and the arguments themselves once they are filled in. */
  datatype Cond<V> =
    | Compare(col: Column, cmp: Cmp, v: V)
    | UpToTime(col: Column, v: V)
    | FromTime(col: Column, v: V)
    | AnyOf(alternatives: seq<Alt<V>>)
    | HasSignature(v: V)
    | StartsWith(length: nat, v: V)
    | NotNull(col: Column)

  datatype Query = Query(
    conds: seq<Cond<nat>>, args: seq<Val>, joinParticipation: bool, joinRoot: bool, descending: bool,
    limit: Option<nat>)

  function Argument(args: seq<Val>, position: nat): Val {
    if 1 <= position <= |args| then args[position - 1] else Num(0)
  }

  function Fill(c: Cond<nat>, args: seq<Val>): Cond<Val> {
    match c
    case Compare(col, cmp, n) => Compare(col, cmp, Argument(args, n))
    case UpToTime(col, n) => UpToTime(col, Argument(args, n))
    case FromTime(col, n) => FromTime(col, Argument(args, n))
    case AnyOf(alts) => AnyOf(seq(|alts|, k requires 0 <= k < |alts| => Alt(alts[k].role, Argument(args, alts[k].v))))
    case HasSignature(n) => HasSignature(Argument(args, n))
    case StartsWith(len, n) => StartsWith(len, Argument(args, n))
    case NotNull(col) => NotNull(col)
  }

  function Filled(conds: seq<Cond<nat>>, args: seq<Val>): seq<Cond<Val>> {
    seq(|conds|, k requires 0 <= k < |conds| => Fill(conds[k], args))
  }

  /** The argument positions a condition mentions, in the order of the text. */
  function Positions(c: Cond<nat>): seq<nat> {
    match c
    case AnyOf(alts) => seq(|alts|, k requires 0 <= k < |alts| => alts[k].v)
    case NotNull(_) => []
    case _ => [c.v]
  }

  function AllPositions(conds: seq<Cond<nat>>): seq<nat> {
    if conds == [] then [] else AllPositions(conds[..|conds| - 1]) + Positions(conds[|conds| - 1])
  }

  /** The `n` positions from `first` on. */
  function Run(first: nat, n: nat): seq<nat> {
    seq(n, k => first + k)
  }

  lemma RunAppend(first: nat, m: nat, n: nat)
    ensures Run(first, m) + Run(first + m, n) == Run(first, m + n)
  {}

  // ---------------------------------------------------------------- evaluating conditions

  function Stored(n: nat): Option<Val> {
    if n == 0 then None else Some(Num(n))
  }

  function StoredBytes(b: seq<Byte>): Option<Val> {
    if b == [] then None else Some(Bytes(b))
  }

  function StoredAddress(a: Address): Option<Val> {
    if a == 0 then None else Some(Addr(a))
  }

  /** The value of a column on a joined row; None is NULL. */
  function ColumnValue(p: Option<PartRow>, t: Row, col: Column): Option<Val> {
    var b := t.txn.body;
    match col
    case PAddr => if p.Some? then Some(Addr(p.value.addr)) else None
    case PRound => if p.Some? then Some(Num(p.value.round)) else None
    case TRound => Some(Num(t.round))
    case TIntra => Some(Num(t.intra))
    case TAsset => Some(Num(b.creatable))
    case TTypeEnum => Some(Num(TypeEnum(b.kind)))
    case TTxid => if t.txid.Some? then Some(Text(t.txid.value)) else None
    case RoleColumn(role) => StoredAddress(RoleAddress(b, role))
    case AssetAmount => Stored(b.assetAmount)
    case Amount => Stored(b.amount)
    case Effective => if b.closingAmount == 0 || b.amount == 0 then None else Some(Num(b.closingAmount + b.amount))
    case Group => StoredBytes(b.group)
    case Note => StoredBytes(b.note)
    case RekeyTo => StoredAddress(b.rekeyTo)
    case Logs => if b.logs == [] then None else Some(Num(|b.logs|))
  }

  predicate Compared(x: Val, cmp: Cmp, y: Val) {
    match cmp
    case Eq => x == y
    case Lt => x.Num? && y.Num? && x.n < y.n
    case Le => x.Num? && y.Num? && x.n <= y.n
    case Gt => x.Num? && y.Num? && x.n > y.n
    case Ge => x.Num? && y.Num? && x.n >= y.n
  }

  predicate ComparedOption(x: Option<Val>, cmp: Cmp, y: Option<Val>) {
    x.Some? && y.Some? && Compared(x.value, cmp, y.value)
  }

  function SubSelect(r: Option<nat>): Option<Val> {
    if r.Some? then Some(Num(r.value)) else None
  }

  /** Whether a condition is true of a joined row; comparing with NULL is not true. */
  predicate True(db: Db, p: Option<PartRow>, t: Row, c: Cond<Val>) {
    match c
    case Compare(col, cmp, v) => ComparedOption(ColumnValue(p, t, col), cmp, Some(v))
    case UpToTime(col, v) =>
      v.Num? && ComparedOption(ColumnValue(p, t, col), Le, SubSelect(db.before(v.n)))
    case FromTime(col, v) =>
      v.Num? && ComparedOption(ColumnValue(p, t, col), Ge, SubSelect(db.after(v.n)))
    case AnyOf(alts) =>
      exists k | 0 <= k < |alts| :: ComparedOption(ColumnValue(p, t, RoleColumn(alts[k].role)), Eq, Some(alts[k].v))
    case HasSignature(v) => v.Text? && v.s in t.txn.body.signatures
    case StartsWith(len, v) =>
      t.txn.body.note != [] &&
      v == Bytes(if len <= |t.txn.body.note| then t.txn.body.note[..len] else t.txn.body.note)
    case NotNull(col) => ColumnValue(p, t, col).Some?
  }

  predicate AllTrue(db: Db, p: Option<PartRow>, t: Row, cs: seq<Cond<Val>>) {
    forall k | 0 <= k < |cs| :: True(db, p, t, cs[k])
  }

  /** The row is in the result of the query: joined with its block header, joined with a row of
      `txn_participation` if the query asks for that, and accepted by the WHERE clause. */
  predicate Selected(db: Db, q: Query, t: Row) {
    && t.round in db.headers
    && var cs := Filled(q.conds, q.args);
       if q.joinParticipation then
         exists p | p in db.parts :: p.round == t.round && p.intra == t.intra && AllTrue(db, Some(p), t, cs)
       else AllTrue(db, None, t, cs)
  }

  // ---------------------------------------------------------------- the conditions a filter calls for

  /** A list of conditions, growing at its end. */
  datatype Clause = Nothing | And(prev: Clause, last: Cond<Val>)

  function AndIf(cl: Clause, b: bool, c: Cond<Val>): Clause {
    if b then And(cl, c) else cl
  }

  function AndBound(cl: Clause, col: Column, cmp: Cmp, v: Option<nat>): Clause {
    if v.Some? then And(cl, Compare(col, cmp, Num(v.value))) else cl
  }

  function AsSeq(cl: Clause): seq<Cond<Val>> {
    match cl
    case Nothing => []
    case And(prev, c) => AsSeq(prev) + [c]
  }

  function When<T>(b: bool, x: T): seq<T> {
    if b then [x] else []
  }

  function RolesAsked(roles: set<Role>, addr: Address): seq<Alt<Val>> {
    When(Sender in roles, Alt(Sender, Addr(addr)))
    + When(Receiver in roles, Alt(Receiver, Addr(addr)))
    + When(CloseRemainderTo in roles, Alt(CloseRemainderTo, Addr(addr)))
    + When(AssetSender in roles, Alt(AssetSender, Addr(addr)))
    + When(AssetReceiver in roles, Alt(AssetReceiver, Addr(addr)))
    + When(AssetCloseTo in roles, Alt(AssetCloseTo, Addr(addr)))
    + When(Freeze in roles, Alt(Freeze, Addr(addr)))
  }

  function AddressTests(tf: Filter): Clause {
    if tf.address.None? then Nothing
    else
      var a := And(Nothing, Compare(PAddr, Eq, Addr(tf.address.value)));
      var b := AndIf(a, tf.window.minRound != 0, Compare(PRound, Ge, Num(tf.window.minRound)));
      var c := AndIf(b, tf.window.maxRound != 0, Compare(PRound, Le, Num(tf.window.maxRound)));
      AndIf(c, tf.roles != {}, AnyOf(RolesAsked(tf.roles, tf.address.value)))
  }

  function TimeColumn(tf: Filter): Column {
    if tf.address.Some? then PRound else TRound
  }

  function TimeOf(t: Option<nat>): Val {
    Num(if t.Some? then t.value else 0)
  }

  function RoundTests(cl: Clause, tf: Filter): Clause {
    var a := AndIf(cl, tf.window.minRound != 0, Compare(TRound, Ge, Num(tf.window.minRound)));
    var b := AndIf(a, tf.window.maxRound != 0, Compare(TRound, Le, Num(tf.window.maxRound)));
    var c := AndIf(b, tf.beforeTime.Some?, UpToTime(TimeColumn(tf), TimeOf(tf.beforeTime)));
    AndIf(c, tf.afterTime.Some?, FromTime(TimeColumn(tf), TimeOf(tf.afterTime)))
  }

  function CreatableTests(cl: Clause, x: Criteria): Clause {
    var a := AndBound(cl, TAsset, Eq, if x.assetId.Some? then x.assetId else x.appId);
    var b := AndBound(a, AssetAmount, Gt, x.assetAmountGT);
    AndBound(b, AssetAmount, Lt, x.assetAmountLT)
  }

  function IdentityTests(cl: Clause, x: Criteria): Clause {
    var a := AndIf(cl, x.typeEnum != 0, Compare(TTypeEnum, Eq, Num(x.typeEnum)));
    var b := AndIf(a, x.txid != "", Compare(TTxid, Eq, Text(x.txid)));
    AndIf(b, x.groupId != [], Compare(Group, Eq, Bytes(x.groupId)))
  }

  function PositionTests(cl: Clause, w: Window): Clause {
    var a := AndBound(cl, TRound, Eq, w.round);
    var b := AndBound(a, TIntra, Eq, w.offset);
    var c := AndBound(b, TIntra, Lt, w.offsetLT);
    AndBound(c, TIntra, Gt, w.offsetGT)
  }

  function NoteTests(cl: Clause, x: Criteria): Clause {
    var a := AndIf(cl, x.sigType != "", HasSignature(Text(x.sigType)));
    AndIf(a, x.notePrefix != [], StartsWith(|x.notePrefix|, Bytes(x.notePrefix)))
  }

  function AmountTests(cl: Clause, x: Criteria): Clause {
    var a := AndBound(cl, Amount, Gt, x.algosGT);
    var b := AndBound(a, Amount, Lt, x.algosLT);
    var c := AndBound(b, Effective, Gt, x.effectiveGT);
    AndBound(c, Effective, Lt, x.effectiveLT)
  }

  function PresenceTests(cl: Clause, x: Criteria, skipInner: bool): Clause {
    var a := AndIf(cl, x.rekeyTo == Some(true), NotNull(RekeyTo));
    var b := AndIf(a, skipInner, NotNull(TTxid));
    AndIf(b, x.requireLogs, NotNull(Logs))
  }

  /** The conditions the WHERE clause should state, in its order. */
  function Tests(tf: Filter): Clause {
    var a := AddressTests(tf);
    var b := RoundTests(a, tf);
    var c := CreatableTests(b, tf.criteria);
    var d := IdentityTests(c, tf.criteria);
    var e := PositionTests(d, tf.window);
    var f := NoteTests(e, tf.criteria);
    var g := AmountTests(f, tf.criteria);
    PresenceTests(g, tf.criteria, tf.skipInner)
  }

  const MAX_GROUP_SIZE := 16

  function QueryLimit(tf: Filter): Option<nat> {
    if tf.criteria.groupId != [] && (tf.limit == 0 || tf.limit >= MAX_GROUP_SIZE) then None
    else if tf.limit != 0 then Some(tf.limit)
    else None
  }

  // ---------------------------------------------------------------- numbering arguments

  /** A condition with its arguments numbered from `first` on. */
  function Number(c: Cond<Val>, first: nat): Cond<nat> {
    match c
    case Compare(col, cmp, _) => Compare(col, cmp, first)
    case UpToTime(col, _) => UpToTime(col, first)
    case FromTime(col, _) => FromTime(col, first)
    case AnyOf(alts) => AnyOf(seq(|alts|, k requires 0 <= k < |alts| => Alt(alts[k].role, first + k)))
    case HasSignature(_) => HasSignature(first)
    case StartsWith(len, _) => StartsWith(len, first)
    case NotNull(col) => NotNull(col)
  }

  function Values(c: Cond<Val>): seq<Val> {
    match c
    case AnyOf(alts) => seq(|alts|, k requires 0 <= k < |alts| => alts[k].v)
    case NotNull(_) => []
    case _ => [c.v]
  }

  function ArgsOf(cl: Clause): seq<Val> {
    match cl
    case Nothing => []
    case And(prev, c) => ArgsOf(prev) + Values(c)
  }

  function PartsOf(cl: Clause): seq<Cond<nat>> {
    match cl
    case Nothing => []
    case And(prev, c) => PartsOf(prev) + [Number(c, |ArgsOf(prev)| + 1)]
  }

  lemma NumberPositions(c: Cond<Val>, first: nat)
    ensures Positions(Number(c, first)) == Run(first, |Values(c)|)
  {}

  lemma FillNumber(c: Cond<Val>, before: seq<Val>, after: seq<Val>)
    ensures Fill(Number(c, |before| + 1), before + Values(c) + after) == c
  {
    var args := before + Values(c) + after;
    forall k | 0 <= k < |Values(c)| ensures Argument(args, |before| + 1 + k) == Values(c)[k] {
      assert args[|before| + k] == Values(c)[k];
    }
    if !c.AnyOf? && !c.NotNull? {
      assert Argument(args, |before| + 1 + 0) == c.v;
    }
  }

  lemma {:induction false} FillParts(cl: Clause, after: seq<Val>)
    ensures Filled(PartsOf(cl), ArgsOf(cl) + after) == AsSeq(cl)
  {
    match cl
    case Nothing =>
    case And(prev, c) =>
      FillParts(prev, Values(c) + after);
      assert ArgsOf(prev) + (Values(c) + after) == ArgsOf(cl) + after;
      FillNumber(c, ArgsOf(prev), after);
  }

  lemma PositionsSnoc(conds: seq<Cond<nat>>, c: Cond<nat>)
    ensures AllPositions(conds + [c]) == AllPositions(conds) + Positions(c)
  {
    assert (conds + [c])[..|conds|] == conds;
  }

  lemma {:induction false} NumberParts(cl: Clause)
    ensures AllPositions(PartsOf(cl)) == Run(1, |ArgsOf(cl)|)
  {
    match cl
    case Nothing =>
    case And(prev, c) =>
      NumberParts(prev);
      NumberPositions(c, |ArgsOf(prev)| + 1);
      PositionsSnoc(PartsOf(prev), Number(c, |ArgsOf(prev)| + 1));
      RunAppend(1, |ArgsOf(prev)|, |Values(c)|);
  }

  // ---------------------------------------------------------------- building the query

  /** Role alternatives numbered from `first` on, with their arguments. */
  ghost predicate Pending(alts: seq<Alt<nat>>, vals: seq<Val>, first: nat, asked: seq<Alt<Val>>) {
    && |alts| == |vals| == |asked|
    && forall k | 0 <= k < |alts| :: alts[k] == Alt(asked[k].role, first + k) && vals[k] == asked[k].v
  }

  /** The growing WHERE clause: conditions, arguments and the number of the next argument. */
  class WhereClause {
    var parts: seq<Cond<nat>>
    var args: seq<Val>
    var partNumber: nat
    ghost var meaning: Clause  // the conditions with their arguments filled in

    ghost predicate Valid()
      reads this
    {
      parts == PartsOf(meaning) && args == ArgsOf(meaning) && partNumber == |args| + 1
    }

    constructor ()
      ensures Valid() && meaning == Nothing
    {
      parts, args, partNumber, meaning := [], [], 1, Nothing;
    }

    /** Appends a condition and its arguments, which take the next positions in order. */
    method Append(part: Cond<nat>, more: seq<Val>, ghost c: Cond<Val>)
      requires Valid() && part == Number(c, partNumber) && more == Values(c)
      modifies this
      ensures Valid() && meaning == And(old(meaning), c)
    {
      parts := parts + [part];
      args := args + more;
      partNumber := partNumber + |more|;
      meaning := And(meaning, c);
    }

    method Where(cond: bool, col: Column, cmp: Cmp, v: Val)
      requires Valid()
      modifies this
      ensures Valid() && meaning == AndIf(old(meaning), cond, Compare(col, cmp, v))
    {
      if cond {
        Append(Compare(col, cmp, partNumber), [v], Compare(col, cmp, v));
      }
    }

    method WhereBound(col: Column, cmp: Cmp, v: Option<nat>)
      requires Valid()
      modifies this
      ensures Valid() && meaning == AndBound(old(meaning), col, cmp, v)
    {
      if v.Some? {
        Append(Compare(col, cmp, partNumber), [Num(v.value)], Compare(col, cmp, Num(v.value)));
      }
    }

    method WhereBefore(col: Column, time: Option<nat>)
      requires Valid()
      modifies this
      ensures Valid() && meaning == AndIf(old(meaning), time.Some?, UpToTime(col, TimeOf(time)))
    {
      if time.Some? {
        Append(UpToTime(col, partNumber), [Num(time.value)], UpToTime(col, Num(time.value)));
      }
    }

    method WhereAfter(col: Column, time: Option<nat>)
      requires Valid()
      modifies this
      ensures Valid() && meaning == AndIf(old(meaning), time.Some?, FromTime(col, TimeOf(time)))
    {
      if time.Some? {
        Append(FromTime(col, partNumber), [Num(time.value)], FromTime(col, Num(time.value)));
      }
    }

    method WhereSignature(s: string)
      requires Valid()
      modifies this
      ensures Valid() && meaning == AndIf(old(meaning), s != "", HasSignature(Text(s)))
    {
      if |s| != 0 {
        Append(HasSignature(partNumber), [Text(s)], HasSignature(Text(s)));
      }
    }

    method WhereNotePrefix(b: seq<Byte>)
      requires Valid()
      modifies this
      ensures Valid() && meaning == AndIf(old(meaning), b != [], StartsWith(|b|, Bytes(b)))
    {
      if |b| > 0 {
        Append(StartsWith(|b|, partNumber), [Bytes(b)], StartsWith(|b|, Bytes(b)));
      }
    }

    method WhereNotNull(cond: bool, col: Column)
      requires Valid()
      modifies this
      ensures Valid() && meaning == AndIf(old(meaning), cond, NotNull(col))
    {
      if cond {
        Append(NotNull(col), [], NotNull(col));
      }
    }

    /** One alternative of the role condition, if the role is asked for. */
    static method RolePart(roles: set<Role>, role: Role, addr: Address, first: nat,
                           alts: seq<Alt<nat>>, vals: seq<Val>, ghost asked: seq<Alt<Val>>)
      returns (alts': seq<Alt<nat>>, vals': seq<Val>)
      requires Pending(alts, vals, first, asked)
      ensures Pending(alts', vals', first, asked + When(role in roles, Alt(role, Addr(addr))))
    {
      alts', vals' := alts, vals;
      if role in roles {
        alts', vals' := alts + [Alt(role, first + |alts|)], vals + [Addr(addr)];
      }
    }

    static method RoleParts(roles: set<Role>, addr: Address, first: nat)
      returns (alts: seq<Alt<nat>>, vals: seq<Val>)
      ensures Pending(alts, vals, first, RolesAsked(roles, addr))
    {
      ghost var a0: seq<Alt<Val>> := When(Sender in roles, Alt(Sender, Addr(addr)));
      ghost var a1 := a0 + When(Receiver in roles, Alt(Receiver, Addr(addr)));
      ghost var a2 := a1 + When(CloseRemainderTo in roles, Alt(CloseRemainderTo, Addr(addr)));
      ghost var a3 := a2 + When(AssetSender in roles, Alt(AssetSender, Addr(addr)));
      ghost var a4 := a3 + When(AssetReceiver in roles, Alt(AssetReceiver, Addr(addr)));
      ghost var a5 := a4 + When(AssetCloseTo in roles, Alt(AssetCloseTo, Addr(addr)));
      alts, vals := RolePart(roles, Sender, addr, first, [], [], []);
      assert [] + a0 == a0;
      alts, vals := RolePart(roles, Receiver, addr, first, alts, vals, a0);
      alts, vals := RolePart(roles, CloseRemainderTo, addr, first, alts, vals, a1);
      alts, vals := RolePart(roles, AssetSender, addr, first, alts, vals, a2);
      alts, vals := RolePart(roles, AssetReceiver, addr, first, alts, vals, a3);
      alts, vals := RolePart(roles, AssetCloseTo, addr, first, alts, vals, a4);
      alts, vals := RolePart(roles, Freeze, addr, first, alts, vals, a5);
    }

    method WhereAny(alts: seq<Alt<nat>>, vals: seq<Val>, ghost asked: seq<Alt<Val>>)
      requires Valid() && Pending(alts, vals, partNumber, asked)
      modifies this
      ensures Valid() && meaning == And(old(meaning), AnyOf(asked))
    {
      ghost var c := AnyOf(asked);
      assert alts == Number(c, partNumber).alternatives;
      assert vals == Values(c);
      Append(AnyOf(alts), vals, c);
    }

    method WhereRoles(roles: set<Role>, addr: Address)
      requires Valid()
      modifies this
      ensures Valid() && meaning == AndIf(old(meaning), roles != {}, AnyOf(RolesAsked(roles, addr)))
    {
      if roles != {} {
        var alts, vals := RoleParts(roles, addr, partNumber);
        WhereAny(alts, vals, RolesAsked(roles, addr));
      }
    }

    method BuildAddress(tf: Filter)
      requires Valid() && meaning == Nothing
      modifies this
      ensures Valid() && meaning == AddressTests(tf)
    {
      if tf.address.Some? {
        Where(true, PAddr, Eq, Addr(tf.address.value));
        Where(tf.window.minRound != 0, PRound, Ge, Num(tf.window.minRound));
        Where(tf.window.maxRound != 0, PRound, Le, Num(tf.window.maxRound));
        WhereRoles(tf.roles, tf.address.value);
      }
    }

    method BuildRounds(tf: Filter)
      requires Valid()
      modifies this
      ensures Valid() && meaning == RoundTests(old(meaning), tf)
    {
      Where(tf.window.minRound != 0, TRound, Ge, Num(tf.window.minRound));
      Where(tf.window.maxRound != 0, TRound, Le, Num(tf.window.maxRound));
      WhereBefore(if tf.address.Some? then PRound else TRound, tf.beforeTime);
      WhereAfter(if tf.address.Some? then PRound else TRound, tf.afterTime);
    }

    method BuildCreatable(x: Criteria)
      requires Valid()
      modifies this
      ensures Valid() && meaning == CreatableTests(old(meaning), x)
    {
      WhereBound(TAsset, Eq, if x.assetId.Some? then x.assetId else x.appId);
      WhereBound(AssetAmount, Gt, x.assetAmountGT);
      WhereBound(AssetAmount, Lt, x.assetAmountLT);
    }

    method BuildIdentity(x: Criteria)
      requires Valid()
      modifies this
      ensures Valid() && meaning == IdentityTests(old(meaning), x)
    {
      Where(x.typeEnum != 0, TTypeEnum, Eq, Num(x.typeEnum));
      Where(x.txid != "", TTxid, Eq, Text(x.txid));
      Where(x.groupId != [], Group, Eq, Bytes(x.groupId));
    }

    method BuildPosition(w: Window)
      requires Valid()
      modifies this
      ensures Valid() && meaning == PositionTests(old(meaning), w)
    {
      WhereBound(TRound, Eq, w.round);
      WhereBound(TIntra, Eq, w.offset);
      WhereBound(TIntra, Lt, w.offsetLT);
      WhereBound(TIntra, Gt, w.offsetGT);
    }

    method BuildNote(x: Criteria)
      requires Valid()
      modifies this
      ensures Valid() && meaning == NoteTests(old(meaning), x)
    {
      WhereSignature(x.sigType);
      WhereNotePrefix(x.notePrefix);
    }

    method BuildAmounts(x: Criteria)
      requires Valid()
      modifies this
      ensures Valid() && meaning == AmountTests(old(meaning), x)
    {
      WhereBound(Amount, Gt, x.algosGT);
      WhereBound(Amount, Lt, x.algosLT);
      WhereBound(Effective, Gt, x.effectiveGT);
      WhereBound(Effective, Lt, x.effectiveLT);
    }

    method BuildPresence(x: Criteria, skipInner: bool)
      requires Valid()
      modifies this
      ensures Valid() && meaning == PresenceTests(old(meaning), x, skipInner)
    {
      WhereNotNull(x.rekeyTo == Some(true), RekeyTo);
      WhereNotNull(skipInner, TTxid);
      WhereNotNull(x.requireLogs, Logs);
    }
  }

  /** `q` is a query for the filter `tf`: each argument is mentioned exactly once, at its own
      position, and the filled-in WHERE clause is the list of conditions `Tests(tf)`. */
  ghost predicate IsQueryFor(q: Query, tf: Filter) {
    && AllPositions(q.conds) == Run(1, |q.args|)
    && Filled(q.conds, q.args) == AsSeq(Tests(tf))
    && q.joinParticipation == q.descending == tf.address.Some?
    && q.joinRoot == (!tf.skipConversion && !tf.skipInner)
    && q.limit == (if tf.limit == 0 || (tf.criteria.groupId != [] && tf.limit >= 16) then None else Some(tf.limit))
  }

  method BuildTransactionQuery(tf: Filter) returns (r: Result<Query>)
    ensures r.Err? <==> CreatableClash(tf.criteria)
    ensures r.Err? <==> var c := tf.criteria; c.assetId.Some? && c.appId.Some? && c.assetId != c.appId
    ensures r.Ok? ==> IsQueryFor(r.value, tf)
  {
    var w := new WhereClause();
    w.BuildAddress(tf);
    w.BuildRounds(tf);
    if tf.criteria.assetId.Some? && tf.criteria.appId.Some? && tf.criteria.assetId.value != tf.criteria.appId.value {
      return Err("cannot search both assetid and appid");
    }
    w.BuildCreatable(tf.criteria);
    w.BuildIdentity(tf.criteria);
    w.BuildPosition(tf.window);
    w.BuildNote(tf.criteria);
    w.BuildAmounts(tf.criteria);
    w.BuildPresence(tf.criteria, tf.skipInner);
    var limit: Option<nat> := None;
    if |tf.criteria.groupId| > 0 && (tf.limit == 0 || tf.limit >= MAX_GROUP_SIZE) {
      limit := None;
    } else if tf.limit != 0 {
      limit := Some(tf.limit);
    }
    r := Ok(Query(w.parts, w.args, tf.address.Some?, !tf.skipConversion && !tf.skipInner, tf.address.Some?, limit));
    ClauseIsQuery(r.value, tf);
  }

  lemma NumberedAndFilled(cl: Clause)
    ensures AllPositions(PartsOf(cl)) == Run(1, |ArgsOf(cl)|) && Filled(PartsOf(cl), ArgsOf(cl)) == AsSeq(cl)
  {
    NumberParts(cl);
    FillParts(cl, []);
    assert ArgsOf(cl) + [] == ArgsOf(cl);
  }

  lemma ClauseIsQuery(q: Query, tf: Filter)
    requires q.conds == PartsOf(Tests(tf)) && q.args == ArgsOf(Tests(tf))
    requires q.joinParticipation == q.descending == tf.address.Some?
    requires q.joinRoot == (!tf.skipConversion && !tf.skipInner) && q.limit == QueryLimit(tf)
    ensures IsQueryFor(q, tf)
  {
    NumberedAndFilled(Tests(tf));
  }

  // ---------------------------------------------------------------- the query means the filter

  predicate Holds(db: Db, p: Option<PartRow>, t: Row, cl: Clause) {
    match cl
    case Nothing => true
    case And(prev, c) => Holds(db, p, t, prev) && True(db, p, t, c)
  }

  lemma {:induction false} HoldsAsSeq(db: Db, p: Option<PartRow>, t: Row, cl: Clause)
    ensures AllTrue(db, p, t, AsSeq(cl)) <==> Holds(db, p, t, cl)
  {
    match cl
    case Nothing =>
    case And(prev, c) =>
      HoldsAsSeq(db, p, t, prev);
      var s := AsSeq(cl);
      assert s[|s| - 1] == c;
      if AllTrue(db, p, t, s) {
        assert forall k | 0 <= k < |AsSeq(prev)| :: AsSeq(prev)[k] == s[k];
      }
  }

  lemma HoldsIf(db: Db, p: Option<PartRow>, t: Row, cl: Clause, b: bool, c: Cond<Val>)
    ensures Holds(db, p, t, AndIf(cl, b, c)) <==> Holds(db, p, t, cl) && (b ==> True(db, p, t, c))
  {}

  lemma HoldsBound(db: Db, p: Option<PartRow>, t: Row, cl: Clause, col: Column, cmp: Cmp, v: Option<nat>)
    ensures Holds(db, p, t, AndBound(cl, col, cmp, v)) <==>
              Holds(db, p, t, cl) && (v.Some? ==> ComparedOption(ColumnValue(p, t, col), cmp, Some(Num(v.value))))
  {}

  lemma InWhen<T>(s: seq<T>, b: bool, x: T, y: T)
    ensures y in s + When(b, x) <==> y in s || (b && y == x)
  {}

  lemma RolesAskedMembers(roles: set<Role>, addr: Address, alt: Alt<Val>)
    ensures alt in RolesAsked(roles, addr) <==> alt.role in roles && alt.v == Addr(addr)
  {
    var a0: seq<Alt<Val>> := When(Sender in roles, Alt(Sender, Addr(addr)));
    var a1 := a0 + When(Receiver in roles, Alt(Receiver, Addr(addr)));
    var a2 := a1 + When(CloseRemainderTo in roles, Alt(CloseRemainderTo, Addr(addr)));
    var a3 := a2 + When(AssetSender in roles, Alt(AssetSender, Addr(addr)));
    var a4 := a3 + When(AssetReceiver in roles, Alt(AssetReceiver, Addr(addr)));
    var a5 := a4 + When(AssetCloseTo in roles, Alt(AssetCloseTo, Addr(addr)));
    assert a0 == [] + a0;
    InWhen([], Sender in roles, Alt(Sender, Addr(addr)), alt);
    InWhen(a0, Receiver in roles, Alt(Receiver, Addr(addr)), alt);
    InWhen(a1, CloseRemainderTo in roles, Alt(CloseRemainderTo, Addr(addr)), alt);
    InWhen(a2, AssetSender in roles, Alt(AssetSender, Addr(addr)), alt);
    InWhen(a3, AssetReceiver in roles, Alt(AssetReceiver, Addr(addr)), alt);
    InWhen(a4, AssetCloseTo in roles, Alt(AssetCloseTo, Addr(addr)), alt);
    InWhen(a5, Freeze in roles, Alt(Freeze, Addr(addr)), alt);
    match alt.role
    case Sender =>
    case Receiver =>
    case CloseRemainderTo =>
    case AssetSender =>
    case AssetReceiver =>
    case AssetCloseTo =>
    case Freeze =>
  }

  predicate AltTrue(p: Option<PartRow>, t: Row, alt: Alt<Val>) {
    ComparedOption(ColumnValue(p, t, RoleColumn(alt.role)), Eq, Some(alt.v))
  }

  lemma AnyOfHolds(db: Db, p: Option<PartRow>, t: Row, alts: seq<Alt<Val>>, alt: Alt<Val>)
    requires alt in alts && AltTrue(p, t, alt)
    ensures True(db, p, t, AnyOf(alts))
  {
    var k :| 0 <= k < |alts| && alts[k] == alt;
    assert ComparedOption(ColumnValue(p, t, RoleColumn(alts[k].role)), Eq, Some(alts[k].v));
  }

  lemma AnyOfHas(db: Db, p: Option<PartRow>, t: Row, alts: seq<Alt<Val>>) returns (alt: Alt<Val>)
    requires True(db, p, t, AnyOf(alts))
    ensures alt in alts && AltTrue(p, t, alt)
  {
    var k :| 0 <= k < |alts| && ComparedOption(ColumnValue(p, t, RoleColumn(alts[k].role)), Eq, Some(alts[k].v));
    alt := alts[k];
  }

  lemma AltMeaning(p: Option<PartRow>, t: Row, role: Role, addr: Address)
    ensures AltTrue(p, t, Alt(role, Addr(addr))) <==> addr != 0 && RoleAddress(t.txn.body, role) == addr
  {}

  lemma RoleMeaning(db: Db, p: Option<PartRow>, t: Row, roles: set<Role>, addr: Address)
    ensures True(db, p, t, AnyOf(RolesAsked(roles, addr))) <==> HasRole(t.txn.body, roles, addr)
  {
    RoleAlternatives(db, p, t, roles, addr, RolesAsked(roles, addr));
  }

  lemma RoleAlternatives(db: Db, p: Option<PartRow>, t: Row, roles: set<Role>, addr: Address, alts: seq<Alt<Val>>)
    requires alts == RolesAsked(roles, addr)
    ensures True(db, p, t, AnyOf(alts)) <==> HasRole(t.txn.body, roles, addr)
  {
    if addr != 0 {
      if role :| role in roles && RoleAddress(t.txn.body, role) == addr {
        RolesAskedMembers(roles, addr, Alt(role, Addr(addr)));
        AltMeaning(p, t, role, addr);
        AnyOfHolds(db, p, t, alts, Alt(role, Addr(addr)));
      }
    }
    if True(db, p, t, AnyOf(alts)) {
      var alt := AnyOfHas(db, p, t, alts);
      RolesAskedMembers(roles, addr, alt);
      AltMeaning(p, t, alt.role, addr);
    }
  }

  lemma AddressMeaning(db: Db, p: PartRow, tf: Filter, t: Row)
    requires tf.address.Some? && p.round == t.round && p.intra == t.intra
    ensures Holds(db, Some(p), t, AddressTests(tf)) <==>
              && p.addr == tf.address.value
              && tf.window.minRound <= t.round
              && (tf.window.maxRound == 0 || t.round <= tf.window.maxRound)
              && (tf.roles != {} ==> HasRole(t.txn.body, tf.roles, tf.address.value))
  {
    var a := And(Nothing, Compare(PAddr, Eq, Addr(tf.address.value)));
    var b := AndIf(a, tf.window.minRound != 0, Compare(PRound, Ge, Num(tf.window.minRound)));
    var c := AndIf(b, tf.window.maxRound != 0, Compare(PRound, Le, Num(tf.window.maxRound)));
    assert Holds(db, Some(p), t, a) <==> True(db, Some(p), t, Compare(PAddr, Eq, Addr(tf.address.value)));
    HoldsIf(db, Some(p), t, a, tf.window.minRound != 0, Compare(PRound, Ge, Num(tf.window.minRound)));
    HoldsIf(db, Some(p), t, b, tf.window.maxRound != 0, Compare(PRound, Le, Num(tf.window.maxRound)));
    HoldsIf(db, Some(p), t, c, tf.roles != {}, AnyOf(RolesAsked(tf.roles, tf.address.value)));
    RoleMeaning(db, Some(p), t, tf.roles, tf.address.value);
  }

  lemma RoundMeaning(db: Db, p: Option<PartRow>, tf: Filter, t: Row, cl: Clause)
    requires p.Some? == tf.address.Some? && (p.Some? ==> p.value.round == t.round)
    ensures Holds(db, p, t, RoundTests(cl, tf)) <==>
              && Holds(db, p, t, cl)
              && tf.window.minRound <= t.round
              && (tf.window.maxRound == 0 || t.round <= tf.window.maxRound)
              && InTime(db, tf, t)
  {
    var a := AndIf(cl, tf.window.minRound != 0, Compare(TRound, Ge, Num(tf.window.minRound)));
    var b := AndIf(a, tf.window.maxRound != 0, Compare(TRound, Le, Num(tf.window.maxRound)));
    var c := AndIf(b, tf.beforeTime.Some?, UpToTime(TimeColumn(tf), TimeOf(tf.beforeTime)));
    HoldsIf(db, p, t, cl, tf.window.minRound != 0, Compare(TRound, Ge, Num(tf.window.minRound)));
    HoldsIf(db, p, t, a, tf.window.maxRound != 0, Compare(TRound, Le, Num(tf.window.maxRound)));
    HoldsIf(db, p, t, b, tf.beforeTime.Some?, UpToTime(TimeColumn(tf), TimeOf(tf.beforeTime)));
    HoldsIf(db, p, t, c, tf.afterTime.Some?, FromTime(TimeColumn(tf), TimeOf(tf.afterTime)));
  }

  lemma CreatableMeaning(db: Db, p: Option<PartRow>, t: Row, x: Criteria, cl: Clause)
    requires !CreatableClash(x)
    ensures Holds(db, p, t, CreatableTests(cl, x)) <==>
              && Holds(db, p, t, cl)
              && (x.assetId.Some? ==> t.txn.body.creatable == x.assetId.value)
              && (x.appId.Some? ==> t.txn.body.creatable == x.appId.value)
              && AmountWithin(t.txn.body.assetAmount, x.assetAmountGT, x.assetAmountLT)
  {
    var id := if x.assetId.Some? then x.assetId else x.appId;
    var a := AndBound(cl, TAsset, Eq, id);
    var b := AndBound(a, AssetAmount, Gt, x.assetAmountGT);
    HoldsBound(db, p, t, cl, TAsset, Eq, id);
    HoldsBound(db, p, t, a, AssetAmount, Gt, x.assetAmountGT);
    HoldsBound(db, p, t, b, AssetAmount, Lt, x.assetAmountLT);
  }

  lemma IdentityMeaning(db: Db, p: Option<PartRow>, t: Row, x: Criteria, cl: Clause)
    ensures Holds(db, p, t, IdentityTests(cl, x)) <==>
              && Holds(db, p, t, cl)
              && (x.typeEnum != 0 ==> TypeEnum(t.txn.body.kind) == x.typeEnum)
              && (x.txid != "" ==> t.txid == Some(x.txid))
              && (x.groupId != [] ==> t.txn.body.group == x.groupId)
  {
    var a := AndIf(cl, x.typeEnum != 0, Compare(TTypeEnum, Eq, Num(x.typeEnum)));
    var b := AndIf(a, x.txid != "", Compare(TTxid, Eq, Text(x.txid)));
    HoldsIf(db, p, t, cl, x.typeEnum != 0, Compare(TTypeEnum, Eq, Num(x.typeEnum)));
    HoldsIf(db, p, t, a, x.txid != "", Compare(TTxid, Eq, Text(x.txid)));
    HoldsIf(db, p, t, b, x.groupId != [], Compare(Group, Eq, Bytes(x.groupId)));
  }

  lemma PositionMeaning(db: Db, p: Option<PartRow>, t: Row, w: Window, cl: Clause)
    ensures Holds(db, p, t, PositionTests(cl, w)) <==>
              && Holds(db, p, t, cl)
              && (w.round.Some? ==> t.round == w.round.value)
              && (w.offset.Some? ==> t.intra == w.offset.value)
              && (w.offsetLT.Some? ==> t.intra < w.offsetLT.value)
              && (w.offsetGT.Some? ==> t.intra > w.offsetGT.value)
  {
    var a := AndBound(cl, TRound, Eq, w.round);
    var b := AndBound(a, TIntra, Eq, w.offset);
    var c := AndBound(b, TIntra, Lt, w.offsetLT);
    HoldsBound(db, p, t, cl, TRound, Eq, w.round);
    HoldsBound(db, p, t, a, TIntra, Eq, w.offset);
    HoldsBound(db, p, t, b, TIntra, Lt, w.offsetLT);
    HoldsBound(db, p, t, c, TIntra, Gt, w.offsetGT);
  }

  lemma NoteMeaning(db: Db, p: Option<PartRow>, t: Row, x: Criteria, cl: Clause)
    ensures Holds(db, p, t, NoteTests(cl, x)) <==>
              && Holds(db, p, t, cl)
              && (x.sigType != "" ==> x.sigType in t.txn.body.signatures)
              && x.notePrefix <= t.txn.body.note
  {
    var a := AndIf(cl, x.sigType != "", HasSignature(Text(x.sigType)));
    HoldsIf(db, p, t, cl, x.sigType != "", HasSignature(Text(x.sigType)));
    HoldsIf(db, p, t, a, x.notePrefix != [], StartsWith(|x.notePrefix|, Bytes(x.notePrefix)));
  }

  lemma AmountMeaning(db: Db, p: Option<PartRow>, t: Row, x: Criteria, cl: Clause)
    ensures Holds(db, p, t, AmountTests(cl, x)) <==>
              && Holds(db, p, t, cl)
              && AmountWithin(t.txn.body.amount, x.algosGT, x.algosLT)
              && AmountWithin(EffectiveAmount(t.txn.body), x.effectiveGT, x.effectiveLT)
  {
    var a := AndBound(cl, Amount, Gt, x.algosGT);
    var b := AndBound(a, Amount, Lt, x.algosLT);
    var c := AndBound(b, Effective, Gt, x.effectiveGT);
    HoldsBound(db, p, t, cl, Amount, Gt, x.algosGT);
    HoldsBound(db, p, t, a, Amount, Lt, x.algosLT);
    HoldsBound(db, p, t, b, Effective, Gt, x.effectiveGT);
    HoldsBound(db, p, t, c, Effective, Lt, x.effectiveLT);
  }

  lemma PresenceMeaning(db: Db, p: Option<PartRow>, t: Row, x: Criteria, skipInner: bool, cl: Clause)
    ensures Holds(db, p, t, PresenceTests(cl, x, skipInner)) <==>
              && Holds(db, p, t, cl)
              && (x.rekeyTo == Some(true) ==> t.txn.body.rekeyTo != 0)
              && (skipInner ==> t.txid.Some?)
              && (x.requireLogs ==> t.txn.body.logs != [])
  {
    var a := AndIf(cl, x.rekeyTo == Some(true), NotNull(RekeyTo));
    var b := AndIf(a, skipInner, NotNull(TTxid));
    HoldsIf(db, p, t, cl, x.rekeyTo == Some(true), NotNull(RekeyTo));
    HoldsIf(db, p, t, a, skipInner, NotNull(TTxid));
    HoldsIf(db, p, t, b, x.requireLogs, NotNull(Logs));
  }

  /** All conditions together, on a row joined with its participation if an address is given. */
  lemma ClauseMeaning(db: Db, p: Option<PartRow>, tf: Filter, t: Row)
    requires !CreatableClash(tf.criteria)
    requires p.Some? == tf.address.Some? && (p.Some? ==> p.value.round == t.round && p.value.intra == t.intra)
    ensures AllTrue(db, p, t, AsSeq(Tests(tf))) <==>
              && Holds(db, p, t, AddressTests(tf)) && InWindow(tf.window, t) && InTime(db, tf, t)
              && MeetsCriteria(tf.criteria, t) && (tf.skipInner ==> t.txid.Some?)
  {
    HoldsAsSeq(db, p, t, Tests(tf));
    var a := AddressTests(tf);
    var b := RoundTests(a, tf);
    var c := CreatableTests(b, tf.criteria);
    var d := IdentityTests(c, tf.criteria);
    var e := PositionTests(d, tf.window);
    var f := NoteTests(e, tf.criteria);
    var g := AmountTests(f, tf.criteria);
    RoundMeaning(db, p, tf, t, a);
    CreatableMeaning(db, p, t, tf.criteria, b);
    IdentityMeaning(db, p, t, tf.criteria, c);
    PositionMeaning(db, p, t, tf.window, d);
    NoteMeaning(db, p, t, tf.criteria, e);
    AmountMeaning(db, p, t, tf.criteria, f);
    PresenceMeaning(db, p, t, tf.criteria, tf.skipInner, g);
  }

  /** The query selects a row exactly when the row satisfies the filter. */
  lemma QueryMeansFilter(db: Db, q: Query, tf: Filter, t: Row)
    requires IsQueryFor(q, tf) && !CreatableClash(tf.criteria)
    ensures Selected(db, q, t) <==> Satisfies(db, tf, t)
  {
    var cs := AsSeq(Tests(tf));
    if tf.address.None? {
      ClauseMeaning(db, None, tf, t);
    } else if t.round in db.headers {
      var own := PartRow(tf.address.value, t.round, t.intra);
      forall p | p in db.parts && p.round == t.round && p.intra == t.intra
        ensures AllTrue(db, Some(p), t, cs) <==> p == own && Satisfies(db, tf, t)
      {
        ClauseMeaning(db, Some(p), tf, t);
        AddressMeaning(db, p, tf, t);
      }
    }
  }
}
