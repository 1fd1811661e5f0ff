/** How signed transactions with apply data are stored as JSON. The stored records embed the original
    record and add override fields under the same tags; JSON keeps only the override of a tag, so the
    embedded copy of an overridden field is lost between encoding and decoding. Byte-string map keys
    travel as Base64 text. */
module Encoding {
  import opened Outcomes
  import opened Base64

  /** A Go string: any sequence of bytes. */
  type Str = seq<Byte>

  // ---------------------------------------------------------------- the ledger's records; None is nil

  datatype AssetParams = AssetParams(name: Str, unit: Str, url: Str, rest: nat)
  datatype Transaction = Transaction(assetParams: AssetParams, rest: nat)
  datatype ValueDelta = ValueDelta(action: nat, bytes: Str, uint: nat)
  type StateDelta = Option<map<Str, ValueDelta>>
  type LocalDeltas = Option<map<nat, StateDelta>>
  datatype InnerTxns = NilTxns | Txns(list: seq<Stxn>)
  datatype EvalDelta = EvalDelta(
    globalDelta: StateDelta, localDeltas: LocalDeltas, logs: Option<seq<Str>>, innerTxns: InnerTxns, rest: nat)
  datatype Stxn = Stxn(txn: Transaction, evalDelta: EvalDelta, authAddr: nat, rest: nat)

  // ---------------------------------------------------------------- the stored records

  datatype StoredParams = StoredParams(base: AssetParams, unitBytes: Str, nameBytes: Str, urlBytes: Str)
  datatype StoredTransaction = StoredTransaction(base: Transaction, assetParamsOverride: StoredParams)
  datatype StoredValue = StoredValue(base: ValueDelta, bytesOverride: Str)
  type StoredDelta = Option<map<Str, StoredValue>>
  type StoredLocals = Option<map<nat, StoredDelta>>
  datatype StoredEval = StoredEval(
    base: EvalDelta, globalOverride: StoredDelta, localsOverride: StoredLocals, logsOverride: Option<seq<Str>>,
    innerOverride: StoredInner)
  datatype StoredInner = NilStored | StoredTxns(list: seq<StoredStxn>)
  datatype StoredStxn = StoredStxn(base: Stxn, txnOverride: StoredTransaction, evalOverride: StoredEval)

  const NoParams := AssetParams([], [], [], 0)
  const NoTransaction := Transaction(NoParams, 0)
  const NoEval := EvalDelta(None, None, None, NilTxns, 0)

  // ---------------------------------------------------------------- converting; `printable` says which
  // ---------------------------------------------------------------- strings are printable UTF-8

  function PrintableOrEmpty(printable: Str -> bool, s: Str): Str {
    if printable(s) then s else []
  }

  /** The plain form if it can be stored, and the raw bytes if it cannot. */
  function RawUnless(plain: Str, s: Str): Str {
    if |plain| > 0 then [] else s
  }

  function ConvertParams(printable: Str -> bool, p: AssetParams): StoredParams {
    var name, unit, url := PrintableOrEmpty(printable, p.name), PrintableOrEmpty(printable, p.unit),
      PrintableOrEmpty(printable, p.url);
    StoredParams(AssetParams(name, unit, url, p.rest), RawUnless(unit, p.unit), RawUnless(name, p.name),
                 RawUnless(url, p.url))
  }

  function UnconvertParams(p: StoredParams): AssetParams {
    AssetParams(if |p.base.name| == 0 then p.nameBytes else p.base.name,
                if |p.base.unit| == 0 then p.unitBytes else p.base.unit,
                if |p.base.url| == 0 then p.urlBytes else p.base.url,
                p.base.rest)
  }

  function ConvertTransaction(printable: Str -> bool, t: Transaction): StoredTransaction {
    StoredTransaction(t, ConvertParams(printable, t.assetParams))
  }

  function UnconvertTransaction(t: StoredTransaction): Transaction {
    t.base.(assetParams := UnconvertParams(t.assetParamsOverride))
  }

  function ConvertValue(v: ValueDelta): StoredValue {
    StoredValue(v, v.bytes)
  }

  function UnconvertValue(v: StoredValue): ValueDelta {
    v.base.(bytes := v.bytesOverride)
  }

  function ConvertDelta(d: StateDelta): StoredDelta {
    if d.None? then None else Some(map k | k in d.value :: ConvertValue(d.value[k]))
  }

  function UnconvertDelta(d: StoredDelta): StateDelta {
    if d.None? then None else Some(map k | k in d.value :: UnconvertValue(d.value[k]))
  }

  function ConvertLocals(d: LocalDeltas): StoredLocals {
    if d.None? then None else Some(map k | k in d.value :: ConvertDelta(d.value[k]))
  }

  function UnconvertLocals(d: StoredLocals): LocalDeltas {
    if d.None? then None else Some(map k | k in d.value :: UnconvertDelta(d.value[k]))
  }

  function ConvertEval(printable: Str -> bool, e: EvalDelta): StoredEval
    decreases e
  {
    StoredEval(e, ConvertDelta(e.globalDelta), ConvertLocals(e.localDeltas), e.logs,
               ConvertInner(printable, e.innerTxns))
  }

  function ConvertInner(printable: Str -> bool, i: InnerTxns): StoredInner
    decreases i
  {
    if i.NilTxns? then NilStored else StoredTxns(ConvertAll(printable, i.list, |i.list|))
  }

  function ConvertAll(printable: Str -> bool, ts: seq<Stxn>, n: nat): (r: seq<StoredStxn>)
    requires n <= |ts|
    ensures |r| == n
    decreases ts, n
  {
    if n == 0 then [] else ConvertAll(printable, ts, n - 1) + [ConvertStxn(printable, ts[n - 1])]
  }

  function ConvertStxn(printable: Str -> bool, t: Stxn): StoredStxn
    decreases t
  {
    StoredStxn(t, ConvertTransaction(printable, t.txn), ConvertEval(printable, t.evalDelta))
  }

  function UnconvertEval(e: StoredEval): EvalDelta
    decreases e
  {
    EvalDelta(UnconvertDelta(e.globalOverride), UnconvertLocals(e.localsOverride), e.logsOverride,
              UnconvertInner(e.innerOverride), e.base.rest)
  }

  function UnconvertInner(i: StoredInner): InnerTxns
    decreases i
  {
    if i.NilStored? then NilTxns else Txns(UnconvertAll(i.list, |i.list|))
  }

  function UnconvertAll(ts: seq<StoredStxn>, n: nat): (r: seq<Stxn>)
    requires n <= |ts|
    ensures |r| == n
    decreases ts, n
  {
    if n == 0 then [] else UnconvertAll(ts, n - 1) + [UnconvertStxn(ts[n - 1])]
  }

  function UnconvertStxn(t: StoredStxn): Stxn
    decreases t
  {
    Stxn(UnconvertTransaction(t.txnOverride), UnconvertEval(t.evalOverride), t.base.authAddr, t.base.rest)
  }

  // ---------------------------------------------------------------- only printable text is stored as text

  /** `s` is stored as the text `plain` if it is printable and not empty, and as the bytes `raw` otherwise. */
  ghost predicate IsStoredAs(printable: Str -> bool, s: Str, plain: Str, raw: Str) {
    && (plain == [] || printable(plain))
    && (raw == [] <==> plain != [] || s == [])
    && (if s != [] && printable(s) then plain == s && raw == [] else plain == [] && raw == s)
  }

  ghost predicate ParamsTexted(printable: Str -> bool, p: AssetParams, q: StoredParams) {
    && IsStoredAs(printable, p.name, q.base.name, q.nameBytes)
    && IsStoredAs(printable, p.unit, q.base.unit, q.unitBytes)
    && IsStoredAs(printable, p.url, q.base.url, q.urlBytes)
    && q.base.rest == p.rest
  }

  /** The names of the transaction, and of those below it at any depth, are stored that way. */
  ghost predicate Texted(printable: Str -> bool, t: Stxn, r: StoredStxn)
    decreases t
  {
    && ParamsTexted(printable, t.txn.assetParams, r.txnOverride.assetParamsOverride)
    && InnerTexted(printable, t.evalDelta.innerTxns, r.evalOverride.innerOverride)
  }

  ghost predicate InnerTexted(printable: Str -> bool, i: InnerTxns, r: StoredInner)
    decreases i
  {
    && (i.NilTxns? <==> r.NilStored?)
    && (i.Txns? ==> |i.list| == |r.list| && forall k | 0 <= k < |i.list| :: Texted(printable, i.list[k], r.list[k]))
  }

  lemma {:induction false} StoredTexts(printable: Str -> bool, t: Stxn)
    ensures Texted(printable, t, ConvertStxn(printable, t))
    decreases t
  {
    InnerTexts(printable, t.evalDelta.innerTxns);
  }

  lemma {:induction false} InnerTexts(printable: Str -> bool, i: InnerTxns)
    ensures InnerTexted(printable, i, ConvertInner(printable, i))
    decreases i
  {
    if i.Txns? {
      forall k | 0 <= k < |i.list| ensures Texted(printable, i.list[k], ConvertAll(printable, i.list, |i.list|)[k]) {
        ConvertAllAt(printable, i.list, |i.list|, k);
        StoredTexts(printable, i.list[k]);
      }
    }
  }

  // ---------------------------------------------------------------- the loops that fill maps and slices

  method ConvertStateDelta(delta: StateDelta) returns (res: StoredDelta)
    ensures res == ConvertDelta(delta)
  {
    if delta.None? {
      return None;
    }
    var m, out, todo := delta.value, map[], delta.value.Keys;
    while todo != {}
      invariant todo <= m.Keys && out == map k | k in m.Keys - todo :: ConvertValue(m[k])
      decreases |todo|
    {
      var k :| k in todo;
      out := out[k := ConvertValue(m[k])];
      todo := todo - {k};
    }
    assert out == ConvertDelta(delta).value;
    return Some(out);
  }

  method UnconvertStateDelta(delta: StoredDelta) returns (res: StateDelta)
    ensures res == UnconvertDelta(delta)
  {
    if delta.None? {
      return None;
    }
    var m, out, todo := delta.value, map[], delta.value.Keys;
    while todo != {}
      invariant todo <= m.Keys && out == map k | k in m.Keys - todo :: UnconvertValue(m[k])
      decreases |todo|
    {
      var k :| k in todo;
      out := out[k := UnconvertValue(m[k])];
      todo := todo - {k};
    }
    assert out == UnconvertDelta(delta).value;
    return Some(out);
  }

  method ConvertLocalDeltas(deltas: LocalDeltas) returns (res: StoredLocals)
    ensures res == ConvertLocals(deltas)
  {
    if deltas.None? {
      return None;
    }
    var m, out, todo := deltas.value, map[], deltas.value.Keys;
    while todo != {}
      invariant todo <= m.Keys && out == map k | k in m.Keys - todo :: ConvertDelta(m[k])
      decreases |todo|
    {
      var k :| k in todo;
      var delta := ConvertStateDelta(m[k]);
      out := out[k := delta];
      todo := todo - {k};
    }
    assert out == ConvertLocals(deltas).value;
    return Some(out);
  }

  method UnconvertLocalDeltas(deltas: StoredLocals) returns (res: LocalDeltas)
    ensures res == UnconvertLocals(deltas)
  {
    if deltas.None? {
      return None;
    }
    var m, out, todo := deltas.value, map[], deltas.value.Keys;
    while todo != {}
      invariant todo <= m.Keys && out == map k | k in m.Keys - todo :: UnconvertDelta(m[k])
      decreases |todo|
    {
      var k :| k in todo;
      var delta := UnconvertStateDelta(m[k]);
      out := out[k := delta];
      todo := todo - {k};
    }
    assert out == UnconvertLocals(deltas).value;
    return Some(out);
  }

  method ConvertInnerTxns(printable: Str -> bool, inner: InnerTxns) returns (res: StoredInner)
    ensures res == ConvertInner(printable, inner)
    decreases inner
  {
    if inner.NilTxns? {
      return NilStored;
    }
    var out := [];
    for k := 0 to |inner.list|
      invariant out == ConvertAll(printable, inner.list, k)
    {
      var t := ConvertSignedTxnWithAD(printable, inner.list[k]);
      out := out + [t];
    }
    return StoredTxns(out);
  }

  method ConvertSignedTxnWithAD(printable: Str -> bool, t: Stxn) returns (res: StoredStxn)
    ensures res == ConvertStxn(printable, t) && Texted(printable, t, res)
    decreases t
  {
    StoredTexts(printable, t);
    var global := ConvertStateDelta(t.evalDelta.globalDelta);
    var locals := ConvertLocalDeltas(t.evalDelta.localDeltas);
    var inner := ConvertInnerTxns(printable, t.evalDelta.innerTxns);
    var eval := StoredEval(t.evalDelta, global, locals, t.evalDelta.logs, inner);
    return StoredStxn(t, ConvertTransaction(printable, t.txn), eval);
  }

  method UnconvertInnerTxns(inner: StoredInner) returns (res: InnerTxns)
    ensures res == UnconvertInner(inner)
    decreases inner
  {
    if inner.NilStored? {
      return NilTxns;
    }
    var out := [];
    for k := 0 to |inner.list|
      invariant out == UnconvertAll(inner.list, k)
    {
      var t := UnconvertSignedTxnWithAD(inner.list[k]);
      out := out + [t];
    }
    return Txns(out);
  }

  method UnconvertSignedTxnWithAD(t: StoredStxn) returns (res: Stxn)
    ensures res == UnconvertStxn(t)
    decreases t
  {
    var e := t.evalOverride;
    var eval := e.base;
    var global := UnconvertStateDelta(e.globalOverride);
    var locals := UnconvertLocalDeltas(e.localsOverride);
    var inner := UnconvertInnerTxns(e.innerOverride);
    eval := eval.(globalDelta := global, localDeltas := locals, logs := e.logsOverride, innerTxns := inner);
    res := t.base;
    res := res.(txn := UnconvertTransaction(t.txnOverride));
    res := res.(authAddr := t.base.authAddr);
    res := res.(evalDelta := eval);
  }

  // ---------------------------------------------------------------- what JSON keeps

  /** Map keys as text and back; None if a text cannot be decoded. */
  ghost function SendKeys(m: map<Str, StoredValue>, text: Str -> string): map<string, StoredValue> {
    map t | t in (set k | k in m :: text(k)) :: m[KeyWithText(m, text, t)]
  }

  ghost function KeyWithText(m: map<Str, StoredValue>, text: Str -> string, t: string): Str
    requires t in (set k | k in m :: text(k))
  {
    var k :| k in m && text(k) == t; k
  }

  ghost function ReceiveKeys(w: map<string, StoredValue>, parse: string -> Option<Str>): Option<map<Str, StoredValue>> {
    if exists t :: t in w && parse(t).None? then None
    else Some(map k | k in (set t | t in w :: parse(t).value) :: w[TextOfKey(w, parse, k)])
  }

  ghost function TextOfKey(w: map<string, StoredValue>, parse: string -> Option<Str>, k: Str): string
    requires forall t | t in w :: parse(t).Some?
    requires k in (set t | t in w :: parse(t).value)
  {
    var t :| t in w && parse(t).value == k; t
  }

  /** If parsing undoes the text form, every key arrives, with its own value. */
  lemma KeysRoundTrip(m: map<Str, StoredValue>, text: Str -> string, parse: string -> Option<Str>)
    requires forall k :: parse(text(k)) == Some(k)
    ensures ReceiveKeys(SendKeys(m, text), parse) == Some(m)
  {
    var w := SendKeys(m, text);
    assert forall t | t in w :: parse(t) == Some(KeyWithText(m, text, t));
    forall k: Str | k in m ensures text(k) in w && w[text(k)] == m[k] {
      var k' := KeyWithText(m, text, text(k));
      assert parse(text(k')) == parse(text(k));
    }
    var r := ReceiveKeys(w, parse).value;
    forall k: Str ensures k in r <==> k in m {
      if k in m {
        assert parse(text(k)).value == k;
      }
    }
    forall k: Str | k in m ensures r[k] == m[k] {
      var t := TextOfKey(w, parse, k);
      assert KeyWithText(m, text, t) == k;
    }
    assert r.Keys == m.Keys;
    assert r == m;
  }

  /** A map with byte-string keys after a trip through JSON. */
  ghost function Transported(m: map<Str, StoredValue>): map<Str, StoredValue> {
    var r := ReceiveKeys(SendKeys(m, (k: Str) => Encode(Std, k)), (t: string) => Decode(Std, t));
    if r.Some? then r.value else map[]
  }

  lemma TransportedSame(m: map<Str, StoredValue>)
    ensures Transported(m) == m
  {
    var text, parse := (k: Str) => Encode(Std, k), (t: string) => Decode(Std, t);
    forall k ensures parse(text(k)) == Some(k) {
      RoundTrip(Std, k);
    }
    KeysRoundTrip(m, text, parse);
  }

  // The stored records after a trip through JSON: an overridden field of the base is gone.

  /** What a JSON library may do: leave out empty maps and lists, so that they come back as nil, and turn
      plain text that is not printable into something else. */
  datatype Codec = Codec(omit: bool, printable: Str -> bool, garble: Str -> Str)

  ghost function ThroughText(c: Codec, s: Str): Str {
    if s == [] || c.printable(s) then s else c.garble(s)
  }

  ghost function ThroughParams(c: Codec, p: AssetParams): AssetParams {
    AssetParams(ThroughText(c, p.name), ThroughText(c, p.unit), ThroughText(c, p.url), p.rest)
  }

  ghost function ThroughTransaction(c: Codec, t: StoredTransaction): StoredTransaction {
    var p := t.assetParamsOverride;
    StoredTransaction(t.base.(assetParams := NoParams), p.(base := ThroughParams(c, p.base)))
  }

  ghost function WithoutBaseBytes(m: map<Str, StoredValue>): map<Str, StoredValue> {
    map k | k in m :: m[k].(base := m[k].base.(bytes := []))
  }

  // The deltas inside a map are values of the map and are always written.

  ghost function ThroughDelta(omit: bool, d: StoredDelta): StoredDelta {
    if d.None? || (omit && d.value == map[]) then None else Some(Transported(WithoutBaseBytes(d.value)))
  }

  ghost function ThroughLocals(omit: bool, d: StoredLocals): StoredLocals {
    if d.None? || (omit && d.value == map[]) then None
    else Some(map k | k in d.value :: ThroughDelta(false, d.value[k]))
  }

  ghost function ThroughLogs(omit: bool, logs: Option<seq<Str>>): Option<seq<Str>> {
    if omit && logs == Some([]) then None else logs
  }

  ghost function ThroughEval(c: Codec, e: StoredEval): StoredEval
    decreases e
  {
    StoredEval(NoEval.(rest := e.base.rest), ThroughDelta(c.omit, e.globalOverride),
               ThroughLocals(c.omit, e.localsOverride),
               ThroughLogs(c.omit, e.logsOverride), ThroughInner(c, e.innerOverride))
  }

  ghost function ThroughInner(c: Codec, i: StoredInner): StoredInner
    decreases i
  {
    if i.NilStored? || (c.omit && i.list == []) then NilStored else StoredTxns(ThroughAll(c, i.list, |i.list|))
  }

  ghost function ThroughAll(c: Codec, ts: seq<StoredStxn>, n: nat): (r: seq<StoredStxn>)
    requires n <= |ts|
    ensures |r| == n
    decreases ts, n
  {
    if n == 0 then [] else ThroughAll(c, ts, n - 1) + [ThroughJson(c, ts[n - 1])]
  }

  ghost function ThroughJson(c: Codec, t: StoredStxn): StoredStxn
    decreases t
  {
    StoredStxn(Stxn(NoTransaction, NoEval, t.base.authAddr, t.base.rest),
               ThroughTransaction(c, t.txnOverride), ThroughEval(c, t.evalOverride))
  }

  // ---------------------------------------------------------------- what comes back: empty may become nil

  function SettledMap<K(==), V(==)>(omit: bool, m: Option<map<K, V>>): Option<map<K, V>> {
    if omit && m == Some(map[]) then None else m
  }

  function SettledLogs(omit: bool, logs: Option<seq<Str>>): Option<seq<Str>> {
    if omit && logs == Some([]) then None else logs
  }

  function SettledEval(omit: bool, e: EvalDelta): EvalDelta
    decreases e
  {
    EvalDelta(SettledMap(omit, e.globalDelta), SettledMap(omit, e.localDeltas), SettledLogs(omit, e.logs),
              SettledInner(omit, e.innerTxns), e.rest)
  }

  function SettledInner(omit: bool, i: InnerTxns): InnerTxns
    decreases i
  {
    if i.NilTxns? || (omit && i.list == []) then NilTxns else Txns(SettledAll(omit, i.list, |i.list|))
  }

  function SettledAll(omit: bool, ts: seq<Stxn>, n: nat): (r: seq<Stxn>)
    requires n <= |ts|
    ensures |r| == n
    decreases ts, n
  {
    if n == 0 then [] else SettledAll(omit, ts, n - 1) + [Settled(omit, ts[n - 1])]
  }

  /** The transaction with every empty map and list replaced by nil, at any depth, if those are omitted. */
  function Settled(omit: bool, t: Stxn): Stxn
    decreases t
  {
    t.(evalDelta := SettledEval(omit, t.evalDelta))
  }

  /** No map and no list of the transaction or below is empty without being nil. */
  predicate NoEmpties(t: Stxn)
    decreases t
  {
    var e := t.evalDelta;
    && e.globalDelta != Some(map[]) && e.localDeltas != Some(map[]) && e.logs != Some([]) && e.innerTxns != Txns([])
    && (e.innerTxns.Txns? ==> forall k | 0 <= k < |e.innerTxns.list| :: NoEmpties(e.innerTxns.list[k]))
  }

  lemma {:induction false} SettledAt(omit: bool, ts: seq<Stxn>, n: nat)
    requires n <= |ts|
    ensures forall k | 0 <= k < n :: SettledAll(omit, ts, n)[k] == Settled(omit, ts[k])
  {
    if n > 0 {
      SettledAt(omit, ts, n - 1);
    }
  }

  predicate InnerNoEmpties(i: InnerTxns) {
    i != Txns([]) && (i.Txns? ==> forall k | 0 <= k < |i.list| :: NoEmpties(i.list[k]))
  }

  /** Nothing changes exactly when nothing is omitted or there is nothing empty. */
  lemma {:induction false} SettledSame(omit: bool, t: Stxn)
    ensures Settled(omit, t) == t <==> !omit || NoEmpties(t)
    decreases t
  {
    var e := t.evalDelta;
    InnerSame(omit, e.innerTxns);
    assert SettledEval(omit, e) == e <==>
             && SettledMap(omit, e.globalDelta) == e.globalDelta && SettledMap(omit, e.localDeltas) == e.localDeltas
             && SettledLogs(omit, e.logs) == e.logs && SettledInner(omit, e.innerTxns) == e.innerTxns;
    assert NoEmpties(t) <==>
             e.globalDelta != Some(map[]) && e.localDeltas != Some(map[]) && e.logs != Some([])
               && InnerNoEmpties(e.innerTxns);
  }

  lemma {:induction false} InnerSame(omit: bool, i: InnerTxns)
    ensures SettledInner(omit, i) == i <==> !omit || InnerNoEmpties(i)
    decreases i
  {
    if i.Txns? {
      var all := SettledAll(omit, i.list, |i.list|);
      SettledAt(omit, i.list, |i.list|);
      forall k | 0 <= k < |i.list| ensures all[k] == i.list[k] <==> !omit || NoEmpties(i.list[k]) {
        SettledSame(omit, i.list[k]);
      }
      assert all == i.list <==> forall k | 0 <= k < |i.list| :: all[k] == i.list[k];
    }
  }

  // ---------------------------------------------------------------- nothing is lost

  lemma ThroughDeltaIs(omit: bool, d: StoredDelta)
    ensures d.Some? && !(omit && d.value == map[]) ==> ThroughDelta(omit, d) == Some(WithoutBaseBytes(d.value))
  {
    if d.Some? {
      TransportedSame(WithoutBaseBytes(d.value));
    }
  }

  lemma ValuesRoundTrip(m: map<Str, ValueDelta>)
    ensures UnconvertDelta(Some(WithoutBaseBytes(ConvertDelta(Some(m)).value))) == Some(m)
    ensures ConvertDelta(Some(m)).value == map[] <==> m == map[]
  {
    var stored := ConvertDelta(Some(m)).value;
    assert stored.Keys == m.Keys;
    var r := UnconvertDelta(Some(WithoutBaseBytes(stored))).value;
    assert r.Keys == m.Keys;
    assert forall k | k in m :: r[k] == m[k];
    assert r == m;
    assert stored == map[] <==> stored.Keys == {};
    assert m == map[] <==> m.Keys == {};
  }

  lemma DeltaRoundTrip(omit: bool, d: StateDelta)
    ensures UnconvertDelta(ThroughDelta(omit, ConvertDelta(d))) == SettledMap(omit, d)
  {
    ThroughDeltaIs(omit, ConvertDelta(d));
    if d.Some? {
      ValuesRoundTrip(d.value);
    }
  }

  lemma EmptyLocals(m: map<nat, StateDelta>)
    ensures ConvertLocals(Some(m)).value == map[] <==> m == map[]
  {
    var stored := ConvertLocals(Some(m)).value;
    assert stored.Keys == m.Keys;
    assert stored == map[] <==> stored.Keys == {};
    assert m == map[] <==> m.Keys == {};
  }

  lemma LocalsRoundTrip(omit: bool, d: LocalDeltas)
    ensures UnconvertLocals(ThroughLocals(omit, ConvertLocals(d))) == SettledMap(omit, d)
  {
    if d.Some? {
      forall k | k in d.value ensures UnconvertDelta(ThroughDelta(false, ConvertDelta(d.value[k]))) == d.value[k] {
        DeltaRoundTrip(false, d.value[k]);
      }
      EmptyLocals(d.value);
      if !(omit && d.value == map[]) {
        assert UnconvertLocals(ThroughLocals(omit, ConvertLocals(d))).value == d.value;
      }
    }
  }

  lemma {:induction false} AllRoundTrip(c: Codec, ts: seq<Stxn>, stored: seq<StoredStxn>,
                                        through: seq<StoredStxn>, n: nat)
    requires n <= |ts| == |stored| == |through|
    requires stored == ConvertAll(c.printable, ts, |ts|) && through == ThroughAll(c, stored, |stored|)
    ensures UnconvertAll(through, n) == SettledAll(c.omit, ts, n)
    decreases ts, n
  {
    if n > 0 {
      AllRoundTrip(c, ts, stored, through, n - 1);
      ConvertAllAt(c.printable, ts, |ts|, n - 1);
      ThroughAllAt(c, stored, |stored|, n - 1);
      StxnRoundTrip(c, ts[n - 1]);
    }
  }

  lemma {:induction false} ConvertAllAt(printable: Str -> bool, ts: seq<Stxn>, n: nat, k: nat)
    requires k < n <= |ts|
    ensures ConvertAll(printable, ts, n)[k] == ConvertStxn(printable, ts[k])
  {
    if k < n - 1 {
      ConvertAllAt(printable, ts, n - 1, k);
    }
  }

  lemma {:induction false} ThroughAllAt(c: Codec, ts: seq<StoredStxn>, n: nat, k: nat)
    requires k < n <= |ts|
    ensures ThroughAll(c, ts, n)[k] == ThroughJson(c, ts[k])
  {
    if k < n - 1 {
      ThroughAllAt(c, ts, n - 1, k);
    }
  }

  lemma {:induction false} EvalRoundTrip(c: Codec, e: EvalDelta)
    ensures UnconvertEval(ThroughEval(c, ConvertEval(c.printable, e))) == SettledEval(c.omit, e)
    decreases e
  {
    DeltaRoundTrip(c.omit, e.globalDelta);
    LocalsRoundTrip(c.omit, e.localDeltas);
    InnerRoundTrip(c, e.innerTxns);
  }

  lemma {:induction false} InnerRoundTrip(c: Codec, i: InnerTxns)
    ensures UnconvertInner(ThroughInner(c, ConvertInner(c.printable, i))) == SettledInner(c.omit, i)
    decreases i
  {
    if i.Txns? {
      var stored := ConvertAll(c.printable, i.list, |i.list|);
      var through := ThroughAll(c, stored, |stored|);
      AllRoundTrip(c, i.list, stored, through, |i.list|);
    }
  }

  lemma ParamsRoundTrip(c: Codec, p: AssetParams)
    ensures var q := ConvertParams(c.printable, p); UnconvertParams(q.(base := ThroughParams(c, q.base))) == p
  {}

  /** Storing a signed transaction with apply data and reading it back gives the same transaction, for
      inner transactions of any depth, keys of any bytes, and names that are printable or not, whatever
      the codec makes of unprintable text, up to empty maps and lists that it may omit. */
  lemma {:induction false} StxnRoundTrip(c: Codec, t: Stxn)
    ensures UnconvertStxn(ThroughJson(c, ConvertStxn(c.printable, t))) == Settled(c.omit, t)
    decreases t
  {
    EvalRoundTrip(c, t.evalDelta);
    ParamsRoundTrip(c, t.txn.assetParams);
  }

  /** Exactly the same, exactly when nothing is omitted or there is nothing empty to omit. */
  lemma StoredExactly(c: Codec, t: Stxn)
    ensures UnconvertStxn(ThroughJson(c, ConvertStxn(c.printable, t))) == t <==> !c.omit || NoEmpties(t)
  {
    StxnRoundTrip(c, t);
    SettledSame(c.omit, t);
  }
}
