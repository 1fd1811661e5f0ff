/** Comparing the account the indexer reports with the one the node reports. */
module AccountCompare {
  import opened Outcomes
  import opened Base64
  import opened PageToken

  datatype Difference = Field(name: string) | Resource(name: string, id: nat)

  // ---------------------------------------------------------------- resource lists

  /** An element of a resource list. Only the indexer reports deleted ones. */
  datatype Entry<T> = Entry(id: nat, deleted: Option<bool>, value: T)

  predicate IsDeleted<T>(e: Entry<T>) {
    e.deleted == Some(true)
  }

  function ListOf<T>(list: Option<seq<T>>): seq<T> {
    if list.None? then [] else list.value
  }

  /** The undeleted entries by id; a later entry replaces an earlier one. */
  function Lookup<T>(list: seq<Entry<T>>): map<nat, T> {
    if list == [] then map[]
    else
      var n := |list| - 1;
      var front := Lookup(list[..n]);
      if IsDeleted(list[n]) then front else front[list[n].id := list[n].value]
  }

  /** Entry `i` is reported and not marked as deleted. */
  predicate Live<T>(list: seq<Entry<T>>, i: int) {
    0 <= i < |list| && list[i].deleted != Some(true)
  }

  /** Entry `i` is the last of the undeleted ones with its id. */
  predicate LastLive<T>(list: seq<Entry<T>>, i: int) {
    Live(list, i) && forall j | i < j < |list| && Live(list, j) :: list[j].id != list[i].id
  }

  predicate Reported<T>(list: seq<Entry<T>>, id: nat) {
    exists i | 0 <= i < |list| :: Live(list, i) && list[i].id == id
  }

  /** The map holds exactly the ids of the undeleted entries, with the value of the last of each. */
  ghost predicate IsLookup<T>(list: seq<Entry<T>>, m: map<nat, T>) {
    && (forall id: nat :: id in m <==> Reported(list, id))
    && (forall i {:trigger LastLive(list, i)} | LastLive(list, i) :: list[i].id in m && m[list[i].id] == list[i].value)
  }

  lemma {:induction false} LookupMeans<T>(list: seq<Entry<T>>)
    ensures IsLookup(list, Lookup(list))
  {
    if list != [] {
      var n := |list| - 1;
      var front, m := list[..n], Lookup(list);
      LookupMeans(front);
      assert forall i | 0 <= i < n :: Live(front, i) <==> Live(list, i);
      forall id: nat ensures id in m <==> Reported(list, id) {
        assert Reported(front, id) ==> Reported(list, id) by {
          if Reported(front, id) {
            var i :| 0 <= i < |front| && Live(front, i) && front[i].id == id;
            assert Live(list, i) && list[i].id == id;
          }
        }
        if Live(list, n) && list[n].id == id {
          assert Reported(list, id);
        } else if Reported(list, id) {
          var i :| 0 <= i < |list| && Live(list, i) && list[i].id == id;
          assert Live(front, i) && front[i].id == id;
        }
      }
      forall i | LastLive(list, i) ensures list[i].id in m && m[list[i].id] == list[i].value {
        assert Reported(list, list[i].id);
        if i < n {
          assert LastLive(front, i);
          assert Live(list, n) ==> list[n].id != list[i].id;
        }
      }
    }
  }

  /** An id that is reported has a last undeleted entry. */
  lemma {:induction false} SomeLast<T>(list: seq<Entry<T>>, i: nat) returns (j: nat)
    requires Live(list, i)
    ensures i <= j && LastLive(list, j) && list[j].id == list[i].id
    decreases |list| - i
  {
    if k :| i < k < |list| && Live(list, k) && list[k].id == list[i].id {
      j := SomeLast(list, k);
    } else {
      j := i;
    }
  }

  method LookupMap<T>(list: Option<seq<Entry<T>>>) returns (r: map<nat, T>)
    ensures r == Lookup(ListOf(list)) && IsLookup(ListOf(list), r)
  {
    LookupMeans(ListOf(list));
    r := map[];
    if list.Some? {
      for i := 0 to |list.value|
        invariant r == Lookup(list.value[..i])
      {
        assert list.value[..i + 1][..i] == list.value[..i];
        if !IsDeleted(list.value[i]) {
          r := r[list.value[i].id := list.value[i].value];
        }
      }
      assert list.value[..|list.value|] == list.value;
    }
  }

  predicate Match<T>(e: Entry<T>, known: map<nat, T>, same: (T, T) -> bool) {
    e.id in known && same(e.value, known[e.id])
  }

  /** What the walk over the node's list finds in the indexer's map. */
  predicate Matched<T>(list: seq<Entry<T>>, known: map<nat, T>, same: (T, T) -> bool) {
    forall i | 0 <= i < |list| :: Match(list[i], known, same)
  }

  lemma MatchedStep<T>(list: seq<Entry<T>>, i: nat, known: map<nat, T>, same: (T, T) -> bool)
    requires i < |list|
    ensures Matched(list[..i + 1], known, same) <==> Matched(list[..i], known, same) && Match(list[i], known, same)
  {
    assert list[..i + 1] == list[..i] + [list[i]];
    assert list[..i + 1][i] == list[i];
    assert forall k | 0 <= k < i :: list[..i + 1][k] == list[..i][k];
  }

  /** The differences of two resources are empty exactly when the two agree. */
  ghost predicate Reports<T(!new)>(diffs: (nat, T, T) -> seq<Difference>, same: (T, T) -> bool) {
    forall id, x, y :: diffs(id, x, y) == [] <==> same(x, y)
  }

  function Compare<T(!new)>(e: Entry<T>, y: T, diffs: (nat, T, T) -> seq<Difference>,
                            ghost same: (T, T) -> bool): (d: seq<Difference>)
    requires Reports(diffs, same)
    ensures d == [] <==> same(e.value, y)
  {
    diffs(e.id, e.value, y)
  }

  /** A resource that is missing is compared with the zero value besides being reported. */
  method CompareAll<T(!new)>(algod: Option<seq<Entry<T>>>, indexer: Option<seq<Entry<T>>>, zero: T, name: string,
                           ghost same: (T, T) -> bool, diffs: (nat, T, T) -> seq<Difference>)
    returns (d: seq<Difference>)
    requires Reports(diffs, same)
    ensures d == [] <==>
              |Lookup(ListOf(indexer))| == |ListOf(algod)| && Matched(ListOf(algod), Lookup(ListOf(indexer)), same)
  {
    var known := LookupMap(indexer);
    d := [];
    if (algod.Some? && |known| != |algod.value|) || (algod.None? && |known| != 0) {
      d := d + [Field(name)];
    }
    if algod.Some? {
      var list := algod.value;
      for i := 0 to |list|
        invariant d == [] <==> |known| == |list| && Matched(list[..i], known, same)
      {
        var a := list[i];
        MatchedStep(list, i, known, same);
        var found := a.id in known;
        if !found {
          d := d + [Resource("missing " + name, a.id)];
        }
        var more := Compare(a, if found then known[a.id] else zero, diffs, same);
        d := d + more;
      }
      assert list[..|list|] == list;
    }
  }

  // ---------------------------------------------------------------- what an empty list of differences means

  function Ids<T>(list: seq<Entry<T>>): set<nat> {
    set i | 0 <= i < |list| :: list[i].id
  }

  predicate DistinctIds<T>(list: seq<Entry<T>>) {
    forall i, j | 0 <= i < j < |list| :: list[i].id != list[j].id
  }

  lemma IdsSnoc<T>(list: seq<Entry<T>>)
    requires list != []
    ensures var n := |list| - 1;
            && Ids(list) == Ids(list[..n]) + {list[n].id}
            && (DistinctIds(list) <==> DistinctIds(list[..n]) && list[n].id !in Ids(list[..n]))
  {
    var n := |list| - 1;
    assert forall i | 0 <= i < n :: list[i].id in Ids(list[..n]) by {
      assert forall i | 0 <= i < n :: list[..n][i] == list[i];
    }
  }

  lemma {:induction false} IdCount<T>(list: seq<Entry<T>>)
    ensures |Ids(list)| <= |list|
    ensures |Ids(list)| == |list| <==> DistinctIds(list)
  {
    if list != [] {
      var n := |list| - 1;
      IdCount(list[..n]);
      IdsSnoc(list);
    }
  }

  lemma {:induction false} SameSize(a: set<nat>, b: set<nat>)
    requires a <= b
    ensures a == b <==> |a| == |b|
  {
    if a == {} {
    } else {
      var x :| x in a;
      SameSize(a - {x}, b - {x});
      assert a == (a - {x}) + {x} && b == (b - {x}) + {x};
    }
  }

  /** Only the node's list is walked, yet with distinct ids no resource of the indexer is left over. With
      repeated ids one always is. */
  lemma NothingLeftOver<T>(list: seq<Entry<T>>, known: map<nat, T>, same: (T, T) -> bool)
    requires |known| == |list| && Matched(list, known, same)
    ensures Ids(list) == known.Keys <==> DistinctIds(list)
  {
    IdCount(list);
    assert Ids(list) <= known.Keys;
    SameSize(Ids(list), known.Keys);
    assert |known.Keys| == |known|;
  }

  /** Both sides hold the same ids, deleted ones of the indexer aside, and the values of an id agree. */
  ghost predicate SameResources<T>(list: seq<Entry<T>>, indexer: seq<Entry<T>>, same: (T, T) -> bool) {
    && (forall id: nat :: Reported(indexer, id) <==> id in Ids(list))
    && (forall i, j {:trigger list[i], LastLive(indexer, j)}
          | 0 <= i < |list| && LastLive(indexer, j) && list[i].id == indexer[j].id ::
          same(list[i].value, indexer[j].value))
  }

  lemma SameByLookup<T>(list: seq<Entry<T>>, indexer: seq<Entry<T>>, same: (T, T) -> bool)
    ensures SameResources(list, indexer, same) <==>
              Ids(list) == Lookup(indexer).Keys && Matched(list, Lookup(indexer), same)
  {
    var known := Lookup(indexer);
    LookupMeans(indexer);
    if forall id: nat :: Reported(indexer, id) <==> id in Ids(list) {
      assert Ids(list) == known.Keys;
    }
    if SameResources(list, indexer, same) {
      forall i | 0 <= i < |list| ensures Match(list[i], known, same) {
        assert list[i].id in Ids(list) && Reported(indexer, list[i].id);
        var k :| 0 <= k < |indexer| && Live(indexer, k) && indexer[k].id == list[i].id;
        var j := SomeLast(indexer, k);
      }
    } else if Ids(list) == known.Keys && Matched(list, known, same) {
      forall i, j | 0 <= i < |list| && LastLive(indexer, j) && list[i].id == indexer[j].id
        ensures same(list[i].value, indexer[j].value)
      {
        assert Match(list[i], known, same);
      }
      assert SameResources(list, indexer, same);
    }
  }

  lemma WalkIsExact<T>(list: seq<Entry<T>>, indexer: seq<Entry<T>>, same: (T, T) -> bool)
    requires DistinctIds(list)
    ensures |Lookup(indexer)| == |list| && Matched(list, Lookup(indexer), same) <==> SameResources(list, indexer, same)
  {
    var known := Lookup(indexer);
    IdCount(list);
    SameByLookup(list, indexer, same);
    assert |known.Keys| == |known|;
    if |known| == |list| && Matched(list, known, same) {
      NothingLeftOver(list, known, same);
    }
  }

  // ---------------------------------------------------------------- key-value stores

  datatype TealValue = TealValue(kind: nat, bytes: string, number: nat)
  datatype KeyValue = KeyValue(key: string, value: TealValue)
  type Store = Option<seq<KeyValue>>

  function View(list: seq<KeyValue>): map<string, TealValue> {
    if list == [] then map[] else View(list[..|list| - 1])[list[|list| - 1].key := list[|list| - 1].value]
  }

  predicate HasKey(list: seq<KeyValue>, key: string) {
    exists i | 0 <= i < |list| :: list[i].key == key
  }

  /** Pair `i` is the last one with its key. */
  predicate LastPair(list: seq<KeyValue>, i: int) {
    0 <= i < |list| && forall j | i < j < |list| :: list[j].key != list[i].key
  }

  /** Both stores have the same keys, and each key has the same value where it is listed last. */
  ghost predicate SameStore(a: Store, b: Store) {
    var x, y := ListOf(a), ListOf(b);
    && (forall k: string :: HasKey(x, k) <==> HasKey(y, k))
    && (forall i, j {:trigger LastPair(x, i), LastPair(y, j)}
          | LastPair(x, i) && LastPair(y, j) && x[i].key == y[j].key :: x[i].value == y[j].value)
  }

  lemma {:induction false} ViewMeans(list: seq<KeyValue>)
    ensures forall k: string :: k in View(list) <==> HasKey(list, k)
    ensures forall i {:trigger LastPair(list, i)} | LastPair(list, i) ::
              list[i].key in View(list) && View(list)[list[i].key] == list[i].value
  {
    if list != [] {
      var n := |list| - 1;
      ViewMeans(list[..n]);
      assert forall i | 0 <= i < n :: list[..n][i] == list[i];
      forall k: string ensures k in View(list) <==> HasKey(list, k) {
        if HasKey(list, k) && list[n].key != k {
          var i :| 0 <= i < |list| && list[i].key == k;
          assert list[..n][i].key == k;
        }
        if HasKey(list[..n], k) {
          var i :| 0 <= i < n && list[..n][i].key == k;
          assert list[i].key == k;
        }
      }
      forall i | LastPair(list, i) ensures list[i].key in View(list) && View(list)[list[i].key] == list[i].value {
        if i < n {
          assert LastPair(list[..n], i);
        }
      }
    }
  }

  lemma {:induction false} SomeLastPair(list: seq<KeyValue>, i: nat) returns (j: nat)
    requires i < |list|
    ensures LastPair(list, j) && list[j].key == list[i].key
    decreases |list| - i
  {
    if k :| i < k < |list| && list[k].key == list[i].key {
      j := SomeLastPair(list, k);
    } else {
      j := i;
    }
  }

  predicate SameView(a: Store, b: Store) {
    View(ListOf(a)) == View(ListOf(b))
  }

  lemma ViewsAgree(a: Store, b: Store)
    ensures SameView(a, b) <==> SameStore(a, b)
  {
    var x, y := ListOf(a), ListOf(b);
    ViewMeans(x);
    ViewMeans(y);
    if SameStore(a, b) {
      assert View(x).Keys == View(y).Keys;
      forall k | k in View(x) ensures View(x)[k] == View(y)[k] {
        assert HasKey(x, k) && HasKey(y, k);
        var i0 :| 0 <= i0 < |x| && x[i0].key == k;
        var j0 :| 0 <= j0 < |y| && y[j0].key == k;
        var i := SomeLastPair(x, i0);
        var j := SomeLastPair(y, j0);
        assert LastPair(x, i) && LastPair(y, j);
      }
    } else if SameView(a, b) {
      assert forall k: string :: HasKey(x, k) <==> k in View(x);
      assert SameStore(a, b);
    }
  }

  method KeyValueLookupMap(store: Store) returns (r: map<string, TealValue>)
    ensures r == View(ListOf(store))
  {
    r := map[];
    if store.Some? {
      for i := 0 to |store.value|
        invariant r == View(store.value[..i])
      {
        assert store.value[..i + 1][..i] == store.value[..i];
        r := r[store.value[i].key := store.value[i].value];
      }
      assert store.value[..|store.value|] == store.value;
    }
  }

  lemma EqualMaps(a: map<string, TealValue>, b: map<string, TealValue>)
    requires |a| == |b| && forall k | k in a :: k in b && a[k] == b[k]
    ensures a == b
  {
    assert |a.Keys| == |a| && |b.Keys| == |b| && a.Keys <= b.Keys;
    SameKeys(a.Keys, b.Keys);
  }

  lemma {:induction false} SameKeys(a: set<string>, b: set<string>)
    requires a <= b && |a| == |b|
    ensures a == b
  {
    if a != {} {
      var x :| x in a;
      SameKeys(a - {x}, b - {x});
      assert a == (a - {x}) + {x} && b == (b - {x}) + {x};
    }
  }

  method TealKeyValueStoreEqual(a: Store, b: Store) returns (r: bool)
    ensures r <==> SameStore(a, b)
  {
    ViewsAgree(a, b);
    var x := KeyValueLookupMap(a);
    var y := KeyValueLookupMap(b);
    if |x| != |y| {
      return false;
    }
    var todo := x.Keys;
    while todo != {}
      invariant todo <= x.Keys
      invariant forall k | k in x && k !in todo :: k in y && x[k] == y[k]
    {
      var k :| k in todo;
      if k !in y || x[k] != y[k] {
        return false;
      }
      todo := todo - {k};
    }
    EqualMaps(x, y);
    r := true;
  }

  // ---------------------------------------------------------------- resources

  datatype Holding = Holding(amount: nat, frozen: bool)
  datatype AssetRoles = AssetRoles(freeze: Option<string>, clawback: Option<string>, manager: Option<string>,
                                   reserve: Option<string>)
  datatype AssetTexts = AssetTexts(name: Option<string>, unitName: Option<string>, url: Option<string>,
                                   nameB64: Option<seq<Byte>>, unitNameB64: Option<seq<Byte>>,
                                   urlB64: Option<seq<Byte>>)
  datatype AssetParams = AssetParams(roles: AssetRoles, defaultFrozen: Option<bool>, creator: string, decimals: nat,
                                     total: nat, texts: AssetTexts, metadataHash: Option<seq<Byte>>)
  datatype Schema = Schema(bytes: nat, uints: nat)
  datatype LocalState = LocalState(schema: Schema, keyValue: Store)
  datatype App = App(creator: Option<string>, approval: seq<Byte>, clearState: seq<Byte>, globalState: Store,
                     localSchema: Option<Schema>, globalSchema: Option<Schema>, version: Option<nat>,
                     extraPages: Option<nat>)

  function Note(d: seq<Difference>, same: bool, what: Difference): (r: seq<Difference>)
    ensures r == [] <==> d == [] && same
  {
    if same then d else d + [what]
  }

  predicate SameHolding(a: Holding, i: Holding) {
    a == i
  }

  function HoldingDiffs(id: nat, a: Holding, i: Holding): (d: seq<Difference>)
    ensures d == [] <==> SameHolding(a, i)
  {
    var d := Note([], a.amount == i.amount, Resource("asset amount", id));
    Note(d, a.frozen == i.frozen, Resource("asset is-frozen", id))
  }

  predicate SameParams(a: AssetParams, i: AssetParams) {
    a == i
  }

  function RoleDiffs(d0: seq<Difference>, id: nat, a: AssetRoles, i: AssetRoles): (d: seq<Difference>)
    ensures d == [] <==> d0 == [] && a == i
  {
    var d := Note(d0, a.freeze == i.freeze, Resource("created-asset freeze-addr", id));
    var d := Note(d, a.clawback == i.clawback, Resource("created-asset clawback-addr", id));
    var d := Note(d, a.manager == i.manager, Resource("created-asset manager-addr", id));
    Note(d, a.reserve == i.reserve, Resource("created-asset reserve-addr", id))
  }

  function TextDiffs(d0: seq<Difference>, id: nat, a: AssetTexts, i: AssetTexts): (d: seq<Difference>)
    ensures d == [] <==> d0 == [] && a == i
  {
    var d := Note(d0, a.name == i.name, Resource("created-asset name", id));
    var d := Note(d, a.unitName == i.unitName, Resource("created-asset unit-name", id));
    var d := Note(d, a.url == i.url, Resource("created-asset url", id));
    var d := Note(d, a.nameB64 == i.nameB64, Resource("created-asset name-b64", id));
    var d := Note(d, a.unitNameB64 == i.unitNameB64, Resource("created-asset unit-name-b64", id));
    Note(d, a.urlB64 == i.urlB64, Resource("created-asset url-b64", id))
  }

  function ParamsDiffs(id: nat, a: AssetParams, i: AssetParams): (d: seq<Difference>)
    ensures d == [] <==> SameParams(a, i)
  {
    var d := RoleDiffs([], id, a.roles, i.roles);
    var d := Note(d, a.defaultFrozen == i.defaultFrozen, Resource("created-asset default-frozen", id));
    var d := Note(d, a.creator == i.creator, Resource("created-asset creator-addr", id));
    var d := Note(d, a.decimals == i.decimals, Resource("created-asset decimals", id));
    var d := Note(d, a.total == i.total, Resource("created-asset total", id));
    var d := TextDiffs(d, id, a.texts, i.texts);
    Note(d, a.metadataHash == i.metadataHash, Resource("created-asset metadata-hash", id))
  }

  ghost predicate SameLocalState(a: LocalState, i: LocalState) {
    a.schema == i.schema && SameStore(a.keyValue, i.keyValue)
  }

  function LocalStateDiffs(id: nat, a: LocalState, i: LocalState): (d: seq<Difference>)
    ensures d == [] <==> SameLocalState(a, i)
  {
    ViewsAgree(a.keyValue, i.keyValue);
    var d := Note([], a.schema == i.schema, Resource("app-local-state schema", id));
    Note(d, SameView(a.keyValue, i.keyValue), Resource("app-local-state key-values", id))
  }

  ghost predicate SameApp(a: App, i: App) {
    a == i.(globalState := a.globalState) && SameStore(a.globalState, i.globalState)
  }

  function AppDiffs(id: nat, a: App, i: App): (d: seq<Difference>)
    ensures d == [] <==> SameApp(a, i)
  {
    ViewsAgree(a.globalState, i.globalState);
    var d := Note([], a.creator == i.creator, Resource("created-app creator", id));
    var d := Note(d, a.approval == i.approval, Resource("created-app approval-program", id));
    var d := Note(d, a.clearState == i.clearState, Resource("created-app clear-state-program", id));
    var d := Note(d, SameView(a.globalState, i.globalState), Resource("created-app global-state", id));
    var d := Note(d, a.localSchema == i.localSchema, Resource("created-app local-state-schema", id));
    var d := Note(d, a.globalSchema == i.globalSchema, Resource("created-app global-state-schema", id));
    var d := Note(d, a.version == i.version, Resource("created-app version", id));
    Note(d, a.extraPages == i.extraPages, Resource("created-app extra-pages", id))
  }

  // ---------------------------------------------------------------- accounts

  datatype Basics = Basics(address: string, amount: nat, amountWithoutPendingRewards: nat, totalSchema: Option<Schema>,
                           totalExtraPages: Option<nat>, authAddr: Option<string>, pendingRewards: nat, rewards: nat,
                           status: string)

  type Resources<T> = Option<seq<Entry<T>>>

  datatype Account = Account(basics: Basics, assets: Resources<Holding>, createdAssets: Resources<AssetParams>,
                             localStates: Resources<LocalState>, createdApps: Resources<App>)

  /** A missing schema counts as an empty one. */
  predicate SameSchema(a: Option<Schema>, i: Option<Schema>) {
    a == i || (a.None? && i == Some(Schema(0, 0))) || (i.None? && a == Some(Schema(0, 0)))
  }

  function OrEmpty(s: Option<Schema>): Schema {
    if s.Some? then s.value else Schema(0, 0)
  }

  function WithoutSpaces(s: string): string {
    if s == "" then "" else WithoutSpaces(s[..|s| - 1]) + if s[|s| - 1] == ' ' then "" else [s[|s| - 1]]
  }

  /** Piece by piece, a space leaves nothing and any other character itself. */
  lemma {:induction false} WithoutSpacesMeans(s: string, t: string, c: char)
    ensures WithoutSpaces(s + t) == WithoutSpaces(s) + WithoutSpaces(t)
    ensures WithoutSpaces([c]) == if c == ' ' then "" else [c]
    decreases t
  {
    if t == "" {
      assert s + t == s;
    } else {
      var n := |t| - 1;
      WithoutSpacesMeans(s, t[..n], c);
      assert (s + t)[..|s + t| - 1] == s + t[..n];
    }
    assert [c][..0] == "";
  }

  /** The indexer keeps an authorising address that has become the account's own, may report rewards
      with or without the pending ones, and writes the status without spaces. */
  predicate SameBasics(a: Basics, i: Basics) {
    && a.address == i.address && a.amount == i.amount && a.amountWithoutPendingRewards == i.amountWithoutPendingRewards
    && SameSchema(a.totalSchema, i.totalSchema) && a.totalExtraPages == i.totalExtraPages
    && (a.authAddr == i.authAddr || i.authAddr == Some(i.address))
    && a.pendingRewards == i.pendingRewards
    && (a.rewards == i.rewards || a.rewards == (i.rewards + i.pendingRewards) % TWO_64)
    && WithoutSpaces(a.status) == i.status
  }

  function BasicDiffs(a: Basics, i: Basics): (d: seq<Difference>)
    ensures d == [] <==> SameBasics(a, i)
  {
    var d := Note([], a.address == i.address, Field("account address"));
    var d := Note(d, a.amount == i.amount, Field("microalgo amount"));
    var d := Note(d, a.amountWithoutPendingRewards == i.amountWithoutPendingRewards,
                  Field("amount-without-pending-rewards"));
    var d := Note(d, OrEmpty(a.totalSchema) == OrEmpty(i.totalSchema), Field("apps-total-schema"));
    var d := Note(d, a.totalExtraPages == i.totalExtraPages, Field("apps-total-extra-pages"));
    var d := Note(d, a.authAddr == i.authAddr || !(i.authAddr.None? || i.authAddr.value != i.address),
                  Field("auth-addr"));
    var d := Note(d, a.pendingRewards == i.pendingRewards, Field("pending-rewards"));
    var d := Note(d, !(a.rewards != i.rewards && a.rewards != (i.rewards + i.pendingRewards) % TWO_64),
                  Field("rewards (including adjusted)"));
    Note(d, WithoutSpaces(a.status) == i.status, Field("status"))
  }

  predicate DistinctResources(a: Account) {
    && DistinctIds(ListOf(a.assets)) && DistinctIds(ListOf(a.createdAssets))
    && DistinctIds(ListOf(a.localStates)) && DistinctIds(ListOf(a.createdApps))
  }

  ghost predicate Same<T>(algod: Resources<T>, indexer: Resources<T>, same: (T, T) -> bool) {
    SameResources(ListOf(algod), ListOf(indexer), same)
  }

  /** The indexer reports the account as the node does. */
  ghost predicate SameAccount(algod: Account, indexer: Account) {
    && SameBasics(algod.basics, indexer.basics)
    && Same(algod.assets, indexer.assets, SameHolding) && Same(algod.createdAssets, indexer.createdAssets, SameParams)
    && Same(algod.localStates, indexer.localStates, SameLocalState)
    && Same(algod.createdApps, indexer.createdApps, SameApp)
  }

  ghost predicate WalkedList<T>(algod: Resources<T>, indexer: Resources<T>, same: (T, T) -> bool) {
    |Lookup(ListOf(indexer))| == |ListOf(algod)| && Matched(ListOf(algod), Lookup(ListOf(indexer)), same)
  }

  /** The two lists have one length and every resource of the node's list is found. */
  ghost predicate Walked(algod: Account, indexer: Account) {
    && SameBasics(algod.basics, indexer.basics)
    && WalkedList(algod.assets, indexer.assets, SameHolding)
    && WalkedList(algod.createdAssets, indexer.createdAssets, SameParams)
    && WalkedList(algod.localStates, indexer.localStates, SameLocalState)
    && WalkedList(algod.createdApps, indexer.createdApps, SameApp)
  }

  const NO_PARAMS := AssetParams(AssetRoles(None, None, None, None), None, "", 0, 0,
                                 AssetTexts(None, None, None, None, None, None), None)

  /** What is walked over is the same account exactly when the node lists no id twice. */
  lemma NoDifference(indexer: Account, algod: Account)
    ensures DistinctResources(algod) ==> (Walked(algod, indexer) <==> SameAccount(algod, indexer))
    ensures Walked(algod, indexer) ==> (SameAccount(algod, indexer) <==> DistinctResources(algod))
  {
    WalkMeans(algod.assets, indexer.assets, SameHolding);
    WalkMeans(algod.createdAssets, indexer.createdAssets, SameParams);
    WalkMeans(algod.localStates, indexer.localStates, SameLocalState);
    WalkMeans(algod.createdApps, indexer.createdApps, SameApp);
  }

  lemma WalkMeans<T>(algod: Resources<T>, indexer: Resources<T>, same: (T, T) -> bool)
    ensures DistinctIds(ListOf(algod)) ==> (WalkedList(algod, indexer, same) <==> Same(algod, indexer, same))
    ensures WalkedList(algod, indexer, same) ==> (Same(algod, indexer, same) <==> DistinctIds(ListOf(algod)))
  {
    var list, known := ListOf(algod), Lookup(ListOf(indexer));
    SameByLookup(list, ListOf(indexer), same);
    if DistinctIds(list) {
      WalkIsExact(list, ListOf(indexer), same);
    }
    if WalkedList(algod, indexer, same) {
      NothingLeftOver(list, known, same);
    }
  }

  /** An account that the node reports as empty is not compared. For any other one no difference is reported
      exactly when the two are the same account, provided that the node lists no id twice; if it does, an
      empty list of differences never means that. */
  method Equals(indexer: Account, algod: Account) returns (d: seq<Difference>)
    ensures d == [] <==> algod.basics.amount == 0 || Walked(algod, indexer)
    ensures algod.basics.amount != 0 && DistinctResources(algod) ==> (d == [] <==> SameAccount(algod, indexer))
    ensures algod.basics.amount != 0 && d == [] ==> (SameAccount(algod, indexer) <==> DistinctResources(algod))
  {
    if algod.basics.amount == 0 {
      return [];
    }
    NoDifference(indexer, algod);
    d := BasicDiffs(algod.basics, indexer.basics);
    var assets := CompareAll(algod.assets, indexer.assets, Holding(0, false), "assets", SameHolding, HoldingDiffs);
    var created := CompareAll(algod.createdAssets, indexer.createdAssets, NO_PARAMS, "created-assets", SameParams,
                              ParamsDiffs);
    var local := CompareAll(algod.localStates, indexer.localStates, LocalState(Schema(0, 0), None), "apps-local-state",
                            SameLocalState, LocalStateDiffs);
    var apps := CompareAll(algod.createdApps, indexer.createdApps, App(None, [], [], None, None, None, None, None),
                           "created-apps", SameApp, AppDiffs);
    d := d + assets + created + local + apps;
  }

  /** Nothing is reported against an account the node calls empty, whatever the indexer says. */
  method EmptyAccountNotCompared() returns (indexer: Account, algod: Account, d: seq<Difference>)
    ensures d == [] && DistinctResources(algod) && !SameAccount(algod, indexer)
  {
    var b := Basics("A", 0, 0, None, None, None, 0, 0, "");
    algod := Account(b, None, None, None, None);
    indexer := algod.(basics := b.(amount := 5));
    d := Equals(indexer, algod);
  }
}
