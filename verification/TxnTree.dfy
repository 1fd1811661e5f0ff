/** Converting a stored transaction with its inner transactions to the form the API returns. */
module TxnTree {
  import opened Outcomes
  import opened PageToken
  import Ledger

  type Address = Ledger.Address

  type StateDelta = map<string, nat>

  datatype Kind = AppCall(appId: nat) | AssetConfig(assetId: nat) | AssetTransfer | Other

  /** A signed transaction with its apply data. */
  datatype Node = Node(kind: Kind, sender: Address, accounts: seq<Address>, shared: seq<Address>,
                       localDeltas: map<nat, StateDelta>, applicationId: nat, configAsset: nat, assetClosing: nat,
                       inners: seq<Node>)

  /** What the row adds to the transaction. */
  datatype Extra = Extra(round: nat, roundTime: nat, intra: nat, assetId: nat, assetClosing: nat)

  datatype LocalDelta = LocalDelta(address: Address, delta: StateDelta)

  datatype Locals = NoLocals | Locals(deltas: seq<LocalDelta>)
  datatype Inners = NoInners | Inners(txns: seq<Out>)

  datatype Out = Out(sender: Address, round: nat, roundTime: nat, intra: nat, closeAmount: Option<nat>,
                     createdAsset: Option<nat>, createdApp: Option<nat>, locals: Locals, inners: Inners)

  /** A conversion that returns an error or that is stopped by an index out of range. */
  datatype Outcome<T> = Failed | Done(value: T)

  // ---------------------------------------------------------------- addresses

  /** The addresses a local delta may refer to. */
  function AddressList(n: Node): seq<Address> {
    [n.sender] + n.accounts + n.shared
  }

  const TWO_63 := 0x8000_0000_0000_0000

  /** A 64-bit number as a signed one. */
  function Signed(n: nat): int {
    if n < TWO_63 then n else n - TWO_64
  }

  /** An index of 2^63 or more wraps to a negative number, takes the second branch and is out of range there. */
  method EdIndexToAddress(index: nat, n: Node) returns (r: Outcome<Address>)
    requires index < TWO_64 && |n.accounts| + |n.shared| < TWO_63
    ensures r == if index < |AddressList(n)| then Done(AddressList(n)[index]) else Failed
    ensures AddressList(n) == [n.sender] + n.accounts + n.shared
  {
    if index == 0 {
      r := Done(n.sender);
    } else if Signed(index - 1) < |n.accounts| {
      r := if index - 1 < |n.accounts| then Done(n.accounts[index - 1]) else Failed;
    } else if Signed(index - 1) - |n.accounts| < |n.shared| {
      r := Done(n.shared[Signed(index - 1) - |n.accounts|]);
    } else {
      r := Failed;
    }
  }

  // ---------------------------------------------------------------- local deltas

  predicate Ascending(s: seq<nat>) {
    forall i, j | 0 <= i < j < |s| :: s[i] < s[j]
  }

  /** The keys in ascending order. */
  ghost predicate SortedKeys(s: seq<nat>, keys: set<nat>) {
    Ascending(s) && forall k: nat :: k in s <==> k in keys
  }

  lemma NoKeys(s: seq<nat>, keys: set<nat>)
    requires SortedKeys(s, keys)
    ensures s == [] <==> keys == {}
  {
    if s != [] {
      assert s[0] in keys;
    }
  }

  lemma {:induction false} SortedKeysUnique(s: seq<nat>, t: seq<nat>, keys: set<nat>)
    requires SortedKeys(s, keys) && SortedKeys(t, keys)
    ensures s == t
  {
    NoKeys(s, keys);
    NoKeys(t, keys);
    if s != [] {
      var m, n := |s| - 1, |t| - 1;
      assert s[m] in t && t[n] in s;
      assert s[m] == t[n];
      assert SortedKeys(s[..m], keys - {s[m]}) by {
        forall k: nat ensures k in s[..m] <==> k in keys - {s[m]} {
          assert k in s <==> k in s[..m] || k == s[m];
        }
      }
      assert SortedKeys(t[..n], keys - {s[m]}) by {
        forall k: nat ensures k in t[..n] <==> k in keys - {s[m]} {
          assert k in t <==> k in t[..n] || k == t[n];
        }
      }
      SortedKeysUnique(s[..m], t[..n], keys - {s[m]});
      assert s == s[..m] + [s[m]] && t == t[..n] + [t[n]];
    }
  }

  lemma {:induction false} Largest(keys: set<nat>)
    requires keys != {}
    ensures exists m :: m in keys && forall k | k in keys :: k <= m
  {
    var x :| x in keys;
    if keys != {x} {
      Largest(keys - {x});
      var y :| y in keys - {x} && forall k | k in keys - {x} :: k <= y;
      var m := if x > y then x else y;
      forall k | k in keys ensures k <= m {
        assert k == x || k in keys - {x};
      }
      assert m in keys;
    }
  }

  ghost function Sorted(keys: set<nat>): (s: seq<nat>)
    ensures SortedKeys(s, keys)
  {
    if keys == {} then []
    else
      Largest(keys);
      var m :| m in keys && forall k | k in keys :: k <= m;
      Sorted(keys - {m}) + [m]
  }

  datatype Tuple = Tuple(key: nat, address: Address)

  predicate InOrder(s: seq<Tuple>) {
    forall i, j | 0 <= i < j < |s| :: s[i].key < s[j].key
  }

  /** Sorting by key, here by insertion. */
  method SortTuples(list: seq<Tuple>) returns (r: seq<Tuple>)
    requires forall i, j | 0 <= i < j < |list| :: list[i].key != list[j].key
    ensures InOrder(r)
    ensures forall t :: t in r <==> t in list
  {
    r := [];
    for i := 0 to |list|
      invariant InOrder(r)
      invariant forall t :: t in r <==> t in list[..i]
    {
      forall k | 0 <= k < |r| ensures r[k].key != list[i].key {
        assert r[k] in list[..i];
      }
      r := Insert(r, list[i]);
      assert list[..i + 1] == list[..i] + [list[i]];
    }
    assert list[..|list|] == list;
  }

  method Insert(s: seq<Tuple>, x: Tuple) returns (r: seq<Tuple>)
    requires InOrder(s) && forall i | 0 <= i < |s| :: s[i].key != x.key
    ensures InOrder(r) && forall t :: t in r <==> t in s || t == x
  {
    var p := 0;
    while p < |s| && s[p].key < x.key
      invariant 0 <= p <= |s|
      invariant forall i | 0 <= i < p :: s[i].key < x.key
    {
      p := p + 1;
    }
    r := s[..p] + [x] + s[p..];
    InsertedAt(s, x, p);
  }

  lemma InsertedAt(s: seq<Tuple>, x: Tuple, p: nat)
    requires InOrder(s) && p <= |s|
    requires (forall i | 0 <= i < p :: s[i].key < x.key) && (p < |s| ==> x.key < s[p].key)
    ensures var r := s[..p] + [x] + s[p..]; InOrder(r) && forall t :: t in r <==> t in s || t == x
  {
    assert s == s[..p] + s[p..];
    var r := s[..p] + [x] + s[p..];
    forall i, j | 0 <= i < j < |r| ensures r[i].key < r[j].key {
      assert p < j ==> s[p].key <= s[j - 1].key;
    }
  }

  function AddressAt(n: Node, k: nat): Address {
    if k < |AddressList(n)| then AddressList(n)[k] else 0
  }

  function DeltaAt(n: Node, k: nat): StateDelta {
    if k in n.localDeltas then n.localDeltas[k] else map[]
  }

  /** The deltas of the given keys, in their order, without the empty ones. */
  function LocalsOf(n: Node, keys: seq<nat>): seq<LocalDelta> {
    if keys == [] then []
    else
      var k := keys[|keys| - 1];
      LocalsOf(n, keys[..|keys| - 1]) + if DeltaAt(n, k) == map[] then []
        else [LocalDelta(AddressAt(n, k), DeltaAt(n, k))]
  }

  /** The local deltas in ascending order of their index. */
  ghost function ConvertedLocals(n: Node): Locals {
    if n.localDeltas == map[] then NoLocals else Locals(LocalsOf(n, Sorted(n.localDeltas.Keys)))
  }

  /** The indexes whose deltas say something. */
  function LiveKeys(n: Node): set<nat> {
    set k | k in n.localDeltas && n.localDeltas[k] != map[]
  }

  /** The indexes among `keys` whose deltas say something, in their order. */
  function LiveOf(n: Node, keys: seq<nat>): seq<nat> {
    if keys == [] then []
    else LiveOf(n, keys[..|keys| - 1]) + if DeltaAt(n, keys[|keys| - 1]) == map[] then [] else [keys[|keys| - 1]]
  }

  lemma {:induction false} LiveMember(n: Node, keys: seq<nat>, k: nat)
    ensures k in LiveOf(n, keys) <==> k in keys && DeltaAt(n, k) != map[]
  {
    if keys != [] {
      LiveMember(n, keys[..|keys| - 1], k);
      assert keys == keys[..|keys| - 1] + [keys[|keys| - 1]];
    }
  }

  lemma {:induction false} LiveAscending(n: Node, keys: seq<nat>)
    requires Ascending(keys)
    ensures Ascending(LiveOf(n, keys))
  {
    if keys != [] {
      var m := |keys| - 1;
      LiveAscending(n, keys[..m]);
      var live := LiveOf(n, keys[..m]);
      forall i | 0 <= i < |live| ensures live[i] < keys[m] {
        LiveMember(n, keys[..m], live[i]);
      }
    }
  }

  lemma {:induction false} LocalsLive(n: Node, keys: seq<nat>)
    ensures |LocalsOf(n, keys)| == |LiveOf(n, keys)|
    ensures forall i | 0 <= i < |LiveOf(n, keys)| ::
              LocalsOf(n, keys)[i] == LocalDelta(AddressAt(n, LiveOf(n, keys)[i]), DeltaAt(n, LiveOf(n, keys)[i]))
  {
    if keys != [] {
      LocalsLive(n, keys[..|keys| - 1]);
    }
  }

  /** The converted deltas are those of the live indexes, each once, in ascending order, under the address
      that the index has in sender, accounts and shared accounts. */
  lemma LocalsMean(n: Node)
    requires GoodIndexes(n)
    ensures n.localDeltas == map[] <==> ConvertedLocals(n).NoLocals?
    ensures n.localDeltas != map[] ==>
              var keys, d := Sorted(LiveKeys(n)), ConvertedLocals(n).deltas;
              && |d| == |keys|
              && forall i | 0 <= i < |d| ::
                   && keys[i] in n.localDeltas && keys[i] < |AddressList(n)|
                   && d[i] == LocalDelta(AddressList(n)[keys[i]], n.localDeltas[keys[i]])
  {
    var keys := Sorted(n.localDeltas.Keys);
    var live := LiveOf(n, keys);
    LiveAscending(n, keys);
    forall k: nat ensures k in live <==> k in LiveKeys(n) {
      LiveMember(n, keys, k);
    }
    SortedKeysUnique(live, Sorted(LiveKeys(n)), LiveKeys(n));
    LocalsLive(n, keys);
    forall i | 0 <= i < |live| ensures live[i] in LiveKeys(n) {
      assert live[i] in live;
    }
  }

  predicate GoodIndexes(n: Node) {
    forall k | k in n.localDeltas :: k < |AddressList(n)|
  }

  /** Indexes are 64-bit numbers and lists are no longer than a signed 64-bit number can count. */
  predicate Sized(n: Node) {
    |n.accounts| + |n.shared| < TWO_63 && forall k | k in n.localDeltas :: k < TWO_64
  }

  function KeysOf(s: seq<Tuple>): seq<nat> {
    if s == [] then [] else KeysOf(s[..|s| - 1]) + [s[|s| - 1].key]
  }

  lemma {:induction false} KeysAt(s: seq<Tuple>)
    ensures |KeysOf(s)| == |s| && forall i | 0 <= i < |s| :: KeysOf(s)[i] == s[i].key
  {
    if s != [] {
      KeysAt(s[..|s| - 1]);
    }
  }

  predicate Resolved(n: Node, t: Tuple) {
    t.key in n.localDeltas && t.key < |AddressList(n)| && t.address == AddressList(n)[t.key]
  }

  /** Resolves every index, in any order. */
  method ResolveKeys(n: Node) returns (r: Outcome<seq<Tuple>>)
    requires Sized(n)
    ensures r.Failed? <==> !GoodIndexes(n)
    ensures r.Done? ==>
              && (forall i, j | 0 <= i < j < |r.value| :: r.value[i].key != r.value[j].key)
              && (forall t | t in r.value :: Resolved(n, t))
              && (forall k: nat | k in n.localDeltas :: exists t :: t in r.value && t.key == k)
  {
    var keys: seq<Tuple>, todo := [], n.localDeltas.Keys;
    while todo != {}
      invariant todo <= n.localDeltas.Keys
      invariant forall i, j | 0 <= i < j < |keys| :: keys[i].key != keys[j].key
      invariant forall t | t in keys :: Resolved(n, t) && t.key !in todo
      invariant forall k: nat | k in n.localDeltas && k !in todo :: exists t :: t in keys && t.key == k
    {
      var k :| k in todo;
      var addr := EdIndexToAddress(k, n);
      if addr.Failed? {
        return Failed;
      }
      ghost var before := keys;
      keys := keys + [Tuple(k, addr.value)];
      todo := todo - {k};
      assert Tuple(k, addr.value) in keys;
      assert forall t | t in before :: t in keys;
    }
    r := Done(keys);
  }

  lemma TuplesSorted(n: Node, list: seq<Tuple>)
    requires InOrder(list) && (forall t | t in list :: Resolved(n, t))
    requires forall k: nat | k in n.localDeltas :: exists t :: t in list && t.key == k
    ensures KeysOf(list) == Sorted(n.localDeltas.Keys)
  {
    var s, keys := KeysOf(list), n.localDeltas.Keys;
    KeysAt(list);
    forall k: nat ensures k in s <==> k in keys {
      if k in s {
        var i :| 0 <= i < |s| && s[i] == k;
        assert list[i] in list;
      }
      if k in keys {
        var t :| t in list && t.key == k;
        var i :| 0 <= i < |list| && list[i] == t;
        assert s[i] == k;
      }
    }
    SortedKeysUnique(s, Sorted(keys), keys);
  }

  method ConvertLocals(n: Node) returns (r: Outcome<Locals>)
    requires Sized(n)
    ensures r == if GoodIndexes(n) then Done(ConvertedLocals(n)) else Failed
  {
    if |n.localDeltas| == 0 {
      assert n.localDeltas == map[];
      return Done(NoLocals);
    }
    var keys := ResolveKeys(n);
    if keys.Failed? {
      return Failed;
    }
    var sorted := SortTuples(keys.value);
    TuplesSorted(n, sorted);
    var d := ConvertSorted(n, sorted);
    r := Done(Locals(d));
  }

  method ConvertSorted(n: Node, sorted: seq<Tuple>) returns (d: seq<LocalDelta>)
    requires forall t | t in sorted :: Resolved(n, t)
    ensures d == LocalsOf(n, KeysOf(sorted))
  {
    d := [];
    for i := 0 to |sorted|
      invariant d == LocalsOf(n, KeysOf(sorted[..i]))
    {
      var t := sorted[i];
      assert t in sorted && Resolved(n, t);
      assert sorted[..i + 1][..i] == sorted[..i];
      assert KeysOf(sorted[..i + 1])[..|KeysOf(sorted[..i])|] == KeysOf(sorted[..i]);
      var v := n.localDeltas[t.key];
      assert |v| == 0 <==> v == map[];
      if |v| != 0 {
        d := d + [LocalDelta(t.address, v)];
      }
    }
    assert sorted[..|sorted|] == sorted;
  }

  // ---------------------------------------------------------------- trees

  /** Some node at some depth has an index outside its address list: the conversion cannot succeed. */
  predicate Convertible(n: Node) {
    GoodIndexes(n) && forall i | 0 <= i < |n.inners| :: Convertible(n.inners[i])
  }

  predicate AllSized(n: Node) {
    Sized(n) && forall i | 0 <= i < |n.inners| :: AllSized(n.inners[i])
  }

  /** An inner transaction reports its own created id and closing amount, and the root's position. */
  function ForInner(extra: Extra, t: Node): Extra {
    extra.(assetId := match t.kind
                      case AppCall(_) => t.applicationId
                      case AssetConfig(_) => t.configAsset
                      case _ => 0,
           assetClosing := t.assetClosing)
  }

  function WithoutInners(n: Node, extra: Extra, locals: Locals): Out {
    Out(n.sender, extra.round, extra.roundTime, extra.intra,
        if n.kind.AssetTransfer? then Some(extra.assetClosing) else None,
        if n.kind == AssetConfig(0) then Some(extra.assetId) else None,
        if n.kind == AppCall(0) then Some(extra.assetId) else None,
        locals, NoInners)
  }

  /** The converted tree. */
  ghost function Tree(n: Node, extra: Extra): Out
    decreases n
  {
    var inners := if n.inners == [] then NoInners else Inners(Trees(n.inners, extra));
    WithoutInners(n, extra, ConvertedLocals(n)).(inners := inners)
  }

  ghost function Trees(ns: seq<Node>, extra: Extra): seq<Out>
    decreases ns
  {
    if ns == [] then []
    else var t := ns[|ns| - 1]; Trees(ns[..|ns| - 1], extra) + [Tree(t, ForInner(extra, t))]
  }

  method Convert(n: Node, extra: Extra) returns (r: Outcome<Out>)
    requires AllSized(n)
    ensures r == if Convertible(n) then Done(Tree(n, extra)) else Failed
    decreases n
  {
    var locals := ConvertLocals(n);
    if locals.Failed? {
      return Failed;
    }
    var txn := WithoutInners(n, extra, locals.value);
    if |n.inners| > 0 {
      var itxns := [];
      for i := 0 to |n.inners|
        invariant itxns == Trees(n.inners[..i], extra)
        invariant forall j | 0 <= j < i :: Convertible(n.inners[j])
      {
        var t := n.inners[i];
        var extra2 := extra;
        match t.kind {
          case AppCall(_) => extra2 := extra2.(assetId := t.applicationId);
          case AssetConfig(_) => extra2 := extra2.(assetId := t.configAsset);
          case _ => extra2 := extra2.(assetId := 0);
        }
        extra2 := extra2.(assetClosing := t.assetClosing);
        var itxn := Convert(t, extra2);
        if itxn.Failed? {
          return Failed;
        }
        assert n.inners[..i + 1][..i] == n.inners[..i];
        itxns := itxns + [itxn.value];
      }
      assert n.inners[..|n.inners|] == n.inners;
      txn := txn.(inners := Inners(itxns));
    }
    r := Done(txn);
  }

  // ---------------------------------------------------------------- what the tree looks like

  function InnersOf(o: Out): seq<Out> {
    if o.inners.NoInners? then [] else o.inners.txns
  }

  lemma {:induction false} TreesAt(ns: seq<Node>, extra: Extra)
    ensures |Trees(ns, extra)| == |ns|
    ensures forall i | 0 <= i < |ns| :: Trees(ns, extra)[i] == Tree(ns[i], ForInner(extra, ns[i]))
  {
    if ns != [] {
      TreesAt(ns[..|ns| - 1], extra);
    }
  }

  /** A path names an inner transaction by its place at each depth. */
  predicate HasNode(n: Node, path: seq<nat>)
    decreases path
  {
    path == [] || (path[0] < |n.inners| && HasNode(n.inners[path[0]], path[1..]))
  }

  function NodeAt(n: Node, path: seq<nat>): Node
    requires HasNode(n, path)
    decreases path
  {
    if path == [] then n else NodeAt(n.inners[path[0]], path[1..])
  }

  predicate HasOut(o: Out, path: seq<nat>)
    decreases path
  {
    path == [] || (path[0] < |InnersOf(o)| && HasOut(InnersOf(o)[path[0]], path[1..]))
  }

  function OutAt(o: Out, path: seq<nat>): Out
    requires HasOut(o, path)
    decreases path
  {
    if path == [] then o else OutAt(InnersOf(o)[path[0]], path[1..])
  }

  function ExtraAt(n: Node, extra: Extra, path: seq<nat>): Extra
    requires HasNode(n, path)
  {
    if path == [] then extra else ForInner(extra, NodeAt(n, path))
  }

  /** The output has the tree shape of the input: at every path stands the conversion of the node at that
      path, with the position of the root and, below the root, the node's own created id. */
  lemma {:induction false} SameShape(n: Node, extra: Extra, path: seq<nat>)
    ensures HasOut(Tree(n, extra), path) <==> HasNode(n, path)
    ensures HasNode(n, path) ==> OutAt(Tree(n, extra), path) == Tree(NodeAt(n, path), ExtraAt(n, extra, path))
    decreases path
  {
    TreesAt(n.inners, extra);
    var o := Tree(n, extra);
    assert |InnersOf(o)| == |n.inners|;
    if path != [] && path[0] < |n.inners| {
      var t := n.inners[path[0]];
      SameShape(t, ForInner(extra, t), path[1..]);
    }
  }

  /** Below the root every transaction reports its own sender, deltas, closing amount and created id, and
      the position of the root. */
  lemma OwnFields(n: Node, extra: Extra, path: seq<nat>)
    requires HasNode(n, path) && path != []
    ensures HasOut(Tree(n, extra), path)
    ensures var t, o := NodeAt(n, path), OutAt(Tree(n, extra), path);
            && o.sender == t.sender && o.locals == ConvertedLocals(t)
            && o.round == extra.round && o.roundTime == extra.roundTime && o.intra == extra.intra
            && o.createdApp == (if t.kind == AppCall(0) then Some(t.applicationId) else None)
            && o.createdAsset == (if t.kind == AssetConfig(0) then Some(t.configAsset) else None)
            && o.closeAmount == (if t.kind == AssetTransfer then Some(t.assetClosing) else None)
  {
    SameShape(n, extra, path);
  }

  /** The root reports what its row adds. */
  lemma RootFields(n: Node, extra: Extra)
    ensures var o := Tree(n, extra);
            && o.sender == n.sender && o.locals == ConvertedLocals(n)
            && o.round == extra.round && o.roundTime == extra.roundTime && o.intra == extra.intra
            && o.createdApp == (if n.kind == AppCall(0) then Some(extra.assetId) else None)
            && o.createdAsset == (if n.kind == AssetConfig(0) then Some(extra.assetId) else None)
            && o.closeAmount == (if n.kind == AssetTransfer then Some(extra.assetClosing) else None)
            && (o.inners.NoInners? <==> n.inners == [])
  {}

  /** The conversion fails exactly when the node at some path has an index outside its address list. */
  lemma {:induction false} FailsSomewhere(n: Node)
    ensures Convertible(n) <==> forall path | HasNode(n, path) :: GoodIndexes(NodeAt(n, path))
    ensures Convertible(n) <==>
              forall path, k | HasNode(n, path) && k in NodeAt(n, path).localDeltas ::
                k < 1 + |NodeAt(n, path).accounts| + |NodeAt(n, path).shared|
  {
    if Convertible(n) {
      forall path | HasNode(n, path) ensures GoodIndexes(NodeAt(n, path)) {
        GoodBelow(n, path);
      }
    } else {
      var path := BadBelow(n);
    }
  }

  lemma {:induction false} GoodBelow(n: Node, path: seq<nat>)
    requires Convertible(n) && HasNode(n, path)
    ensures GoodIndexes(NodeAt(n, path))
    decreases path
  {
    if path != [] {
      GoodBelow(n.inners[path[0]], path[1..]);
    }
  }

  lemma {:induction false} BadBelow(n: Node) returns (path: seq<nat>)
    requires !Convertible(n)
    ensures HasNode(n, path) && !GoodIndexes(NodeAt(n, path))
    decreases n
  {
    if !GoodIndexes(n) {
      path := [];
    } else {
      var i :| 0 <= i < |n.inners| && !Convertible(n.inners[i]);
      var rest := BadBelow(n.inners[i]);
      path := [i] + rest;
      assert path[1..] == rest;
    }
  }

  /** How often an inner transaction of the answer is counted does not change: the answer has as many. */
  function CountNodes(n: Node): nat
    decreases n, 1
  {
    1 + CountAll(n.inners)
  }

  function CountAll(ns: seq<Node>): nat
    decreases ns, 0
  {
    if ns == [] then 0 else CountAll(ns[..|ns| - 1]) + CountNodes(ns[|ns| - 1])
  }

  function CountOuts(o: Out): nat
    decreases o, 1
  {
    1 + match o.inners case NoInners => 0 case Inners(txns) => CountAllOuts(txns)
  }

  function CountAllOuts(os: seq<Out>): nat
    decreases os, 0
  {
    if os == [] then 0 else CountAllOuts(os[..|os| - 1]) + CountOuts(os[|os| - 1])
  }

  lemma {:induction false} SameCount(n: Node, extra: Extra)
    ensures CountOuts(Tree(n, extra)) == CountNodes(n)
    decreases n
  {
    SameCountAll(n.inners, extra);
  }

  lemma {:induction false} SameCountAll(ns: seq<Node>, extra: Extra)
    ensures CountAllOuts(Trees(ns, extra)) == CountAll(ns)
    decreases ns
  {
    if ns != [] {
      var t := ns[|ns| - 1];
      SameCountAll(ns[..|ns| - 1], extra);
      SameCount(t, ForInner(extra, t));
      assert Trees(ns, extra)[..|ns| - 1] == Trees(ns[..|ns| - 1], extra) by {
        TreesAt(ns, extra);
        TreesAt(ns[..|ns| - 1], extra);
      }
    }
  }

  // ---------------------------------------------------------------- a root found through an inner row

  predicate Creates(n: Node) {
    n.kind == AppCall(0) || n.kind == AssetConfig(0)
  }

  /** A row for an inner match carries the inner transaction's id and closing amount, which are used to
      convert the root. The answer is the same as for the root's own row exactly when the root creates
      nothing and closes nothing or the two rows agree on it. */
  lemma RootFromInnerRow(root: Node, own: Extra, inner: Extra)
    requires own == inner.(assetId := own.assetId, assetClosing := own.assetClosing)
    ensures Tree(root, inner) == Tree(root, own) <==>
              (Creates(root) ==> inner.assetId == own.assetId)
                && (root.kind.AssetTransfer? ==> inner.assetClosing == own.assetClosing)
  {
    TreesAt(root.inners, own);
    TreesAt(root.inners, inner);
    assert forall t :: ForInner(own, t) == ForInner(inner, t);
    assert Trees(root.inners, own) == Trees(root.inners, inner);
  }
}
