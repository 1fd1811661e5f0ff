/** Normalising an account response so that the two servers' answers can be compared. */
module Normalize {
  import opened Outcomes

  datatype Json = Null | Bool(flag: bool) | Num(number: real) | Str(text: string) | Arr(items: seq<Json>)
    | Obj(fields: map<string, Json>)

  /** Normalising fails on a flag that is no boolean and on an array that cannot be sorted. */
  datatype Outcome = Fails | Culled | Kept(json: Json)

  /** Fields that only one of the two servers reports. */
  const DROPPED: set<string> := {
    "deleted", "created-at-round", "deleted-at-round", "destroyed-at-round", "optin-at-round", "opted-in-at-round",
    "opted-out-at-round", "closeout-at-round", "closed-out-at-round", "close-out-at-round", "creator", "sig-type",
    "round", "reward-base", "apps-total-schema"
  }

  /** The field by which an array is sorted, for the four arrays that are. */
  function SortKey(key: string): Option<string> {
    if key == "created-assets" then Some("index")
    else if key == "assets" then Some("asset-id")
    else if key == "created-apps" then Some("id")
    else if key == "apps-local-state" then Some("id")
    else None
  }

  // ---------------------------------------------------------------- sorting

  predicate HasId(x: Json, id: string) {
    x.Obj? && id in x.fields && x.fields[id].Num?
  }

  function Id(x: Json, id: string): real {
    if HasId(x, id) then x.fields[id].number else 0.0
  }

  predicate AllHaveId(s: seq<Json>, id: string) {
    forall i | 0 <= i < |s| :: HasId(s[i], id)
  }

  predicate Ascending(s: seq<Json>, id: string) {
    forall i, j | 0 <= i < j < |s| :: Id(s[i], id) <= Id(s[j], id)
  }

  /** No two elements carry the same number. */
  predicate DistinctIds(s: seq<Json>, id: string) {
    forall i, j | 0 <= i < j < |s| && HasId(s[i], id) && HasId(s[j], id) :: Id(s[i], id) != Id(s[j], id)
  }

  /** The library's sort. */
  type Sorter = (seq<Json>, string) -> seq<Json>

  /** All that the library promises: the same elements, in ascending order. */
  ghost predicate Sorts(sort: Sorter) {
    forall s, id {:trigger sort(s, id)} | AllHaveId(s, id) ::
      multiset(sort(s, id)) == multiset(s) && Ascending(sort(s, id), id)
  }

  lemma Twice(s: seq<Json>, i: nat, j: nat)
    requires i < j < |s| && s[i] == s[j]
    ensures multiset(s)[s[i]] >= 2
  {
    assert s == s[..j] + s[j..];
    assert s[i] in s[..j] && s[j] in s[j..];
  }

  lemma {:induction false} Once(s: seq<Json>, id: string, x: Json)
    requires AllHaveId(s, id) && DistinctIds(s, id)
    ensures multiset(s)[x] <= 1
  {
    if s != [] {
      var n := |s| - 1;
      assert s == s[..n] + [s[n]];
      Once(s[..n], id, x);
      assert s[n] !in s[..n];
    }
  }

  lemma SameFirst(s: seq<Json>, t: seq<Json>, id: string)
    requires s != [] && AllHaveId(s, id) && DistinctIds(s, id) && Ascending(s, id)
    requires multiset(s) == multiset(t) && Ascending(t, id)
    ensures t != [] && s[0] == t[0]
  {
    assert s[0] in multiset(t);
    var j :| 0 <= j < |t| && t[j] == s[0];
    assert t[0] in multiset(s);
    var i :| 0 <= i < |s| && s[i] == t[0];
  }

  lemma Rest(s: seq<Json>, id: string)
    requires s != [] && Ascending(s, id)
    ensures Ascending(s[1..], id) && multiset(s[1..]) == multiset(s) - multiset{s[0]}
  {
    assert s == [s[0]] + s[1..];
  }

  /** Elements with distinct numbers have only one ascending order. */
  lemma {:induction false} OneOrder(s: seq<Json>, t: seq<Json>, id: string)
    requires AllHaveId(s, id) && DistinctIds(s, id) && Ascending(s, id)
    requires multiset(s) == multiset(t) && Ascending(t, id)
    ensures s == t
  {
    if s == [] {
      assert |multiset(t)| == 0;
    } else {
      SameFirst(s, t, id);
      Rest(s, id);
      Rest(t, id);
      OneOrder(s[1..], t[1..], id);
      assert s == [s[0]] + s[1..] && t == [t[0]] + t[1..];
    }
  }

  // ---------------------------------------------------------------- normalising

  datatype Items = NoItems | Items(items: seq<Json>)

  /** The array of normalised elements, sorted when the key asks for it. Sorting compares nothing when
      there are fewer than two elements. */
  function Arranged(sort: Sorter, key: string, kept: seq<Json>): Outcome {
    var id := SortKey(key);
    if kept == [] then Culled
    else if id.None? || |kept| < 2 then Kept(Arr(kept))
    else if AllHaveId(kept, id.value) then Kept(Arr(sort(kept, id.value)))
    else Fails
  }

  predicate Unclear(f: map<string, Json>) {
    "deleted" in f && !f["deleted"].Bool?
  }

  predicate Deleted(f: map<string, Json>) {
    "deleted" in f && f["deleted"] == Bool(true)
  }

  predicate Clear(f: map<string, Json>) {
    !Unclear(f) && !Deleted(f)
  }

  function Whole(f: map<string, Json>): Outcome {
    if f == map[] then Culled else Kept(Obj(f))
  }

  /** What is left of a value stored under a key. */
  function Normal(sort: Sorter, key: string, j: Json): Outcome
    decreases j
  {
    match j
    case Null => Culled
    case Bool(_) => Kept(j)
    case Num(n) => if n == 0.0 then Culled else Kept(j)
    case Str(s) => if s == "" then Culled else Kept(j)
    case Arr(items) =>
      var all := NormalAll(sort, items);
      if all.NoItems? then Fails else Arranged(sort, key, all.items)
    case Obj(f) =>
      if Unclear(f) then Fails
      else if Deleted(f) then Culled
      else if exists k | k in f && k !in DROPPED :: Normal(sort, k, f[k]).Fails? then Fails
      else Whole(map k | k in f && k !in DROPPED && Normal(sort, k, f[k]).Kept? :: Normal(sort, k, f[k]).json)
  }

  /** The elements of an array that are left, unless one fails. */
  function NormalAll(sort: Sorter, items: seq<Json>): Items
    decreases items
  {
    if items == [] then Items([])
    else
      var n := |items| - 1;
      var all := NormalAll(sort, items[..n]);
      var last := Normal(sort, "", items[n]);
      if all.NoItems? || last.Fails? then NoItems
      else if last.Culled? then all
      else Items(all.items + [last.json])
  }

  ghost function Remains(sort: Sorter, f: map<string, Json>): map<string, Json> {
    map k | k in f && k !in DROPPED && Normal(sort, k, f[k]).Kept? :: Normal(sort, k, f[k]).json
  }

  ghost predicate SomeFails(sort: Sorter, f: map<string, Json>) {
    exists k | k in f && k !in DROPPED :: Normal(sort, k, f[k]).Fails?
  }

  lemma NormalObject(sort: Sorter, key: string, f: map<string, Json>)
    requires Clear(f)
    ensures Normal(sort, key, Obj(f)) == if SomeFails(sort, f) then Fails else Whole(Remains(sort, f))
  {}

  // ---------------------------------------------------------------- the procedure

  /** What the loop over an object's fields has done, with the fields `todo` still ahead. */
  ghost predicate Progress(sort: Sorter, f: map<string, Json>, left: map<string, Json>, todo: set<string>) {
    && todo <= left.Keys
    && (forall k | k in left :: k in f && k !in DROPPED)
    && (forall k | k in todo :: k in f && k in left && left[k] == f[k])
    && (forall k | k in f && k !in DROPPED && k !in todo ::
          Normal(sort, k, f[k]) == if k in left then Kept(left[k]) else Culled)
  }

  lemma ProgressEnd(sort: Sorter, key: string, f: map<string, Json>, left: map<string, Json>)
    requires Clear(f) && Progress(sort, f, left, {})
    ensures Normal(sort, key, Obj(f)) == Whole(left)
  {
    var kept := map k | k in f && k !in DROPPED && Normal(sort, k, f[k]).Kept? :: Normal(sort, k, f[k]).json;
    assert left == kept;
    assert Normal(sort, key, Obj(f)) == Whole(kept);
  }

  method NormalizeObject(sort: Sorter, key: string, f: map<string, Json>) returns (r: Outcome)
    ensures r == Normal(sort, key, Obj(f))
    decreases Obj(f), 0
  {
    if "deleted" in f {
      if !f["deleted"].Bool? {
        return Fails;
      }
      if f["deleted"].flag {
        return Culled;
      }
    }
    var left := f - DROPPED;
    var todo := left.Keys;
    while todo != {}
      invariant Progress(sort, f, left, todo)
    {
      var k :| k in todo;
      var normalized := NormalizeRecurse(sort, k, f[k]);
      if normalized.Fails? {
        return Fails;
      }
      if normalized.Kept? {
        left := left[k := normalized.json];
      } else {
        left := left - {k};
      }
      todo := todo - {k};
    }
    ProgressEnd(sort, key, f, left);
    r := Whole(left);
  }

  method NormalizeRecurse(sort: Sorter, key: string, data: Json) returns (r: Outcome)
    ensures r == Normal(sort, key, data)
    decreases data
  {
    match data
    case Obj(f) =>
      r := NormalizeObject(sort, key, f);
    case Arr(items) =>
      var kept := [];
      for i := 0 to |items|
        invariant NormalAll(sort, items[..i]) == Items(kept)
      {
        assert items[..i + 1][..i] == items[..i];
        var normalized := NormalizeRecurse(sort, "", items[i]);
        if normalized.Fails? {
          FailsOn(sort, items, i);
          return Fails;
        }
        if normalized.Kept? {
          kept := kept + [normalized.json];
        }
      }
      assert items[..|items|] == items;
      r := Arranged(sort, key, kept);
    case _ =>
      var empty := data == Null || data == Num(0.0) || data == Str("");
      r := if empty then Culled else Kept(data);
  }

  lemma {:induction false} FailsOn(sort: Sorter, items: seq<Json>, i: nat)
    requires i < |items| && Normal(sort, "", items[i]).Fails?
    ensures NormalAll(sort, items).NoItems?
  {
    if i < |items| - 1 {
      FailsOn(sort, items[..|items| - 1], i);
    }
  }

  // ---------------------------------------------------------------- what the result is

  /** Nothing empty, deleted or reported by one server only at any depth, and the four arrays sorted. */
  predicate Clean(key: string, j: Json)
    decreases j
  {
    match j
    case Null => false
    case Bool(_) => true
    case Num(n) => n != 0.0
    case Str(s) => s != ""
    case Arr(items) =>
      && items != [] && (forall i | 0 <= i < |items| :: Clean("", items[i]))
      && (SortKey(key).Some? && |items| >= 2 ==>
          AllHaveId(items, SortKey(key).value) && Ascending(items, SortKey(key).value))
    case Obj(f) => f != map[] && forall k | k in f :: k !in DROPPED && Clean(k, f[k])
  }

  /** The four arrays hold no number twice, at any depth. */
  predicate UniqueIds(key: string, j: Json)
    decreases j
  {
    match j
    case Arr(items) =>
      && (SortKey(key).Some? ==> DistinctIds(items, SortKey(key).value))
      && (forall i | 0 <= i < |items| :: UniqueIds("", items[i]))
    case Obj(f) => forall k | k in f && k !in DROPPED :: UniqueIds(k, f[k])
    case _ => true
  }

  lemma SortedItems(sort: Sorter, kept: seq<Json>, id: string, x: Json)
    requires Sorts(sort) && AllHaveId(kept, id)
    ensures x in sort(kept, id) <==> x in kept
  {
    assert x in multiset(sort(kept, id)) <==> x in multiset(kept);
  }

  lemma CleanArray(sort: Sorter, key: string, kept: seq<Json>)
    requires Sorts(sort) && forall x | x in kept :: Clean("", x)
    ensures Arranged(sort, key, kept).Kept? ==> Clean(key, Arranged(sort, key, kept).json)
  {
    var id := SortKey(key);
    if id.Some? && |kept| >= 2 && AllHaveId(kept, id.value) {
      var sorted := sort(kept, id.value);
      assert |multiset(sorted)| == |multiset(kept)|;
      forall i | 0 <= i < |sorted| ensures Clean("", sorted[i]) && HasId(sorted[i], id.value) {
        SortedItems(sort, kept, id.value, sorted[i]);
      }
    }
  }

  /** Whatever is left is clean. */
  lemma {:induction false} CleanResult(sort: Sorter, key: string, j: Json)
    requires Sorts(sort)
    ensures Normal(sort, key, j).Kept? ==> Clean(key, Normal(sort, key, j).json)
    decreases j
  {
    match j
    case Arr(items) =>
      CleanItems(sort, items);
      if NormalAll(sort, items).Items? {
        CleanArray(sort, key, NormalAll(sort, items).items);
      }
    case Obj(f) =>
      forall k | k in f ensures Normal(sort, k, f[k]).Kept? ==> Clean(k, Normal(sort, k, f[k]).json) {
        CleanResult(sort, k, f[k]);
      }
    case _ =>
  }

  lemma {:induction false} CleanItems(sort: Sorter, items: seq<Json>)
    requires Sorts(sort)
    ensures NormalAll(sort, items).Items? ==> forall x | x in NormalAll(sort, items).items :: Clean("", x)
    decreases items
  {
    if items != [] {
      CleanItems(sort, items[..|items| - 1]);
      CleanResult(sort, "", items[|items| - 1]);
    }
  }

  /** A clean value is its own normal form. */
  lemma {:induction false} CleanFixed(sort: Sorter, key: string, j: Json)
    requires Sorts(sort) && Clean(key, j) && UniqueIds(key, j)
    ensures Normal(sort, key, j) == Kept(j)
    decreases j
  {
    match j
    case Arr(items) =>
      FixedItems(sort, items);
      if SortKey(key).Some? && |items| >= 2 {
        OneOrder(items, sort(items, SortKey(key).value), SortKey(key).value);
      }
    case Obj(f) =>
      forall k | k in f ensures Normal(sort, k, f[k]) == Kept(f[k]) {
        CleanFixed(sort, k, f[k]);
      }
      assert f == map k | k in f && k !in DROPPED && Normal(sort, k, f[k]).Kept? :: Normal(sort, k, f[k]).json;
    case _ =>
  }

  lemma {:induction false} FixedItems(sort: Sorter, items: seq<Json>)
    requires Sorts(sort) && forall i | 0 <= i < |items| :: Clean("", items[i]) && UniqueIds("", items[i])
    ensures NormalAll(sort, items) == Items(items)
    decreases items
  {
    if items != [] {
      var n := |items| - 1;
      FixedItems(sort, items[..n]);
      CleanFixed(sort, "", items[n]);
      assert items == items[..n] + [items[n]];
    }
  }

  // ---------------------------------------------------------------- idempotence

  /** Normalising an element keeps its number, and gives a number to no element without one. */
  lemma IdKept(sort: Sorter, x: Json, id: string)
    requires Normal(sort, "", x).Kept? && HasId(Normal(sort, "", x).json, id)
    ensures HasId(x, id) && Id(x, id) == Id(Normal(sort, "", x).json, id)
  {
    assert x.Obj?;
    assert Normal(sort, id, x.fields[id]) == Kept(Normal(sort, "", x).json.fields[id]);
  }

  lemma {:induction false} KeptOrigin(sort: Sorter, items: seq<Json>, y: Json)
    requires NormalAll(sort, items).Items? && y in NormalAll(sort, items).items
    ensures exists i :: 0 <= i < |items| && Normal(sort, "", items[i]) == Kept(y)
  {
    var n := |items| - 1;
    var front := NormalAll(sort, items[..n]).items;
    if y in front {
      KeptOrigin(sort, items[..n], y);
      var i :| 0 <= i < n && Normal(sort, "", items[..n][i]) == Kept(y);
      assert Normal(sort, "", items[i]) == Kept(y);
    } else {
      assert Normal(sort, "", items[n]) == Kept(y);
    }
  }

  lemma {:induction false} DistinctKept(sort: Sorter, items: seq<Json>, id: string)
    requires DistinctIds(items, id) && NormalAll(sort, items).Items?
    ensures DistinctIds(NormalAll(sort, items).items, id)
  {
    if items != [] {
      var n := |items| - 1;
      DistinctKept(sort, items[..n], id);
      var front, last := NormalAll(sort, items[..n]).items, Normal(sort, "", items[n]);
      if last.Kept? && HasId(last.json, id) {
        IdKept(sort, items[n], id);
        forall i | 0 <= i < |front| && HasId(front[i], id) ensures Id(front[i], id) != Id(last.json, id) {
          KeptOrigin(sort, items[..n], front[i]);
          var k :| 0 <= k < n && Normal(sort, "", items[..n][k]) == Kept(front[i]);
          IdKept(sort, items[k], id);
        }
      }
    }
  }

  /** Reordering keeps numbers distinct. */
  lemma DistinctReordered(s: seq<Json>, t: seq<Json>, id: string)
    requires AllHaveId(s, id) && DistinctIds(s, id) && multiset(s) == multiset(t)
    ensures DistinctIds(t, id)
  {
    forall i, j | 0 <= i < j < |t| && HasId(t[i], id) && HasId(t[j], id) ensures Id(t[i], id) != Id(t[j], id) {
      assert t[i] in multiset(s) && t[j] in multiset(s);
      Once(s, id, t[i]);
      if t[i] == t[j] {
        Twice(t, i, j);
        assert false;
      }
    }
  }

  lemma UniqueArray(sort: Sorter, key: string, kept: seq<Json>)
    requires Sorts(sort) && (forall x | x in kept :: UniqueIds("", x))
    requires SortKey(key).Some? ==> DistinctIds(kept, SortKey(key).value)
    ensures Arranged(sort, key, kept).Kept? ==> UniqueIds(key, Arranged(sort, key, kept).json)
  {
    var id := SortKey(key);
    if id.Some? && |kept| >= 2 && AllHaveId(kept, id.value) {
      var sorted := sort(kept, id.value);
      DistinctReordered(kept, sorted, id.value);
      forall i | 0 <= i < |sorted| ensures UniqueIds("", sorted[i]) {
        SortedItems(sort, kept, id.value, sorted[i]);
      }
    }
  }

  lemma {:induction false} UniqueResult(sort: Sorter, key: string, j: Json)
    requires Sorts(sort) && UniqueIds(key, j)
    ensures Normal(sort, key, j).Kept? ==> UniqueIds(key, Normal(sort, key, j).json)
    decreases j
  {
    match j
    case Arr(items) =>
      UniqueItems(sort, items);
      if NormalAll(sort, items).Items? {
        if SortKey(key).Some? {
          DistinctKept(sort, items, SortKey(key).value);
        }
        UniqueArray(sort, key, NormalAll(sort, items).items);
      }
    case Obj(f) =>
      forall k | k in f && k !in DROPPED
        ensures Normal(sort, k, f[k]).Kept? ==> UniqueIds(k, Normal(sort, k, f[k]).json)
      {
        UniqueResult(sort, k, f[k]);
      }
    case _ =>
  }

  lemma {:induction false} UniqueItems(sort: Sorter, items: seq<Json>)
    requires Sorts(sort) && forall i | 0 <= i < |items| :: UniqueIds("", items[i])
    ensures NormalAll(sort, items).Items? ==> forall x | x in NormalAll(sort, items).items :: UniqueIds("", x)
    decreases items
  {
    if items != [] {
      UniqueItems(sort, items[..|items| - 1]);
      UniqueResult(sort, "", items[|items| - 1]);
    }
  }

  /** Normalising twice is normalising once, whatever sort the library uses. */
  lemma Idempotent(sort: Sorter, again: Sorter, key: string, j: Json)
    requires Sorts(sort) && Sorts(again) && UniqueIds(key, j)
    ensures Normal(sort, key, j).Kept? ==> Normal(again, key, Normal(sort, key, j).json) == Normal(sort, key, j)
  {
    CleanResult(sort, key, j);
    UniqueResult(sort, key, j);
    if Normal(sort, key, j).Kept? {
      CleanFixed(again, key, Normal(sort, key, j).json);
    }
  }

  // ---------------------------------------------------------------- what does not matter

  /** Empty, deleted, or holding nothing but such values and fields of one server only. */
  predicate Void(j: Json)
    decreases j
  {
    match j
    case Null => true
    case Bool(_) => false
    case Num(n) => n == 0.0
    case Str(s) => s == ""
    case Arr(items) => forall i | 0 <= i < |items| :: Void(items[i])
    case Obj(f) => !Unclear(f) && (Deleted(f) || forall k | k in f && k !in DROPPED :: Void(f[k]))
  }

  /** Exactly the void values vanish. */
  lemma {:induction false} VoidVanishes(sort: Sorter, key: string, j: Json)
    ensures Void(j) <==> Normal(sort, key, j).Culled?
    decreases j
  {
    match j
    case Arr(items) => VoidItems(sort, items);
    case Obj(f) =>
      forall k | k in f ensures Void(f[k]) <==> Normal(sort, k, f[k]).Culled? {
        VoidVanishes(sort, k, f[k]);
      }
      var left := map k | k in f && k !in DROPPED && Normal(sort, k, f[k]).Kept? :: Normal(sort, k, f[k]).json;
      if !Unclear(f) && !Deleted(f) && left == map[] {
        forall k | k in f && k !in DROPPED ensures Void(f[k]) || Normal(sort, k, f[k]).Fails? {
          assert k !in left;
        }
      }
    case _ =>
  }

  lemma {:induction false} VoidItems(sort: Sorter, items: seq<Json>)
    ensures (forall i | 0 <= i < |items| :: Void(items[i])) <==> NormalAll(sort, items) == Items([])
    decreases items
  {
    if items != [] {
      var n := |items| - 1;
      VoidItems(sort, items[..n]);
      VoidVanishes(sort, "", items[n]);
      assert (forall i | 0 <= i < |items| :: Void(items[i])) <==>
               (forall i | 0 <= i < n :: Void(items[..n][i])) && Void(items[n]);
    }
  }

  function Live(items: seq<Json>): (r: seq<Json>)
    ensures forall x | x in r :: x in items
  {
    if items == [] then []
    else Live(items[..|items| - 1]) + if Void(items[|items| - 1]) then [] else [items[|items| - 1]]
  }

  ghost predicate Reordered(key: string, s: seq<Json>, t: seq<Json>) {
    if SortKey(key).Some? then multiset(s) == multiset(t) else s == t
  }

  /** The two differ only in void values, in fields of one server only, and in the order of the four arrays. */
  ghost predicate Same(key: string, a: Json, b: Json)
    decreases a
  {
    || a == b
    || (Void(a) && Void(b))
    || (a.Obj? && b.Obj? && Clear(a.fields) && Clear(b.fields)
        && (forall k | k in a.fields && k !in DROPPED ::
              if k in b.fields then Same(k, a.fields[k], b.fields[k]) else Void(a.fields[k]))
        && (forall k | k in b.fields && k !in DROPPED && k !in a.fields :: Void(b.fields[k])))
    || (a.Arr? && b.Arr? && exists t :: Reordered(key, t, Live(b.items)) && SameLive(a.items, t))
  }

  /** The live items of s and the items of t are the same one by one. */
  ghost predicate SameLive(s: seq<Json>, t: seq<Json>)
    decreases s
  {
    if s == [] then t == []
    else if Void(s[|s| - 1]) then SameLive(s[..|s| - 1], t)
    else t != [] && Same("", s[|s| - 1], t[|t| - 1]) && SameLive(s[..|s| - 1], t[..|t| - 1])
  }

  lemma {:induction false} LiveItems(sort: Sorter, items: seq<Json>)
    ensures NormalAll(sort, Live(items)) == NormalAll(sort, items)
  {
    if items != [] {
      var n := |items| - 1;
      LiveItems(sort, items[..n]);
      VoidVanishes(sort, "", items[n]);
      if Void(items[n]) {
        assert Live(items) == Live(items[..n]);
      } else {
        assert Live(items)[..|Live(items)| - 1] == Live(items[..n]);
      }
    }
  }

  function Plus(x: Items, y: Items): Items {
    if x.NoItems? || y.NoItems? then NoItems else Items(x.items + y.items)
  }

  lemma {:induction false} NormalConcat(sort: Sorter, s: seq<Json>, t: seq<Json>)
    ensures NormalAll(sort, s + t) == Plus(NormalAll(sort, s), NormalAll(sort, t))
  {
    if t == [] {
      assert s + t == s;
    } else {
      var n := |t| - 1;
      assert (s + t)[..|s| + n] == s + t[..n];
      NormalConcat(sort, s, t[..n]);
    }
  }

  datatype Bag = NoBag | Bag(elements: multiset<Json>)

  function BagOf(x: Items): Bag {
    if x.NoItems? then NoBag else Bag(multiset(x.items))
  }

  function Sum(x: Bag, y: Bag): Bag {
    if x.NoBag? || y.NoBag? then NoBag else Bag(x.elements + y.elements)
  }

  lemma MiddleLast(a: Items, b: Items, c: Items)
    ensures BagOf(Plus(Plus(a, b), c)) == Sum(BagOf(Plus(a, c)), BagOf(b))
  {}

  function Without(t: seq<Json>, j: nat): seq<Json>
    requires j < |t|
  {
    t[..j] + t[j + 1..]
  }

  lemma BagWithout(t: seq<Json>, j: nat)
    requires j < |t|
    ensures multiset(Without(t, j)) == multiset(t) - multiset{t[j]}
  {
    assert t == t[..j] + [t[j]] + t[j + 1..];
  }

  lemma FindFirst(s: seq<Json>, t: seq<Json>) returns (j: nat)
    requires s != [] && multiset(s) == multiset(t)
    ensures j < |t| && t[j] == s[0] && multiset(Without(s, 0)) == multiset(Without(t, j))
  {
    assert s[0] in multiset(t);
    j :| 0 <= j < |t| && t[j] == s[0];
    BagWithout(s, 0);
    BagWithout(t, j);
  }

  lemma {:induction false} NormalMiddle(sort: Sorter, front: seq<Json>, x: Json, back: seq<Json>,
                                        all: seq<Json>, rest: seq<Json>)
    requires all == front + [x] + back && rest == front + back
    ensures BagOf(NormalAll(sort, all)) == Sum(BagOf(NormalAll(sort, rest)), BagOf(NormalAll(sort, [x])))
  {
    NormalConcat(sort, front, back);
    NormalConcat(sort, front + [x], back);
    NormalConcat(sort, front, [x]);
    MiddleLast(NormalAll(sort, front), NormalAll(sort, [x]), NormalAll(sort, back));
  }

  lemma {:induction false} NormalWithout(sort: Sorter, t: seq<Json>, j: nat)
    requires j < |t|
    ensures BagOf(NormalAll(sort, t)) == Sum(BagOf(NormalAll(sort, Without(t, j))), BagOf(NormalAll(sort, [t[j]])))
  {
    NormalMiddle(sort, t[..j], t[j], t[j + 1..], t, Without(t, j));
  }

  /** Reordering the items reorders what is left of them. */
  lemma {:induction false} NormalReordered(sort: Sorter, s: seq<Json>, t: seq<Json>)
    requires multiset(s) == multiset(t)
    ensures BagOf(NormalAll(sort, s)) == BagOf(NormalAll(sort, t))
  {
    if s == [] {
      assert |multiset(t)| == 0;
    } else {
      var j := FindFirst(s, t);
      NormalReordered(sort, Without(s, 0), Without(t, j));
      NormalWithout(sort, s, 0);
      NormalWithout(sort, t, j);
    }
  }

  lemma IdsReordered(s: seq<Json>, t: seq<Json>, id: string)
    requires AllHaveId(s, id) && multiset(s) == multiset(t)
    ensures AllHaveId(t, id)
  {
    forall i | 0 <= i < |t| ensures HasId(t[i], id) {
      assert t[i] in multiset(s);
    }
  }

  lemma ArrangedSame(sort: Sorter, key: string, s: seq<Json>, t: seq<Json>)
    requires Sorts(sort) && Reordered(key, s, t)
    requires SortKey(key).Some? ==> DistinctIds(s, SortKey(key).value)
    ensures Arranged(sort, key, s) == Arranged(sort, key, t)
  {
    if SortKey(key).Some? {
      var id := SortKey(key).value;
      assert |multiset(s)| == |multiset(t)|;
      if |s| == 1 {
        assert s == [s[0]] && t == [t[0]] && t[0] in multiset(s);
      }
      if AllHaveId(t, id) {
        IdsReordered(t, s, id);
      }
      if AllHaveId(s, id) {
        var sorted := sort(s, id);
        DistinctReordered(s, sorted, id);
        IdsReordered(s, t, id);
        IdsReordered(s, sorted, id);
        OneOrder(sorted, sort(t, id), id);
      }
    }
  }

  lemma SameArray(sort: Sorter, key: string, s: seq<Json>, live: seq<Json>, t: seq<Json>)
    requires Sorts(sort) && NormalAll(sort, s) == NormalAll(sort, live) && Reordered(key, live, t)
    requires SortKey(key).Some? ==> DistinctIds(s, SortKey(key).value)
    ensures NormalAll(sort, s).NoItems? <==> NormalAll(sort, t).NoItems?
    ensures NormalAll(sort, s).Items? ==>
              Arranged(sort, key, NormalAll(sort, s).items) == Arranged(sort, key, NormalAll(sort, t).items)
  {
    if SortKey(key).Some? {
      NormalReordered(sort, live, t);
      if NormalAll(sort, s).Items? {
        DistinctKept(sort, s, SortKey(key).value);
      }
    }
    if NormalAll(sort, s).Items? {
      ArrangedSame(sort, key, NormalAll(sort, s).items, NormalAll(sort, t).items);
    }
  }

  /** Values that differ only in what does not matter have one normal form. */
  lemma {:induction false} SameNormal(sort: Sorter, key: string, a: Json, b: Json)
    requires Sorts(sort) && UniqueIds(key, a) && Same(key, a, b)
    ensures Normal(sort, key, a) == Normal(sort, key, b)
    decreases a
  {
    if a == b {
    } else if Void(a) && Void(b) {
      VoidVanishes(sort, key, a);
      VoidVanishes(sort, key, b);
    } else if a.Obj? {
      SameObject(sort, a, b);
    } else {
      var t :| Reordered(key, t, Live(b.items)) && SameLive(a.items, t);
      LiveNormal(sort, a.items, t);
      LiveItems(sort, b.items);
      SameArray(sort, key, a.items, t, Live(b.items));
    }
  }

  lemma {:induction false} LiveNormal(sort: Sorter, s: seq<Json>, t: seq<Json>)
    requires Sorts(sort) && (forall i | 0 <= i < |s| :: UniqueIds("", s[i])) && SameLive(s, t)
    ensures NormalAll(sort, s) == NormalAll(sort, t)
    decreases s
  {
    if s != [] {
      var n := |s| - 1;
      if Void(s[n]) {
        VoidVanishes(sort, "", s[n]);
        LiveNormal(sort, s[..n], t);
      } else {
        SameNormal(sort, "", s[n], t[|t| - 1]);
        LiveNormal(sort, s[..n], t[..|t| - 1]);
      }
    }
  }

  lemma {:induction false} SameObject(sort: Sorter, a: Json, b: Json)
    requires Sorts(sort) && a.Obj? && b.Obj? && UniqueIds("", a) && Clear(a.fields) && Clear(b.fields)
    requires forall k | k in a.fields && k !in DROPPED ::
               if k in b.fields then Same(k, a.fields[k], b.fields[k]) else Void(a.fields[k])
    requires forall k | k in b.fields && k !in DROPPED && k !in a.fields :: Void(b.fields[k])
    ensures forall key :: Normal(sort, key, a) == Normal(sort, key, b)
    decreases a, 0
  {
    var f, g := a.fields, b.fields;
    forall k | k in f && k !in DROPPED
      ensures if k in g then Normal(sort, k, f[k]) == Normal(sort, k, g[k]) else Normal(sort, k, f[k]).Culled?
    {
      if k in g {
        SameNormal(sort, k, f[k], g[k]);
      } else {
        VoidVanishes(sort, k, f[k]);
      }
    }
    forall k | k in g && k !in DROPPED && k !in f ensures Normal(sort, k, g[k]).Culled? {
      VoidVanishes(sort, k, g[k]);
    }
    assert Remains(sort, f) == Remains(sort, g);
    assert SomeFails(sort, f) <==> SomeFails(sort, g);
    forall key ensures Normal(sort, key, a) == Normal(sort, key, b) {
      NormalObject(sort, key, f);
      NormalObject(sort, key, g);
    }
  }

  predicate AllLive(items: seq<Json>) {
    forall i | 0 <= i < |items| :: !Void(items[i])
  }

  lemma {:induction false} LiveLive(items: seq<Json>)
    ensures AllLive(Live(items))
  {
    if items != [] {
      LiveLive(items[..|items| - 1]);
    }
  }

  /** Live items are left one by one. */
  lemma {:induction false} LiveAligned(sort: Sorter, items: seq<Json>)
    requires AllLive(items) && NormalAll(sort, items).Items?
    ensures var kept := NormalAll(sort, items).items;
            |kept| == |items| && forall i | 0 <= i < |items| :: Normal(sort, "", items[i]) == Kept(kept[i])
  {
    if items != [] {
      var n := |items| - 1;
      LiveAligned(sort, items[..n]);
      VoidVanishes(sort, "", items[n]);
      forall i | 0 <= i < n ensures Normal(sort, "", items[i]) == Kept(NormalAll(sort, items).items[i]) {
        assert items[i] == items[..n][i];
      }
    }
  }

  lemma TakeOut(x: Items, y: Items, z: Json, target: seq<Json>)
    requires target != [] && target[|target| - 1] == z && x.Items?
    requires BagOf(x) == Bag(multiset(target)) && BagOf(x) == Sum(BagOf(y), BagOf(Items([z])))
    ensures BagOf(y) == Bag(multiset(target[..|target| - 1]))
  {
    var rest := target[..|target| - 1];
    assert target == rest + [z];
    assert multiset(rest) == multiset(target) - multiset{z};
    assert multiset(y.items) == multiset(x.items) - multiset{z};
  }

  lemma PutBack(sort: Sorter, items: seq<Json>, j: nat, front: seq<Json>, kept: seq<Json>, z: Json)
    requires j < |items| && Normal(sort, "", items[j]) == Kept(z)
    requires multiset(front) == multiset(Without(items, j)) && AllLive(front) && NormalAll(sort, front) == Items(kept)
    ensures var t := front + [items[j]];
            multiset(t) == multiset(items) && AllLive(t) && NormalAll(sort, t) == Items(kept + [z])
  {
    BagWithout(items, j);
    assert (front + [items[j]])[..|front|] == front;
    VoidVanishes(sort, "", items[j]);
  }

  lemma FindKept(sort: Sorter, items: seq<Json>, y: Json) returns (j: nat)
    requires AllLive(items) && NormalAll(sort, items).Items? && y in NormalAll(sort, items).items
    ensures j < |items| && Normal(sort, "", items[j]) == Kept(y) && AllLive(Without(items, j))
  {
    LiveAligned(sort, items);
    j :| 0 <= j < |items| && NormalAll(sort, items).items[j] == y;
  }

  lemma OneItem(sort: Sorter, x: Json, y: Json)
    requires Normal(sort, "", x) == Kept(y)
    ensures NormalAll(sort, [x]) == Items([y])
  {
    assert [x][..0] == [];
    assert [] + [y] == [y];
  }

  lemma PickLast(sort: Sorter, items: seq<Json>, target: seq<Json>) returns (j: nat)
    requires AllLive(items) && BagOf(NormalAll(sort, items)) == Bag(multiset(target)) && target != []
    ensures j < |items| && AllLive(Without(items, j)) && Normal(sort, "", items[j]) == Kept(target[|target| - 1])
    ensures BagOf(NormalAll(sort, Without(items, j))) == Bag(multiset(target[..|target| - 1]))
  {
    var last := target[|target| - 1];
    assert last in multiset(NormalAll(sort, items).items);
    j := FindKept(sort, items, last);
    NormalWithout(sort, items, j);
    OneItem(sort, items[j], last);
    TakeOut(NormalAll(sort, items), NormalAll(sort, Without(items, j)), last, target);
  }

  lemma NothingLeft(x: Items)
    requires BagOf(x) == Bag(multiset([]))
    ensures x == Items([])
  {
    assert |multiset(x.items)| == 0;
  }

  /** Live items can be put in the order of any reordering of what is left of them. */
  lemma {:induction false} Realign(sort: Sorter, items: seq<Json>, target: seq<Json>) returns (t: seq<Json>)
    requires AllLive(items) && BagOf(NormalAll(sort, items)) == Bag(multiset(target))
    ensures multiset(t) == multiset(items) && AllLive(t) && NormalAll(sort, t) == Items(target)
  {
    if target == [] {
      t := items;
      NothingLeft(NormalAll(sort, items));
    } else {
      var n := |target| - 1;
      var j := PickLast(sort, items, target);
      var front := Realign(sort, Without(items, j), target[..n]);
      PutBack(sort, items, j, front, target[..n], target[n]);
      t := front + [items[j]];
      assert target == target[..n] + [target[n]];
    }
  }

  lemma ArrangedReordered(sort: Sorter, key: string, s: seq<Json>, t: seq<Json>)
    requires Sorts(sort) && Arranged(sort, key, s) == Arranged(sort, key, t) && Arranged(sort, key, s).Kept?
    ensures Reordered(key, s, t)
  {
    var id := SortKey(key);
    if id.Some? && AllHaveId(s, id.value) && AllHaveId(t, id.value) {
      assert multiset(sort(s, id.value)) == multiset(s) && multiset(sort(t, id.value)) == multiset(t);
    }
  }

  /** Values with one normal form differ only in what does not matter. */
  lemma {:induction false} NormalSame(sort: Sorter, key: string, a: Json, b: Json)
    requires Sorts(sort) && Normal(sort, key, a) == Normal(sort, key, b) && !Normal(sort, key, a).Fails?
    ensures Same(key, a, b)
    decreases a
  {
    VoidVanishes(sort, key, a);
    VoidVanishes(sort, key, b);
    if !Void(a) && a.Obj? {
      ObjectSame(sort, key, a, b);
    } else if !Void(a) && a.Arr? {
      ArraySame(sort, key, a, b);
    }
  }

  lemma {:induction false} ArraySame(sort: Sorter, key: string, a: Json, b: Json)
    requires Sorts(sort) && Normal(sort, key, a) == Normal(sort, key, b) && Normal(sort, key, a).Kept?
    requires a.Arr? && b.Arr?
    ensures Same(key, a, b)
    decreases a, 0
  {
    var kept := NormalAll(sort, a.items).items;
    ArrangedReordered(sort, key, kept, NormalAll(sort, b.items).items);
    LiveItems(sort, b.items);
    LiveLive(b.items);
    var t := Live(b.items);
    if SortKey(key).Some? {
      t := Realign(sort, t, kept);
    }
    SameOneByOne(sort, a.items, t);
  }

  lemma {:induction false} SameOneByOne(sort: Sorter, s: seq<Json>, t: seq<Json>)
    requires Sorts(sort) && AllLive(t) && NormalAll(sort, s) == NormalAll(sort, t) && NormalAll(sort, s).Items?
    ensures SameLive(s, t)
    decreases s
  {
    LiveAligned(sort, t);
    if s != [] {
      var n := |s| - 1;
      VoidVanishes(sort, "", s[n]);
      if Void(s[n]) {
        SameOneByOne(sort, s[..n], t);
      } else {
        var m := |t| - 1;
        VoidVanishes(sort, "", t[m]);
        var kept := NormalAll(sort, s).items;
        assert NormalAll(sort, s[..n]).items == kept[..|kept| - 1] == NormalAll(sort, t[..m]).items;
        NormalSame(sort, "", s[n], t[m]);
        SameOneByOne(sort, s[..n], t[..m]);
      }
    }
  }

  lemma {:induction false} ObjectSame(sort: Sorter, key: string, a: Json, b: Json)
    requires Sorts(sort) && Normal(sort, key, a) == Normal(sort, key, b) && Normal(sort, key, a).Kept? && a.Obj?
    ensures Same(key, a, b)
    decreases a, 0
  {
    var f, g := a.fields, b.fields;
    var left := map k | k in f && k !in DROPPED && Normal(sort, k, f[k]).Kept? :: Normal(sort, k, f[k]).json;
    var right := map k | k in g && k !in DROPPED && Normal(sort, k, g[k]).Kept? :: Normal(sort, k, g[k]).json;
    assert left == right;
    forall k | k in f && k !in DROPPED ensures if k in g then Same(k, f[k], g[k]) else Void(f[k]) {
      VoidVanishes(sort, k, f[k]);
      assert k in left <==> k in right;
      if k in g {
        NormalSame(sort, k, f[k], g[k]);
      }
    }
    forall k | k in g && k !in DROPPED && k !in f ensures Void(g[k]) {
      VoidVanishes(sort, k, g[k]);
      assert k !in left;
    }
  }

  // ---------------------------------------------------------------- the fields and arrays by name

  /** Field by field: what is ignored whatever it holds, and what is not. */
  lemma IgnoredFields(sort: Sorter, key: string, k: string)
    requires k != "deleted"
    ensures (forall v: Json :: Normal(sort, key, Obj(map[k := v])) == Culled) <==>
              k in {"created-at-round", "deleted-at-round", "destroyed-at-round", "optin-at-round",
                    "opted-in-at-round", "opted-out-at-round", "closeout-at-round", "closed-out-at-round",
                    "close-out-at-round", "creator", "sig-type", "round", "reward-base", "apps-total-schema"}
  {
    if k in DROPPED {
      forall v: Json ensures Normal(sort, key, Obj(map[k := v])) == Culled {
        NormalObject(sort, key, map[k := v]);
        assert Remains(sort, map[k := v]) == map[];
      }
    } else {
      var f := map[k := Bool(true)];
      NormalObject(sort, key, f);
      assert k in Remains(sort, f);
    }
  }

  /** The flag "deleted" removes the object that carries it, fails unless it is a boolean, and is itself
      ignored. */
  lemma DeletedFlag(sort: Sorter, key: string, f: map<string, Json>, v: Json)
    ensures v == Bool(true) ==> Normal(sort, key, Obj(f["deleted" := v])) == Culled
    ensures !v.Bool? ==> Normal(sort, key, Obj(f["deleted" := v])) == Fails
    ensures v == Bool(false) ==> Normal(sort, key, Obj(f["deleted" := v])) == Normal(sort, key, Obj(f - {"deleted"}))
  {
    if v == Bool(false) {
      assert "deleted" in DROPPED;
      SameFields(sort, key, f["deleted" := v], f - {"deleted"});
    }
  }

  lemma SameFields(sort: Sorter, key: string, a: map<string, Json>, b: map<string, Json>)
    requires Clear(a) && Clear(b)
    requires forall k | k !in DROPPED :: (k in a <==> k in b) && (k in a ==> a[k] == b[k])
    ensures Normal(sort, key, Obj(a)) == Normal(sort, key, Obj(b))
  {
    NormalObject(sort, key, a);
    NormalObject(sort, key, b);
    assert Remains(sort, a) == Remains(sort, b);
  }

  /** Array by array: the four that are sorted, by which number, and the others, which keep their order. */
  lemma SortedArrays(sort: Sorter, key: string, kept: seq<Json>)
    requires Sorts(sort) && |kept| >= 2
    ensures var r := Arranged(sort, key, kept);
            && (key == "assets" ==> IsSortedBy(kept, "asset-id", r))
            && (key == "created-assets" ==> IsSortedBy(kept, "index", r))
            && (key in {"created-apps", "apps-local-state"} ==> IsSortedBy(kept, "id", r))
            && (key !in {"assets", "created-assets", "created-apps", "apps-local-state"} ==> r == Kept(Arr(kept)))
  {}

  /** The same elements in ascending order of their numbers, or a failure if one has none. */
  ghost predicate IsSortedBy(kept: seq<Json>, id: string, r: Outcome) {
    if AllHaveId(kept, id)
    then r.Kept? && r.json.Arr? && multiset(r.json.items) == multiset(kept) && Ascending(r.json.items, id)
    else r.Fails?
  }
}
