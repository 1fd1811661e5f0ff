/** Switching off endpoints and query parameters: showing the configuration, reading it back, applying it. */
module DisabledParams {
  import opened Outcomes

  datatype Verb = Get | Post | Put | Patch | Delete

  datatype Param = Param(name: string, required: bool)

  datatype Operation = Operation(id: string, params: seq<Param>)

  /** The operations of every path in the API description. */
  type Spec = map<string, map<Verb, Operation>>

  /** The names disabled for each operation. */
  type Config = map<string, map<Verb, seq<string>>>

  predicate Disabled(c: Config, path: string, verb: Verb, name: string) {
    path in c && verb in c[path] && name in c[path][verb]
  }

  method IsDisabled(c: Config, path: string, verb: Verb, name: string) returns (r: bool)
    ensures r <==> Disabled(c, path, verb, name)
  {
    if path !in c || verb !in c[path] {
      return false;
    }
    var list := c[path][verb];
    for i := 0 to |list|
      invariant name !in list[..i]
    {
      if name == list[i] {
        return true;
      }
    }
    r := false;
  }

  // ---------------------------------------------------------------- showing

  const DISABLED := "disabled"
  const ENABLED := "enabled"
  const REQUIRED := "required"
  const OPTIONAL := "optional"

  type Entries = seq<map<string, string>>

  /** For each path, under "required" and "optional", the names with their status. */
  type Display = map<string, map<string, Entries>>

  /** One line of the display. */
  datatype Line = Line(path: string, kind: string, name: string, status: string)

  ghost predicate Listed(list: Entries, name: string, status: string) {
    exists e :: e in list && name in e && e[name] == status
  }

  ghost predicate Shows(d: Display, l: Line) {
    l.path in d && l.kind in d[l.path] && Listed(d[l.path][l.kind], l.name, l.status)
  }

  function AddEntry(d: Display, l: Line): Display {
    var kinds := if l.path in d then d[l.path] else map[];
    var list := if l.kind in kinds then kinds[l.kind] else [];
    d[l.path := kinds[l.kind := list + [map[l.name := l.status]]]]
  }

  lemma AddListed(list: Entries, name: string, status: string, n: string, s: string)
    ensures Listed(list + [map[name := status]], n, s) <==> Listed(list, n, s) || (n == name && s == status)
  {
    var e := map[name := status];
    var all := list + [e];
    assert e in all;
    assert forall x :: x in all <==> x in list || x == e;
    if Listed(all, n, s) {
      var x :| x in all && n in x && x[n] == s;
    }
  }

  lemma AddShows(d: Display, l: Line, m: Line)
    ensures Shows(AddEntry(d, l), m) <==> Shows(d, m) || m == l
  {
    var kinds := if l.path in d then d[l.path] else map[];
    var list := if l.kind in kinds then kinds[l.kind] else [];
    AddListed(list, l.name, l.status, m.name, m.status);
  }

  predicate LegalEntries(list: Entries) {
    forall i, n | 0 <= i < |list| && n in list[i] :: list[i][n] == DISABLED || list[i][n] == ENABLED
  }

  predicate LegalKinds(kinds: map<string, Entries>) {
    forall k | k in kinds :: k in {"required", "optional"} && LegalEntries(kinds[k])
  }

  predicate Legal(d: Display) {
    forall p | p in d :: LegalKinds(d[p])
  }

  lemma AddLegal(d: Display, l: Line)
    requires Legal(d) && (l.kind == REQUIRED || l.kind == OPTIONAL) && (l.status == DISABLED || l.status == ENABLED)
    ensures Legal(AddEntry(d, l))
  {
    var kinds := if l.path in d then d[l.path] else map[];
    var list := if l.kind in kinds then kinds[l.kind] else [];
    assert LegalKinds(kinds) && LegalEntries(list);
    assert LegalEntries(list + [map[l.name := l.status]]);
  }

  /** The line for a parameter; enabled ones are left out of a limited display. */
  predicate IsLine(l: Line, c: Config, limited: bool, path: string, verb: Verb, p: Param) {
    var off := Disabled(c, path, verb, p.name);
    && (off || !limited)
    && l == Line(path, if p.required then REQUIRED else OPTIONAL, p.name, if off then DISABLED else ENABLED)
  }

  predicate FromParams(l: Line, c: Config, limited: bool, path: string, verb: Verb, params: seq<Param>) {
    exists i :: 0 <= i < |params| && IsLine(l, c, limited, path, verb, params[i])
  }

  lemma FromParamsStep(l: Line, c: Config, limited: bool, path: string, verb: Verb, params: seq<Param>, i: nat)
    requires i < |params|
    ensures FromParams(l, c, limited, path, verb, params[..i + 1]) <==>
              FromParams(l, c, limited, path, verb, params[..i]) || IsLine(l, c, limited, path, verb, params[i])
  {
    var front, more := params[..i], params[..i + 1];
    assert more[i] == params[i];
    assert forall j | 0 <= j < i :: more[j] == front[j];
    if FromParams(l, c, limited, path, verb, front) {
      var j :| 0 <= j < i && IsLine(l, c, limited, path, verb, front[j]);
      assert IsLine(l, c, limited, path, verb, more[j]);
    }
    if IsLine(l, c, limited, path, verb, params[i]) {
      assert IsLine(l, c, limited, path, verb, more[i]);
    }
  }

  method ShowParams(d0: Display, c: Config, limited: bool, path: string, verb: Verb, params: seq<Param>)
    returns (d: Display)
    ensures forall l :: Shows(d, l) <==> Shows(d0, l) || FromParams(l, c, limited, path, verb, params)
    ensures d.Keys <= d0.Keys + {path} && (Legal(d0) ==> Legal(d))
  {
    d := d0;
    for i := 0 to |params|
      invariant forall l :: Shows(d, l) <==> Shows(d0, l) || FromParams(l, c, limited, path, verb, params[..i])
      invariant d.Keys <= d0.Keys + {path} && (Legal(d0) ==> Legal(d))
    {
      var p := params[i];
      forall l ensures FromParams(l, c, limited, path, verb, params[..i + 1]) <==>
                         FromParams(l, c, limited, path, verb, params[..i]) || IsLine(l, c, limited, path, verb, p)
      {
        FromParamsStep(l, c, limited, path, verb, params, i);
      }
      var off := IsDisabled(c, path, verb, p.name);
      if off || !limited {
        var line := Line(path, if p.required then REQUIRED else OPTIONAL, p.name, if off then DISABLED else ENABLED);
        forall l ensures Shows(AddEntry(d, line), l) <==> Shows(d, l) || l == line {
          AddShows(d, line, l);
        }
        if Legal(d) {
          AddLegal(d, line);
        }
        d := AddEntry(d, line);
      }
    }
    assert params[..|params|] == params;
  }

  predicate FromOps(l: Line, c: Config, limited: bool, path: string, ops: map<Verb, Operation>, verbs: set<Verb>) {
    exists v :: v in verbs && v in ops && FromParams(l, c, limited, path, v, ops[v].params)
  }

  method ShowPath(d0: Display, c: Config, limited: bool, path: string, ops: map<Verb, Operation>) returns (d: Display)
    ensures forall l :: Shows(d, l) <==> Shows(d0, l) || FromOps(l, c, limited, path, ops, ops.Keys)
    ensures d.Keys <= d0.Keys + {path} && (Legal(d0) ==> Legal(d))
  {
    d := d0;
    var todo := ops.Keys;
    while todo != {}
      invariant todo <= ops.Keys
      invariant forall l :: Shows(d, l) <==> Shows(d0, l) || FromOps(l, c, limited, path, ops, ops.Keys - todo)
      invariant d.Keys <= d0.Keys + {path} && (Legal(d0) ==> Legal(d))
    {
      var v :| v in todo;
      forall l ensures FromOps(l, c, limited, path, ops, ops.Keys - (todo - {v})) <==>
                         FromOps(l, c, limited, path, ops, ops.Keys - todo)
                         || FromParams(l, c, limited, path, v, ops[v].params)
      {
        FromOpsStep(l, c, limited, path, ops, todo, v);
      }
      d := ShowParams(d, c, limited, path, v, ops[v].params);
      todo := todo - {v};
    }
    assert ops.Keys - {} == ops.Keys;
  }

  lemma FromOpsStep(l: Line, c: Config, limited: bool, path: string, ops: map<Verb, Operation>, todo: set<Verb>,
                    v: Verb)
    requires v in todo && todo <= ops.Keys
    ensures FromOps(l, c, limited, path, ops, ops.Keys - (todo - {v})) <==>
              FromOps(l, c, limited, path, ops, ops.Keys - todo) || FromParams(l, c, limited, path, v, ops[v].params)
  {
    var done, more := ops.Keys - todo, ops.Keys - (todo - {v});
    assert more == done + {v};
    if FromOps(l, c, limited, path, ops, done) {
      var u :| u in done && u in ops && FromParams(l, c, limited, path, u, ops[u].params);
      assert u in more;
    }
    if FromParams(l, c, limited, path, v, ops[v].params) {
      assert v in more;
    }
  }

  predicate Displayed(l: Line, spec: Spec, c: Config, limited: bool) {
    l.path in spec && FromOps(l, c, limited, l.path, spec[l.path], spec[l.path].Keys)
  }

  lemma OpsPath(l: Line, c: Config, limited: bool, path: string, ops: map<Verb, Operation>, verbs: set<Verb>)
    ensures FromOps(l, c, limited, path, ops, verbs) ==> l.path == path
  {}

  method MakeDisplay(spec: Spec, c: Config, limited: bool) returns (d: Display)
    ensures Legal(d) && d.Keys <= spec.Keys && forall l :: Shows(d, l) <==> Displayed(l, spec, c, limited)
  {
    d := map[];
    var todo := spec.Keys;
    while todo != {}
      invariant todo <= spec.Keys && Legal(d) && d.Keys <= spec.Keys
      invariant forall l :: Shows(d, l) <==> l.path !in todo && Displayed(l, spec, c, limited)
    {
      var path :| path in todo;
      ghost var before := d;
      d := ShowPath(d, c, limited, path, spec[path]);
      forall l ensures Shows(d, l) <==> l.path !in todo - {path} && Displayed(l, spec, c, limited) {
        assert Shows(d, l) <==> Shows(before, l) || FromOps(l, c, limited, path, spec[path], spec[path].Keys);
        OpsPath(l, c, limited, path, spec[path], spec[path].Keys);
      }
      todo := todo - {path};
    }
  }

  // ---------------------------------------------------------------- reading back

  method SchemaIsLegal(d: Display) returns (r: bool)
    ensures r <==> Legal(d)
  {
    r := true;
    var todo := d.Keys;
    while todo != {}
      invariant todo <= d.Keys
      invariant r <==> forall p | p in d && p !in todo :: LegalKinds(d[p])
    {
      var p :| p in todo;
      var legal := KindsAreLegal(d[p]);
      r := r && legal;
      todo := todo - {p};
    }
  }

  method KindsAreLegal(kinds: map<string, Entries>) returns (r: bool)
    ensures r <==> LegalKinds(kinds)
  {
    r := true;
    var todo := kinds.Keys;
    while todo != {}
      invariant todo <= kinds.Keys
      invariant r <==> forall k | k in kinds && k !in todo :: k in {"required", "optional"} && LegalEntries(kinds[k])
    {
      var k :| k in todo;
      var legal := EntriesAreLegal(kinds[k]);
      r := r && (k == REQUIRED || k == OPTIONAL) && legal;
      todo := todo - {k};
    }
  }

  method EntriesAreLegal(list: Entries) returns (r: bool)
    ensures r <==> LegalEntries(list)
  {
    r := true;
    for i := 0 to |list|
      invariant r <==> LegalEntries(list[..i])
    {
      var ok := true;
      var todo := list[i].Keys;
      while todo != {}
        invariant todo <= list[i].Keys
        invariant ok <==> forall n | n in list[i] && n !in todo :: list[i][n] == DISABLED || list[i][n] == ENABLED
      {
        var n :| n in todo;
        ok := ok && (list[i][n] == DISABLED || list[i][n] == ENABLED);
        todo := todo - {n};
      }
      assert list[..i + 1] == list[..i] + [list[i]];
      r := r && ok;
    }
    assert list[..|list|] == list;
  }

  method DisabledNames(list: Entries) returns (r: seq<string>)
    ensures forall n :: n in r <==> Listed(list, n, DISABLED)
  {
    r := [];
    for i := 0 to |list|
      invariant forall n :: n in r <==> Listed(list[..i], n, DISABLED)
    {
      ghost var before := r;
      var todo := list[i].Keys;
      while todo != {}
        invariant todo <= list[i].Keys
        invariant forall n :: n in r <==> n in before || (n in list[i] && n !in todo && list[i][n] == DISABLED)
      {
        var n :| n in todo;
        if list[i][n] == DISABLED {
          r := r + [n];
        }
        todo := todo - {n};
      }
      forall n ensures n in r <==> Listed(list[..i + 1], n, DISABLED) {
        ListedStep(list, i, n);
      }
    }
    assert list[..|list|] == list;
  }

  lemma ListedStep(list: Entries, i: nat, n: string)
    requires i < |list|
    ensures Listed(list[..i + 1], n, DISABLED) <==>
              Listed(list[..i], n, DISABLED) || (n in list[i] && list[i][n] == DISABLED)
  {
    var more := list[..i + 1];
    assert more == list[..i] + [list[i]];
    assert list[i] in more;
    assert forall e :: e in more <==> e in list[..i] || e == list[i];
  }

  ghost predicate OffIn(kinds: map<string, Entries>, done: set<string>, n: string) {
    exists k :: k in done && k in kinds && Listed(kinds[k], n, DISABLED)
  }

  lemma OffStep(kinds: map<string, Entries>, todo: set<string>, k: string, n: string)
    requires k in todo && todo <= kinds.Keys
    ensures OffIn(kinds, kinds.Keys - (todo - {k}), n) <==>
              OffIn(kinds, kinds.Keys - todo, n) || Listed(kinds[k], n, DISABLED)
  {
    var done, more := kinds.Keys - todo, kinds.Keys - (todo - {k});
    assert more == done + {k};
    if OffIn(kinds, done, n) {
      var j :| j in done && j in kinds && Listed(kinds[j], n, DISABLED);
      assert j in more;
    }
    if Listed(kinds[k], n, DISABLED) {
      assert k in more;
    }
  }

  method DisabledOf(kinds: map<string, Entries>) returns (r: seq<string>)
    ensures forall n :: n in r <==> OffIn(kinds, kinds.Keys, n)
  {
    r := [];
    var todo := kinds.Keys;
    while todo != {}
      invariant todo <= kinds.Keys
      invariant forall n :: n in r <==> OffIn(kinds, kinds.Keys - todo, n)
    {
      var k :| k in todo;
      var names := DisabledNames(kinds[k]);
      forall n ensures n in r + names <==> OffIn(kinds, kinds.Keys - (todo - {k}), n) {
        OffStep(kinds, todo, k, n);
      }
      r := r + names;
      todo := todo - {k};
    }
    assert kinds.Keys - {} == kinds.Keys;
  }

  /** The display shows the name as disabled, whether as a required or as an optional parameter. */
  ghost predicate ShownOff(d: Display, path: string, name: string) {
    path in d && OffIn(d[path], d[path].Keys, name)
  }

  /** Without validation against an API description. */
  method ReadConfig(d: Display) returns (c: Config)
    ensures ReadsAs(c, d)
  {
    c := map[];
    var todo := d.Keys;
    while todo != {}
      invariant todo <= d.Keys && c.Keys == d.Keys - todo
      invariant forall p | p in c :: c[p].Keys == {Get} && forall n :: n in c[p][Get] <==> ShownOff(d, p, n)
    {
      var p :| p in todo;
      var names := DisabledOf(d[p]);
      c := c[p := map[Get := names]];
      todo := todo - {p};
    }
  }

  // ---------------------------------------------------------------- validation

  predicate Named(params: seq<Param>, n: string) {
    exists i :: 0 <= i < |params| && params[i].name == n
  }

  predicate PathValid(ops: map<Verb, seq<string>>, known: map<Verb, Operation>) {
    forall v, n | v in ops && n in ops[v] :: v in known && Named(known[v].params, n)
  }

  /** Names under an operation the path does not have: reading its parameters stops the program. */
  predicate PathCrashes(ops: map<Verb, seq<string>>, known: map<Verb, Operation>) {
    exists v :: v in ops && ops[v] != [] && v !in known
  }

  predicate Valid(c: Config, spec: Spec) {
    forall p | p in c :: p in spec && PathValid(c[p], spec[p])
  }

  predicate Crashes(c: Config, spec: Spec) {
    exists p :: p in c && p in spec && PathCrashes(c[p], spec[p])
  }

  datatype Verdict = Fine | BadEntries | Crash

  method IsNamed(params: seq<Param>, n: string) returns (r: bool)
    ensures r <==> Named(params, n)
  {
    for i := 0 to |params|
      invariant forall j | 0 <= j < i :: params[j].name != n
    {
      if n == params[i].name {
        return true;
      }
    }
    r := false;
  }

  method ValidatePath(ops: map<Verb, seq<string>>, known: map<Verb, Operation>) returns (r: Verdict)
    ensures r.Crash? <==> PathCrashes(ops, known)
    ensures r.Fine? <==> PathValid(ops, known)
  {
    r := Fine;
    var todo := ops.Keys;
    while todo != {}
      invariant todo <= ops.Keys && !r.Crash?
      invariant forall v | v in ops && v !in todo :: ops[v] == [] || v in known
      invariant r.Fine? <==> forall v, n | v in ops && v !in todo && n in ops[v] ::
                  v in known && Named(known[v].params, n)
    {
      var v :| v in todo;
      var names := ops[v];
      if names != [] && v !in known {
        assert names[0] in ops[v];
        return Crash;
      }
      var fine := true;
      for i := 0 to |names|
        invariant fine <==> forall n | n in names[..i] :: Named(known[v].params, n)
      {
        var found := IsNamed(known[v].params, names[i]);
        assert names[..i + 1] == names[..i] + [names[i]];
        fine := fine && found;
      }
      assert names[..|names|] == names;
      r := if fine then r else BadEntries;
      todo := todo - {v};
    }
  }

  lemma ValidMeans(c: Config, spec: Spec)
    ensures Valid(c, spec) <==>
              forall p | p in c :: p in spec && forall v, n | v in c[p] && n in c[p][v] ::
                v in spec[p] && exists i | 0 <= i < |spec[p][v].params| :: spec[p][v].params[i].name == n
  {
    if Valid(c, spec) {
      forall p, v, n | p in c && v in c[p] && n in c[p][v]
        ensures v in spec[p] && exists i | 0 <= i < |spec[p][v].params| :: spec[p][v].params[i].name == n
      {
        assert PathValid(c[p], spec[p]) && Named(spec[p][v].params, n);
      }
    }
  }

  method Validate(c: Config, spec: Spec) returns (r: Verdict)
    ensures r.Crash? <==> Crashes(c, spec)
    ensures r.Fine? <==> Valid(c, spec)
    ensures r.Fine? <==>
              forall p | p in c :: p in spec && forall v, n | v in c[p] && n in c[p][v] ::
                v in spec[p] && exists i | 0 <= i < |spec[p][v].params| :: spec[p][v].params[i].name == n
  {
    ValidMeans(c, spec);
    r := Fine;
    var todo := c.Keys;
    while todo != {}
      invariant todo <= c.Keys && !r.Crash?
      invariant forall p | p in c && p !in todo && p in spec :: !PathCrashes(c[p], spec[p])
      invariant r.Fine? <==> forall p | p in c && p !in todo :: p in spec && PathValid(c[p], spec[p])
    {
      var p :| p in todo;
      if p !in spec {
        r := BadEntries;
      } else {
        var path := ValidatePath(c[p], spec[p]);
        if path.Crash? {
          return Crash;
        }
        r := if path.Fine? then r else BadEntries;
      }
      todo := todo - {p};
    }
  }

  // ---------------------------------------------------------------- the round trip

  datatype Reading = Illegal | Rejected | Stopped | Read(config: Config)

  /** Every path shown is known, and every name shown as disabled is a parameter of its GET operation. */
  ghost predicate Readable(d: Display, spec: Spec) {
    forall p | p in d :: p in spec && forall n | ShownOff(d, p, n) :: Get in spec[p] && Named(spec[p][Get].params, n)
  }

  ghost predicate ReadsAs(c: Config, d: Display) {
    && c.Keys == d.Keys && (forall p | p in c :: c[p].Keys == {Get})
    && forall p, v, n :: Disabled(c, p, v, n) <==> v == Get && ShownOff(d, p, n)
  }

  lemma ValidIsReadable(c: Config, d: Display, spec: Spec)
    requires ReadsAs(c, d)
    ensures Valid(c, spec) <==> Readable(d, spec)
  {
    if Readable(d, spec) {
      forall p | p in c ensures p in spec && PathValid(c[p], spec[p]) {
        forall v, n | v in c[p] && n in c[p][v] ensures v in spec[p] && Named(spec[p][v].params, n) {
          assert Disabled(c, p, v, n);
        }
      }
    }
    if Valid(c, spec) {
      forall p, n | p in d && ShownOff(d, p, n) ensures Get in spec[p] && Named(spec[p][Get].params, n) {
        assert Disabled(c, p, Get, n);
        assert PathValid(c[p], spec[p]);
      }
    }
  }

  lemma LegalMeans(d: Display)
    ensures Legal(d) <==>
              forall p, k | p in d && k in d[p] ::
                && k in {"required", "optional"}
                && forall i, n | 0 <= i < |d[p][k]| && n in d[p][k][i] :: d[p][k][i][n] in {"disabled", "enabled"}
  {
    if Legal(d) {
      forall p, k | p in d && k in d[p]
        ensures k in {"required", "optional"}
        ensures forall i, n | 0 <= i < |d[p][k]| && n in d[p][k][i] :: d[p][k][i][n] in {"disabled", "enabled"}
      {
        assert LegalKinds(d[p]) && LegalEntries(d[p][k]);
      }
    }
  }

  method ToDisabledMapConfig(d: Display, spec: Spec) returns (r: Reading)
    ensures r.Read? <==> Legal(d) && Readable(d, spec)
    ensures r.Illegal? <==> !Legal(d)
    ensures r.Illegal? <==>
              !forall p, k | p in d && k in d[p] ::
                 && k in {"required", "optional"}
                 && forall i, n | 0 <= i < |d[p][k]| && n in d[p][k][i] :: d[p][k][i][n] in {"disabled", "enabled"}
    ensures r.Read? ==> ReadsAs(r.config, d)
  {
    LegalMeans(d);
    var legal := SchemaIsLegal(d);
    if !legal {
      return Illegal;
    }
    var c := ReadConfig(d);
    ValidIsReadable(c, d, spec);
    var verdict := Validate(c, spec);
    match verdict
    case Fine => r := Read(c);
    case BadEntries => r := Rejected;
    case Crash => r := Stopped;
  }

  lemma ShownOffMeans(d: Display, spec: Spec, c: Config, limited: bool, p: string, n: string)
    requires Valid(c, spec) && forall l :: Shows(d, l) <==> Displayed(l, spec, c, limited)
    ensures ShownOff(d, p, n) <==> exists v :: Disabled(c, p, v, n)
  {
    if ShownOff(d, p, n) {
      var k :| k in d[p].Keys && k in d[p] && Listed(d[p][k], n, DISABLED);
      var l := Line(p, k, n, DISABLED);
      assert Shows(d, l);
      var v :| v in spec[p].Keys && v in spec[p] && FromParams(l, c, limited, p, v, spec[p][v].params);
      var i :| 0 <= i < |spec[p][v].params| && IsLine(l, c, limited, p, v, spec[p][v].params[i]);
      assert Disabled(c, p, v, n);
    }
    if v :| Disabled(c, p, v, n) {
      assert PathValid(c[p], spec[p]);
      var params := spec[p][v].params;
      var i :| 0 <= i < |params| && params[i].name == n;
      var l := Line(p, if params[i].required then REQUIRED else OPTIONAL, n, DISABLED);
      assert IsLine(l, c, limited, p, v, params[i]);
      assert FromParams(l, c, limited, p, v, params);
      assert Displayed(l, spec, c, limited);
      assert Shows(d, l);
    }
  }

  ghost predicate SameDisabled(a: Config, b: Config) {
    forall p, v, n :: Disabled(a, p, v, n) <==> Disabled(b, p, v, n)
  }

  /** Nothing is disabled but parameters of GET operations. */
  ghost predicate OnlyGetDisabled(c: Config) {
    forall p, v, n | Disabled(c, p, v, n) :: v == Get
  }

  /** A display of names that are disabled under GET can be read back. */
  lemma GetIsReadable(spec: Spec, c: Config, d: Display)
    requires Valid(c, spec) && OnlyGetDisabled(c) && d.Keys <= spec.Keys
    requires forall p, n :: ShownOff(d, p, n) <==> exists v :: Disabled(c, p, v, n)
    ensures Readable(d, spec)
  {
    forall p, n | p in d && ShownOff(d, p, n) ensures Get in spec[p] && Named(spec[p][Get].params, n) {
      var v :| Disabled(c, p, v, n);
      assert PathValid(c[p], spec[p]);
    }
  }

  /** What is read back is the same exactly when nothing was disabled under another verb. */
  lemma SameAfterReading(c: Config, back: Config)
    requires forall p, v, n :: Disabled(back, p, v, n) <==> v == Get && exists u :: Disabled(c, p, u, n)
    ensures SameDisabled(back, c) <==> OnlyGetDisabled(c)
  {
    if SameDisabled(back, c) {
      forall p, v, n | Disabled(c, p, v, n) ensures v == Get {
        assert Disabled(back, p, v, n);
      }
    }
  }

  /** Showing a valid configuration, limited or in full, and reading it back succeeds and disables the same
      parameters exactly when only parameters of GET operations are disabled. Otherwise, if it can be read
      at all, the names come back under GET. */
  method ShowAndRead(spec: Spec, c: Config, limited: bool) returns (r: Reading)
    requires Valid(c, spec)
    ensures r.Read? && SameDisabled(r.config, c) <==> OnlyGetDisabled(c)
    ensures r.Read? ==> forall p, v, n :: Disabled(r.config, p, v, n) <==> v == Get && exists u :: Disabled(c, p, u, n)
  {
    var d := MakeDisplay(spec, c, limited);
    forall p, n ensures ShownOff(d, p, n) <==> exists v :: Disabled(c, p, v, n) {
      ShownOffMeans(d, spec, c, limited, p, n);
    }
    if OnlyGetDisabled(c) {
      GetIsReadable(spec, c, d);
    }
    r := ToDisabledMapConfig(d, spec);
    if r.Read? {
      SameAfterReading(c, r.config);
    }
  }

  // ---------------------------------------------------------------- applying

  datatype Endpoint = Endpoint(off: bool, optional: set<string>)

  /** What is switched off, by operation id. */
  type DisabledMap = map<string, Endpoint>

  predicate OffParam(c: Config, path: string, verb: Verb, p: Param, required: bool) {
    p.required == required && Disabled(c, path, verb, p.name)
  }

  ghost predicate IsEndpoint(e: Endpoint, c: Config, path: string, verb: Verb, params: seq<Param>) {
    && (e.off <==> exists p :: p in params && OffParam(c, path, verb, p, true))
    && (forall n :: n in e.optional <==> exists p :: p in params && p.name == n && OffParam(c, path, verb, p, false))
  }

  method MakeEndpoint(c: Config, path: string, verb: Verb, params: seq<Param>) returns (e: Endpoint)
    ensures IsEndpoint(e, c, path, verb, params)
  {
    e := Endpoint(false, {});
    for i := 0 to |params|
      invariant IsEndpoint(e, c, path, verb, params[..i])
    {
      var p := params[i];
      ghost var before := e;
      var off := IsDisabled(c, path, verb, p.name);
      if off && p.required {
        e := e.(off := true);
      } else if off {
        e := e.(optional := e.optional + {p.name});
      }
      EndpointStep(before, e, c, path, verb, params, i);
    }
    assert params[..|params|] == params;
  }

  lemma EndpointStep(e: Endpoint, f: Endpoint, c: Config, path: string, verb: Verb, params: seq<Param>, i: nat)
    requires i < |params| && IsEndpoint(e, c, path, verb, params[..i])
    requires f.off == (e.off || OffParam(c, path, verb, params[i], true))
    requires f.optional == e.optional + if OffParam(c, path, verb, params[i], false) then {params[i].name} else {}
    ensures IsEndpoint(f, c, path, verb, params[..i + 1])
  {
    assert forall p :: p in params[..i + 1] <==> p in params[..i] || p == params[i];
  }

  /** Operation ids are unique, as the API description format demands. */
  predicate UniqueOperations(spec: Spec) {
    forall p, v, q, u | p in spec && v in spec[p] && q in spec && u in spec[q] && spec[p][v].id == spec[q][u].id ::
      p == q && v == u
  }

  ghost predicate Covers(m: DisabledMap, spec: Spec, c: Config, p: string, v: Verb)
    requires p in spec && v in spec[p]
  {
    spec[p][v].id in m && IsEndpoint(m[spec[p][v].id], c, p, v, spec[p][v].params)
  }

  method AddEndpoint(m0: DisabledMap, spec: Spec, c: Config, path: string, verb: Verb) returns (m: DisabledMap)
    requires UniqueOperations(spec) && path in spec && verb in spec[path]
    ensures Covers(m, spec, c, path, verb)
    ensures forall p, v | p in spec && v in spec[p] && Covers(m0, spec, c, p, v) :: Covers(m, spec, c, p, v)
  {
    var e := MakeEndpoint(c, path, verb, spec[path][verb].params);
    m := m0[spec[path][verb].id := e];
  }

  method AddEndpoints(m0: DisabledMap, spec: Spec, c: Config, path: string) returns (m: DisabledMap)
    requires UniqueOperations(spec) && path in spec
    ensures forall v | v in spec[path] :: Covers(m, spec, c, path, v)
    ensures forall p, v | p in spec && p != path && v in spec[p] && Covers(m0, spec, c, p, v) ::
              Covers(m, spec, c, p, v)
  {
    m := m0;
    var todo := spec[path].Keys;
    while todo != {}
      invariant todo <= spec[path].Keys
      invariant forall v | v in spec[path] && v !in todo :: Covers(m, spec, c, path, v)
      invariant forall p, v | p in spec && p != path && v in spec[p] && Covers(m0, spec, c, p, v) ::
                  Covers(m, spec, c, p, v)
    {
      var v :| v in todo;
      m := AddEndpoint(m, spec, c, path, v);
      todo := todo - {v};
    }
  }

  method MakeDisabledMapFromOA3(spec: Spec, c: Config) returns (r: Result<DisabledMap>)
    requires UniqueOperations(spec)
    ensures r.Ok? <==> Valid(c, spec)
    ensures r.Ok? ==> forall p, v | p in spec && v in spec[p] :: Covers(r.value, spec, c, p, v)
  {
    var verdict := Validate(c, spec);
    if !verdict.Fine? {
      return Err("unknown paths or parameters");
    }
    var m: DisabledMap, todo := map[], spec.Keys;
    while todo != {}
      invariant todo <= spec.Keys
      invariant forall p, v | p in spec && p !in todo && v in spec[p] :: Covers(m, spec, c, p, v)
    {
      var p :| p in todo;
      m := AddEndpoints(m, spec, c, p);
      todo := todo - {p};
    }
    r := Ok(m);
  }

  /** The query and, unless it cannot be parsed, the form of a request. */
  datatype Request = Request(query: map<string, string>, form: Option<map<string, string>>)

  function ValueOf(m: map<string, string>, n: string): string {
    if n in m then m[n] else ""
  }

  predicate Supplied(req: Request, n: string) {
    ValueOf(req.query, n) != "" || (req.form.Some? && ValueOf(req.form.value, n) != "")
  }

  method Verify(m: DisabledMap, id: string, req: Request) returns (rejected: bool)
    ensures rejected <==> id in m && (m[id].off || exists n :: n in m[id].optional && Supplied(req, n))
  {
    if id !in m {
      return false;
    }
    if m[id].off {
      return true;
    }
    var todo := m[id].optional;
    while todo != {}
      invariant todo <= m[id].optional
      invariant forall n | n in m[id].optional && n !in todo :: !Supplied(req, n)
    {
      var n :| n in todo;
      if ValueOf(req.query, n) != "" {
        return true;
      }
      if req.form.Some? {
        if ValueOf(req.form.value, n) != "" {
          return true;
        }
      }
      todo := todo - {n};
    }
    rejected := false;
  }

  /** A request is refused exactly when a required parameter of its operation is disabled or a disabled
      optional one is supplied. */
  method HandleRequest(spec: Spec, c: Config, p: string, v: Verb, req: Request) returns (rejected: bool)
    requires UniqueOperations(spec) && Valid(c, spec) && p in spec && v in spec[p]
    ensures rejected <==>
              exists q :: q in spec[p][v].params && Disabled(c, p, v, q.name) && (q.required || Supplied(req, q.name))
    ensures rejected <==>
              p in c && v in c[p] && exists q | q in spec[p][v].params ::
                && q.name in c[p][v]
                && (q.required || (q.name in req.query && req.query[q.name] != "")
                    || (req.form.Some? && q.name in req.form.value && req.form.value[q.name] != ""))
  {
    var m := MakeDisabledMapFromOA3(spec, c);
    assert Covers(m.value, spec, c, p, v);
    rejected := Verify(m.value, spec[p][v].id, req);
    RefusedMeans(m.value[spec[p][v].id], c, p, v, spec[p][v].params, req);
  }

  lemma RefusedMeans(e: Endpoint, c: Config, p: string, v: Verb, params: seq<Param>, req: Request)
    requires IsEndpoint(e, c, p, v, params)
    ensures e.off || (exists n :: n in e.optional && Supplied(req, n)) <==>
              exists q :: q in params && Disabled(c, p, v, q.name) && (q.required || Supplied(req, q.name))
  {
    if n :| n in e.optional && Supplied(req, n) {
      var q :| q in params && q.name == n && OffParam(c, p, v, q, false);
    }
    if q :| q in params && Disabled(c, p, v, q.name) && (q.required || Supplied(req, q.name)) {
      assert OffParam(c, p, v, q, q.required);
      if !q.required {
        assert q.name in e.optional;
      }
    }
  }
}
