/**
 Trimming a JSON schema to one definition: the definition is inlined at the
 root and only the definitions it needs, directly or through others, are kept.
 References and definitions are those of JSON Schema Core 2020-12, sections
 8.2.3.1 and 8.2.4.
 */
module SchemaTrim {
  import opened Wrappers
  import opened Json

  type Defs = map<string, Value>

  const DEFS_PREFIX := "#/$defs/"

  // ---- references ----

  /** The "$ref" strings anywhere inside a value. */
  function Refs(v: Value): set<string> {
    match v
    case Object(fields) =>
      (if "$ref" in fields && fields["$ref"].String? then {fields["$ref"].s} else {})
      + set k, r | k in fields && r in Refs(fields[k]) :: r
    case Array(items) => set i, r | 0 <= i < |items| && r in Refs(items[i]) :: r
    case _ => {}
  }

  function ResolveDefName(ref: string): Option<string> {
    if DEFS_PREFIX <= ref then Some(ref[|DEFS_PREFIX|..]) else None
  }

  /** The definitions that the references inside `v` name. */
  function Names(v: Value): set<string> {
    set r | r in Refs(v) && ResolveDefName(r).Some? :: ResolveDefName(r).value
  }

  method CollectRefs(val: Value) returns (refs: seq<string>)
    ensures forall r :: r in refs <==> r in Refs(val)
  {
    refs := [];
    match val
    case Object(fields) =>
      if "$ref" in fields && fields["$ref"].String? {
        refs := refs + [fields["$ref"].s];
      }
      var todo := fields.Keys;
      while todo != {}
        invariant todo <= fields.Keys
        invariant forall r :: r in refs <==>
          ("$ref" in fields && fields["$ref"].String? && r == fields["$ref"].s)
          || exists k :: k in fields && k !in todo && r in Refs(fields[k])
        decreases |todo|
      {
        var k :| k in todo;
        var inner := CollectRefs(fields[k]);
        refs := refs + inner;
        todo := todo - {k};
      }
    case Array(items) =>
      for i := 0 to |items|
        invariant forall r :: r in refs <==> exists j :: 0 <= j < i && r in Refs(items[j])
      {
        var inner := CollectRefs(items[i]);
        refs := refs + inner;
      }
    case _ =>
  }

  // ---- the definition graph ----

  function DefsOf(root: Value): Defs {
    match root.Get("$defs")
    case Some(Object(defs)) => defs
    case _ => map[]
  }

  function Deps(defs: Defs, name: string): set<string> {
    if name in defs then Names(defs[name]) else {}
  }

  ghost predicate IsPath(defs: Defs, p: seq<string>) {
    p != [] && forall i :: 0 <= i < |p| - 1 ==> p[i + 1] in Deps(defs, p[i])
  }

  /** `to` is named by a chain of references that starts at `from`. */
  ghost predicate Reaches(defs: Defs, from: string, to: string) {
    exists p :: IsPath(defs, p) && p[0] == from && p[|p| - 1] == to
  }

  lemma ReachesItself(defs: Defs, a: string)
    ensures Reaches(defs, a, a)
  {
    assert IsPath(defs, [a]);
  }

  lemma ReachesNext(defs: Defs, a: string, b: string, c: string)
    requires Reaches(defs, a, b) && c in Deps(defs, b)
    ensures Reaches(defs, a, c)
  {
    var p :| IsPath(defs, p) && p[0] == a && p[|p| - 1] == b;
    assert IsPath(defs, p + [c]);
  }

  ghost predicate IsClosed(defs: Defs, names: set<string>) {
    forall n :: n in names ==> Deps(defs, n) <= names
  }

  lemma {:induction false} ClosedHoldsPath(defs: Defs, names: set<string>, p: seq<string>)
    requires IsClosed(defs, names) && IsPath(defs, p) && p[0] in names
    ensures p[|p| - 1] in names
  {
    if |p| > 1 {
      var init := p[..|p| - 1];
      assert IsPath(defs, init);
      ClosedHoldsPath(defs, names, init);
      assert p[|init| - 1 + 1] in Deps(defs, init[|init| - 1]);
    }
  }

  lemma PathCons(defs: Defs, a: string, p: seq<string>)
    requires IsPath(defs, p) && p[0] in Deps(defs, a)
    ensures IsPath(defs, [a] + p)
  {
    var q := [a] + p;
    forall i | 0 <= i < |q| - 1 ensures q[i + 1] in Deps(defs, q[i]) {
      if i > 0 {
        assert p[(i - 1) + 1] in Deps(defs, p[i - 1]);
      }
    }
  }

  lemma PathSnoc(defs: Defs, p: seq<string>, b: string)
    requires IsPath(defs, p) && b in Deps(defs, p[|p| - 1])
    ensures IsPath(defs, p + [b])
  {
    var q := p + [b];
    forall i | 0 <= i < |q| - 1 ensures q[i + 1] in Deps(defs, q[i]) {
      if i < |p| - 1 {
        assert p[i + 1] in Deps(defs, p[i]);
      }
    }
  }

  lemma PathPrefix(defs: Defs, p: seq<string>, n: nat)
    requires IsPath(defs, p) && 0 < n <= |p|
    ensures IsPath(defs, p[..n]) && p[..n][0] == p[0] && p[..n][n - 1] == p[n - 1]
  {
  }

  lemma PathSuffix(defs: Defs, p: seq<string>)
    requires IsPath(defs, p) && |p| > 1
    ensures p[1] in Deps(defs, p[0])
    ensures IsPath(defs, p[1..]) && p[1..][0] == p[1] && p[1..][|p| - 2] == p[|p| - 1]
  {
    assert p[0 + 1] in Deps(defs, p[0]);
    forall i | 0 <= i < |p| - 2 ensures p[1..][i + 1] in Deps(defs, p[1..][i]) {
      assert p[(i + 1) + 1] in Deps(defs, p[i + 1]);
    }
  }

  /** Every name on a chain that starts in a closed set is in the set. */
  lemma ClosedHoldsAll(defs: Defs, names: set<string>, p: seq<string>)
    requires IsClosed(defs, names) && IsPath(defs, p) && p[0] in names
    ensures forall i :: 0 <= i < |p| ==> p[i] in names
  {
    forall i | 0 <= i < |p| ensures p[i] in names {
      PathPrefix(defs, p, i + 1);
      ClosedHoldsPath(defs, names, p[..i + 1]);
    }
  }

  lemma ClosedHoldsReached(defs: Defs, names: set<string>, a: string)
    requires IsClosed(defs, names) && a in names
    ensures forall b :: Reaches(defs, a, b) ==> b in names
  {
    forall b | Reaches(defs, a, b) ensures b in names {
      var p :| IsPath(defs, p) && p[0] == a && p[|p| - 1] == b;
      ClosedHoldsPath(defs, names, p);
    }
  }

  /** Every name the graph mentions. */
  ghost function Mentioned(defs: Defs): set<string> {
    set n, m | n in defs && m in Names(defs[n]) :: m
  }

  /**
   What the worklist maintains: everything seen is reachable and among `all`
   names, and nothing reachable is forgotten.
   */
  ghost predicate WorklistOk(defs: Defs, all: set<string>, start: string, needed: set<string>, work: seq<string>) {
    && (start in needed || start in work)
    && (forall n :: n in needed || n in work ==> n in all && Reaches(defs, start, n))
    && (forall n, m :: n in needed && m in Deps(defs, n) ==> m in needed || m in work)
  }

  lemma SkipSeen(defs: Defs, all: set<string>, start: string, needed: set<string>, work: seq<string>, current: string)
    requires WorklistOk(defs, all, start, needed, work + [current]) && current in needed
    ensures WorklistOk(defs, all, start, needed, work)
  {
    assert forall n :: n in work + [current] <==> n in work || n == current;
  }

  lemma VisitNew(defs: Defs, all: set<string>, start: string, needed: set<string>, work: seq<string>,
                 current: string, deps: seq<string>)
    requires WorklistOk(defs, all, start, needed, work + [current])
    requires forall n :: n in deps <==> n in Deps(defs, current)
    requires forall n :: Deps(defs, n) <= all
    ensures WorklistOk(defs, all, start, needed + {current}, work + deps)
    ensures current in all
  {
    assert forall n :: n in work + [current] <==> n in work || n == current;
    assert forall n :: n in work + deps <==> n in work || n in deps;
    forall m | m in deps ensures Reaches(defs, start, m) && m in all {
      ReachesNext(defs, start, current, m);
    }
  }

  /** All names there are. */
  lemma AllNames(defs: Defs, start: string) returns (all: set<string>)
    ensures start in all && forall n :: Deps(defs, n) <= all
  {
    all := Mentioned(defs) + {start};
  }

  lemma WorklistStart(defs: Defs, all: set<string>, start: string)
    requires start in all
    ensures WorklistOk(defs, all, start, {}, [start])
  {
    ReachesItself(defs, start);
  }

  lemma WorklistDone(defs: Defs, all: set<string>, start: string, needed: set<string>)
    requires WorklistOk(defs, all, start, needed, [])
    ensures forall n :: n in needed <==> Reaches(defs, start, n)
  {
    ClosedHoldsReached(defs, needed, start);
  }

  /** Visiting a name leaves fewer names unvisited. */
  lemma FewerLeft(all: set<string>, needed: set<string>, n: string)
    requires n in all && n !in needed
    ensures |all - (needed + {n})| < |all - needed|
  {
    assert all - needed == (all - (needed + {n})) + {n};
  }

  /**
   The worklist: it ends on every graph, cyclic or not, with exactly the names
   reachable from the starting reference.
   */
  method CollectNeededDefs(root: Value, schemaRef: string) returns (r: Option<set<string>>)
    ensures r.None? <==> root.Get("$defs").None?
    ensures r.Some? ==> forall n :: n in r.value <==>
              ResolveDefName(schemaRef).Some?
              && Reaches(DefsOf(root), ResolveDefName(schemaRef).value, n)
  {
    if root.Get("$defs").None? {
      return None;
    }
    var needed: set<string> := {};
    var start := ResolveDefName(schemaRef);
    if start.Some? {
      needed := Closure(DefsOf(root), start.value);
    }
    r := Some(needed);
  }

  method Closure(defs: Defs, start: string) returns (needed: set<string>)
    ensures forall n :: n in needed <==> Reaches(defs, start, n)
  {
    needed := {};
    var toProcess := [start];
    ghost var all := AllNames(defs, start);
    WorklistStart(defs, all, start);
    while toProcess != []
      invariant WorklistOk(defs, all, start, needed, toProcess)
      decreases |all - needed|, |toProcess|
    {
      var current := toProcess[|toProcess| - 1];
      ghost var work := toProcess;
      toProcess := toProcess[..|toProcess| - 1];
      assert work == toProcess + [current];
      if current in needed {
        SkipSeen(defs, all, start, needed, toProcess, current);
      } else {
        var deps := DepsOf(defs, current);
        VisitNew(defs, all, start, needed, toProcess, current, deps);
        FewerLeft(all, needed, current);
        needed, toProcess := needed + {current}, toProcess + deps;
      }
    }
    WorklistDone(defs, all, start, needed);
  }

  method DepsOf(defs: Defs, name: string) returns (deps: seq<string>)
    ensures forall n :: n in deps <==> n in Deps(defs, name)
  {
    deps := [];
    if name in defs {
      var refs := CollectRefs(defs[name]);
      deps := DefNames(refs, defs[name]);
    }
  }

  /** The definitions that a list of references names. */
  method DefNames(refs: seq<string>, ghost val: Value) returns (names: seq<string>)
    requires forall r :: r in refs <==> r in Refs(val)
    ensures forall n :: n in names <==> n in Names(val)
  {
    names := [];
    for i := 0 to |refs|
      invariant forall n :: n in names <==>
        exists j :: 0 <= j < i && ResolveDefName(refs[j]) == Some(n)
    {
      var name := ResolveDefName(refs[i]);
      if name.Some? {
        names := names + [name.value];
      }
    }
    forall n ensures n in names <==> n in Names(val) {
      if n in names {
        var j :| 0 <= j < |refs| && ResolveDefName(refs[j]) == Some(n);
        assert refs[j] in Refs(val);
      }
      if n in Names(val) {
        var r :| r in Refs(val) && ResolveDefName(r) == Some(n);
        assert r in refs;
      }
    }
  }

  // ---- the emitted schema ----

  const DEFAULT_SCHEMA := "https://json-schema.org/draft/2020-12/schema"

  datatype Trimming =
    | Trimmed(schema: Defs)
    | NoDefs
    | NotADefRef
    | NotAnObject

  /** Some reachable definition refers back to `name`. */
  ghost predicate ReferredBack(defs: Defs, name: string) {
    exists m :: Reaches(defs, name, m) && name in Deps(defs, m)
  }

  /** The definitions that stay: the reachable ones, and the inlined one only if referred back to. */
  ghost function Kept(defs: Defs, name: string): Defs {
    map n | n in defs && Reaches(defs, name, n) && (n != name || ReferredBack(defs, name)) :: defs[n]
  }

  ghost function Emitted(root: Value, name: string): Defs
    requires name in DefsOf(root) && DefsOf(root)[name].Object?
  {
    var defs := DefsOf(root);
    var schema := defs[name].fields["$schema" := root.Get("$schema").GetOr(String(DEFAULT_SCHEMA))];
    if Kept(defs, name) == map[] then schema else schema["$defs" := Object(Kept(defs, name))]
  }

  method IsReferencedBack(defs: Defs, name: string, needed: set<string>) returns (referenced: bool)
    requires name in defs && forall n :: n in needed <==> Reaches(defs, name, n)
    ensures referenced <==> ReferredBack(defs, name)
  {
    ReachesItself(defs, name);
    var refs := CollectRefs(defs[name]);
    var names := DefNames(refs, defs[name]);
    referenced := name in names;
    var todo := defs.Keys * needed;
    while todo != {}
      invariant todo <= defs.Keys * needed
      invariant referenced ==> ReferredBack(defs, name)
      invariant !referenced ==> name !in Deps(defs, name)
      invariant !referenced ==> forall n :: n in defs && n in needed && n !in todo ==> name !in Names(defs[n])
      decreases |todo|
    {
      var n :| n in todo;
      if n != name {
        var inner := CollectRefs(defs[n]);
        var deps := DefNames(inner, defs[n]);
        referenced := referenced || name in deps;
      }
      todo := todo - {n};
    }
  }

  method SchemaRefObject(root: Value, schemaRef: string) returns (r: Trimming)
    ensures r == match (root.Get("$defs"), ResolveDefName(schemaRef))
                 case (Some(Object(defs)), Some(name)) =>
                   if name in defs && defs[name].Object? then Trimmed(Emitted(root, name)) else NotAnObject
                 case (Some(Object(defs)), None) => NotADefRef
                 case _ => NoDefs
  {
    var found := root.Get("$defs");
    if found.None? || !found.value.Object? { return NoDefs; }
    var defs := found.value.fields;
    var resolved := ResolveDefName(schemaRef);
    if resolved.None? { return NotADefRef; }
    var name := resolved.value;
    if name !in defs || !defs[name].Object? { return NotAnObject; }
    var schema := defs[name].fields;

    var needed := CollectNeededDefs(root, schemaRef);
    var filtered := map n | n in defs && n in needed.value :: defs[n];

    var referenced := IsReferencedBack(defs, name, needed.value);
    if !referenced {
      filtered := filtered - {name};
    }
    assert filtered == Kept(defs, name);
    schema := schema["$schema" := root.Get("$schema").GetOr(String(DEFAULT_SCHEMA))];
    if filtered != map[] {
      schema := schema["$defs" := Object(filtered)];
    }
    r := Trimmed(schema);
  }
}
