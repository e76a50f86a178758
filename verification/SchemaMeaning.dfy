/** What trimming a schema preserves: its meaning, its closedness, and nothing more than needed. */
module SchemaMeaning {
  import opened Wrappers
  import opened Json
  import opened SchemaTrim

  // ---- meaning: unfolding references ----

  /**
   `v` with every resolvable "$ref" replaced by the definition it names, `k`
   levels deep.  Two schemas whose unfoldings agree at every depth mean the same.
   */
  ghost function Unfold(v: Value, defs: Defs, k: nat): Value
    decreases k, v
  {
    match v
    case Object(fields) =>
      Object(map key | key in fields ::
        if key == "$ref" && fields[key].String? then
          var name := ResolveDefName(fields[key].s);
          if name.Some? && name.value in defs && k > 0
          then Array([Unfold(defs[name.value], defs, k - 1)])
          else fields[key]
        else Unfold(fields[key], defs, k))
    case Array(items) =>
      Array(seq(|items|, i requires 0 <= i < |items| => Unfold(items[i], defs, k)))
    case _ => v
  }

  /** Two tables agree on a set of names that is closed under what they define. */
  ghost predicate Agree(a: Defs, b: Defs, names: set<string>) {
    forall n :: n in names ==>
      && (n in a <==> n in b)
      && (n in a ==> a[n] == b[n] && Names(a[n]) <= names)
  }

  lemma FieldNames(fields: Defs, key: string)
    requires key in fields
    ensures Names(fields[key]) <= Names(Object(fields))
  {
    assert Refs(fields[key]) <= Refs(Object(fields));
  }

  lemma ItemNames(items: seq<Value>, i: nat)
    requires i < |items|
    ensures Names(items[i]) <= Names(Array(items))
  {
    assert Refs(items[i]) <= Refs(Array(items));
  }

  lemma {:induction false} AgreeingTablesUnfoldAlike(v: Value, a: Defs, b: Defs, k: nat, names: set<string>)
    requires Agree(a, b, names) && Names(v) <= names
    ensures Unfold(v, a, k) == Unfold(v, b, k)
    decreases k, v, 1
  {
    match v
    case Object(fields) =>
      forall key | key in fields
        ensures Unfold(v, a, k).fields[key] == Unfold(v, b, k).fields[key]
      {
        AgreeingField(fields, key, a, b, k, names);
      }
      assert Unfold(v, a, k).fields == Unfold(v, b, k).fields;
    case Array(items) =>
      forall i | 0 <= i < |items|
        ensures Unfold(items[i], a, k) == Unfold(items[i], b, k)
      {
        ItemNames(items, i);
        AgreeingTablesUnfoldAlike(items[i], a, b, k, names);
      }
      assert Unfold(v, a, k).items == Unfold(v, b, k).items;
    case _ =>
  }

  lemma {:induction false} AgreeingField(fields: Defs, key: string, a: Defs, b: Defs, k: nat, names: set<string>)
    requires Agree(a, b, names) && Names(Object(fields)) <= names && key in fields
    ensures Unfold(Object(fields), a, k).fields[key] == Unfold(Object(fields), b, k).fields[key]
    decreases k, Object(fields), 0
  {
    if key == "$ref" && fields[key].String? {
      var name := ResolveDefName(fields[key].s);
      if name.Some? {
        assert name.value in Names(Object(fields)) by { assert fields[key].s in Refs(Object(fields)); }
        if name.value in a && k > 0 {
          AgreeingTablesUnfoldAlike(a[name.value], a, b, k - 1, names);
        }
      }
    } else {
      FieldNames(fields, key);
      AgreeingTablesUnfoldAlike(fields[key], a, b, k, names);
    }
  }

  /** A reference that only one table resolves shows at depth one. */
  lemma {:induction false} ResolvingDifferentlyShows(v: Value, a: Defs, b: Defs, name: string)
    requires name in Names(v) && name !in a && name in b
    ensures Unfold(v, a, 1) != Unfold(v, b, 1)
    decreases v
  {
    var r :| r in Refs(v) && ResolveDefName(r) == Some(name);
    match v
    case Object(fields) =>
      if "$ref" in fields && fields["$ref"] == String(r) {
        assert Unfold(v, a, 1).fields["$ref"] != Unfold(v, b, 1).fields["$ref"];
      } else {
        var k :| k in fields && r in Refs(fields[k]);
        assert name in Names(fields[k]);
        ResolvingDifferentlyShows(fields[k], a, b, name);
        assert Unfold(v, a, 1).fields[k] != Unfold(v, b, 1).fields[k];
      }
    case Array(items) =>
      var i :| 0 <= i < |items| && r in Refs(items[i]);
      assert name in Names(items[i]);
      ResolvingDifferentlyShows(items[i], a, b, name);
      assert Unfold(v, a, 1).items[i] != Unfold(v, b, 1).items[i];
    case _ =>
  }

  // ---- the emitted object ----

  /** A schema without the two keys that trimming writes. */
  function Body(schema: Defs): Value {
    Object(schema - {"$schema", "$defs"})
  }

  ghost predicate Trimmable(root: Value, name: string) {
    name in DefsOf(root) && DefsOf(root)[name].Object?
  }

  /**
   Nothing is kept, so a "$defs" of the definition itself survives, and a
   reference that dangled in the full schema now finds something in there.
   */
  ghost predicate Captures(root: Value, name: string)
    requires Trimmable(root, name)
  {
    var fields := DefsOf(root)[name].fields;
    Kept(DefsOf(root), name) == map[]
      && exists n :: n in Names(Body(fields)) && n in DefsOf(Object(fields))
  }

  lemma BodyRefs(fields: Defs)
    ensures Refs(Body(fields)) <= Refs(Object(fields))
  {
    var small := fields - {"$schema", "$defs"};
    assert forall k :: k in small ==> k in fields && small[k] == fields[k];
  }

  lemma BodyNames(fields: Defs)
    ensures Names(Body(fields)) <= Names(Object(fields))
  {
    BodyRefs(fields);
  }

  lemma EmittedParts(root: Value, name: string)
    requires Trimmable(root, name)
    ensures var fields := DefsOf(root)[name].fields;
            var kept := Kept(DefsOf(root), name);
            && Body(Emitted(root, name)) == Body(fields)
            && DefsOf(Object(Emitted(root, name)))
               == (if kept == map[] then DefsOf(Object(fields)) else kept)
  {
    var fields := DefsOf(root)[name].fields;
    assert Emitted(root, name) - {"$schema", "$defs"} == fields - {"$schema", "$defs"};
  }

  /** The emitted schema always names its dialect: the root's, or else the default. */
  lemma EmittedNamesItsDialect(root: Value, name: string)
    requires Trimmable(root, name)
    ensures "$schema" in Emitted(root, name)
    ensures Emitted(root, name)["$schema"]
         == match root.Get("$schema")
            case Some(dialect) => dialect
            case None => String("https://json-schema.org/draft/2020-12/schema")
  {
    assert "$schema" != "$defs";
  }

  /** Every other key is the inlined definition's; definitions are written exactly when some are kept. */
  lemma EmittedKeys(root: Value, name: string)
    requires Trimmable(root, name)
    ensures var fields := DefsOf(root)[name].fields;
            var kept := Kept(DefsOf(root), name);
            && Emitted(root, name).Keys
               == fields.Keys + {"$schema"} + (if kept == map[] then {} else {"$defs"})
            && (forall k :: k in fields && k != "$schema" && k != "$defs" ==> Emitted(root, name)[k] == fields[k])
            && (kept != map[] ==> Emitted(root, name)["$defs"] == Object(kept))
            && (kept == map[] && "$defs" in fields ==> Emitted(root, name)["$defs"] == fields["$defs"])
  {
  }

  /** Following one reference and then a chain. */
  lemma ReachesAfter(defs: Defs, a: string, b: string, c: string)
    requires b in Deps(defs, a) && Reaches(defs, b, c)
    ensures Reaches(defs, a, c)
    ensures c == a ==> ReferredBack(defs, a)
  {
    var p :| IsPath(defs, p) && p[0] == b && p[|p| - 1] == c;
    var q := [a] + p;
    PathCons(defs, a, p);
    PathReaches(defs, q, a, c);
    if c == a {
      PathPrefix(defs, q, |p|);
      PathReaches(defs, q[..|p|], a, q[|p| - 1]);
      assert q[(|p| - 1) + 1] in Deps(defs, q[|p| - 1]);
    }
  }

  /** The names that chains of references lead to from `seeds`. */
  ghost function From(defs: Defs, seeds: set<string>): set<string> {
    set n | n in Mentioned(defs) + seeds && exists m :: m in seeds && Reaches(defs, m, n)
  }

  lemma FromIsClosed(defs: Defs, seeds: set<string>)
    ensures seeds <= From(defs, seeds) && IsClosed(defs, From(defs, seeds))
  {
    forall m | m in seeds ensures m in From(defs, seeds) {
      ReachesItself(defs, m);
    }
    forall n, c | n in From(defs, seeds) && c in Deps(defs, n) ensures c in From(defs, seeds) {
      var m :| m in seeds && Reaches(defs, m, n);
      ReachesNext(defs, m, n, c);
    }
  }

  /** Nothing but the seeds when none of them is defined. */
  lemma FromDangling(defs: Defs, seeds: set<string>)
    requires forall m :: m in seeds ==> m !in defs
    ensures From(defs, seeds) == seeds
  {
    FromIsClosed(defs, seeds);
    forall n | n in From(defs, seeds) ensures n in seeds {
      var m :| m in seeds && Reaches(defs, m, n);
      ClosedHoldsReached(defs, seeds, m);
    }
  }

  /** The names the body can lead to. */
  ghost function Visible(root: Value, name: string): set<string>
    requires Trimmable(root, name)
  {
    From(DefsOf(root), Names(Body(DefsOf(root)[name].fields)))
  }

  /** Whatever the body leads to and is defined is kept. */
  lemma VisibleIsKept(root: Value, name: string, n: string)
    requires Trimmable(root, name) && n in Visible(root, name)
    ensures Reaches(DefsOf(root), name, n)
    ensures n in DefsOf(root) ==> n in Kept(DefsOf(root), name)
  {
    var defs := DefsOf(root);
    BodyNames(defs[name].fields);
    var m :| m in Names(Body(defs[name].fields)) && Reaches(defs, m, n);
    ReachesAfter(defs, name, m, n);
  }

  lemma TablesAgreeUnlessCaptured(root: Value, name: string)
    requires Trimmable(root, name) && !Captures(root, name)
    ensures Agree(DefsOf(root), DefsOf(Object(Emitted(root, name))), Visible(root, name))
  {
    var defs := DefsOf(root);
    var names := Visible(root, name);
    EmittedParts(root, name);
    FromIsClosed(defs, Names(Body(defs[name].fields)));
    forall n | n in names && n in defs
      ensures n in Kept(defs, name) && Names(defs[n]) <= names
    {
      VisibleIsKept(root, name, n);
      assert Deps(defs, n) <= names;
    }
    if Kept(defs, name) == map[] {
      NothingKeptMeansDangling(root, name);
      FromDangling(defs, Names(Body(defs[name].fields)));
    }
  }

  /** What the emitted object means, `k` references deep. */
  ghost function EmittedMeaning(root: Value, name: string, k: nat): Value
    requires Trimmable(root, name)
  {
    Unfold(Body(Emitted(root, name)), DefsOf(Object(Emitted(root, name))), k)
  }

  /** What the definition means in the full schema. */
  ghost function OriginalMeaning(root: Value, name: string, k: nat): Value
    requires Trimmable(root, name)
  {
    Unfold(Body(DefsOf(root)[name].fields), DefsOf(root), k)
  }

  /**
   Trimming preserves meaning at every depth exactly when no dangling
   reference is captured by definitions nested in the inlined one.
   */
  lemma TrimmingPreservesMeaning(root: Value, name: string)
    requires Trimmable(root, name)
    ensures (forall k :: EmittedMeaning(root, name, k) == OriginalMeaning(root, name, k))
       <==> !Captures(root, name)
  {
    EmittedParts(root, name);
    if Captures(root, name) {
      CaptureChangesMeaning(root, name);
    } else {
      TablesAgreeUnlessCaptured(root, name);
      FromIsClosed(DefsOf(root), Names(Body(DefsOf(root)[name].fields)));
      forall k: nat ensures EmittedMeaning(root, name, k) == OriginalMeaning(root, name, k) {
        AgreeingTablesUnfoldAlike(Body(DefsOf(root)[name].fields), DefsOf(root),
                                  DefsOf(Object(Emitted(root, name))), k, Visible(root, name));
      }
    }
  }

  /** When nothing is kept every reference of the body dangles. */
  lemma NothingKeptMeansDangling(root: Value, name: string)
    requires Trimmable(root, name) && Kept(DefsOf(root), name) == map[]
    ensures forall n :: n in Names(Body(DefsOf(root)[name].fields)) ==> n !in DefsOf(root)
  {
    var body := Names(Body(DefsOf(root)[name].fields));
    FromIsClosed(DefsOf(root), body);
    forall n | n in body ensures n !in DefsOf(root) {
      VisibleIsKept(root, name, n);
    }
  }

  lemma CaptureChangesMeaning(root: Value, name: string)
    requires Trimmable(root, name) && Captures(root, name)
    ensures EmittedMeaning(root, name, 1) != OriginalMeaning(root, name, 1)
  {
    var fields := DefsOf(root)[name].fields;
    var n :| n in Names(Body(fields)) && n in DefsOf(Object(fields));
    NothingKeptMeansDangling(root, name);
    ResolvingDifferentlyShows(Body(fields), DefsOf(root), DefsOf(Object(fields)), n);
    EmittedParts(root, name);
  }

  const NULL_DEFS := Object(map["B" := Null])
  const CAPTURING := Object(map["$ref" := String("#/$defs/B"), "$defs" := NULL_DEFS])
  const CAPTURING_DEFS: Defs := map["A" := CAPTURING]
  const CAPTURING_ROOT := Object(map["$defs" := Object(CAPTURING_DEFS)])

  /** A dangling reference next to a nested definition of that name is captured, and the meaning changes. */
  lemma CaptureHappens()
    ensures Trimmable(CAPTURING_ROOT, "A") && Captures(CAPTURING_ROOT, "A")
    ensures EmittedMeaning(CAPTURING_ROOT, "A", 1) != OriginalMeaning(CAPTURING_ROOT, "A", 1)
  {
    RootDefs(CAPTURING_DEFS);
    CapturingNames();
    CapturingKeepsNothing();
    assert "B" in DefsOf(CAPTURING);
    CaptureChangesMeaning(CAPTURING_ROOT, "A");
  }

  lemma CapturingKeepsNothing()
    ensures Kept(CAPTURING_DEFS, "A") == map[]
  {
    CapturingNames();
    NothingKept(CAPTURING_DEFS, "A", {"A", "B"});
  }

  /** Nothing is kept when the definition leads to nothing defined and not back to itself. */
  lemma NothingKept(defs: Defs, name: string, names: set<string>)
    requires name in names && IsClosed(defs, names)
    requires forall n :: n in names ==> name !in Deps(defs, n) && (n in defs ==> n == name)
    ensures Kept(defs, name) == map[]
  {
    ClosedHoldsReached(defs, names, name);
    forall n ensures n !in Kept(defs, name) {
      if Reaches(defs, name, n) {
        assert n in names;
      }
    }
    assert Kept(defs, name).Keys == {};
  }

  lemma CapturingNames()
    ensures Names(CAPTURING) == {"B"} && "B" in Names(Body(CAPTURING.fields))
  {
    var ref := "#/$defs/B";
    assert ResolveDefName(ref) == Some("B");
    assert Refs(Null) == {} && Refs(String(ref)) == {};
    assert Refs(NULL_DEFS) == {};
    assert Refs(CAPTURING) == {ref};
    assert ref in Refs(Body(CAPTURING.fields));
  }

  // ---- closed and minimal ----

  /** Every definition that `name` leads to exists. */
  ghost predicate ClosedFrom(defs: Defs, name: string) {
    forall n :: Reaches(defs, name, n) ==> n in defs
  }

  /** Every "#/$defs/" reference in the emitted body and in the kept definitions resolves. */
  lemma EmittedIsClosed(root: Value, name: string)
    requires Trimmable(root, name) && ClosedFrom(DefsOf(root), name)
    ensures Names(Body(Emitted(root, name))) <= Kept(DefsOf(root), name).Keys
    ensures forall n :: n in Kept(DefsOf(root), name)
              ==> Names(Kept(DefsOf(root), name)[n]) <= Kept(DefsOf(root), name).Keys
    ensures Kept(DefsOf(root), name) == map[]
         || DefsOf(Object(Emitted(root, name))) == Kept(DefsOf(root), name)
    ensures !Captures(root, name)
  {
    var defs := DefsOf(root);
    var body := Names(Body(defs[name].fields));
    EmittedParts(root, name);
    FromIsClosed(defs, body);
    forall n | n in body ensures n in Kept(defs, name) {
      VisibleIsKept(root, name, n);
    }
    forall n, c | n in Kept(defs, name) && c in Names(defs[n]) ensures c in Kept(defs, name) {
      assert c in Deps(defs, n);
      ReachesNext(defs, name, n, c);
    }
  }

  /** A root whose every reference resolves is closed from each of its definitions. */
  lemma ClosedRootIsClosedFrom(defs: Defs, name: string)
    requires name in defs && forall n :: n in defs ==> Names(defs[n]) <= defs.Keys
    ensures ClosedFrom(defs, name)
  {
    ClosedHoldsReached(defs, defs.Keys, name);
  }

  /** The definition is kept for a reason that the emitted body can follow. */
  ghost predicate IsNeeded(root: Value, name: string, n: string)
    requires Trimmable(root, name)
  {
    exists m :: m in Names(Body(Emitted(root, name))) && Reaches(Kept(DefsOf(root), name), m, n)
  }

  /** A chain within a closed set is a chain of any table that agrees there. */
  lemma SameChain(a: Defs, b: Defs, names: set<string>, p: seq<string>)
    requires IsClosed(a, names) && IsPath(a, p) && p[0] in names
    requires forall n :: n in names ==> Deps(a, n) == Deps(b, n)
    ensures IsPath(b, p)
  {
    ClosedHoldsAll(a, names, p);
  }

  lemma KeptDeps(root: Value, name: string, n: string)
    requires Trimmable(root, name) && n in Visible(root, name)
    ensures Deps(Kept(DefsOf(root), name), n) == Deps(DefsOf(root), n)
  {
    VisibleIsKept(root, name, n);
  }

  /** Chains from the body lead to defined names through kept definitions only. */
  lemma ChainFromBodyIsKept(root: Value, name: string, p: seq<string>)
    requires Trimmable(root, name) && IsPath(DefsOf(root), p)
    requires p[0] in Names(Body(DefsOf(root)[name].fields))
    ensures IsPath(Kept(DefsOf(root), name), p)
  {
    var defs, visible := DefsOf(root), Visible(root, name);
    FromIsClosed(defs, Names(Body(defs[name].fields)));
    forall n | n in visible ensures Deps(defs, n) == Deps(Kept(defs, name), n) {
      KeptDeps(root, name, n);
    }
    SameChain(defs, Kept(defs, name), visible, p);
  }

  lemma KeptReaches(defs: Defs, name: string, a: string, b: string)
    requires Reaches(Kept(defs, name), a, b)
    ensures Reaches(defs, a, b)
  {
    var p :| IsPath(Kept(defs, name), p) && p[0] == a && p[|p| - 1] == b;
    forall i | 0 <= i < |p| - 1 ensures p[i + 1] in Deps(defs, p[i]) {
      assert p[i + 1] in Deps(Kept(defs, name), p[i]);
    }
    PathReaches(defs, p, a, b);
  }

  lemma NeededIsVisible(root: Value, name: string, n: string)
    requires Trimmable(root, name) && IsNeeded(root, name, n)
    ensures n in Visible(root, name)
  {
    var defs := DefsOf(root);
    var m :| m in Names(Body(Emitted(root, name))) && Reaches(Kept(defs, name), m, n);
    assert m in Names(Body(defs[name].fields)) by { EmittedParts(root, name); }
    KeptReaches(defs, name, m, n);
    InFrom(defs, Names(Body(defs[name].fields)), m, n);
  }

  lemma InFrom(defs: Defs, seeds: set<string>, m: string, n: string)
    requires m in seeds && Reaches(defs, m, n)
    ensures n in From(defs, seeds)
  {
    FromIsClosed(defs, seeds);
    ClosedHoldsReached(defs, From(defs, seeds), m);
  }

  lemma VisibleIsNeeded(root: Value, name: string, n: string)
    requires Trimmable(root, name) && n in Visible(root, name)
    ensures IsNeeded(root, name, n)
  {
    var defs := DefsOf(root);
    EmittedParts(root, name);
    var m :| m in Names(Body(defs[name].fields)) && Reaches(defs, m, n);
    var p :| IsPath(defs, p) && p[0] == m && p[|p| - 1] == n;
    ChainFromBodyIsKept(root, name, p);
    PathReaches(Kept(defs, name), p, m, n);
  }

  lemma PathReaches(defs: Defs, p: seq<string>, a: string, b: string)
    requires IsPath(defs, p) && p[0] == a && p[|p| - 1] == b
    ensures Reaches(defs, a, b)
  {
  }

  /** What is kept is named by the definition, or follows from a defined name that is. */
  lemma KeptFollows(defs: Defs, name: string, names: set<string>, n: string)
    requires name in defs && n in Kept(defs, name) && IsClosed(defs, names)
    requires forall d :: d in Names(defs[name]) && d in defs ==> d in names
    ensures n in names
  {
    var p := ChainOfReferences(defs, name, n);
    PathSuffix(defs, p);
    if |p| > 2 {
      PathSuffix(defs, p[1..]);
    }
    ClosedHoldsPath(defs, names, p[1..]);
  }

  /** A chain of at least one reference from `name` to a kept definition. */
  lemma ChainOfReferences(defs: Defs, name: string, n: string) returns (p: seq<string>)
    requires n in Kept(defs, name)
    ensures IsPath(defs, p) && |p| > 1 && p[0] == name && p[|p| - 1] == n
  {
    if n == name {
      var m :| Reaches(defs, name, m) && name in Deps(defs, m);
      var q :| IsPath(defs, q) && q[0] == name && q[|q| - 1] == m;
      p := q + [name];
      PathSnoc(defs, q, name);
    } else {
      p :| IsPath(defs, p) && p[0] == name && p[|p| - 1] == n;
    }
  }

  /**
   Nothing is kept in vain if and only if every defined name the definition
   refers to, even inside its own "$schema" and "$defs", can be reached from
   the references outside them.
   */
  lemma EmittedIsMinimalIff(root: Value, name: string)
    requires Trimmable(root, name)
    ensures (forall n :: n in Kept(DefsOf(root), name) ==> IsNeeded(root, name, n))
       <==> (forall d :: d in Names(DefsOf(root)[name]) && d in DefsOf(root) ==> d in Visible(root, name))
  {
    var defs, visible := DefsOf(root), Visible(root, name);
    forall n ensures IsNeeded(root, name, n) <==> n in visible {
      if IsNeeded(root, name, n) { NeededIsVisible(root, name, n); }
      if n in visible { VisibleIsNeeded(root, name, n); }
    }
    forall d | d in Names(defs[name]) && d in defs ensures d in Kept(defs, name) {
      ReachesItself(defs, name);
      ReachesNext(defs, name, name, d);
    }
    if forall d :: d in Names(defs[name]) && d in defs ==> d in visible {
      FromIsClosed(defs, Names(Body(defs[name].fields)));
      forall n | n in Kept(defs, name) ensures n in visible {
        KeptFollows(defs, name, visible, n);
      }
    }
  }

  /** In particular when the definition brings no "$schema" and no "$defs" of its own. */
  lemma EmittedIsMinimal(root: Value, name: string, n: string)
    requires Trimmable(root, name) && n in Kept(DefsOf(root), name)
    requires var fields := DefsOf(root)[name].fields; "$schema" !in fields && "$defs" !in fields
    ensures exists m :: m in Names(Body(Emitted(root, name))) && Reaches(Kept(DefsOf(root), name), m, n)
  {
    var defs := DefsOf(root);
    assert defs[name].fields - {"$schema", "$defs"} == defs[name].fields;
    FromIsClosed(defs, Names(Body(defs[name].fields)));
    EmittedIsMinimalIff(root, name);
    assert IsNeeded(root, name, n);
  }

  const NESTED_REF := Object(map["$ref" := String("#/$defs/B")])
  const WASTEFUL := Object(map["$defs" := NESTED_REF])
  const WASTEFUL_DEFS: Defs := map["A" := WASTEFUL, "B" := Null]
  const WASTEFUL_ROOT := Object(map["$defs" := Object(WASTEFUL_DEFS)])

  /**
   It can fail: a reference nested in the "$defs" that trimming overwrites
   keeps a definition nothing emitted leads to.
   */
  lemma NestedDefsKeepTooMuch()
    ensures Trimmable(WASTEFUL_ROOT, "A")
    ensures "B" in Kept(DefsOf(WASTEFUL_ROOT), "A") && !IsNeeded(WASTEFUL_ROOT, "A", "B")
  {
    RootDefs(WASTEFUL_DEFS);
    WastefulReachesB();
    EmittedParts(WASTEFUL_ROOT, "A");
    EmptyBodyNamesNothing(WASTEFUL);
  }

  lemma WastefulReachesB()
    ensures Reaches(WASTEFUL_DEFS, "A", "B")
  {
    NestedRefIsCollected(WASTEFUL, NESTED_REF);
    ReachesItself(WASTEFUL_DEFS, "A");
    ReachesNext(WASTEFUL_DEFS, "A", "A", "B");
  }

  lemma RootDefs(defs: Defs)
    ensures DefsOf(Object(map["$defs" := Object(defs)])) == defs
  {
  }

  lemma EmptyBodyNamesNothing(v: Value)
    requires v.Object? && v.fields.Keys == {"$defs"}
    ensures Names(Body(v.fields)) == {}
  {
    assert v.fields - {"$schema", "$defs"} == map[];
    assert Refs(Object(map[])) == {};
  }

  lemma NestedRefIsCollected(a: Value, b: Value)
    requires b == Object(map["$ref" := String("#/$defs/B")]) && a == Object(map["$defs" := b])
    ensures "B" in Names(a)
  {
    assert "#/$defs/B" in Refs(b) && a.fields["$defs"] == b;
    assert "#/$defs/B" in Refs(a) && ResolveDefName("#/$defs/B") == Some("B");
  }
}
