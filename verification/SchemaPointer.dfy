/**
 How far reading a reference as "#/$defs/" plus a name agrees with JSON
 Pointer, RFC 6901, which is what a "$ref" fragment is.
 */
module SchemaPointer {
  import opened Wrappers
  import opened Words
  import opened Json
  import opened SchemaTrim
  import opened SchemaMeaning

  /** The parts of `s` between separators; always at least one. */
  function Split(s: string, sep: char): (parts: seq<string>)
    ensures parts != []
  {
    if s == "" then [""]
    else
      var rest := Split(s[1..], sep);
      if s[0] == sep then [""] + rest else [[s[0]] + rest[0]] + rest[1..]
  }

  /** "~1" stands for '/', "~0" for '~'. */
  function Unescape(token: string): string {
    if |token| >= 2 && token[0] == '~' && token[1] == '1' then "/" + Unescape(token[2..])
    else if |token| >= 2 && token[0] == '~' && token[1] == '0' then "~" + Unescape(token[2..])
    else if token == "" then "" else [token[0]] + Unescape(token[1..])
  }

  /** A decimal array index without leading zeros. */
  function Index(token: string): Option<nat> {
    if token == "" || (|token| > 1 && token[0] == '0') then None else Decimal(token)
  }

  function Decimal(token: string): Option<nat> {
    if token == "" then Some(0)
    else
      var last := token[|token| - 1];
      var init := Decimal(token[..|token| - 1]);
      if init.Some? && '0' <= last <= '9' then Some(10 * init.value + (last as int - '0' as int)) else None
  }

  function Evaluate(v: Value, tokens: seq<string>): Option<Value> {
    if tokens == [] then Some(v)
    else
      var key := Unescape(tokens[0]);
      match v
      case Object(fields) => if key in fields then Evaluate(fields[key], tokens[1..]) else None
      case Array(items) =>
        var i := Index(key);
        if i.Some? && i.value < |items| then Evaluate(items[i.value], tokens[1..]) else None
      case _ => None
  }

  /** A reference into the document itself. */
  function Resolve(root: Value, ref: string): Option<Value> {
    if ref == "#" then Some(root)
    else if "#/" <= ref then Evaluate(root, Split(ref[2..], '/'))
    else None
  }

  /** A definition name that needs no escaping in a fragment. */
  predicate Plain(name: string) {
    '/' !in name && '~' !in name && '%' !in name
  }

  lemma {:induction false} SplitWithout(s: string, sep: char)
    requires sep !in s
    ensures Split(s, sep) == [s]
  {
    if s != "" {
      SplitWithout(s[1..], sep);
      assert [s[0]] + s[1..] == s;
    }
  }

  lemma {:induction false} SplitAfter(a: string, sep: char, b: string)
    requires sep !in a
    ensures Split(a + [sep] + b, sep) == [a] + Split(b, sep)
  {
    var s := a + [sep] + b;
    if a == "" {
      assert s[1..] == b;
    } else {
      SplitAfter(a[1..], sep, b);
      assert s[1..] == a[1..] + [sep] + b;
      assert [a[0]] + a[1..] == a;
    }
  }

  lemma {:induction false} UnescapePlain(token: string)
    requires '~' !in token
    ensures Unescape(token) == token
  {
    if token != "" {
      UnescapePlain(token[1..]);
    }
  }

  // ---- pointers written from paths ----

  /** RFC 6901, section 3: '~' is written "~0" and '/' is written "~1". */
  function Escape(name: string): (token: string)
    ensures '/' !in token
  {
    if name == "" then ""
    else (if name[0] == '~' then "~0" else if name[0] == '/' then "~1" else [name[0]]) + Escape(name[1..])
  }

  function Pointer(path: seq<string>): string {
    if path == [] then "" else ['/'] + Escape(path[0]) + Pointer(path[1..])
  }

  /** The value at the end of a path of member names and array indices. */
  function Follow(v: Value, path: seq<string>): Option<Value> {
    if path == [] then Some(v)
    else
      match v
      case Object(fields) => if path[0] in fields then Follow(fields[path[0]], path[1..]) else None
      case Array(items) =>
        (match Index(path[0])
         case Some(i) => if i < |items| then Follow(items[i], path[1..]) else None
         case None => None)
      case _ => None
  }

  lemma {:induction false} UnescapeOfEscape(name: string)
    ensures Unescape(Escape(name)) == name
  {
    if name != "" {
      var rest := Escape(name[1..]);
      UnescapeOfEscape(name[1..]);
      if name[0] == '~' {
        assert ("~0" + rest)[2..] == rest;
      } else if name[0] == '/' {
        assert ("~1" + rest)[2..] == rest;
      } else {
        assert ([name[0]] + rest)[1..] == rest;
      }
      assert [name[0]] + name[1..] == name;
    }
  }

  /** The tokens of a path. */
  function Tokens(path: seq<string>): (tokens: seq<string>)
    ensures |tokens| == |path|
  {
    if path == [] then [] else [Escape(path[0])] + Tokens(path[1..])
  }

  lemma {:induction false} SplitOfPointer(path: seq<string>)
    requires path != []
    ensures Split(Pointer(path)[1..], '/') == Tokens(path)
  {
    var token, rest := Escape(path[0]), path[1..];
    if rest == [] {
      assert Pointer(path)[1..] == token;
      SplitWithout(token, '/');
    } else {
      var more := Pointer(rest)[1..];
      assert Pointer(path)[1..] == token + ['/'] + more;
      SplitAfter(token, '/', more);
      SplitOfPointer(rest);
    }
  }

  lemma {:induction false} EvaluateAlong(v: Value, path: seq<string>)
    ensures Evaluate(v, Tokens(path)) == Follow(v, path)
    decreases |path|
  {
    if path != [] {
      var rest := path[1..];
      UnescapeOfEscape(path[0]);
      assert Tokens(path)[1..] == Tokens(rest);
      match v {
        case Object(fields) =>
          if path[0] in fields {
            EvaluateAlong(fields[path[0]], rest);
          }
        case Array(items) =>
          var i := Index(path[0]);
          if i.Some? && i.value < |items| {
            EvaluateAlong(items[i.value], rest);
          }
        case _ =>
      }
    }
  }

  /** The pointer written from a path resolves to the value at its end, whatever the names. */
  lemma PointerLeadsAlong(root: Value, path: seq<string>)
    ensures Resolve(root, "#" + Pointer(path)) == Follow(root, path)
  {
    if path == [] {
      assert "#" + Pointer(path) == "#";
    } else {
      SplitOfPointer(path);
      EvaluateAlong(root, path);
      assert ("#" + Pointer(path))[2..] == Pointer(path)[1..];
    }
  }

  lemma LastDigit(n: nat) returns (high: string, last: char)
    ensures Digits(n) == high + [last] && Digits(n)[..|Digits(n)| - 1] == high
    ensures high == (if n < 10 then "" else Digits(n / 10))
    ensures '0' <= last <= '9' && last as int - '0' as int == n % 10
  {
    high, last := if n < 10 then "" else Digits(n / 10), ('0' as int + n % 10) as char;
  }

  lemma {:induction false} DigitsAreIndex(n: nat)
    ensures Digits(n) != "" && Decimal(Digits(n)) == Some(n)
    ensures Digits(n)[0] == '0' ==> n == 0
  {
    var high, last := LastDigit(n);
    if n >= 10 {
      DigitsAreIndex(n / 10);
      assert Decimal(high) == Some(n / 10);
    } else {
      assert Decimal(high) == Some(0);
    }
  }

  lemma DigitsSnoc(high: nat, digit: nat)
    requires digit < 10
    ensures Digits(10 * high + digit) == (if high == 0 then "" else Digits(high)) + [('0' as int + digit) as char]
  {
    assert (10 * high + digit) / 10 == high && (10 * high + digit) % 10 == digit;
  }

  lemma DecimalSnoc(init: string, last: char)
    ensures Decimal(init + [last])
         == if Decimal(init).Some? && '0' <= last <= '9'
            then Some(10 * Decimal(init).value + (last as int - '0' as int)) else None
  {
    assert (init + [last])[..|init|] == init;
  }

  lemma {:induction false} IndexIsDigits(token: string)
    requires token != "" && (|token| > 1 ==> token[0] != '0') && Decimal(token).Some?
    ensures token == Digits(Decimal(token).value)
    decreases |token|
  {
    var init, last := token[..|token| - 1], token[|token| - 1];
    assert token == init + [last];
    DecimalSnoc(init, last);
    var high := Decimal(init).value;
    DigitsSnoc(high, last as int - '0' as int);
    if init != "" {
      assert init[0] == token[0];
      IndexIsDigits(init);
      DigitsAreIndex(high);
    }
  }

  /** The array indices are the decimal numbers without leading zeros. */
  lemma IndexIffDigits(token: string, n: nat)
    ensures Index(token) == Some(n) <==> token == Digits(n)
  {
    DigitsAreIndex(n);
    if Index(token) == Some(n) {
      IndexIsDigits(token);
    }
  }

  // ---- pointers into a table of definitions ----

  /** One step of a pointer through an object. */
  lemma EvaluateStep(v: Value, token: string, rest: seq<string>)
    requires v.Object?
    ensures var key := Unescape(token);
            Evaluate(v, [token] + rest) == if key in v.fields then Evaluate(v.fields[key], rest) else None
  {
    assert ([token] + rest)[1..] == rest;
  }

  /** What follows "#/$defs/". */
  function TokensOf(ref: string): (tokens: seq<string>)
    requires DEFS_PREFIX <= ref
    ensures tokens != []
  {
    Split(ref[|DEFS_PREFIX|..], '/')
  }

  /** The definition that the pointer goes through or to. */
  function PointedDef(ref: string): string
    requires DEFS_PREFIX <= ref
  {
    Unescape(TokensOf(ref)[0])
  }

  lemma ResolveInDefs(doc: Value, ref: string)
    requires doc.Object? && DEFS_PREFIX <= ref
    ensures Resolve(doc, ref) == match doc.Get("$defs")
                                 case Some(table) => Evaluate(table, TokensOf(ref))
                                 case None => None
  {
    var more := ref[|DEFS_PREFIX|..];
    assert ref[2..] == "$defs" + ['/'] + more;
    assert ref != "#" && "#/" <= ref;
    SplitAfter("$defs", '/', more);
    UnescapePlain("$defs");
    EvaluateStep(doc, "$defs", TokensOf(ref));
  }

  lemma EvaluateInTable(table: Defs, ref: string)
    requires DEFS_PREFIX <= ref
    ensures Evaluate(Object(table), TokensOf(ref))
         == if PointedDef(ref) in table then Evaluate(table[PointedDef(ref)], TokensOf(ref)[1..]) else None
  {
  }

  /** Where a pointer leads after trimming: as before, into definitions nested in the inlined one, or nowhere. */
  lemma PointerAfterTrimming(root: Value, name: string, ref: string)
    requires Trimmable(root, name) && DEFS_PREFIX <= ref
    ensures var kept := Kept(DefsOf(root), name);
            Resolve(Object(Emitted(root, name)), ref)
              == if PointedDef(ref) in kept then Resolve(root, ref)
                 else if kept == map[] then Resolve(DefsOf(root)[name], ref)
                 else None
  {
    var defs, kept := DefsOf(root), Kept(DefsOf(root), name);
    var emitted := Object(Emitted(root, name));
    ResolveInDefs(root, ref);
    ResolveInDefs(emitted, ref);
    if kept == map[] {
      ResolveInDefs(defs[name], ref);
      assert emitted.Get("$defs") == defs[name].Get("$defs");
    } else {
      assert emitted.Get("$defs") == Some(Object(kept));
      EvaluateInTable(kept, ref);
      EvaluateInTable(defs, ref);
    }
  }

  /**
   A pointer that resolves, to a definition or into one, still resolves to the
   same value if and only if the definition is kept.  When nothing is kept,
   definitions nested in the inlined one may happen to hold the same value.
   */
  lemma PointerSurvivesIff(root: Value, name: string, ref: string)
    requires Trimmable(root, name) && DEFS_PREFIX <= ref && Resolve(root, ref).Some?
    ensures var kept := Kept(DefsOf(root), name);
            (Resolve(Object(Emitted(root, name)), ref) == Resolve(root, ref)
             <==> (PointedDef(ref) in kept
                   || (kept == map[] && Resolve(DefsOf(root)[name], ref) == Resolve(root, ref))))
    ensures "$defs" !in DefsOf(root)[name].fields ==>
              (Resolve(Object(Emitted(root, name)), ref) == Resolve(root, ref)
               <==> PointedDef(ref) in Kept(DefsOf(root), name))
  {
    PointerAfterTrimming(root, name, ref);
    ResolveInDefs(DefsOf(root)[name], ref);
  }

  lemma PlainPointedDef(n: string)
    requires Plain(n)
    ensures TokensOf(DEFS_PREFIX + n) == [n] && PointedDef(DEFS_PREFIX + n) == n
  {
    assert (DEFS_PREFIX + n)[|DEFS_PREFIX|..] == n;
    SplitWithout(n, '/');
    UnescapePlain(n);
  }

  /** A document whose definitions, if any, are in an object. */
  predicate HasTable(doc: Value) {
    doc.Object? && (doc.Get("$defs").Some? ==> doc.Get("$defs").value.Object?)
  }

  lemma PlainRefIsLookup(doc: Value, n: string)
    requires Plain(n) && HasTable(doc)
    ensures Resolve(doc, DEFS_PREFIX + n) == Object(DefsOf(doc)).Get(n)
  {
    PlainPointedDef(n);
    ResolveInDefs(doc, DEFS_PREFIX + n);
    EvaluateInTable(DefsOf(doc), DEFS_PREFIX + n);
  }

  /**
   On plain names the code's reading is the standard's: the pointer finds the
   definition, and it finds the same one in the emitted schema.
   */
  lemma PlainRefsResolveAlike(root: Value, name: string, n: string)
    requires Trimmable(root, name) && Plain(n)
    ensures Resolve(root, DEFS_PREFIX + n) == Object(DefsOf(root)).Get(n)
    ensures n in Kept(DefsOf(root), name)
        ==> Resolve(Object(Emitted(root, name)), DEFS_PREFIX + n) == Resolve(root, DEFS_PREFIX + n)
  {
    PlainRefIsLookup(root, n);
    PlainPointedDef(n);
    PointerAfterTrimming(root, name, DEFS_PREFIX + n);
  }

  const NESTED := "#/$defs/B/p"
  const A_DEF := Object(map["$ref" := String(NESTED)])
  const B_DEF := Object(map["p" := Null])
  const TWO_DEFS: Defs := map["A" := A_DEF, "B" := B_DEF]
  const TWO_DEFS_ROOT := Object(map["$defs" := Object(TWO_DEFS)])

  /** Such a pointer alone does not keep the definition it goes through. */
  lemma NestedPointersAreLost()
    ensures Trimmable(TWO_DEFS_ROOT, "A") && NESTED in Refs(DefsOf(TWO_DEFS_ROOT)["A"])
    ensures Resolve(TWO_DEFS_ROOT, NESTED) == Some(Null)
    ensures Resolve(Object(Emitted(TWO_DEFS_ROOT, "A")), NESTED) == None
  {
    RootDefs(TWO_DEFS);
    NamesOfA();
    NestedValue();
    NestedIsNotKept();
    PointerAfterTrimming(TWO_DEFS_ROOT, "A", NESTED);
    NestedIsNotInA();
  }

  lemma NestedIsNotKept()
    ensures DEFS_PREFIX <= NESTED && PointedDef(NESTED) == "B" && "B" !in Kept(TWO_DEFS, "A")
    ensures Kept(TWO_DEFS, "A") == map[]
  {
    NestedTokens();
    NamesOfA();
    NothingKept(TWO_DEFS, "A", {"A", "B/p"});
  }

  lemma NestedIsNotInA()
    ensures Resolve(A_DEF, NESTED) == None
  {
    NestedTokens();
    ResolveInDefs(A_DEF, NESTED);
  }

  lemma NestedTokens()
    ensures DEFS_PREFIX <= NESTED && TokensOf(NESTED) == ["B"] + ["p"] && PointedDef(NESTED) == "B"
  {
    assert NESTED[|DEFS_PREFIX|..] == "B" + ['/'] + "p";
    SplitAfter("B", '/', "p");
    SplitWithout("p", '/');
    UnescapePlain("B");
  }

  lemma NestedValue()
    ensures Resolve(TWO_DEFS_ROOT, NESTED) == Some(Null)
  {
    NestedTokens();
    ResolveInDefs(TWO_DEFS_ROOT, NESTED);
    UnescapePlain("B");
    UnescapePlain("p");
    EvaluateStep(Object(TWO_DEFS), "B", ["p"]);
    EvaluateStep(B_DEF, "p", []);
    assert ["p"] + [] == ["p"];
  }

  lemma NamesOfA()
    ensures NESTED in Refs(A_DEF) && Names(A_DEF) == {"B/p"} && Names(B_DEF) == {}
  {
    assert Refs(A_DEF) == {NESTED};
    assert ResolveDefName(NESTED) == Some("B/p");
  }

  // ---- meaning under the standard's reading ----

  /** Unfolding with references read as JSON Pointers into the document. */
  ghost function PointerUnfold(v: Value, doc: Value, k: nat): Value
    decreases k, v
  {
    match v
    case Object(fields) =>
      Object(map key | key in fields ::
        if key == "$ref" && fields[key].String? then
          var target := Resolve(doc, fields[key].s);
          if target.Some? && k > 0
          then Array([PointerUnfold(target.value, doc, k - 1)])
          else fields[key]
        else PointerUnfold(fields[key], doc, k))
    case Array(items) =>
      Array(seq(|items|, i requires 0 <= i < |items| => PointerUnfold(items[i], doc, k)))
    case _ => v
  }

  /** Every reference is "#/$defs/" and a plain name. */
  ghost predicate Ordinary(v: Value) {
    forall r :: r in Refs(v) ==> DEFS_PREFIX <= r && Plain(r[|DEFS_PREFIX|..])
  }

  ghost predicate OrdinaryTable(defs: Defs) {
    forall n :: n in defs ==> Ordinary(defs[n])
  }

  /** On ordinary references both readings unfold alike. */
  lemma {:induction false} PointerUnfoldIsUnfold(v: Value, doc: Value, k: nat)
    requires HasTable(doc) && Ordinary(v) && OrdinaryTable(DefsOf(doc))
    ensures PointerUnfold(v, doc, k) == Unfold(v, DefsOf(doc), k)
    decreases k, v
  {
    match v
    case Object(fields) =>
      forall key | key in fields
        ensures PointerUnfold(v, doc, k).fields[key] == Unfold(v, DefsOf(doc), k).fields[key]
      {
        if key == "$ref" && fields[key].String? {
          RefUnfoldsAlike(fields[key].s, v, doc, k);
          if Resolve(doc, fields[key].s).Some? && k > 0 {
            PointerUnfoldIsUnfold(Resolve(doc, fields[key].s).value, doc, k - 1);
          }
        } else {
          assert Refs(fields[key]) <= Refs(v);
          PointerUnfoldIsUnfold(fields[key], doc, k);
        }
      }
      assert PointerUnfold(v, doc, k).fields == Unfold(v, DefsOf(doc), k).fields;
    case Array(items) =>
      forall i | 0 <= i < |items|
        ensures PointerUnfold(items[i], doc, k) == Unfold(items[i], DefsOf(doc), k)
      {
        assert Refs(items[i]) <= Refs(v);
        PointerUnfoldIsUnfold(items[i], doc, k);
      }
      assert PointerUnfold(v, doc, k).items == Unfold(v, DefsOf(doc), k).items;
    case _ =>
  }

  /** An ordinary reference names what the pointer finds. */
  lemma RefUnfoldsAlike(ref: string, v: Value, doc: Value, k: nat)
    requires ref in Refs(v) && HasTable(doc) && Ordinary(v) && OrdinaryTable(DefsOf(doc))
    ensures ResolveDefName(ref).Some?
    ensures var n := ResolveDefName(ref).value;
            Resolve(doc, ref) == if n in DefsOf(doc) then Some(DefsOf(doc)[n]) else None
    ensures Resolve(doc, ref).Some? ==> Ordinary(Resolve(doc, ref).value)
  {
    var n := ref[|DEFS_PREFIX|..];
    assert DEFS_PREFIX + n == ref;
    PlainRefIsLookup(doc, n);
  }

  /** What the emitted object means under the standard's reading. */
  ghost function EmittedPointerMeaning(root: Value, name: string, k: nat): Value
    requires Trimmable(root, name)
  {
    PointerUnfold(Body(Emitted(root, name)), Object(Emitted(root, name)), k)
  }

  ghost function OriginalPointerMeaning(root: Value, name: string, k: nat): Value
    requires Trimmable(root, name)
  {
    PointerUnfold(Body(DefsOf(root)[name].fields), root, k)
  }

  lemma PointerMeaningIsMeaning(root: Value, name: string, k: nat)
    requires Trimmable(root, name) && OrdinaryTable(DefsOf(root)) && HasTable(DefsOf(root)[name])
    ensures EmittedPointerMeaning(root, name, k) == EmittedMeaning(root, name, k)
    ensures OriginalPointerMeaning(root, name, k) == OriginalMeaning(root, name, k)
  {
    var own := DefsOf(root)[name];
    assert Body(Emitted(root, name)) == Body(own.fields) by { EmittedParts(root, name); }
    BodyIsOrdinary(own);
    EmittedIsOrdinary(root, name);
    PointerUnfoldIsUnfold(Body(own.fields), root, k);
    PointerUnfoldIsUnfold(Body(own.fields), Object(Emitted(root, name)), k);
  }

  /**
   With ordinary references throughout, trimming preserves the meaning under
   the standard's reading at every depth if and only if nothing is captured.
   */
  lemma TrimmingPreservesPointerMeaning(root: Value, name: string)
    requires Trimmable(root, name) && OrdinaryTable(DefsOf(root)) && HasTable(DefsOf(root)[name])
    ensures (forall k :: EmittedPointerMeaning(root, name, k) == OriginalPointerMeaning(root, name, k))
       <==> !Captures(root, name)
  {
    forall k: nat
      ensures (EmittedPointerMeaning(root, name, k) == OriginalPointerMeaning(root, name, k))
         <==> (EmittedMeaning(root, name, k) == OriginalMeaning(root, name, k))
    {
      PointerMeaningIsMeaning(root, name, k);
    }
    TrimmingPreservesMeaning(root, name);
  }

  lemma BodyIsOrdinary(v: Value)
    requires v.Object? && Ordinary(v)
    ensures Ordinary(Body(v.fields))
  {
    BodyRefs(v.fields);
  }

  lemma EmittedIsOrdinary(root: Value, name: string)
    requires Trimmable(root, name) && OrdinaryTable(DefsOf(root)) && HasTable(DefsOf(root)[name])
    ensures HasTable(Object(Emitted(root, name))) && OrdinaryTable(DefsOf(Object(Emitted(root, name))))
  {
    var own := DefsOf(root)[name];
    EmittedParts(root, name);
    forall n | n in DefsOf(own) ensures Ordinary(DefsOf(own)[n]) {
      NestedRefs(own, n);
    }
  }

  lemma NestedRefs(v: Value, n: string)
    requires n in DefsOf(v)
    ensures Refs(DefsOf(v)[n]) <= Refs(v)
  {
    var table := v.fields["$defs"];
    assert Refs(table.fields[n]) <= Refs(table);
    assert Refs(table) <= Refs(v);
  }
}
