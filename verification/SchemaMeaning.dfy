/** What the two checks of `agent/schema.py` come to, written out keyword by keyword: on the strings a schema
    uses and the values it gives them. */
module SchemaMeaning {
  import opened Util
  import opened Encoding
  import opened Schema
  import opened SchemaCheck

  // ---- looking a keyword up ----------------------------------------------------------------------

  lemma {:induction false} FoundIs(es: seq<Entry>, name: string, v: Value)
    requires DistinctKeys(es)
    ensures Find(es, name) == Some(v) <==> Entry(Name(name), v) in es
  {
    if es != [] {
      FoundIs(es[1..], name, v);
      assert es == [es[0]] + es[1..];
    }
  }

  /** A keyword has a value exactly when the node has that entry. */
  lemma KeywordIs(node: Value, name: string, v: Value)
    requires node.Mapping? && Json(node)
    ensures Get(node, name) == Some(v) <==> Entry(Name(name), v) in node.entries
  {
    FoundIs(node.entries, name, v);
  }

  // ---- the type names ----------------------------------------------------------------------------

  lemma Named()
    ensures TypeNamed("object", TYPES) == Some(ObjectType) && TypeNamed("array", TYPES) == Some(ArrayType)
    ensures TypeNamed("string", TYPES) == Some(StringType) && TypeNamed("integer", TYPES) == Some(IntegerType)
    ensures TypeNamed("number", TYPES) == Some(NumberType) && TypeNamed("boolean", TYPES) == Some(BooleanType)
    ensures TypeNamed("null", TYPES) == Some(NullType)
  {
    assert "object"[0] == 'o' && "array"[0] == 'a' && "string"[0] == 's' && "integer"[0] == 'i';
    assert "number"[1] == 'u' && "boolean"[0] == 'b' && "null"[2] == 'l' && "number"[2] == 'm';
  }

  /** No other name is a type's. */
  lemma NamedOnly(name: string)
    ensures TypeNamed(name, TYPES).Some? <==>
            name == "object" || name == "array" || name == "string" || name == "integer" || name == "number"
            || name == "boolean" || name == "null"
  {
    NamedIn(name, TYPES);
    assert TYPES[0].0 == "object" && TYPES[1].0 == "array" && TYPES[2].0 == "string" && TYPES[3].0 == "integer";
    assert TYPES[4].0 == "number" && TYPES[5].0 == "boolean" && TYPES[6].0 == "null" && |TYPES| == 7;
  }

  lemma {:induction false} NamedIn(name: string, types: seq<(string, JsonType)>)
    ensures TypeNamed(name, types).Some? <==> exists i :: 0 <= i < |types| && types[i].0 == name
  {
    if types != [] {
      NamedIn(name, types[1..]);
      if exists i :: 0 <= i < |types[1..]| && types[1..][i].0 == name {
        var i :| 0 <= i < |types[1..]| && types[1..][i].0 == name;
        assert types[i + 1].0 == name;
      }
      assert forall i :: 0 < i < |types| ==> types[i] == types[1..][i - 1];
    }
  }

  /** The node has this type. */
  predicate Typed(node: Value, name: string)
    requires node.Mapping?
  {
    Get(node, "anyOf").None? && Get(node, "type") == Some(Str(name))
  }

  lemma TypedIs(node: Value, name: string)
    requires node.Mapping? && Typed(node, name)
    ensures TypeOf(node) == TypeNamed(name, TYPES) && Kind(node).Some?
    ensures name == "object" ==> TypeOf(node) == Some(ObjectType)
    ensures name == "array" ==> TypeOf(node) == Some(ArrayType)
    ensures name == "string" ==> TypeOf(node) == Some(StringType)
    ensures name == "integer" ==> TypeOf(node) == Some(IntegerType)
    ensures name == "number" ==> TypeOf(node) == Some(NumberType)
    ensures name == "boolean" ==> TypeOf(node) == Some(BooleanType)
    ensures name == "null" ==> TypeOf(node) == Some(NullType)
  {
    Named();
  }

  // ---- what an answer must be --------------------------------------------------------------------

  /** Its literals, by the typed comparison: `const` is the value, and `enum` lists it. */
  predicate LiteralsHold(node: Value, v: Value)
    requires node.Mapping?
  {
    && (Get(node, "const").Some? ==> Same(v, Get(node, "const").value))
    && (Get(node, "enum").Some? && Get(node, "enum").value.Sequence? ==>
          exists i :: 0 <= i < |Get(node, "enum").value.items| && Same(v, Get(node, "enum").value.items[i]))
  }

  lemma LiteralsMean(node: Value, v: Value)
    requires node.Mapping? && EnumOk(node)
    ensures LiteralsConform(node, v) <==> LiteralsHold(node, v)
  {
  }

  /** `boolean` and `null`. */
  lemma PlainMeans(num: Repr -> real, node: Value, v: Value)
    requires Shaped(node) && Json(node) && Json(v)
    ensures Typed(node, "boolean") ==> (Violations(num, node, v) == [] <==> v.Bool? && LiteralsHold(node, v))
    ensures Typed(node, "null") ==> (Violations(num, node, v) == [] <==> v.Null? && LiteralsHold(node, v))
  {
    CheckDecides(num, node, v);
    LiteralsMean(node, v);
    if Typed(node, "boolean") { TypedIs(node, "boolean"); }
    if Typed(node, "null") { TypedIs(node, "null"); }
  }

  /** A size within its bounds. */
  predicate Within(low: Option<Value>, high: Option<Value>, size: nat) {
    && (low.Some? && low.value.Int? ==> low.value.i <= size)
    && (high.Some? && high.value.Int? ==> size <= high.value.i)
  }

  lemma WithinMeans(low: Option<Value>, high: Option<Value>, size: nat)
    requires Sizes(low, high)
    ensures SizeConforms(low, high, size) <==> Within(low, high, size)
  {
  }

  lemma StringMeans(num: Repr -> real, node: Value, v: Value)
    requires Shaped(node) && Json(node) && Json(v) && Typed(node, "string")
    ensures Violations(num, node, v) == [] <==>
            v.Str? && LiteralsHold(node, v) && Within(Get(node, "minLength"), Get(node, "maxLength"), |v.s|)
  {
    CheckDecides(num, node, v);
    LiteralsMean(node, v);
    TypedIs(node, "string");
    if v.Str? { WithinMeans(Get(node, "minLength"), Get(node, "maxLength"), |v.s|); }
  }

  /** The number a value is, if it is one. */
  function NumberOf(num: Repr -> real, v: Value): Option<real> {
    match v
    case Int(i) => Some(i as real)
    case Float(Finite(repr)) => Some(num(repr))
    case _ => None
  }

  function NumberAt(num: Repr -> real, node: Value, name: string): Option<real>
    requires node.Mapping?
  {
    if Get(node, name).Some? then NumberOf(num, Get(node, name).value) else None
  }

  /** A number against the bounds the node has. */
  predicate Bounded(num: Repr -> real, node: Value, x: real)
    requires node.Mapping?
  {
    && (NumberAt(num, node, "minimum").Some? ==> x >= NumberAt(num, node, "minimum").value)
    && (NumberAt(num, node, "maximum").Some? ==> x <= NumberAt(num, node, "maximum").value)
    && (NumberAt(num, node, "exclusiveMinimum").Some? ==> x > NumberAt(num, node, "exclusiveMinimum").value)
    && (NumberAt(num, node, "exclusiveMaximum").Some? ==> x < NumberAt(num, node, "exclusiveMaximum").value)
  }

  lemma BoundedMeans(num: Repr -> real, node: Value, v: Value)
    requires Json(node) && node.Mapping? && TypeOk(node, NumberType) && Json(v) && IsNumber(v)
    ensures NumberOf(num, v).Some? && (NumberConforms(num, node, v) <==> Bounded(num, node, NumberOf(num, v).value))
  {
  }

  /** `integer` and `number`: an integer is a number, and not the other way round; neither is a boolean. */
  lemma NumberMeans(num: Repr -> real, node: Value, v: Value)
    requires Shaped(node) && Json(node) && Json(v)
    ensures Typed(node, "integer") ==>
              (Violations(num, node, v) == [] <==> v.Int? && LiteralsHold(node, v) && Bounded(num, node, v.i as real))
    ensures Typed(node, "number") ==>
              (Violations(num, node, v) == [] <==>
               NumberOf(num, v).Some? && LiteralsHold(node, v) && Bounded(num, node, NumberOf(num, v).value))
  {
    CheckDecides(num, node, v);
    LiteralsMean(node, v);
    if Typed(node, "integer") { TypedIs(node, "integer"); }
    if Typed(node, "number") { TypedIs(node, "number"); }
    if (Typed(node, "integer") || Typed(node, "number")) && IsNumber(v) { BoundedMeans(num, node, v); }
  }

  /** No value violates the schema. */
  predicate EachPasses(num: Repr -> real, schema: Value, vs: seq<Value>)
    requires Shaped(schema) && Json(schema) && forall i :: 0 <= i < |vs| ==> Json(vs[i])
  {
    forall i :: 0 <= i < |vs| ==> Violations(num, schema, vs[i]) == []
  }

  lemma ArrayMeans(num: Repr -> real, node: Value, v: Value)
    requires Shaped(node) && Json(node) && Json(v) && Typed(node, "array")
    ensures Get(node, "items").Some? && Shaped(Get(node, "items").value) && Json(Get(node, "items").value)
    ensures Violations(num, node, v) == [] <==>
            && v.Sequence? && LiteralsHold(node, v) && Within(Get(node, "minItems"), Get(node, "maxItems"), |v.items|)
            && EachPasses(num, Get(node, "items").value, v.items)
  {
    CheckDecides(num, node, v);
    LiteralsMean(node, v);
    TypedIs(node, "array");
    if v.Sequence? {
      WithinMeans(Get(node, "minItems"), Get(node, "maxItems"), |v.items|);
      ItemsMean(num, Get(node, "items").value, v.items);
    }
  }

  lemma ItemsMean(num: Repr -> real, item: Value, items: seq<Value>)
    requires Shaped(item) && Json(item) && forall i :: 0 <= i < |items| ==> Json(items[i])
    ensures AllConform(num, item, items) <==> EachPasses(num, item, items)
  {
    forall i | 0 <= i < |items| ensures Violations(num, item, items[i]) == [] <==> Conforms(num, item, items[i]) {
      CheckDecides(num, item, items[i]);
    }
  }

  lemma AnyOfMeans(num: Repr -> real, node: Value, v: Value)
    requires Shaped(node) && Json(node) && Json(v) && Get(node, "anyOf").Some?
    ensures Get(node, "anyOf").value.Sequence? && AllShaped(Get(node, "anyOf").value.items)
    ensures Violations(num, node, v) == [] <==>
            && LiteralsHold(node, v)
            && exists i :: 0 <= i < |Get(node, "anyOf").value.items| && Violations(num, Get(node, "anyOf").value.items[i], v) == []
  {
    CheckDecides(num, node, v);
    LiteralsMean(node, v);
    var options := Get(node, "anyOf").value.items;
    assert Options(node) == options;
    forall i | 0 <= i < |options| ensures Violations(num, options[i], v) == [] <==> Conforms(num, options[i], v) {
      CheckDecides(num, options[i], v);
    }
    AlternativesMean(num, node, v);
  }

  // ---- objects -----------------------------------------------------------------------------------

  /** The entries of a keyword's mapping, and the items of its list; none when it is absent. */
  function EntriesAt(node: Value, name: string): seq<Entry>
    requires node.Mapping?
  {
    match Get(node, name)
    case Some(Mapping(_, es)) => es
    case _ => []
  }

  function ItemsAt(node: Value, name: string): seq<Value>
    requires node.Mapping?
  {
    match Get(node, name)
    case Some(Sequence(_, items)) => items
    case _ => []
  }

  /** The entry's key is declared, with a schema its value passes. */
  ghost predicate EntryPasses(num: Repr -> real, node: Value, e: Entry)
    requires node.Mapping? && Json(e.value)
  {
    exists p :: Entry(e.key, p) in EntriesAt(node, "properties") && Shaped(p) && Json(p) && Violations(num, p, e.value) == []
  }

  lemma EntryMeans(num: Repr -> real, node: Value, e: Entry)
    requires Shaped(node) && Json(node) && Typed(node, "object") && TypeOf(node) == Some(ObjectType) && e.key.Name? && Json(e.value)
    ensures EntryConforms(num, node, e) <==> EntryPasses(num, node, e)
  {
    var name := e.key.text;
    PropertyShaped(node, name);
    DeclaredIs(node, name);
    if Property(node, name).Some? { CheckDecides(num, Property(node, name).value, e.value); }
  }

  /** The schema of a property is the one declared under its name. */
  lemma DeclaredIs(node: Value, name: string)
    requires node.Mapping? && Json(node)
    ensures forall p :: Property(node, name) == Some(p) <==> Entry(Name(name), p) in EntriesAt(node, "properties")
  {
    assert EntriesAt(node, "properties") == Properties(node) && DistinctKeys(Properties(node));
    forall p ensures Property(node, name) == Some(p) <==> Entry(Name(name), p) in Properties(node) {
      FoundIs(Properties(node), name, p);
    }
  }

  /** Every key is declared and its value passes, and every required name is a key. */
  ghost predicate ObjectPasses(num: Repr -> real, node: Value, es: seq<Entry>)
    requires node.Mapping? && forall e :: e in es ==> Json(e.value)
  {
    && (forall e :: e in es ==> EntryPasses(num, node, e))
    && (forall n :: n in ItemsAt(node, "required") ==> exists e :: e in es && n.Str? && e.key == Name(n.s))
  }

  /** An object is closed. */
  lemma ObjectMeans(num: Repr -> real, node: Value, v: Value)
    requires Shaped(node) && Json(node) && Json(v) && Typed(node, "object")
    ensures v.Mapping? ==> forall e :: e in v.entries ==> Json(e.value)
    ensures Violations(num, node, v) == [] <==> v.Mapping? && LiteralsHold(node, v) && ObjectPasses(num, node, v.entries)
  {
    CheckDecides(num, node, v);
    LiteralsMean(node, v);
    TypedIs(node, "object");
    if v.Mapping? { ObjectConformsMeans(num, node, v.entries); }
  }

  lemma ObjectConformsMeans(num: Repr -> real, node: Value, es: seq<Entry>)
    requires Shaped(node) && Json(node) && Json(Mapping(false, es)) && Typed(node, "object") && TypeOf(node) == Some(ObjectType)
    ensures forall e :: e in es ==> Json(e.value)
    ensures ObjectConforms(num, node, es) <==> ObjectPasses(num, node, es)
  {
    EntriesMean(num, node, es);
    RequiredMeans(node, es);
  }

  lemma EntriesMean(num: Repr -> real, node: Value, es: seq<Entry>)
    requires Shaped(node) && Json(node) && Json(Mapping(false, es)) && Typed(node, "object") && TypeOf(node) == Some(ObjectType)
    ensures forall e :: e in es ==> Json(e.value)
    ensures EntriesConform(num, node, es) <==> forall e :: e in es ==> EntryPasses(num, node, e)
  {
    forall i | 0 <= i < |es| ensures EntryConforms(num, node, es[i]) <==> EntryPasses(num, node, es[i]) {
      EntryMeans(num, node, es[i]);
    }
    assert forall i :: 0 <= i < |es| ==> es[i] in es;
  }

  lemma RequiredMeans(node: Value, es: seq<Entry>)
    requires node.Mapping? && AllStrings(Required(node)) && DistinctKeys(es)
    ensures (forall i :: 0 <= i < |Required(node)| ==> Find(es, Required(node)[i].s).Some?)
            <==> forall n :: n in ItemsAt(node, "required") ==> exists e :: e in es && n.Str? && e.key == Name(n.s)
  {
    var required := Required(node);
    assert ItemsAt(node, "required") == required;
    forall n | n in required ensures Find(es, n.s).Some? <==> exists e :: e in es && n.Str? && e.key == Name(n.s) {
      KeyIs(es, n.s);
    }
    assert forall i :: 0 <= i < |required| ==> required[i] in required;
  }

  lemma {:induction false} KeyIs(es: seq<Entry>, name: string)
    ensures Find(es, name).Some? <==> exists e :: e in es && e.key == Name(name)
  {
    if es != [] {
      KeyIs(es[1..], name);
      assert es == [es[0]] + es[1..];
    }
  }

  // ---- which alternative was meant ---------------------------------------------------------------

  /** The answer has every property that has a `const`, with that value. */
  ghost predicate HasConsts(node: Value, es: seq<Entry>)
    requires node.Mapping?
  {
    forall p :: p in EntriesAt(node, "properties") && p.value.Mapping? && Get(p.value, "const").Some? ==>
                  exists e :: e in es && e.key == p.key && Same(e.value, Get(p.value, "const").value)
  }

  /** An answer could be meant as an object if it is one with these values, and as anything else by its type. */
  lemma CouldBeMeans(option: Value, v: Value, name: string)
    requires Shaped(option) && Json(option) && Json(v) && Typed(option, name)
    ensures name == "object" ==> (CouldBe(option, v) <==> v.Mapping? && HasConsts(option, v.entries))
    ensures name == "array" ==> (CouldBe(option, v) <==> v.Sequence?)
    ensures name == "string" ==> (CouldBe(option, v) <==> v.Str?)
    ensures name == "integer" ==> (CouldBe(option, v) <==> v.Int?)
    ensures name == "number" ==> (CouldBe(option, v) <==> v.Int? || v.Float?)
    ensures name == "boolean" ==> (CouldBe(option, v) <==> v.Bool?)
    ensures name == "null" ==> (CouldBe(option, v) <==> v.Null?)
  {
    TypedIs(option, name);
    if name == "object" { ObjectCouldBe(option, v); }
  }

  lemma ObjectCouldBe(option: Value, v: Value)
    requires Shaped(option) && Json(option) && Json(v) && Get(option, "anyOf").None? && TypeOf(option) == Some(ObjectType)
    ensures CouldBe(option, v) <==> v.Mapping? && HasConsts(option, v.entries)
  {
    if v.Mapping? { DiscriminatorsMean(option, v.entries); }
  }

  lemma DiscriminatorsMean(option: Value, es: seq<Entry>)
    requires Shaped(option) && Json(option) && TypeOf(option) == Some(ObjectType) && Json(Mapping(false, es))
    ensures (forall i :: 0 <= i < |Properties(option)| ==> Discriminates(Properties(option)[i], es)) <==> HasConsts(option, es)
  {
    var ps := Properties(option);
    assert EntriesAt(option, "properties") == ps;
    forall i | 0 <= i < |ps| ensures Discriminates(ps[i], es) <==> ConstHeld(ps[i], es) { DiscriminatesMeans(ps[i], es); }
    assert forall i :: 0 <= i < |ps| ==> ps[i] in ps;
  }

  ghost predicate ConstHeld(p: Entry, es: seq<Entry>) {
    p.value.Mapping? && Get(p.value, "const").Some? ==>
      exists e :: e in es && e.key == p.key && Same(e.value, Get(p.value, "const").value)
  }

  lemma DiscriminatesMeans(p: Entry, es: seq<Entry>)
    requires p.key.Name? && Shaped(p.value) && Json(p.value) && Json(Mapping(false, es))
    ensures Discriminates(p, es) <==> ConstHeld(p, es)
  {
    var name := p.key.text;
    FindJson(es, name);
    KeyIs(es, name);
    if Get(p.value, "const").Some? && Find(es, name).Some? {
      FoundIs(es, name, Find(es, name).value);
      LiteralDecided(Find(es, name).value, Get(p.value, "const").value);
      forall e | e in es && e.key == p.key ensures e.value == Find(es, name).value { FoundIs(es, name, e.value); }
    }
  }

  lemma {:induction false} NoneMeant(options: seq<Value>, v: Value)
    requires AllShaped(options) && Json(v) && forall i :: 0 <= i < |options| ==> !CouldBe(options[i], v)
    ensures Meant(options, v) == []
  {
    if options != [] { NoneMeant(options[1..], v); }
  }

  lemma {:induction false} OneMeant(options: seq<Value>, v: Value, k: nat)
    requires AllShaped(options) && Json(v) && k < |options|
    requires forall i :: 0 <= i < |options| ==> (CouldBe(options[i], v) <==> i == k)
    ensures Meant(options, v) == [options[k]]
  {
    if k == 0 {
      NoneMeant(options[1..], v);
    } else {
      OneMeant(options[1..], v, k - 1);
    }
  }

  /** Which of the options the answer could be meant as. */
  predicate Could(options: seq<Value>, v: Value, flags: seq<bool>)
    requires AllShaped(options) && Json(v)
  {
    |flags| == |options| && forall i :: 0 <= i < |flags| ==> flags[i] == CouldBe(options[i], v)
  }

  function Trues(flags: seq<bool>): nat {
    if flags == [] then 0 else (if flags[0] then 1 else 0) + Trues(flags[1..])
  }

  lemma {:induction false} MeantCount(options: seq<Value>, v: Value, flags: seq<bool>)
    requires AllShaped(options) && Json(v) && Could(options, v, flags)
    ensures |Meant(options, v)| == Trues(flags)
  {
    if options != [] { MeantCount(options[1..], v, flags[1..]); }
  }

  lemma {:induction false} TwoTrues(flags: seq<bool>, j: nat, k: nat)
    requires k < |flags| && flags[k] && (j < k ==> flags[j])
    ensures Trues(flags) >= if j < k then 2 else 1
  {
    if j == 0 < k {
      TwoTrues(flags[1..], k - 1, k - 1);
    } else if k > 0 {
      TwoTrues(flags[1..], j - 1, k - 1);
    }
  }

  /** Main result: an answer that matches no alternative is told what it violates of the one it could be meant as,
      if there is exactly one. */
  lemma ExplainsTheMeant(num: Repr -> real, options: seq<Value>, v: Value, k: nat)
    requires AllShaped(options) && Json(v) && k < |options|
    requires forall i :: 0 <= i < |options| ==> (CouldBe(options[i], v) <==> i == k)
    ensures Explanation(num, options, v) == Violations(num, options[k], v)
  {
    OneMeant(options, v, k);
  }

  lemma ExplainedShort(num: Repr -> real, options: seq<Value>, v: Value)
    requires AllShaped(options) && Json(v) && |Meant(options, v)| != 1
    ensures Explanation(num, options, v) == [NoAlternative]
  {
  }

  /** One it could be meant as none of is told only that it matches none. */
  lemma ExplainsNone(num: Repr -> real, options: seq<Value>, v: Value)
    requires AllShaped(options) && Json(v) && forall i :: 0 <= i < |options| ==> !CouldBe(options[i], v)
    ensures Explanation(num, options, v) == [NoAlternative]
  {
    NoneMeant(options, v);
  }

  /** And so is one it could be meant as two of. */
  lemma ExplainsTwo(num: Repr -> real, options: seq<Value>, v: Value, j: nat, k: nat)
    requires AllShaped(options) && Json(v) && j < k < |options| && CouldBe(options[j], v) && CouldBe(options[k], v)
    ensures Explanation(num, options, v) == [NoAlternative]
  {
    var flags := seq(|options|, i requires 0 <= i < |options| => CouldBe(options[i], v));
    assert Could(options, v, flags);
    MeantCount(options, v, flags);
    TwoTrues(flags, j, k);
    ExplainedShort(num, options, v);
  }

  // ---- what a schema must be ---------------------------------------------------------------------

  /** The keywords a node of this type may have. */
  function KeywordsOf(name: string): set<string> {
    {"type", "anyOf", "enum", "const", "title", "description"}
    + if name == "object" then {"properties", "required", "additionalProperties"}
      else if name == "array" then {"items", "minItems", "maxItems"}
      else if name == "string" then {"minLength", "maxLength"}
      else if name == "integer" || name == "number" then {"minimum", "maximum", "exclusiveMinimum", "exclusiveMaximum"}
      else {}
  }

  predicate KeysIn(node: Value, allowed: set<string>)
    requires node.Mapping?
  {
    forall e :: e in node.entries ==> e.key.Name? && e.key.text in allowed
  }

  lemma {:induction false} KeysInMeans(es: seq<Entry>, allowed: set<string>)
    ensures OnlyKeywords(es, allowed) <==> forall e :: e in es ==> e.key.Name? && e.key.text in allowed
  {
    if es != [] {
      KeysInMeans(es[1..], allowed);
      assert es == [es[0]] + es[1..];
    }
  }

  lemma KeywordsAre(name: string, t: JsonType)
    requires TypeNamed(name, TYPES) == Some(t)
    ensures EVERY_NODE + ByType(t) == KeywordsOf(name)
  {
    Named();
    NamedOnly(name);
  }

  predicate StringAt(node: Value, name: string)
    requires node.Mapping?
  {
    Get(node, name).Some? ==> Get(node, name).value.Str?
  }

  predicate NumberOrNone(node: Value, name: string)
    requires node.Mapping?
  {
    Get(node, name).Some? ==> Get(node, name).value.Int? || Get(node, name).value.Float?
  }

  /** Two sizes, each absent or a natural number, in order. */
  predicate SizesAt(node: Value, low: string, high: string)
    requires node.Mapping?
  {
    && (Get(node, low).Some? ==> Get(node, low).value.Int? && Get(node, low).value.i >= 0)
    && (Get(node, high).Some? ==> Get(node, high).value.Int? && Get(node, high).value.i >= 0)
    && (Get(node, low).Some? && Get(node, high).Some? ==> Get(node, low).value.i <= Get(node, high).value.i)
  }

  /** `required` lists declared names, each once; `additionalProperties` is `false` or absent. */
  ghost predicate ObjectAt(node: Value)
    requires node.Mapping?
  {
    && (Get(node, "properties").Some? ==> Get(node, "properties").value.Mapping?)
    && (Get(node, "required").Some? ==> Get(node, "required").value.Sequence?)
    && (forall n :: n in ItemsAt(node, "required") ==> n.Str? && exists e :: e in EntriesAt(node, "properties") && e.key == Name(n.s))
    && (forall i, j :: 0 <= i < j < |ItemsAt(node, "required")| ==> ItemsAt(node, "required")[i] != ItemsAt(node, "required")[j])
    && (Get(node, "additionalProperties").Some? ==> Get(node, "additionalProperties").value == Bool(false))
  }

  /** What the keywords of a type must be. */
  ghost predicate KeywordsFit(node: Value, name: string)
    requires node.Mapping?
  {
    && (name == "object" ==> ObjectAt(node))
    && (name == "array" ==> Get(node, "items").Some? && SizesAt(node, "minItems", "maxItems"))
    && (name == "string" ==> SizesAt(node, "minLength", "maxLength"))
    && (name == "integer" || name == "number" ==>
          NumberOrNone(node, "minimum") && NumberOrNone(node, "maximum")
          && NumberOrNone(node, "exclusiveMinimum") && NumberOrNone(node, "exclusiveMaximum"))
  }

  lemma ObjectFits(node: Value)
    requires node.Mapping?
    ensures ObjectOk(node) <==> ObjectAt(node)
  {
    var required := ItemsAt(node, "required");
    assert Items(Get(node, "required")) == required && Properties(node) == EntriesAt(node, "properties");
    forall n | n in required && n.Str?
      ensures Find(Properties(node), n.s).Some? <==> exists e :: e in EntriesAt(node, "properties") && e.key == Name(n.s)
    {
      KeyIs(Properties(node), n.s);
    }
    assert forall i :: 0 <= i < |required| ==> required[i] in required;
  }

  lemma TypeFits(node: Value, name: string)
    requires node.Mapping? && TypeNamed(name, TYPES).Some?
    ensures TypeOk(node, TypeNamed(name, TYPES).value) <==> KeywordsFit(node, name)
  {
    Named();
    NamedOnly(name);
    ObjectFits(node);
  }

  /** The nodes this one is built from are accepted. */
  ghost predicate PartsPass(num: Repr -> real, node: Value, name: string)
    requires node.Mapping? && Json(node)
  {
    && (name == "object" ==> forall e :: e in EntriesAt(node, "properties") ==> Json(e.value) && NodeReasons(num, e.value) == [])
    && (name == "array" && Get(node, "items").Some? ==> NodeReasons(num, Get(node, "items").value) == [])
  }

  /** `enum` lists something, and what it lists, and `const`, passes the node without the two. */
  ghost predicate LiteralsPass(num: Repr -> real, node: Value)
    requires node.Mapping? && Json(node)
  {
    && (Get(node, "enum").Some? ==> Get(node, "enum").value.Sequence? && Get(node, "enum").value.items != [])
    && Json(Bare(node)) && Shaped(Bare(node))
    && (Get(node, "const").Some? ==> Violations(num, Bare(node), Get(node, "const").value) == [])
    && forall x :: x in ItemsAt(node, "enum") ==> Json(x) && Violations(num, Bare(node), x) == []
  }

  /** The node without its literals has its other keywords. */
  lemma WithoutLiterals(node: Value, name: string)
    requires node.Mapping?
    ensures Get(Bare(node), name) == if name == "enum" || name == "const" then None else Get(node, name)
  {
    FilteredLiterals(node.entries);
    if name != "enum" && name != "const" { FilteredFind(node.entries, name); }
  }

  lemma StructuredFits(node: Value, name: string)
    requires node.Mapping? && Typed(node, name)
    ensures Structured(node) <==>
            && TypeNamed(name, TYPES).Some? && StringAt(node, "title") && StringAt(node, "description")
            && KeysIn(node, KeywordsOf(name)) && KeywordsFit(node, name)
  {
    TypedIs(node, name);
    if TypeNamed(name, TYPES).Some? {
      KeywordsAre(name, TypeNamed(name, TYPES).value);
      KeysInMeans(node.entries, KeywordsOf(name));
      TypeFits(node, name);
    }
  }

  lemma PartsFit(num: Repr -> real, node: Value, name: string)
    requires Json(node) && node.Mapping? && Typed(node, name)
    ensures PartsClean(num, node) <==> PartsPass(num, node, name)
  {
    TypedIs(node, name);
    NamedOnly(name);
    Named();
    var ps := Properties(node);
    assert EntriesAt(node, "properties") == ps;
    forall i | 0 <= i < |ps| ensures ps[i] in ps && Json(ps[i].value) {}
  }

  /** What the literals must be, on a node that is otherwise in order. */
  lemma LiteralsFit(num: Repr -> real, node: Value)
    requires Json(node) && ShapeReasons(num, node) == []
    ensures NodeReasons(num, node) == [] <==> LiteralsPass(num, node)
  {
    ShapeSound(num, node);
    BareShaped(node);
    BareJson(node);
    if Get(node, "enum").Some? && Enum(node) == [] {
      assert LiteralReasons(num, node) == [BadEnum];
    } else {
      LiteralsExact(num, Bare(node), Literals(node));
      LiteralsAre(num, node);
    }
  }

  lemma LiteralsAre(num: Repr -> real, node: Value)
    requires Json(node) && node.Mapping? && EnumOk(node) && Json(Bare(node)) && Shaped(Bare(node))
    ensures AllConform(num, Bare(node), Literals(node)) <==>
            && (Get(node, "const").Some? ==> Violations(num, Bare(node), Get(node, "const").value) == [])
            && forall x :: x in ItemsAt(node, "enum") ==> Json(x) && Violations(num, Bare(node), x) == []
  {
    var bare, literals, items := Bare(node), Literals(node), ItemsAt(node, "enum");
    assert Enum(node) == items;
    forall i | 0 <= i < |literals| ensures Violations(num, bare, literals[i]) == [] <==> Conforms(num, bare, literals[i]) {
      CheckDecides(num, bare, literals[i]);
    }
    assert forall i :: 0 <= i < |items| ==> literals[i] == items[i];
    assert Get(node, "const").Some? ==> literals[|items|] == Get(node, "const").value;
  }

  /** Main result: what the schema check accepts of a node with a type, keyword by keyword. */
  lemma TypedSupported(num: Repr -> real, node: Value, name: string)
    requires Json(node) && node.Mapping? && Typed(node, name)
    ensures NodeReasons(num, node) == [] <==>
            && (name == "object" || name == "array" || name == "string" || name == "integer" || name == "number"
                || name == "boolean" || name == "null")
            && StringAt(node, "title") && StringAt(node, "description")
            && KeysIn(node, KeywordsOf(name)) && KeywordsFit(node, name) && PartsPass(num, node, name)
            && LiteralsPass(num, node)
  {
    NamedOnly(name);
    StructuredFits(node, name);
    PartsFit(num, node, name);
    ShapeExact(num, node);
    if ShapeReasons(num, node) == [] { LiteralsFit(num, node); }
  }

  /** What it accepts of a node with alternatives: no type beside them, and each of them accepted. */
  lemma AnyOfSupported(num: Repr -> real, node: Value)
    requires Json(node) && node.Mapping? && Get(node, "anyOf").Some?
    ensures NodeReasons(num, node) == [] <==>
            && (Get(node, "type").Some? ==> Get(node, "type").value.Null?)
            && ItemsAt(node, "anyOf") != [] && (forall x :: x in ItemsAt(node, "anyOf") ==> Json(x) && NodeReasons(num, x) == [])
            && StringAt(node, "title") && StringAt(node, "description")
            && KeysIn(node, {"type", "anyOf", "enum", "const", "title", "description"}) && LiteralsPass(num, node)
  {
    var options := ItemsAt(node, "anyOf");
    assert Options(node) == options;
    KeysInMeans(node.entries, EVERY_NODE);
    ShapeExact(num, node);
    forall i | 0 <= i < |options| ensures options[i] in options && Json(options[i]) {}
    AnyOfStructured(num, node);
    if ShapeReasons(num, node) == [] { LiteralsFit(num, node); }
  }

  lemma AnyOfStructured(num: Repr -> real, node: Value)
    requires Json(node) && node.Mapping? && Get(node, "anyOf").Some?
    ensures Structured(node) && PartsClean(num, node) <==>
            && (Get(node, "type").Some? ==> Get(node, "type").value.Null?)
            && ItemsAt(node, "anyOf") != [] && (forall x :: x in ItemsAt(node, "anyOf") ==> Json(x) && NodeReasons(num, x) == [])
            && StringAt(node, "title") && StringAt(node, "description") && OnlyKeywords(node.entries, EVERY_NODE)
  {
    var options := ItemsAt(node, "anyOf");
    assert Options(node) == options;
    forall i | 0 <= i < |options| ensures options[i] in options && Json(options[i]) {}
  }

  /** Whatever has neither a type nor alternatives is refused. */
  lemma UntypedRefused(num: Repr -> real, node: Value)
    requires Json(node) && node.Mapping? ==> Get(node, "anyOf").None? && !(Get(node, "type").Some? && Get(node, "type").value.Str?)
    ensures Json(node) ==> NodeReasons(num, node) != []
  {
    if Json(node) { ShapeExact(num, node); }
  }

  /** The root is an object. */
  lemma RootSupported(num: Repr -> real, schema: Value)
    requires Json(schema) && schema.Mapping?
    ensures SchemaReasons(num, schema) == [] <==> Get(schema, "type") == Some(Str("object")) && NodeReasons(num, schema) == []
  {
    Named();
    match Kind(schema)
    case Some(Str(name)) => NamedOnly(name);
    case _ =>
  }

  // ---- the smallest schemas ----------------------------------------------------------------------

  /** `{"type": name}`. */
  function OfType(name: string): Value {
    Mapping(false, [Entry(Name("type"), Str(name))])
  }

  lemma OnlyType(name: string)
    ensures Json(OfType(name)) && Typed(OfType(name), name)
    ensures forall k :: k != "type" ==> Get(OfType(name), k).None?
    ensures KeysIn(OfType(name), KeywordsOf(name))
  {
    var es := OfType(name).entries;
    assert es[1..] == [] && es[0].key == Name("type");
    assert |"anyOf"| == 5 && |"type"| == 4;
    forall k | k != "type" ensures Get(OfType(name), k).None? { assert Find(es, k) == Find(es[1..], k); }
    forall e | e in es ensures e.key.Name? && e.key.text in KeywordsOf(name) { assert e == es[0]; }
  }

  lemma OtherKeywords()
    ensures "title" != "type" && "description" != "type" && "enum" != "type" && "const" != "type" && "properties" != "type"
    ensures "required" != "type" && "additionalProperties" != "type" && "minLength" != "type" && "maxLength" != "type"
    ensures "minimum" != "type" && "maximum" != "type" && "exclusiveMinimum" != "type" && "exclusiveMaximum" != "type"
  {
    assert "enum"[0] == 'e' && "type"[0] == 't' && |"type"| == 4;
  }

  lemma OfTypeShaped(name: string)
    requires name == "object" || name == "string" || name == "integer" || name == "number" || name == "boolean" || name == "null"
    ensures Stands(name)
  {
    NamedOnly(name);
    assert name != "array" by { assert "array"[0] == 'a' && name[0] != 'a'; }
    OfTypeStructured(name);
    OfTypeParts(name);
  }

  lemma OfTypeStructured(name: string)
    requires TypeNamed(name, TYPES).Some? && name != "array"
    ensures Structured(OfType(name))
  {
    OnlyType(name);
    OtherKeywords();
    OfTypeFits(name);
    StructuredFits(OfType(name), name);
  }

  lemma OfTypeParts(name: string)
    requires TypeNamed(name, TYPES).Some? && name != "array"
    ensures Json(OfType(name)) && Get(OfType(name), "anyOf").None? && EnumOk(OfType(name))
    ensures Properties(OfType(name)) == [] && TypeOf(OfType(name)) != Some(ArrayType)
  {
    OnlyType(name);
    OtherKeywords();
    OnlyArray(name);
  }

  lemma OnlyArray(name: string)
    ensures TypeNamed(name, TYPES) == Some(ArrayType) ==> name == "array"
  {
    NamedOnly(name);
    Named();
  }

  lemma OfTypeFits(name: string)
    requires name != "array"
    ensures KeywordsFit(OfType(name), name)
  {
    OnlyType(name);
    OtherKeywords();
    assert EntriesAt(OfType(name), "properties") == [] && ItemsAt(OfType(name), "required") == [];
  }

  /** The schema is one the checker can read. */
  predicate Stands(name: string) {
    Json(OfType(name)) && Shaped(OfType(name))
  }

  /** Main result: what a type alone accepts. A boolean is no number, `1.0` is a number and no integer. */
  lemma TypeAlone(num: Repr -> real, v: Value)
    requires Json(v)
    ensures Stands("integer") && (Violations(num, OfType("integer"), v) == [] <==> v.Int?)
    ensures Stands("number") && (Violations(num, OfType("number"), v) == [] <==> v.Int? || v.Float?)
    ensures Stands("boolean") && (Violations(num, OfType("boolean"), v) == [] <==> v.Bool?)
    ensures Stands("string") && (Violations(num, OfType("string"), v) == [] <==> v.Str?)
    ensures Stands("null") && (Violations(num, OfType("null"), v) == [] <==> v.Null?)
    ensures Stands("object") && (Violations(num, OfType("object"), v) == [] <==> v.Mapping? && v.entries == [])
  {
    OfTypeShaped("integer");
    OfTypeShaped("number");
    OfTypeShaped("boolean");
    OfTypeShaped("string");
    OfTypeShaped("null");
    OfTypeShaped("object");
    ScalarAlone(num, v);
    NumberAlone(num, v);
    ObjectAlone(num, v);
  }

  lemma ScalarAlone(num: Repr -> real, v: Value)
    requires Json(v) && Shaped(OfType("boolean")) && Shaped(OfType("null")) && Shaped(OfType("string"))
    requires Json(OfType("boolean")) && Json(OfType("null")) && Json(OfType("string"))
    ensures Violations(num, OfType("boolean"), v) == [] <==> v.Bool?
    ensures Violations(num, OfType("null"), v) == [] <==> v.Null?
    ensures Violations(num, OfType("string"), v) == [] <==> v.Str?
  {
    OtherKeywords();
    OnlyType("boolean");
    OnlyType("null");
    OnlyType("string");
    PlainMeans(num, OfType("boolean"), v);
    PlainMeans(num, OfType("null"), v);
    StringMeans(num, OfType("string"), v);
  }

  lemma NumberAlone(num: Repr -> real, v: Value)
    requires Json(v) && Shaped(OfType("integer")) && Shaped(OfType("number")) && Json(OfType("integer")) && Json(OfType("number"))
    ensures Violations(num, OfType("integer"), v) == [] <==> v.Int?
    ensures Violations(num, OfType("number"), v) == [] <==> v.Int? || v.Float?
  {
    Unbounded(num, "integer");
    Unbounded(num, "number");
    OnlyType("integer");
    OnlyType("number");
    NumberMeans(num, OfType("integer"), v);
    NumberMeans(num, OfType("number"), v);
  }

  lemma Unbounded(num: Repr -> real, name: string)
    ensures forall x :: Bounded(num, OfType(name), x)
    ensures forall v :: LiteralsHold(OfType(name), v)
  {
    OtherKeywords();
    OnlyType(name);
  }

  lemma ObjectAlone(num: Repr -> real, v: Value)
    requires Json(v) && Shaped(OfType("object")) && Json(OfType("object"))
    ensures Violations(num, OfType("object"), v) == [] <==> v.Mapping? && v.entries == []
  {
    OtherKeywords();
    OnlyType("object");
    ObjectMeans(num, OfType("object"), v);
    assert EntriesAt(OfType("object"), "properties") == [] && ItemsAt(OfType("object"), "required") == [];
    if v.Mapping? && v.entries != [] { assert v.entries[0] in v.entries; }
  }
}
