/** What the check of an answer reports: which violations, one by one, on the keywords a node has. */
module SchemaReports {
  import opened Util
  import opened Encoding
  import opened Schema
  import opened SchemaMeaning

  // ---- the parts -----------------------------------------------------------------------------------

  /** It is not the `const`, or none of the `enum`. */
  predicate LiteralSaid(node: Value, v: Value, x: Violation)
    requires node.Mapping?
  {
    || (x.NotTheConst? && Get(node, "const").Some? && !Same(v, Get(node, "const").value))
    || (x.NotInEnum? && Get(node, "enum").Some?
        && forall i :: 0 <= i < |ItemsAt(node, "enum")| ==> !Same(v, ItemsAt(node, "enum")[i]))
  }

  lemma LiteralsSaid(node: Value, v: Value, x: Violation)
    requires node.Mapping? && EnumOk(node) && Json(node) && Json(v)
    ensures x in LiteralViolations(node, v) <==> LiteralSaid(node, v, x)
  {
    assert Enum(node) == ItemsAt(node, "enum");
    if Get(node, "const").Some? { LiteralDecided(v, Get(node, "const").value); }
    forall i | 0 <= i < |Enum(node)| ensures Encode(v) == Encode(Enum(node)[i]) <==> Same(v, Enum(node)[i]) {
      LiteralDecided(v, Enum(node)[i]);
    }
  }

  /** The size is below the least or above the greatest. */
  predicate SizeSaid(low: Option<Value>, high: Option<Value>, size: nat, x: Violation) {
    || (x.TooFew? && low == Some(Int(x.low)) && size < x.low)
    || (x.TooMany? && high == Some(Int(x.high)) && size > x.high)
  }

  lemma SizesSaid(low: Option<Value>, high: Option<Value>, size: nat, x: Violation)
    requires Sizes(low, high)
    ensures x in SizeViolations(low, high, size) <==> SizeSaid(low, high, size, x)
  {
  }

  /** The number is beyond a bound. */
  predicate BoundSaid(num: Repr -> real, node: Value, n: real, x: Violation)
    requires node.Mapping?
  {
    || (x.BelowMinimum? && NumberAt(num, node, "minimum").Some? && n < NumberAt(num, node, "minimum").value)
    || (x.AboveMaximum? && NumberAt(num, node, "maximum").Some? && n > NumberAt(num, node, "maximum").value)
    || (x.NotAboveExclusive? && NumberAt(num, node, "exclusiveMinimum").Some? && n <= NumberAt(num, node, "exclusiveMinimum").value)
    || (x.NotBelowExclusive? && NumberAt(num, node, "exclusiveMaximum").Some? && n >= NumberAt(num, node, "exclusiveMaximum").value)
  }

  lemma BoundsSaid(num: Repr -> real, node: Value, v: Value, x: Violation)
    requires Json(node) && node.Mapping? && TypeOk(node, NumberType) && Json(v) && IsNumber(v)
    ensures NumberOf(num, v).Some? && (x in BoundViolations(num, node, v) <==> BoundSaid(num, node, NumberOf(num, v).value, x))
  {
  }

  lemma {:induction false} ConcatHas<T>(xss: seq<seq<T>>, i: nat, x: T)
    requires i < |xss| && x in xss[i]
    ensures x in Concat(xss)
  {
    if i < |xss| - 1 { ConcatHas(xss[..|xss| - 1], i, x); }
  }

  lemma {:induction false} ConcatFrom<T>(xss: seq<seq<T>>, x: T) returns (i: nat)
    requires x in Concat(xss)
    ensures i < |xss| && x in xss[i]
  {
    i := |xss| - 1;
    if x !in xss[|xss| - 1] { i := ConcatFrom(xss[..|xss| - 1], x); }
  }

  /** A required name is missing. */
  predicate MissingSaid(node: Value, es: seq<Entry>, x: Violation)
    requires node.Mapping?
  {
    x.MissingRequired? && Str(x.name) in ItemsAt(node, "required") && forall e :: e in es ==> e.key != Name(x.name)
  }

  lemma {:induction false} MissingFrom(required: seq<Value>, es: seq<Entry>, x: Violation)
    requires AllStrings(required)
    ensures x in MissingNames(required, es) <==> x.MissingRequired? && Str(x.name) in required && Find(es, x.name).None?
  {
    if required != [] {
      var n := |required| - 1;
      MissingFrom(required[..n], es, x);
      assert required == required[..n] + [required[n]];
    }
  }

  lemma MissingIs(node: Value, es: seq<Entry>, x: Violation)
    requires node.Mapping? && AllStrings(Required(node))
    ensures x in MissingNames(Required(node), es) <==> MissingSaid(node, es, x)
  {
    assert Required(node) == ItemsAt(node, "required");
    MissingFrom(Required(node), es, x);
    if x.MissingRequired? { KeyIs(es, x.name); }
  }

  /** The entry's key is not declared, or this is said of its value by the schema declared for it. */
  ghost predicate EntrySaid(num: Repr -> real, node: Value, e: Entry, x: Violation)
    requires node.Mapping? && e.key.Name? && Json(e.value)
  {
    || (x == Unexpected(e.key.text) && forall p :: Entry(e.key, p) !in EntriesAt(node, "properties"))
    || exists p :: Entry(e.key, p) in EntriesAt(node, "properties") && Shaped(p) && Json(p) && x in Violations(num, p, e.value)
  }

  lemma EntryIs(num: Repr -> real, node: Value, es: seq<Entry>, e: Entry, x: Violation)
    requires Shaped(node) && Json(node) && TypeOf(node) == Some(ObjectType) && Json(Mapping(false, es)) && e in es
    ensures e.key.Name? && e.key.text in NameSet(es) && Json(e.value)
    ensures x in PropertyViolation(num, node, es, e.key.text) <==> EntrySaid(num, node, e, x)
  {
    var name := e.key.text;
    EntryFound(es, e);
    DeclaredIs(node, name);
    PropertyShaped(node, name);
    if Property(node, name).Some? {
      var p := Property(node, name).value;
      assert PropertyViolation(num, node, es, name) == Violations(num, p, e.value);
    } else {
      assert PropertyViolation(num, node, es, name) == [Unexpected(name)];
    }
  }

  lemma EntryFound(es: seq<Entry>, e: Entry)
    requires Json(Mapping(false, es)) && e in es
    ensures e.key.Name? && e.key.text in NameSet(es) && Json(e.value) && Find(es, e.key.text) == Some(e.value)
  {
    FoundIs(es, e.key.text, e.value);
  }

  /** A required name is missing, or this is said of an entry. */
  ghost predicate ObjectSaid(num: Repr -> real, node: Value, es: seq<Entry>, x: Violation)
    requires node.Mapping? && forall e :: e in es ==> e.key.Name? && Json(e.value)
  {
    MissingSaid(node, es, x) || exists e :: e in es && EntrySaid(num, node, e, x)
  }

  lemma ObjectIs(num: Repr -> real, node: Value, es: seq<Entry>, x: Violation)
    requires Shaped(node) && Json(node) && TypeOf(node) == Some(ObjectType) && Json(Mapping(false, es))
    ensures forall e :: e in es ==> e.key.Name? && Json(e.value)
    ensures x in MissingNames(Required(node), es) + Concat(PropertyViolations(num, node, es)) <==> ObjectSaid(num, node, es, x)
  {
    MissingIs(node, es, x);
    forall e | e in es ensures e.key.Name? && Json(e.value) { EntryFound(es, e); }
    forall e | e in es && EntrySaid(num, node, e, x) ensures x in Concat(PropertyViolations(num, node, es)) {
      EntryListed(num, node, es, e, x);
    }
    if x in Concat(PropertyViolations(num, node, es)) {
      var e := ListedEntry(num, node, es, x);
    }
  }

  lemma EntryListed(num: Repr -> real, node: Value, es: seq<Entry>, e: Entry, x: Violation)
    requires Shaped(node) && Json(node) && TypeOf(node) == Some(ObjectType) && Json(Mapping(false, es)) && e in es
    requires e.key.Name? && Json(e.value) && EntrySaid(num, node, e, x)
    ensures x in Concat(PropertyViolations(num, node, es))
  {
    EntryIs(num, node, es, e, x);
    var i :| 0 <= i < |SortedNames(es)| && SortedNames(es)[i] == e.key.text;
    ConcatHas(PropertyViolations(num, node, es), i, x);
  }

  lemma ListedEntry(num: Repr -> real, node: Value, es: seq<Entry>, x: Violation) returns (e: Entry)
    requires Shaped(node) && Json(node) && TypeOf(node) == Some(ObjectType) && Json(Mapping(false, es))
    requires x in Concat(PropertyViolations(num, node, es))
    ensures e in es && e.key.Name? && Json(e.value) && EntrySaid(num, node, e, x)
  {
    var i := ConcatFrom(PropertyViolations(num, node, es), x);
    var name := SortedNames(es)[i];
    assert name in SortedNames(es);
    e :| e in es && e.key == Name(name);
    EntryIs(num, node, es, e, x);
  }

  /** The size, or this is said of an item. */
  predicate ArraySaid(num: Repr -> real, node: Value, items: seq<Value>, x: Violation)
    requires node.Mapping? && Get(node, "items").Some? && Shaped(Get(node, "items").value) && Json(Get(node, "items").value)
    requires forall i :: 0 <= i < |items| ==> Json(items[i])
  {
    || SizeSaid(Get(node, "minItems"), Get(node, "maxItems"), |items|, x)
    || exists i :: 0 <= i < |items| && x in Violations(num, Get(node, "items").value, items[i])
  }

  lemma ItemsSaid(num: Repr -> real, item: Value, items: seq<Value>, x: Violation)
    requires Shaped(item) && Json(item) && forall i :: 0 <= i < |items| ==> Json(items[i])
    ensures x in Concat(ItemViolations(num, item, items)) <==> exists i :: 0 <= i < |items| && x in Violations(num, item, items[i])
  {
    var found := ItemViolations(num, item, items);
    forall i | 0 <= i < |items| && x in Violations(num, item, items[i]) ensures x in Concat(found) { ConcatHas(found, i, x); }
    if x in Concat(found) {
      var i := ConcatFrom(found, x);
    }
  }

  // ---- a node with a type --------------------------------------------------------------------------

  /** The answer is of the named type. */
  predicate IsOf(name: string, v: Value) {
    || (name == "object" && v.Mapping?) || (name == "array" && v.Sequence?) || (name == "string" && v.Str?)
    || (name == "integer" && v.Int?) || (name == "number" && (v.Int? || v.Float?)) || (name == "boolean" && v.Bool?)
    || (name == "null" && v.Null?)
  }

  lemma IsOfType(name: string, t: JsonType, v: Value)
    requires TypeNamed(name, TYPES) == Some(t)
    ensures HasType(t, v) <==> IsOf(name, v)
  {
    NamedOnly(name);
    Named();
  }

  /** Main result: an answer of another type is told the type that was expected, and nothing else. */
  lemma OtherTypeReports(num: Repr -> real, node: Value, v: Value, name: string)
    requires Shaped(node) && Json(node) && Json(v) && Typed(node, name) && !IsOf(name, v)
    ensures TypeNamed(name, TYPES).Some? && Violations(num, node, v) == [ExpectedType(TypeNamed(name, TYPES).value)]
  {
    TypedIs(node, name);
    IsOfType(name, TypeNamed(name, TYPES).value, v);
  }

  lemma OfTypeReports(num: Repr -> real, node: Value, v: Value, name: string)
    requires Shaped(node) && Json(node) && Json(v) && Typed(node, name) && IsOf(name, v)
    ensures Get(node, "anyOf").None? && TypeOf(node).Some? && HasType(TypeOf(node).value, v)
    ensures Violations(num, node, v) == LiteralViolations(node, v) + TypeViolations(num, node, v)
  {
    TypedIs(node, name);
    IsOfType(name, TypeNamed(name, TYPES).value, v);
  }

  /** Main result: what is reported of an answer of the right type, exactly: by its literals, and by its type. */
  lemma ScalarReports(num: Repr -> real, node: Value, v: Value, name: string, x: Violation)
    requires Shaped(node) && Json(node) && Json(v) && Typed(node, name) && IsOf(name, v)
    ensures name == "boolean" || name == "null" ==> (x in Violations(num, node, v) <==> LiteralSaid(node, v, x))
    ensures name == "string" ==>
              (x in Violations(num, node, v) <==> LiteralSaid(node, v, x) || SizeSaid(Get(node, "minLength"), Get(node, "maxLength"), |v.s|, x))
    ensures name == "integer" || name == "number" ==>
              NumberOf(num, v).Some?
              && (x in Violations(num, node, v) <==> LiteralSaid(node, v, x) || BoundSaid(num, node, NumberOf(num, v).value, x))
  {
    OfTypeReports(num, node, v, name);
    LiteralsSaid(node, v, x);
    TypedIs(node, name);
    if name == "string" { SizesSaid(Get(node, "minLength"), Get(node, "maxLength"), |v.s|, x); }
    if name == "integer" || name == "number" { BoundsSaid(num, node, v, x); }
  }

  lemma ObjectReports(num: Repr -> real, node: Value, v: Value, x: Violation)
    requires Shaped(node) && Json(node) && Json(v) && Typed(node, "object") && v.Mapping?
    ensures forall e :: e in v.entries ==> e.key.Name? && Json(e.value)
    ensures x in Violations(num, node, v) <==> LiteralSaid(node, v, x) || ObjectSaid(num, node, v.entries, x)
  {
    OfTypeReports(num, node, v, "object");
    LiteralsSaid(node, v, x);
    TypedIs(node, "object");
    ObjectIs(num, node, v.entries, x);
  }

  lemma ArrayReports(num: Repr -> real, node: Value, v: Value, x: Violation)
    requires Shaped(node) && Json(node) && Json(v) && Typed(node, "array") && v.Sequence?
    ensures Get(node, "items").Some? && Shaped(Get(node, "items").value) && Json(Get(node, "items").value)
    ensures x in Violations(num, node, v) <==> LiteralSaid(node, v, x) || ArraySaid(num, node, v.items, x)
  {
    OfTypeReports(num, node, v, "array");
    LiteralsSaid(node, v, x);
    TypedIs(node, "array");
    SizesSaid(Get(node, "minItems"), Get(node, "maxItems"), |v.items|, x);
    ItemsSaid(num, Get(node, "items").value, v.items, x);
  }

  /** An answer that matches an alternative is reported by its literals; one that matches none, as the explanation has it. */
  lemma AnyOfReports(num: Repr -> real, node: Value, v: Value, x: Violation)
    requires Shaped(node) && Json(node) && Json(v) && Get(node, "anyOf").Some?
    ensures AllShaped(ItemsAt(node, "anyOf"))
    ensures (exists i :: 0 <= i < |ItemsAt(node, "anyOf")| && Violations(num, ItemsAt(node, "anyOf")[i], v) == []) ==>
              (x in Violations(num, node, v) <==> LiteralSaid(node, v, x))
    ensures (forall i :: 0 <= i < |ItemsAt(node, "anyOf")| ==> Violations(num, ItemsAt(node, "anyOf")[i], v) != []) ==>
              Violations(num, node, v) == Explanation(num, ItemsAt(node, "anyOf"), v)
  {
    assert Options(node) == ItemsAt(node, "anyOf");
    LiteralsSaid(node, v, x);
  }
}
