/** The closed response-schema subset of `agent/schema.py`: what a schema may say, what it means,
    and the checker that decides it.

    A schema is plain data, so a node is a `Value` and every keyword is a lookup. `num` gives the
    number a float's `repr` names. */
module Schema {
  import opened Util
  import opened Encoding

  /** JSON-shaped data: what a schema and an answer are. */
  predicate Json(v: Value) {
    Valid(v) && Encodable(v)
  }

  // ---- keywords ------------------------------------------------------------------------------

  function Find(es: seq<Entry>, name: string): (r: Option<Value>)
    ensures r.Some? ==> (es decreases to r.value)
  {
    if es == [] then None
    else if es[0].key == Name(name) then
      assert es decreases to es[0];
      assert es[0] decreases to es[0].value;
      Some(es[0].value)
    else Find(es[1..], name)
  }

  lemma {:induction false} FindJson(es: seq<Entry>, name: string)
    requires forall i :: 0 <= i < |es| ==> Valid(es[i].value) && Encodable(es[i].value)
    ensures Find(es, name).Some? ==> Json(Find(es, name).value)
  {
    if es != [] { FindJson(es[1..], name); }
  }

  /** `node.get(name)`. */
  function Get(node: Value, name: string): (r: Option<Value>)
    requires node.Mapping?
    ensures r.Some? ==> (node decreases to r.value)
    ensures r.Some? && Json(node) ==> Json(r.value)
  {
    assert Json(node) && Find(node.entries, name).Some? ==> Json(Find(node.entries, name).value) by {
      if Json(node) { FindJson(node.entries, name); }
    }
    Find(node.entries, name)
  }

  datatype JsonType = ObjectType | ArrayType | StringType | IntegerType | NumberType | BooleanType | NullType

  const TYPES := [
    ("object", ObjectType), ("array", ArrayType), ("string", StringType), ("integer", IntegerType),
    ("number", NumberType), ("boolean", BooleanType), ("null", NullType)
  ]

  function TypeNamed(name: string, types: seq<(string, JsonType)>): Option<JsonType> {
    if types == [] then None
    else if types[0].0 == name then Some(types[0].1)
    else TypeNamed(name, types[1..])
  }

  /** `node.get("type")`: a null type reads as an absent one. */
  function Kind(node: Value): Option<Value>
    requires node.Mapping?
  {
    if Get(node, "type") == Some(Null) then None else Get(node, "type")
  }

  function TypeOf(node: Value): Option<JsonType>
    requires node.Mapping?
  {
    match Kind(node)
    case Some(Str(name)) => TypeNamed(name, TYPES)
    case _ => None
  }

  const EVERY_NODE := {"type", "anyOf", "enum", "const", "title", "description"}

  function ByType(t: JsonType): set<string> {
    match t
    case ObjectType => {"properties", "required", "additionalProperties"}
    case ArrayType => {"items", "minItems", "maxItems"}
    case StringType => {"minLength", "maxLength"}
    case IntegerType | NumberType => {"minimum", "maximum", "exclusiveMinimum", "exclusiveMaximum"}
    case _ => {}
  }

  predicate OnlyKeywords(es: seq<Entry>, allowed: set<string>) {
    es == [] || (es[0].key.Name? && es[0].key.text in allowed && OnlyKeywords(es[1..], allowed))
  }

  predicate IsNumber(v: Value) {
    v.Int? || v.Float?
  }

  predicate IsSize(v: Value) {
    v.Int? && v.i >= 0
  }

  predicate HasType(t: JsonType, v: Value) {
    match t
    case ObjectType => v.Mapping?
    case ArrayType => v.Sequence?
    case StringType => v.Str?
    case IntegerType => v.Int?
    case NumberType => IsNumber(v)
    case BooleanType => v.Bool?
    case NullType => v.Null?
  }

  /** The items of a list, none for anything else. */
  function Items(v: Option<Value>): (r: seq<Value>)
  {
    match v
    case Some(Sequence(_, items)) => items
    case _ => []
  }

  function Options(node: Value): (r: seq<Value>)
    requires node.Mapping?
    ensures r != [] ==> (node decreases to r)
    ensures forall i :: 0 <= i < |r| ==> (node decreases to r[i]) && (Json(node) ==> Json(r[i]))
  {
    Items(Get(node, "anyOf"))
  }

  function Required(node: Value): seq<Value>
    requires node.Mapping?
  {
    Items(Get(node, "required"))
  }

  function Enum(node: Value): (r: seq<Value>)
    requires node.Mapping?
    ensures forall i :: 0 <= i < |r| ==> Json(node) ==> Json(r[i])
  {
    Items(Get(node, "enum"))
  }

  /** The mapping under "properties", empty when there is none. */
  function Properties(node: Value): (r: seq<Entry>)
    requires node.Mapping?
    ensures r != [] ==> (node decreases to r)
    ensures forall i :: 0 <= i < |r| ==> (node decreases to r[i].value)
    ensures Json(node) ==> forall i :: 0 <= i < |r| ==> Valid(r[i].value) && Encodable(r[i].value)
  {
    match Get(node, "properties")
    case Some(Mapping(frozen, es)) =>
      assert forall i :: 0 <= i < |es| ==> (Mapping(frozen, es) decreases to es[i]) && (es[i] decreases to es[i].value);
      es
    case _ => []
  }

  /** The schema of a declared property. */
  function Property(node: Value, name: string): (r: Option<Value>)
    requires node.Mapping?
    ensures r.Some? ==> (node decreases to r.value)
    ensures r.Some? && Json(node) ==> Json(r.value)
  {
    assert Json(node) && Find(Properties(node), name).Some? ==> Json(Find(Properties(node), name).value) by {
      if Json(node) { FindJson(Properties(node), name); }
    }
    Find(Properties(node), name)
  }

  // ---- the subset, declaratively --------------------------------------------------------------

  predicate Sizes(low: Option<Value>, high: Option<Value>) {
    && (low.Some? ==> IsSize(low.value))
    && (high.Some? ==> IsSize(high.value))
    && (low.Some? && high.Some? ==> low.value.i <= high.value.i)
  }

  predicate BoundOk(bound: Option<Value>) {
    bound.Some? ==> IsNumber(bound.value)
  }

  /** A list of declared property names, each once. */
  predicate AllStrings(items: seq<Value>) {
    forall i :: 0 <= i < |items| ==> items[i].Str?
  }

  predicate NoRepeats(items: seq<Value>) {
    forall i, j :: 0 <= i < j < |items| ==> items[i] != items[j]
  }

  /** Every name in the list is a declared property. */
  predicate AllDeclared(ps: seq<Entry>, items: seq<Value>)
    requires AllStrings(items)
  {
    forall i :: 0 <= i < |items| ==> Find(ps, items[i].s).Some?
  }

  predicate RequiredOk(ps: seq<Entry>, required: Option<Value>) {
    && (required.Some? ==> required.value.Sequence?)
    && AllStrings(Items(required)) && AllDeclared(ps, Items(required)) && NoRepeats(Items(required))
  }

  predicate ObjectOk(node: Value)
    requires node.Mapping?
  {
    && (Get(node, "properties").Some? ==> Get(node, "properties").value.Mapping?)
    && RequiredOk(Properties(node), Get(node, "required"))
    && (Get(node, "additionalProperties").Some? ==> Get(node, "additionalProperties") == Some(Bool(false)))
  }

  predicate TypeOk(node: Value, t: JsonType)
    requires node.Mapping?
  {
    match t
    case ObjectType => ObjectOk(node)
    case ArrayType => Get(node, "items").Some? && Sizes(Get(node, "minItems"), Get(node, "maxItems"))
    case StringType => Sizes(Get(node, "minLength"), Get(node, "maxLength"))
    case IntegerType | NumberType =>
      && BoundOk(Get(node, "minimum")) && BoundOk(Get(node, "maximum"))
      && BoundOk(Get(node, "exclusiveMinimum")) && BoundOk(Get(node, "exclusiveMaximum"))
    case _ => true
  }

  /** What a node says about itself: one type or a list of alternatives, and only the keywords
      that go with it. */
  predicate Structured(node: Value) {
    && node.Mapping?
    && (Get(node, "title").Some? ==> Get(node, "title").value.Str?)
    && (Get(node, "description").Some? ==> Get(node, "description").value.Str?)
    && if Get(node, "anyOf").Some? then
         && Kind(node).None?
         && Get(node, "anyOf").value.Sequence? && Options(node) != []
         && OnlyKeywords(node.entries, EVERY_NODE)
       else
         && TypeOf(node).Some?
         && OnlyKeywords(node.entries, EVERY_NODE + ByType(TypeOf(node).value))
         && TypeOk(node, TypeOf(node).value)
  }

  predicate EnumOk(node: Value)
    requires node.Mapping?
  {
    Get(node, "enum").Some? ==> Get(node, "enum").value.Sequence? && Enum(node) != []
  }

  /** A node the checker can read: structured throughout, whatever its literals are. */
  predicate Shaped(node: Value) {
    && Structured(node) && EnumOk(node)
    && (Get(node, "anyOf").Some? ==> forall i :: 0 <= i < |Options(node)| ==> Shaped(Options(node)[i]))
    && (TypeOf(node) == Some(ObjectType) ==>
          forall i :: 0 <= i < |Properties(node)| ==> Shaped(Properties(node)[i].value))
    && (TypeOf(node) == Some(ArrayType) ==> Shaped(Get(node, "items").value))
  }

  /** Every declared property of a shaped object has a shaped schema. */
  lemma PropertyShaped(node: Value, name: string)
    requires Shaped(node) && TypeOf(node) == Some(ObjectType)
    ensures Property(node, name).Some? ==> Shaped(Property(node, name).value)
  {
    FindShaped(Properties(node), name);
  }

  lemma {:induction false} FindShaped(es: seq<Entry>, name: string)
    requires forall i :: 0 <= i < |es| ==> Shaped(es[i].value)
    ensures Find(es, name).Some? ==> Shaped(Find(es, name).value)
  {
    if es != [] { FindShaped(es[1..], name); }
  }

  // ---- the meaning of a schema ------------------------------------------------------------------

  function Number(num: Repr -> real, v: Value): real
    requires IsNumber(v) && Encodable(v)
  {
    if v.Int? then v.i as real else num(v.f.repr)
  }

  predicate SizeConforms(low: Option<Value>, high: Option<Value>, size: nat)
    requires Sizes(low, high)
  {
    (low.Some? ==> low.value.i <= size) && (high.Some? ==> size <= high.value.i)
  }

  predicate NumberConforms(num: Repr -> real, node: Value, v: Value)
    requires Json(node) && node.Mapping? && TypeOk(node, NumberType)
    requires Json(v) && IsNumber(v)
  {
    var x := Number(num, v);
    && (Get(node, "minimum").Some? ==> Number(num, Get(node, "minimum").value) <= x)
    && (Get(node, "maximum").Some? ==> x <= Number(num, Get(node, "maximum").value))
    && (Get(node, "exclusiveMinimum").Some? ==> Number(num, Get(node, "exclusiveMinimum").value) < x)
    && (Get(node, "exclusiveMaximum").Some? ==> x < Number(num, Get(node, "exclusiveMaximum").value))
  }

  predicate LiteralsConform(node: Value, v: Value)
    requires node.Mapping?
  {
    && (Get(node, "const").Some? ==> Same(v, Get(node, "const").value))
    && (Get(node, "enum").Some? ==> exists i :: 0 <= i < |Enum(node)| && Same(v, Enum(node)[i]))
  }

  /** The declarative meaning: typed literals, closed objects, and `anyOf` as a disjunction. */
  predicate Conforms(num: Repr -> real, node: Value, v: Value)
    requires Shaped(node) && Json(node) && Json(v)
    decreases node, 1
  {
    && LiteralsConform(node, v)
    && if Get(node, "anyOf").Some? then
         exists i :: 0 <= i < |Options(node)| && Conforms(num, Options(node)[i], v)
       else
         HasType(TypeOf(node).value, v) &&
         match TypeOf(node).value
         case ObjectType => ObjectConforms(num, node, v.entries)
         case ArrayType =>
           && SizeConforms(Get(node, "minItems"), Get(node, "maxItems"), |v.items|)
           && AllConform(num, Get(node, "items").value, v.items)
         case StringType => SizeConforms(Get(node, "minLength"), Get(node, "maxLength"), |v.s|)
         case IntegerType | NumberType => NumberConforms(num, node, v)
         case _ => true
  }

  predicate AllConform(num: Repr -> real, item: Value, vs: seq<Value>)
    requires Shaped(item) && Json(item) && forall i :: 0 <= i < |vs| ==> Json(vs[i])
    decreases item, 2
  {
    forall i :: 0 <= i < |vs| ==> Conforms(num, item, vs[i])
  }

  /** Every required property is there, and every property there is declared and conforms. */
  predicate ObjectConforms(num: Repr -> real, node: Value, es: seq<Entry>)
    requires Shaped(node) && Json(node) && Json(Mapping(false, es)) && TypeOf(node) == Some(ObjectType)
    requires Get(node, "anyOf").None?
    decreases node, 0, 2
  {
    && (forall i :: 0 <= i < |Required(node)| ==> Find(es, Required(node)[i].s).Some?)
    && EntriesConform(num, node, es)
  }

  predicate EntriesConform(num: Repr -> real, node: Value, es: seq<Entry>)
    requires Shaped(node) && Json(node) && Json(Mapping(false, es)) && TypeOf(node) == Some(ObjectType)
    decreases node, 0, 1
  {
    forall i :: 0 <= i < |es| ==> EntryConforms(num, node, es[i])
  }

  predicate EntryConforms(num: Repr -> real, node: Value, e: Entry)
    requires Shaped(node) && Json(node) && TypeOf(node) == Some(ObjectType)
    requires e.key.Name? && Json(e.value)
    decreases node, 0, 0
  {
    && Property(node, e.key.text).Some?
    && (PropertyShaped(node, e.key.text); Conforms(num, Property(node, e.key.text).value, e.value))
  }

  // ---- the checker: what `_check_value` appends -----------------------------------------------------

  datatype Violation =
    | ExpectedType(t: JsonType)
    | NotTheConst
    | NotInEnum
    | MissingRequired(name: string)
    | Unexpected(name: string)
    | TooFew(low: int)
    | TooMany(high: int)
    | BelowMinimum
    | AboveMaximum
    | NotAboveExclusive
    | NotBelowExclusive
    | NoAlternative

  function If<T>(condition: bool, item: T): seq<T> {
    if condition then [item] else []
  }

  function Violations(num: Repr -> real, node: Value, v: Value): seq<Violation>
    requires Shaped(node) && Json(node) && Json(v)
    decreases node, 3
  {
    if Get(node, "anyOf").Some? then
      if forall i :: 0 <= i < |Options(node)| ==> Violations(num, Options(node)[i], v) != []
      then Explanation(num, Options(node), v)
      else LiteralViolations(node, v)
    else if !HasType(TypeOf(node).value, v) then [ExpectedType(TypeOf(node).value)]
    else LiteralViolations(node, v) + TypeViolations(num, node, v)
  }

  function LiteralViolations(node: Value, v: Value): seq<Violation>
    requires node.Mapping? && Json(node) && Json(v)
  {
    If(Get(node, "const").Some? && Encode(v) != Encode(Get(node, "const").value), NotTheConst)
    + If(Get(node, "enum").Some? && forall i :: 0 <= i < |Enum(node)| ==> Encode(v) != Encode(Enum(node)[i]), NotInEnum)
  }

  function TypeViolations(num: Repr -> real, node: Value, v: Value): seq<Violation>
    requires Shaped(node) && Json(node) && Json(v)
    requires Get(node, "anyOf").None? && HasType(TypeOf(node).value, v)
    decreases node, 1
  {
    match TypeOf(node).value
    case ObjectType =>
      MissingNames(Required(node), v.entries) + Concat(PropertyViolations(num, node, v.entries))
    case ArrayType =>
      SizeViolations(Get(node, "minItems"), Get(node, "maxItems"), |v.items|)
      + Concat(ItemViolations(num, Get(node, "items").value, v.items))
    case StringType => SizeViolations(Get(node, "minLength"), Get(node, "maxLength"), |v.s|)
    case IntegerType | NumberType => BoundViolations(num, node, v)
    case _ => []
  }

  /** The required names that are missing. */
  function MissingNames(required: seq<Value>, es: seq<Entry>): seq<Violation>
    requires AllStrings(required)
  {
    if required == [] then []
    else
      var name := required[|required| - 1].s;
      MissingNames(required[..|required| - 1], es) + If(Find(es, name).None?, MissingRequired(name))
  }

  lemma {:induction false} NameFound(es: seq<Entry>, name: string)
    requires name in NameSet(es)
    ensures Find(es, name) == Some(Lookup(es, name))
  {
    if es[0].key != Name(name) {
      assert name in NameSet(es[1..]);
      NameFound(es[1..], name);
    }
  }

  /** What each property of the answer violates, in key order. */
  function PropertyViolations(num: Repr -> real, node: Value, es: seq<Entry>): (r: seq<seq<Violation>>)
    requires Shaped(node) && Json(node) && TypeOf(node) == Some(ObjectType) && Json(Mapping(false, es))
    ensures |r| == |SortedNames(es)|
    decreases node, 0, 1
  {
    var names := SortedNames(es);
    seq(|names|, i requires 0 <= i < |names| =>
      assert names[i] in names;
      PropertyViolation(num, node, es, names[i]))
  }

  function PropertyViolation(num: Repr -> real, node: Value, es: seq<Entry>, name: string): seq<Violation>
    requires Shaped(node) && Json(node) && TypeOf(node) == Some(ObjectType) && Json(Mapping(false, es))
    requires name in NameSet(es)
    decreases node, 0, 0
  {
    if Property(node, name).None? then [Unexpected(name)]
    else
      NameFound(es, name);
      FindJson(es, name);
      PropertyShaped(node, name);
      Violations(num, Property(node, name).value, Find(es, name).value)
  }

  /** What each item violates. */
  function ItemViolations(num: Repr -> real, item: Value, items: seq<Value>): (r: seq<seq<Violation>>)
    requires Shaped(item) && Json(item)
    requires forall i :: 0 <= i < |items| ==> Json(items[i])
    ensures |r| == |items|
    decreases item, 4
  {
    seq(|items|, i requires 0 <= i < |items| => Violations(num, item, items[i]))
  }

  function Concat<T>(xss: seq<seq<T>>): seq<T> {
    if xss == [] then [] else Concat(xss[..|xss| - 1]) + xss[|xss| - 1]
  }

  lemma {:induction false} ConcatEmpty<T>(xss: seq<seq<T>>)
    ensures Concat(xss) == [] <==> forall i :: 0 <= i < |xss| ==> xss[i] == []
  {
    if xss != [] {
      ConcatEmpty(xss[..|xss| - 1]);
      assert forall i :: 0 <= i < |xss| - 1 ==> xss[i] == xss[..|xss| - 1][i];
    }
  }

  function SizeViolations(low: Option<Value>, high: Option<Value>, size: nat): seq<Violation>
    requires Sizes(low, high)
  {
    (if low.Some? && size < low.value.i then [TooFew(low.value.i)] else [])
    + (if high.Some? && size > high.value.i then [TooMany(high.value.i)] else [])
  }

  function BoundViolations(num: Repr -> real, node: Value, v: Value): seq<Violation>
    requires Json(node) && node.Mapping? && TypeOk(node, NumberType)
    requires Json(v) && IsNumber(v)
  {
    var x := Number(num, v);
    If(Get(node, "minimum").Some? && x < Number(num, Get(node, "minimum").value), BelowMinimum)
    + If(Get(node, "maximum").Some? && x > Number(num, Get(node, "maximum").value), AboveMaximum)
    + If(Get(node, "exclusiveMinimum").Some? && x <= Number(num, Get(node, "exclusiveMinimum").value), NotAboveExclusive)
    + If(Get(node, "exclusiveMaximum").Some? && x >= Number(num, Get(node, "exclusiveMaximum").value), NotBelowExclusive)
  }

  /** `_could_be`: the answer has the alternative's type and agrees with its discriminators. */
  predicate CouldBe(option: Value, v: Value)
    requires Shaped(option) && Json(option) && Json(v)
    decreases option
  {
    if Get(option, "anyOf").Some? then exists i :: 0 <= i < |Options(option)| && CouldBe(Options(option)[i], v)
    else
      && HasType(TypeOf(option).value, v)
      && (TypeOf(option) == Some(ObjectType) ==>
            forall i :: 0 <= i < |Properties(option)| ==> Discriminates(Properties(option)[i], v.entries))
  }

  /** The answer has the property, with its const, when the property has one. */
  predicate Discriminates(property: Entry, es: seq<Entry>)
    requires property.key.Name? && Shaped(property.value) && Json(property.value)
    requires forall i :: 0 <= i < |es| ==> Valid(es[i].value) && Encodable(es[i].value)
  {
    FindJson(es, property.key.text);
    Get(property.value, "const").Some? ==>
      && Find(es, property.key.text).Some?
      && Encode(Find(es, property.key.text).value) == Encode(Get(property.value, "const").value)
  }

  predicate AllShaped(options: seq<Value>) {
    forall i :: 0 <= i < |options| ==> Shaped(options[i]) && Json(options[i])
  }

  /** The alternatives the answer was evidently meant as. */
  function Meant(options: seq<Value>, v: Value): (r: seq<Value>)
    requires AllShaped(options) && Json(v)
    ensures forall x :: x in r ==> x in options
  {
    if options == [] then [] else If(CouldBe(options[0], v), options[0]) + Meant(options[1..], v)
  }

  /** `_explain_alternatives`: the one meant alternative's violations, or one violation of its own. */
  function Explanation(num: Repr -> real, options: seq<Value>, v: Value): seq<Violation>
    requires AllShaped(options) && Json(v)
    decreases options, 4
  {
    if |Meant(options, v)| == 1 then
      assert Meant(options, v)[0] in options;
      Violations(num, Meant(options, v)[0], v)
    else [NoAlternative]
  }

  // ---- the checker decides the meaning ---------------------------------------------------------------

  /** An answer that matches no alternative is always told so: the explanation is never empty. */
  lemma ExplanationExplains(num: Repr -> real, options: seq<Value>, v: Value)
    requires AllShaped(options) && Json(v)
    requires forall i :: 0 <= i < |options| ==> Violations(num, options[i], v) != []
    ensures Explanation(num, options, v) != []
  {
    if |Meant(options, v)| == 1 {
      assert Meant(options, v)[0] in options;
    }
  }

  lemma LiteralDecided(v: Value, literal: Value)
    requires Json(v) && Json(literal)
    ensures Encode(v) == Encode(literal) <==> Same(v, literal)
  {
    EncodingIdentifies(v, literal);
  }

  lemma LiteralsDecided(node: Value, v: Value)
    requires node.Mapping? && Json(node) && Json(v)
    ensures LiteralViolations(node, v) == [] <==> LiteralsConform(node, v)
  {
    if Get(node, "const").Some? { LiteralDecided(v, Get(node, "const").value); }
    forall i | 0 <= i < |Enum(node)| ensures Encode(v) == Encode(Enum(node)[i]) <==> Same(v, Enum(node)[i]) {
      LiteralDecided(v, Enum(node)[i]);
    }
  }

  lemma {:induction false} MissingDecided(required: seq<Value>, es: seq<Entry>)
    requires AllStrings(required)
    ensures MissingNames(required, es) == [] <==> forall i :: 0 <= i < |required| ==> Find(es, required[i].s).Some?
  {
    if required != [] {
      MissingDecided(required[..|required| - 1], es);
      assert required == required[..|required| - 1] + [required[|required| - 1]];
    }
  }

  predicate Decided(num: Repr -> real, node: Value, v: Value)
    requires Shaped(node) && Json(node) && Json(v)
  {
    Violations(num, node, v) == [] <==> Conforms(num, node, v)
  }

  /** Soundness and completeness of `_check_value`, by recursion over the schema. */
  lemma {:induction false} CheckDecides(num: Repr -> real, node: Value, v: Value)
    requires Shaped(node) && Json(node) && Json(v)
    ensures Decided(num, node, v)
    decreases node, 1
  {
    LiteralsDecided(node, v);
    if Get(node, "anyOf").Some? {
      OptionsDecided(num, node, v);
      AlternativesDecided(num, node, v);
    } else if HasType(TypeOf(node).value, v) {
      if TypeOf(node) == Some(ObjectType) { EntriesDecided(num, node, v.entries); }
      else if TypeOf(node) == Some(ArrayType) { ElementsDecided(num, Get(node, "items").value, v.items); }
      else { ScalarDecided(num, node, v); }
    }
  }

  lemma ScalarDecided(num: Repr -> real, node: Value, v: Value)
    requires Shaped(node) && Json(node) && Json(v) && Get(node, "anyOf").None? && HasType(TypeOf(node).value, v)
    requires TypeOf(node) != Some(ObjectType) && TypeOf(node) != Some(ArrayType)
    requires LiteralViolations(node, v) == [] <==> LiteralsConform(node, v)
    ensures Decided(num, node, v)
  {
  }

  lemma {:induction false} OptionsDecided(num: Repr -> real, node: Value, v: Value)
    requires Shaped(node) && Json(node) && Json(v) && Get(node, "anyOf").Some?
    ensures forall i :: 0 <= i < |Options(node)| ==> Decided(num, Options(node)[i], v)
    decreases node, 0
  {
    forall i | 0 <= i < |Options(node)| ensures Decided(num, Options(node)[i], v) {
      CheckDecides(num, Options(node)[i], v);
    }
  }

  lemma {:induction false} EntriesDecided(num: Repr -> real, node: Value, es: seq<Entry>)
    requires Shaped(node) && Json(node) && TypeOf(node) == Some(ObjectType) && Json(Mapping(false, es))
    requires Get(node, "anyOf").None?
    ensures MissingNames(Required(node), es) == [] && Concat(PropertyViolations(num, node, es)) == []
            <==> ObjectConforms(num, node, es)
    decreases node, 0
  {
    forall i | 0 <= i < |es| ensures EntryDecided(num, node, es[i]) {
      if Property(node, es[i].key.text).Some? {
        PropertyShaped(node, es[i].key.text);
        CheckDecides(num, Property(node, es[i].key.text).value, es[i].value);
      }
    }
    ObjectDecided(num, node, es);
  }

  lemma {:induction false} ElementsDecided(num: Repr -> real, item: Value, items: seq<Value>)
    requires Shaped(item) && Json(item) && forall i :: 0 <= i < |items| ==> Json(items[i])
    ensures Concat(ItemViolations(num, item, items)) == [] <==> AllConform(num, item, items)
    decreases item, 2
  {
    forall i | 0 <= i < |items| ensures Decided(num, item, items[i]) { CheckDecides(num, item, items[i]); }
    ItemsDecided(num, item, items);
  }

  predicate SomeConforms(num: Repr -> real, options: seq<Value>, v: Value)
    requires AllShaped(options) && Json(v)
  {
    exists i :: 0 <= i < |options| && Conforms(num, options[i], v)
  }

  predicate AllRefused(num: Repr -> real, options: seq<Value>, v: Value)
    requires AllShaped(options) && Json(v)
  {
    forall i :: 0 <= i < |options| ==> Violations(num, options[i], v) != []
  }

  /** Some alternative conforms if and only if one is not refused. */
  lemma SomeAlternative(num: Repr -> real, options: seq<Value>, v: Value)
    requires AllShaped(options) && Json(v)
    requires forall i :: 0 <= i < |options| ==> Decided(num, options[i], v)
    ensures SomeConforms(num, options, v) <==> !AllRefused(num, options, v)
  {
  }

  lemma AlternativesMean(num: Repr -> real, node: Value, v: Value)
    requires Shaped(node) && Json(node) && Json(v) && Get(node, "anyOf").Some?
    ensures Conforms(num, node, v) <==> LiteralsConform(node, v) && SomeConforms(num, Options(node), v)
  {
  }

  lemma AlternativesChecked(num: Repr -> real, node: Value, v: Value)
    requires Shaped(node) && Json(node) && Json(v) && Get(node, "anyOf").Some?
    ensures Violations(num, node, v)
         == if AllRefused(num, Options(node), v) then Explanation(num, Options(node), v) else LiteralViolations(node, v)
  {
  }

  lemma AlternativesDecided(num: Repr -> real, node: Value, v: Value)
    requires Shaped(node) && Json(node) && Json(v) && Get(node, "anyOf").Some?
    requires forall i :: 0 <= i < |Options(node)| ==> Decided(num, Options(node)[i], v)
    requires LiteralViolations(node, v) == [] <==> LiteralsConform(node, v)
    ensures Decided(num, node, v)
  {
    SomeAlternative(num, Options(node), v);
    AlternativesMean(num, node, v);
    AlternativesChecked(num, node, v);
    if AllRefused(num, Options(node), v) { ExplanationExplains(num, Options(node), v); }
  }

  lemma ObjectDecided(num: Repr -> real, node: Value, es: seq<Entry>)
    requires Shaped(node) && Json(node) && TypeOf(node) == Some(ObjectType) && Json(Mapping(false, es))
    requires Get(node, "anyOf").None?
    requires forall i :: 0 <= i < |es| ==> EntryDecided(num, node, es[i])
    ensures MissingNames(Required(node), es) == [] && Concat(PropertyViolations(num, node, es)) == []
            <==> ObjectConforms(num, node, es)
  {
    MissingDecided(Required(node), es);
    PropertiesDecided(num, node, es);
  }

  lemma PropertiesDecided(num: Repr -> real, node: Value, es: seq<Entry>)
    requires Shaped(node) && Json(node) && TypeOf(node) == Some(ObjectType) && Json(Mapping(false, es))
    requires forall i :: 0 <= i < |es| ==> EntryDecided(num, node, es[i])
    ensures Concat(PropertyViolations(num, node, es)) == [] <==> EntriesConform(num, node, es)
  {
    if Concat(PropertyViolations(num, node, es)) == [] {
      forall i | 0 <= i < |es| ensures EntryConforms(num, node, es[i]) { CleanEntryConforms(num, node, es, i); }
    } else if forall i :: 0 <= i < |es| ==> EntryConforms(num, node, es[i]) {
      ConformingPropertiesClean(num, node, es);
    }
  }

  /** What the checker finds about one property agrees with its meaning. */
  predicate EntryDecided(num: Repr -> real, node: Value, e: Entry)
    requires Shaped(node) && Json(node) && TypeOf(node) == Some(ObjectType)
    requires e.key.Name? && Json(e.value)
  {
    Property(node, e.key.text).Some? ==>
      (PropertyShaped(node, e.key.text); Decided(num, Property(node, e.key.text).value, e.value))
  }

  /** The one entry under a key. */
  lemma EntryOf(es: seq<Entry>, name: string) returns (i: nat)
    requires Json(Mapping(false, es)) && name in NameSet(es)
    ensures i < |es| && es[i].key == Name(name) && Find(es, name) == Some(es[i].value)
    ensures forall j :: 0 <= j < |es| && es[j].key.text == name ==> j == i
  {
    NameFound(es, name);
    i :| i < |es| && es[i].key == Name(name);
    LookupUnique(es, i);
  }

  /** Each place in the key order belongs to one property of the answer. */
  lemma PropertyDecided(num: Repr -> real, node: Value, es: seq<Entry>, k: nat) returns (i: nat)
    requires Shaped(node) && Json(node) && TypeOf(node) == Some(ObjectType) && Json(Mapping(false, es))
    requires k < |SortedNames(es)| && forall i :: 0 <= i < |es| ==> EntryDecided(num, node, es[i])
    ensures i < |es| && SortedNames(es)[k] == es[i].key.text
    ensures PropertyViolations(num, node, es)[k] == [] <==> EntryConforms(num, node, es[i])
  {
    assert SortedNames(es)[k] in SortedNames(es);
    i := EntryOf(es, SortedNames(es)[k]);
    assert EntryDecided(num, node, es[i]);
  }

  lemma CleanEntryConforms(num: Repr -> real, node: Value, es: seq<Entry>, i: nat)
    requires Shaped(node) && Json(node) && TypeOf(node) == Some(ObjectType) && Json(Mapping(false, es))
    requires forall j :: 0 <= j < |es| ==> EntryDecided(num, node, es[j])
    requires i < |es| && Concat(PropertyViolations(num, node, es)) == []
    ensures EntryConforms(num, node, es[i])
  {
    ConcatEmpty(PropertyViolations(num, node, es));
    var k := PlaceOf(es, i);
    var j := PropertyDecided(num, node, es, k);
  }

  lemma ConformingPropertiesClean(num: Repr -> real, node: Value, es: seq<Entry>)
    requires Shaped(node) && Json(node) && TypeOf(node) == Some(ObjectType) && Json(Mapping(false, es))
    requires forall j :: 0 <= j < |es| ==> EntryDecided(num, node, es[j])
    requires forall i :: 0 <= i < |es| ==> EntryConforms(num, node, es[i])
    ensures Concat(PropertyViolations(num, node, es)) == []
  {
    var found := PropertyViolations(num, node, es);
    forall k | 0 <= k < |found| ensures found[k] == [] {
      var i := PropertyDecided(num, node, es, k);
    }
    ConcatEmpty(found);
  }

  lemma PlaceOf(es: seq<Entry>, i: nat) returns (k: nat)
    requires Json(Mapping(false, es)) && i < |es|
    ensures k < |SortedNames(es)| && SortedNames(es)[k] == es[i].key.text
    ensures forall j :: 0 <= j < |es| && es[j].key.text == es[i].key.text ==> j == i
  {
    assert es[i] in es;
    assert es[i].key.text in NameSet(es) && es[i].key.text in SortedNames(es);
    k :| 0 <= k < |SortedNames(es)| && SortedNames(es)[k] == es[i].key.text;
    var j := EntryOf(es, es[i].key.text);
  }

  lemma ItemDecided(num: Repr -> real, item: Value, items: seq<Value>, i: nat)
    requires Shaped(item) && Json(item) && i < |items|
    requires forall j :: 0 <= j < |items| ==> Json(items[j])
    requires Decided(num, item, items[i])
    ensures ItemViolations(num, item, items)[i] == [] <==> Conforms(num, item, items[i])
  {
  }

  lemma ItemsDecided(num: Repr -> real, item: Value, items: seq<Value>)
    requires Shaped(item) && Json(item)
    requires forall i :: 0 <= i < |items| ==> Json(items[i]) && Decided(num, item, items[i])
    ensures Concat(ItemViolations(num, item, items)) == [] <==> AllConform(num, item, items)
  {
    var found := ItemViolations(num, item, items);
    ConcatEmpty(found);
    forall i | 0 <= i < |items| ensures found[i] == [] <==> Conforms(num, item, items[i]) {
      ItemDecided(num, item, items, i);
    }
  }
}
