/** Checking a schema before it is used (`agent/schema.py`, `check_response_schema`), and what the check of
    schemas and the check of answers give together. */
module SchemaCheck {
  import opened Util
  import opened Encoding
  import opened Schema

  // ---- the schema check: what `_check_node` appends ----------------------------------------------------

  datatype Reason =
    | RootNotObject
    | NotAMapping
    | AnnotationNotString(name: string)
    | TypeAndAnyOf
    | BadAlternatives
    | NoType
    | UnknownType
    | UnsupportedKeyword(name: string)
    | PropertiesNotObject
    | BadRequired
    | RequiredRepeats
    | Undeclared(name: string)
    | OpenObject
    | NoItems
    | BadSize(name: string)
    | SizesCross
    | BadBound(name: string)
    | BadEnum
    | LiteralRefused

  function NodeReasons(num: Repr -> real, node: Value): (r: seq<Reason>)
    requires Json(node)
    ensures r == [] ==> Shaped(node)
    decreases node, 10
  {
    var local := ShapeReasons(num, node);
    if local != [] then local
    else
      ShapeSound(num, node);
      BareShaped(node);
      BareJson(node);
      LiteralReasons(num, node)
  }

  function ShapeReasons(num: Repr -> real, node: Value): seq<Reason>
    requires Json(node)
    decreases node, 3
  {
    if !node.Mapping? then [NotAMapping]
    else
      AnnotationReasons(node)
      + if Get(node, "anyOf").Some? then
          If(Kind(node).Some?, TypeAndAnyOf)
          + (if Options(node) == [] then [BadAlternatives] else Concat(AlternativeReasons(num, node)))
          + KeywordReasons(SortedNames(node.entries), EVERY_NODE)
          + TypeReasons(num, node)
        else if Kind(node).None? then [NoType]
        else if TypeOf(node).None? then [UnknownType]
        else
          KeywordReasons(SortedNames(node.entries), EVERY_NODE + ByType(TypeOf(node).value))
          + TypeReasons(num, node)
  }

  function AnnotationReasons(node: Value): seq<Reason>
    requires node.Mapping?
  {
    If(Get(node, "title").Some? && !Get(node, "title").value.Str?, AnnotationNotString("title"))
    + If(Get(node, "description").Some? && !Get(node, "description").value.Str?, AnnotationNotString("description"))
  }

  function AlternativeReasons(num: Repr -> real, node: Value): (r: seq<seq<Reason>>)
    requires Json(node) && node.Mapping?
    ensures |r| == |Options(node)|
    decreases node, 0
  {
    seq(|Options(node)|, i requires 0 <= i < |Options(node)| => NodeReasons(num, Options(node)[i]))
  }

  /** The keywords outside the allowed ones, in order. */
  function KeywordReasons(names: seq<string>, allowed: set<string>): seq<Reason> {
    if names == [] then [] else If(names[0] !in allowed, UnsupportedKeyword(names[0])) + KeywordReasons(names[1..], allowed)
  }

  function TypeReasons(num: Repr -> real, node: Value): seq<Reason>
    requires Json(node) && node.Mapping?
    decreases node, 2
  {
    match TypeOf(node)
    case Some(ObjectType) => ObjectReasons(num, node)
    case Some(ArrayType) =>
      (if Get(node, "items").None? then [NoItems] else NodeReasons(num, Get(node, "items").value))
      + SizeReasons(Get(node, "minItems"), Get(node, "maxItems"), "minItems", "maxItems")
    case Some(StringType) => SizeReasons(Get(node, "minLength"), Get(node, "maxLength"), "minLength", "maxLength")
    case Some(IntegerType) | Some(NumberType) => BoundReasons(node)
    case _ => []
  }

  function ObjectReasons(num: Repr -> real, node: Value): seq<Reason>
    requires Json(node) && node.Mapping?
    decreases node, 1
  {
    If(Get(node, "properties").Some? && !Get(node, "properties").value.Mapping?, PropertiesNotObject)
    + Concat(PropertyReasons(num, node))
    + RequiredReasons(Properties(node), Get(node, "required"))
    + If(Get(node, "additionalProperties").Some? && Get(node, "additionalProperties") != Some(Bool(false)), OpenObject)
  }

  function PropertyReasons(num: Repr -> real, node: Value): (r: seq<seq<Reason>>)
    requires Json(node) && node.Mapping?
    ensures |r| == |Properties(node)|
    decreases node, 0
  {
    seq(|Properties(node)|, i requires 0 <= i < |Properties(node)| => NodeReasons(num, Properties(node)[i].value))
  }

  function RequiredReasons(ps: seq<Entry>, required: Option<Value>): seq<Reason> {
    if (required.Some? && !required.value.Sequence?) || !AllStrings(Items(required)) then [BadRequired]
    else
      If(!NoRepeats(Items(required)), RequiredRepeats)
      + UndeclaredReasons(ps, Items(required))
  }

  function UndeclaredReasons(ps: seq<Entry>, required: seq<Value>): seq<Reason>
    requires AllStrings(required)
  {
    if required == [] then []
    else If(Find(ps, required[0].s).None?, Undeclared(required[0].s)) + UndeclaredReasons(ps, required[1..])
  }

  function SizeReasons(low: Option<Value>, high: Option<Value>, lowName: string, highName: string): seq<Reason> {
    If(low.Some? && !IsSize(low.value), BadSize(lowName))
    + If(high.Some? && !IsSize(high.value), BadSize(highName))
    + If(low.Some? && high.Some? && IsSize(low.value) && IsSize(high.value) && low.value.i > high.value.i, SizesCross)
  }

  function BoundReasons(node: Value): seq<Reason>
    requires node.Mapping?
  {
    If(!BoundOk(Get(node, "exclusiveMaximum")), BadBound("exclusiveMaximum"))
    + If(!BoundOk(Get(node, "exclusiveMinimum")), BadBound("exclusiveMinimum"))
    + If(!BoundOk(Get(node, "maximum")), BadBound("maximum"))
    + If(!BoundOk(Get(node, "minimum")), BadBound("minimum"))
  }

  /** The node without its literals: what each of its literals must satisfy. */
  function Bare(node: Value): Value
    requires node.Mapping?
  {
    Mapping(false, Filtered(node.entries))
  }

  function Filtered(es: seq<Entry>): (r: seq<Entry>)
    ensures forall e :: e in r ==> e in es && e.key != Name("enum") && e.key != Name("const")
  {
    if es == [] then []
    else if es[0].key == Name("enum") || es[0].key == Name("const") then Filtered(es[1..])
    else [es[0]] + Filtered(es[1..])
  }

  /** The literals a node carries: its enum's, then its const. */
  function Literals(node: Value): (r: seq<Value>)
    requires node.Mapping?
    ensures Json(node) ==> forall i :: 0 <= i < |r| ==> Json(r[i])
  {
    Enum(node) + (if Get(node, "const").Some? then [Get(node, "const").value] else [])
  }

  /** `_check_literals`: enum and const must be satisfiable by the node they sit on. */
  function LiteralReasons(num: Repr -> real, node: Value): (r: seq<Reason>)
    requires node.Mapping? && Json(node) && Json(Bare(node)) && Shaped(Bare(node))
    ensures r == [] ==> EnumOk(node)
  {
    if Get(node, "enum").Some? && Enum(node) == [] then [BadEnum]
    else LiteralsRefused(num, Bare(node), Literals(node))
  }

  function LiteralsRefused(num: Repr -> real, bare: Value, literals: seq<Value>): seq<Reason>
    requires Json(bare) && Shaped(bare) && forall i :: 0 <= i < |literals| ==> Json(literals[i])
  {
    if literals == [] then []
    else If(Violations(num, bare, literals[0]) != [], LiteralRefused) + LiteralsRefused(num, bare, literals[1..])
  }

  // ---- the subset the check accepts --------------------------------------------------------------------

  lemma {:induction false} FilteredFind(es: seq<Entry>, name: string)
    requires name != "enum" && name != "const"
    ensures Find(Filtered(es), name) == Find(es, name)
  {
    if es != [] { FilteredFind(es[1..], name); }
  }

  lemma {:induction false} FilteredKeywords(es: seq<Entry>, allowed: set<string>)
    requires "enum" in allowed && "const" in allowed
    ensures OnlyKeywords(Filtered(es), allowed) <==> OnlyKeywords(es, allowed)
  {
    if es != [] { FilteredKeywords(es[1..], allowed); }
  }

  lemma {:induction false} FilteredDistinct(es: seq<Entry>)
    requires DistinctKeys(es)
    ensures DistinctKeys(Filtered(es))
  {
    if es != [] {
      FilteredDistinct(es[1..]);
      assert forall i :: 0 <= i < |Filtered(es[1..])| ==> Filtered(es[1..])[i] in es[1..];
    }
  }

  lemma BareJson(node: Value)
    requires node.Mapping? && Json(node)
    ensures Json(Bare(node))
  {
    FilteredDistinct(node.entries);
    assert forall i :: 0 <= i < |Filtered(node.entries)| ==> Filtered(node.entries)[i] in node.entries;
  }

  lemma BareGet(node: Value, name: string)
    requires node.Mapping? && name != "enum" && name != "const"
    ensures Get(Bare(node), name) == Get(node, name)
  {
    FilteredFind(node.entries, name);
  }

  lemma BareStructured(node: Value)
    requires node.Mapping?
    ensures Structured(Bare(node)) <==> Structured(node)
    ensures TypeOf(Bare(node)) == TypeOf(node)
    ensures Get(Bare(node), "anyOf") == Get(node, "anyOf")
    ensures Properties(Bare(node)) == Properties(node) && Get(Bare(node), "items") == Get(node, "items")
  {
    BareSame(node);
    BareTypeOk(node);
    BareKeywords(node);
  }

  lemma BareSame(node: Value)
    requires node.Mapping?
    ensures Get(Bare(node), "title") == Get(node, "title") && Get(Bare(node), "description") == Get(node, "description")
    ensures Get(Bare(node), "anyOf") == Get(node, "anyOf")
    ensures Kind(Bare(node)) == Kind(node) && TypeOf(Bare(node)) == TypeOf(node)
    ensures Properties(Bare(node)) == Properties(node) && Get(Bare(node), "items") == Get(node, "items")
  {
    BareGet(node, "title");
    BareGet(node, "description");
    BareGet(node, "anyOf");
    BareGet(node, "type");
    BareGet(node, "items");
    BareGet(node, "properties");
  }

  lemma BareKeywords(node: Value)
    requires node.Mapping?
    ensures OnlyKeywords(Bare(node).entries, EVERY_NODE) <==> OnlyKeywords(node.entries, EVERY_NODE)
    ensures TypeOf(node).Some? ==>
              (OnlyKeywords(Bare(node).entries, EVERY_NODE + ByType(TypeOf(node).value))
               <==> OnlyKeywords(node.entries, EVERY_NODE + ByType(TypeOf(node).value)))
  {
    FilteredKeywords(node.entries, EVERY_NODE);
    if TypeOf(node).Some? { FilteredKeywords(node.entries, EVERY_NODE + ByType(TypeOf(node).value)); }
  }

  lemma BareTypeOk(node: Value)
    requires node.Mapping?
    ensures forall t :: TypeOk(Bare(node), t) <==> TypeOk(node, t)
  {
    BareGet(node, "properties");
    BareGet(node, "required");
    BareGet(node, "additionalProperties");
    BareGet(node, "items");
    BareGet(node, "minItems");
    BareGet(node, "maxItems");
    BareGet(node, "minLength");
    BareGet(node, "maxLength");
    BareGet(node, "minimum");
    BareGet(node, "maximum");
    BareGet(node, "exclusiveMinimum");
    BareGet(node, "exclusiveMaximum");
    assert ObjectOk(Bare(node)) <==> ObjectOk(node) by {
      assert Properties(Bare(node)) == Properties(node) && Required(Bare(node)) == Required(node);
    }
  }

  /** The nodes this one is built from are shaped. */
  predicate PartsShaped(node: Value)
    requires node.Mapping?
  {
    && (Get(node, "anyOf").Some? ==> forall i :: 0 <= i < |Options(node)| ==> Shaped(Options(node)[i]))
    && (TypeOf(node) == Some(ObjectType) ==>
          forall i :: 0 <= i < |Properties(node)| ==> Shaped(Properties(node)[i].value))
    && (TypeOf(node) == Some(ArrayType) && Get(node, "items").Some? ==> Shaped(Get(node, "items").value))
  }

  lemma BareShaped(node: Value)
    requires node.Mapping? && Structured(node) && PartsShaped(node)
    ensures Shaped(Bare(node))
  {
    BareStructured(node);
    FilteredLiterals(node.entries);
  }

  lemma {:induction false} FilteredLiterals(es: seq<Entry>)
    ensures Find(Filtered(es), "enum").None? && Find(Filtered(es), "const").None?
  {
    if es != [] { FilteredLiterals(es[1..]); }
  }

  /** The check found nothing in the nodes this one is built from. */
  predicate PartsClean(num: Repr -> real, node: Value)
    requires Json(node) && node.Mapping?
    decreases node, 4
  {
    && (Get(node, "anyOf").Some? ==> forall i :: 0 <= i < |Options(node)| ==> NodeReasons(num, Options(node)[i]) == [])
    && (TypeOf(node) == Some(ObjectType) ==>
          forall i :: 0 <= i < |Properties(node)| ==> NodeReasons(num, Properties(node)[i].value) == [])
    && (TypeOf(node) == Some(ArrayType) && Get(node, "items").Some? ==> NodeReasons(num, Get(node, "items").value) == [])
  }

  lemma {:induction false} KeywordsExact(es: seq<Entry>, allowed: set<string>)
    requires AllNames(es)
    ensures OnlyKeywords(es, allowed) <==> NameSet(es) <= allowed
  {
    if es != [] {
      KeywordsExact(es[1..], allowed);
      assert es == [es[0]] + es[1..];
      assert NameSet(es) == {es[0].key.text} + NameSet(es[1..]);
    }
  }

  lemma {:induction false} KeywordReasonsExact(names: seq<string>, allowed: set<string>)
    ensures KeywordReasons(names, allowed) == [] <==> forall n :: n in names ==> n in allowed
  {
    if names != [] {
      KeywordReasonsExact(names[1..], allowed);
      assert names == [names[0]] + names[1..];
    }
  }

  lemma KeywordsChecked(node: Value, allowed: set<string>)
    requires Json(node) && node.Mapping?
    ensures KeywordReasons(SortedNames(node.entries), allowed) == [] <==> OnlyKeywords(node.entries, allowed)
  {
    KeywordReasonsExact(SortedNames(node.entries), allowed);
    KeywordsExact(node.entries, allowed);
  }

  lemma {:induction false} UndeclaredExact(ps: seq<Entry>, required: seq<Value>)
    requires AllStrings(required)
    ensures UndeclaredReasons(ps, required) == [] <==> AllDeclared(ps, required)
  {
    if required != [] {
      UndeclaredExact(ps, required[1..]);
      assert required == [required[0]] + required[1..];
    }
  }

  lemma PropertiesClean(num: Repr -> real, node: Value)
    requires Json(node) && node.Mapping?
    ensures Concat(PropertyReasons(num, node)) == [] <==>
            forall i :: 0 <= i < |Properties(node)| ==> NodeReasons(num, Properties(node)[i].value) == []
    decreases node, 4
  {
    var found := PropertyReasons(num, node);
    ConcatEmpty(found);
    forall i | 0 <= i < |found| ensures found[i] == NodeReasons(num, Properties(node)[i].value) {}
  }

  lemma AlternativesClean(num: Repr -> real, node: Value)
    requires Json(node) && node.Mapping?
    ensures Concat(AlternativeReasons(num, node)) == [] <==>
            forall i :: 0 <= i < |Options(node)| ==> NodeReasons(num, Options(node)[i]) == []
    decreases node, 4
  {
    var found := AlternativeReasons(num, node);
    ConcatEmpty(found);
    forall i | 0 <= i < |found| ensures found[i] == NodeReasons(num, Options(node)[i]) {}
  }

  lemma RequiredExact(ps: seq<Entry>, required: Option<Value>)
    ensures RequiredReasons(ps, required) == [] <==> RequiredOk(ps, required)
  {
    if AllStrings(Items(required)) {
      UndeclaredExact(ps, Items(required));
    }
  }

  lemma ObjectExact(num: Repr -> real, node: Value)
    requires Json(node) && node.Mapping?
    ensures ObjectReasons(num, node) == [] <==>
            ObjectOk(node) && forall i :: 0 <= i < |Properties(node)| ==> NodeReasons(num, Properties(node)[i].value) == []
    decreases node, 5
  {
    PropertiesClean(num, node);
    RequiredExact(Properties(node), Get(node, "required"));
  }

  lemma TypeExact(num: Repr -> real, node: Value)
    requires Json(node) && node.Mapping? && TypeOf(node).Some? && Get(node, "anyOf").None?
    ensures TypeReasons(num, node) == [] <==> TypeOk(node, TypeOf(node).value) && PartsClean(num, node)
    decreases node, 6
  {
    match TypeOf(node).value
    case ObjectType => ObjectExact(num, node);
    case ArrayType => ArrayExact(num, node);
    case _ => ScalarExact(num, node);
  }

  lemma ScalarExact(num: Repr -> real, node: Value)
    requires Json(node) && node.Mapping? && TypeOf(node).Some? && Get(node, "anyOf").None?
    requires TypeOf(node) != Some(ObjectType) && TypeOf(node) != Some(ArrayType)
    ensures TypeReasons(num, node) == [] <==> TypeOk(node, TypeOf(node).value)
    decreases node, 5
  {
    SizesExact(Get(node, "minLength"), Get(node, "maxLength"), "minLength", "maxLength");
    BoundsExact(node);
  }

  lemma ArrayExact(num: Repr -> real, node: Value)
    requires Json(node) && node.Mapping? && TypeOf(node) == Some(ArrayType) && Get(node, "anyOf").None?
    ensures TypeReasons(num, node) == [] <==> TypeOk(node, ArrayType) && PartsClean(num, node)
    decreases node, 5
  {
    SizesExact(Get(node, "minItems"), Get(node, "maxItems"), "minItems", "maxItems");
  }

  lemma SizesExact(low: Option<Value>, high: Option<Value>, lowName: string, highName: string)
    ensures SizeReasons(low, high, lowName, highName) == [] <==> Sizes(low, high)
  {
  }

  lemma BoundsExact(node: Value)
    requires node.Mapping?
    ensures BoundReasons(node) == [] <==> TypeOk(node, NumberType)
  {
  }

  /** `_check_shape` accepts exactly the structured nodes whose parts it accepts. */
  lemma ShapeExact(num: Repr -> real, node: Value)
    requires Json(node)
    ensures ShapeReasons(num, node) == [] <==> Structured(node) && PartsClean(num, node)
    decreases node, 8
  {
    if node.Mapping? {
      if Get(node, "anyOf").Some? { AlternativesShapeExact(num, node); }
      else { TypedShapeExact(num, node); }
    }
  }

  lemma AlternativesShapeExact(num: Repr -> real, node: Value)
    requires Json(node) && node.Mapping? && Get(node, "anyOf").Some?
    ensures ShapeReasons(num, node) == [] <==> Structured(node) && PartsClean(num, node)
    decreases node, 7
  {
    AlternativesClean(num, node);
    KeywordsChecked(node, EVERY_NODE);
  }

  lemma TypedShapeExact(num: Repr -> real, node: Value)
    requires Json(node) && node.Mapping? && Get(node, "anyOf").None?
    ensures ShapeReasons(num, node) == [] <==> Structured(node) && PartsClean(num, node)
    decreases node, 7
  {
    if TypeOf(node).Some? {
      TypeExact(num, node);
      KeywordsChecked(node, EVERY_NODE + ByType(TypeOf(node).value));
    }
  }

  lemma ShapeSound(num: Repr -> real, node: Value)
    requires Json(node) && ShapeReasons(num, node) == []
    ensures Structured(node) && PartsShaped(node)
    decreases node, 9
  {
    ShapeExact(num, node);
  }

  /** The schemas the check is for: structured throughout, with every literal satisfying the node
      it sits on. */
  predicate WellFormed(num: Repr -> real, node: Value)
    requires Json(node)
    ensures WellFormed(num, node) ==> Shaped(node)
    decreases node, 1
  {
    && Structured(node) && EnumOk(node) && PartsWellFormed(num, node)
    && (BareShaped(node); BareJson(node);
        forall i :: 0 <= i < |Literals(node)| ==> Conforms(num, Bare(node), Literals(node)[i]))
  }

  predicate PartsWellFormed(num: Repr -> real, node: Value)
    requires Json(node) && node.Mapping?
    ensures PartsWellFormed(num, node) ==> PartsShaped(node)
    decreases node, 0
  {
    && (Get(node, "anyOf").Some? ==> forall i :: 0 <= i < |Options(node)| ==> WellFormed(num, Options(node)[i]))
    && (TypeOf(node) == Some(ObjectType) ==>
          forall i :: 0 <= i < |Properties(node)| ==> WellFormed(num, Properties(node)[i].value))
    && (TypeOf(node) == Some(ArrayType) && Get(node, "items").Some? ==> WellFormed(num, Get(node, "items").value))
  }

  lemma {:induction false} LiteralsExact(num: Repr -> real, bare: Value, literals: seq<Value>)
    requires Json(bare) && Shaped(bare) && forall i :: 0 <= i < |literals| ==> Json(literals[i])
    ensures LiteralsRefused(num, bare, literals) == [] <==> AllConform(num, bare, literals)
  {
    if literals != [] {
      LiteralsExact(num, bare, literals[1..]);
      FirstLiteral(num, bare, literals);
      AllConformTail(num, bare, literals);
    }
  }

  lemma FirstLiteral(num: Repr -> real, bare: Value, literals: seq<Value>)
    requires Json(bare) && Shaped(bare) && literals != [] && forall i :: 0 <= i < |literals| ==> Json(literals[i])
    ensures LiteralsRefused(num, bare, literals) == [] <==>
            Conforms(num, bare, literals[0]) && LiteralsRefused(num, bare, literals[1..]) == []
  {
    CheckDecides(num, bare, literals[0]);
  }

  lemma AllConformTail(num: Repr -> real, item: Value, vs: seq<Value>)
    requires Shaped(item) && Json(item) && vs != [] && forall i :: 0 <= i < |vs| ==> Json(vs[i])
    ensures AllConform(num, item, vs) <==> Conforms(num, item, vs[0]) && AllConform(num, item, vs[1..])
  {
    if Conforms(num, item, vs[0]) && AllConform(num, item, vs[1..]) { AllConformMore(num, item, vs); }
    if AllConform(num, item, vs) { AllConformFewer(num, item, vs); }
  }

  lemma AllConformMore(num: Repr -> real, item: Value, vs: seq<Value>)
    requires Shaped(item) && Json(item) && vs != [] && forall i :: 0 <= i < |vs| ==> Json(vs[i])
    requires Conforms(num, item, vs[0]) && AllConform(num, item, vs[1..])
    ensures AllConform(num, item, vs)
  {
    forall i | 0 <= i < |vs| ensures Conforms(num, item, vs[i]) {
      if i > 0 { assert vs[1..][i - 1] == vs[i]; }
    }
  }

  lemma AllConformFewer(num: Repr -> real, item: Value, vs: seq<Value>)
    requires Shaped(item) && Json(item) && vs != [] && forall i :: 0 <= i < |vs| ==> Json(vs[i])
    requires AllConform(num, item, vs)
    ensures Conforms(num, item, vs[0]) && AllConform(num, item, vs[1..])
  {
    forall i | 0 <= i < |vs[1..]| ensures Conforms(num, item, vs[1..][i]) { assert vs[1..][i] == vs[i + 1]; }
  }

  predicate Exact(num: Repr -> real, node: Value)
    requires Json(node)
  {
    NodeReasons(num, node) == [] <==> WellFormed(num, node)
  }

  /** `_check_node` finds no reason exactly when the node is well formed. */
  lemma {:induction false} NodeExact(num: Repr -> real, node: Value)
    requires Json(node)
    ensures Exact(num, node)
    decreases node, 1
  {
    ShapeExact(num, node);
    if Structured(node) {
      PartsFound(num, node);
      if PartsShaped(node) {
        BareShaped(node);
        BareJson(node);
        LiteralsExact(num, Bare(node), Literals(node));
      }
    }
  }

  /** The same of the nodes a structured one is built from. */
  lemma {:induction false} PartsFound(num: Repr -> real, node: Value)
    requires Json(node) && Structured(node)
    ensures PartsClean(num, node) <==> PartsWellFormed(num, node)
    decreases node, 0
  {
    if Get(node, "anyOf").Some? {
      forall i | 0 <= i < |Options(node)| ensures Exact(num, Options(node)[i]) { NodeExact(num, Options(node)[i]); }
    }
    if TypeOf(node) == Some(ObjectType) {
      forall i | 0 <= i < |Properties(node)| ensures Exact(num, Properties(node)[i].value) {
        NodeExact(num, Properties(node)[i].value);
      }
    }
    if TypeOf(node) == Some(ArrayType) && Get(node, "items").Some? {
      NodeExact(num, Get(node, "items").value);
    }
    PartsExact(num, node);
  }

  lemma PartsExact(num: Repr -> real, node: Value)
    requires Json(node) && node.Mapping?
    requires Get(node, "anyOf").Some? ==> forall i :: 0 <= i < |Options(node)| ==> Exact(num, Options(node)[i])
    requires TypeOf(node) == Some(ObjectType) ==>
               forall i :: 0 <= i < |Properties(node)| ==> Exact(num, Properties(node)[i].value)
    requires TypeOf(node) == Some(ArrayType) && Get(node, "items").Some? ==> Exact(num, Get(node, "items").value)
    ensures PartsClean(num, node) <==> PartsWellFormed(num, node)
  {
  }

  // ---- the two entry points -----------------------------------------------------------------------------

  /** `check_response_schema`: every reason to refuse, none when the schema is supported. */
  function SchemaReasons(num: Repr -> real, schema: Value): seq<Reason>
    requires schema.Mapping? && Json(schema)
  {
    If(TypeOf(schema) != Some(ObjectType), RootNotObject) + NodeReasons(num, schema)
  }

  /** The check accepts exactly the supported subset: an object at the root, well formed throughout. */
  lemma SchemaCheckExact(num: Repr -> real, schema: Value)
    requires schema.Mapping? && Json(schema)
    ensures SchemaReasons(num, schema) == [] <==> TypeOf(schema) == Some(ObjectType) && WellFormed(num, schema)
  {
    NodeExact(num, schema);
  }

  /** Main result: for every schema the check accepts and every answer, `schema_violations` is empty
      exactly when the answer conforms. */
  lemma CheckerSoundAndComplete(num: Repr -> real, schema: Value, answer: Value)
    requires schema.Mapping? && Json(schema) && Json(answer)
    requires SchemaReasons(num, schema) == []
    ensures Violations(num, schema, answer) == [] <==> Conforms(num, schema, answer)
  {
    CheckDecides(num, schema, answer);
  }
}
