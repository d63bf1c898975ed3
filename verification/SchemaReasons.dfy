/** Why the check of a schema refuses one: which reasons, one by one, on the keywords a node has. */
module SchemaReasons {
  import opened Util
  import opened Encoding
  import opened Schema
  import opened SchemaCheck
  import opened SchemaMeaning
  import opened SchemaReports

  // ---- the parts -----------------------------------------------------------------------------------

  /** An annotation is no string. */
  predicate AnnotationRefused(node: Value, x: Reason)
    requires node.Mapping?
  {
    x.AnnotationNotString? && (x.name == "title" || x.name == "description")
    && Get(node, x.name).Some? && !Get(node, x.name).value.Str?
  }

  lemma AnnotationsAre(node: Value, x: Reason)
    requires node.Mapping?
    ensures x in AnnotationReasons(node) <==> AnnotationRefused(node, x)
  {
  }

  /** A keyword is none the node may have. */
  predicate KeywordRefused(node: Value, allowed: set<string>, x: Reason)
    requires node.Mapping?
  {
    x.UnsupportedKeyword? && x.name !in allowed && exists e :: e in node.entries && e.key == Name(x.name)
  }

  lemma {:induction false} KeywordsRefused(names: seq<string>, allowed: set<string>, x: Reason)
    ensures x in KeywordReasons(names, allowed) <==> x.UnsupportedKeyword? && x.name in names && x.name !in allowed
  {
    if names != [] {
      KeywordsRefused(names[1..], allowed, x);
      assert names == [names[0]] + names[1..];
    }
  }

  lemma KeywordsAreRefused(node: Value, allowed: set<string>, x: Reason)
    requires node.Mapping? && AllNames(node.entries) && DistinctKeys(node.entries)
    ensures x in KeywordReasons(SortedNames(node.entries), allowed) <==> KeywordRefused(node, allowed, x)
  {
    KeywordsRefused(SortedNames(node.entries), allowed, x);
    if x.UnsupportedKeyword? && x.name in NameSet(node.entries) {
      var e :| e in node.entries && e.key == Name(x.name);
    }
  }

  /** A size is no natural number, or the two are out of order. */
  predicate SizeRefused(node: Value, lowName: string, highName: string, x: Reason)
    requires node.Mapping?
  {
    var low, high := Get(node, lowName), Get(node, highName);
    || (x.BadSize? && (x.name == lowName || x.name == highName)
        && Get(node, x.name).Some? && !(Get(node, x.name).value.Int? && Get(node, x.name).value.i >= 0))
    || (x.SizesCross? && low.Some? && high.Some? && low.value.Int? && high.value.Int? && high.value.i >= 0 && low.value.i > high.value.i)
  }

  lemma SizesAreRefused(node: Value, lowName: string, highName: string, x: Reason)
    requires node.Mapping?
    ensures x in SizeReasons(Get(node, lowName), Get(node, highName), lowName, highName) <==> SizeRefused(node, lowName, highName, x)
  {
  }

  /** A bound is no number. */
  predicate BoundRefused(node: Value, x: Reason)
    requires node.Mapping?
  {
    x.BadBound? && (x.name == "minimum" || x.name == "maximum" || x.name == "exclusiveMinimum" || x.name == "exclusiveMaximum")
    && Get(node, x.name).Some? && !Get(node, x.name).value.Int? && !Get(node, x.name).value.Float?
  }

  lemma BoundsAreRefused(node: Value, x: Reason)
    requires node.Mapping?
    ensures x in BoundReasons(node) <==> BoundRefused(node, x)
  {
  }

  /** `required` is no list of names, or repeats one, or has one that is not declared. */
  ghost predicate RequiredRefused(ps: seq<Entry>, required: Option<Value>, x: Reason) {
    var items := Items(required);
    if (required.Some? && !required.value.Sequence?) || exists n :: n in items && !n.Str? then x.BadRequired?
    else
      || (x.RequiredRepeats? && exists i, j :: 0 <= i < j < |items| && items[i] == items[j])
      || (x.Undeclared? && Str(x.name) in items && forall e :: e in ps ==> e.key != Name(x.name))
  }

  lemma {:induction false} UndeclaredAre(ps: seq<Entry>, required: seq<Value>, x: Reason)
    requires AllStrings(required)
    ensures x in UndeclaredReasons(ps, required) <==> x.Undeclared? && Str(x.name) in required && Find(ps, x.name).None?
  {
    if required != [] {
      UndeclaredAre(ps, required[1..], x);
      assert required == [required[0]] + required[1..];
    }
  }

  lemma RequiredIsRefused(ps: seq<Entry>, required: Option<Value>, x: Reason)
    ensures x in RequiredReasons(ps, required) <==> RequiredRefused(ps, required, x)
  {
    var items := Items(required);
    assert AllStrings(items) <==> forall n :: n in items ==> n.Str? by {
      assert forall i :: 0 <= i < |items| ==> items[i] in items;
    }
    if AllStrings(items) { UndeclaredAre(ps, items, x); }
    if x.Undeclared? { KeyIs(ps, x.name); }
  }

  /** `properties` is no mapping, `required` is wrong, the object is open, or a property's schema is refused. */
  ghost predicate ObjectRefused(num: Repr -> real, node: Value, x: Reason)
    requires node.Mapping? && Json(node)
  {
    || (x.PropertiesNotObject? && Get(node, "properties").Some? && !Get(node, "properties").value.Mapping?)
    || (x.OpenObject? && Get(node, "additionalProperties").Some? && Get(node, "additionalProperties").value != Bool(false))
    || RequiredRefused(EntriesAt(node, "properties"), Get(node, "required"), x)
    || exists e :: e in EntriesAt(node, "properties") && Json(e.value) && x in NodeReasons(num, e.value)
  }

  lemma PropertiesRefused(num: Repr -> real, node: Value, x: Reason)
    requires node.Mapping? && Json(node)
    ensures x in Concat(PropertyReasons(num, node)) <==>
            exists e :: e in EntriesAt(node, "properties") && Json(e.value) && x in NodeReasons(num, e.value)
  {
    var ps, reasons := Properties(node), PropertyReasons(num, node);
    assert EntriesAt(node, "properties") == ps;
    forall e | e in ps && Json(e.value) && x in NodeReasons(num, e.value) ensures x in Concat(reasons) {
      var i :| 0 <= i < |ps| && ps[i] == e;
      ConcatHas(reasons, i, x);
    }
    if x in Concat(reasons) {
      var i := ConcatFrom(reasons, x);
      assert ps[i] in ps;
    }
  }

  lemma ObjectIsRefused(num: Repr -> real, node: Value, x: Reason)
    requires node.Mapping? && Json(node)
    ensures x in ObjectReasons(num, node) <==> ObjectRefused(num, node, x)
  {
    assert EntriesAt(node, "properties") == Properties(node);
    PropertiesRefused(num, node, x);
    RequiredIsRefused(Properties(node), Get(node, "required"), x);
  }

  /** There are no items, the item schema is refused, or a size is. */
  predicate ArrayRefused(num: Repr -> real, node: Value, x: Reason)
    requires node.Mapping? && Json(node)
  {
    || (if Get(node, "items").None? then x.NoItems? else x in NodeReasons(num, Get(node, "items").value))
    || SizeRefused(node, "minItems", "maxItems", x)
  }

  /** What is wrong by the type. */
  ghost predicate TypeRefused(num: Repr -> real, node: Value, name: string, x: Reason)
    requires node.Mapping? && Json(node)
  {
    || (name == "object" && ObjectRefused(num, node, x))
    || (name == "array" && ArrayRefused(num, node, x))
    || (name == "string" && SizeRefused(node, "minLength", "maxLength", x))
    || ((name == "integer" || name == "number") && BoundRefused(node, x))
  }

  lemma NamesAre(name: string, t: JsonType)
    requires TypeNamed(name, TYPES) == Some(t)
    ensures (t.ObjectType? <==> name == "object") && (t.ArrayType? <==> name == "array") && (t.StringType? <==> name == "string")
    ensures (t.IntegerType? <==> name == "integer") && (t.NumberType? <==> name == "number")
  {
    NamedOnly(name);
    Named();
  }

  lemma TypeIsRefused(num: Repr -> real, node: Value, name: string, x: Reason)
    requires node.Mapping? && Json(node) && TypeNamed(name, TYPES).Some? && TypeOf(node) == TypeNamed(name, TYPES)
    ensures x in TypeReasons(num, node) <==> TypeRefused(num, node, name, x)
  {
    NamesAre(name, TypeOf(node).value);
    match TypeOf(node)
    case Some(ObjectType) => ObjectIsRefused(num, node, x);
    case Some(ArrayType) => SizesAreRefused(node, "minItems", "maxItems", x);
    case Some(StringType) => SizesAreRefused(node, "minLength", "maxLength", x);
    case Some(IntegerType) => BoundsAreRefused(node, x);
    case Some(NumberType) => BoundsAreRefused(node, x);
    case _ =>
  }

  // ---- a node --------------------------------------------------------------------------------------

  /** Main result: why a node with a type is refused, before its literals are looked at: by its annotations, its
      keywords, and its type. */
  lemma TypedReasons(num: Repr -> real, node: Value, name: string, x: Reason)
    requires Json(node) && node.Mapping? && Typed(node, name)
    ensures TypeNamed(name, TYPES).None? ==> (x in ShapeReasons(num, node) <==> AnnotationRefused(node, x) || x.UnknownType?)
    ensures TypeNamed(name, TYPES).Some? ==>
              (x in ShapeReasons(num, node) <==>
               AnnotationRefused(node, x) || KeywordRefused(node, KeywordsOf(name), x) || TypeRefused(num, node, name, x))
  {
    TypedIs(node, name);
    AnnotationsAre(node, x);
    if TypeNamed(name, TYPES).Some? {
      KeywordsAre(name, TypeNamed(name, TYPES).value);
      KeywordsAreRefused(node, KeywordsOf(name), x);
      TypeIsRefused(num, node, name, x);
    }
  }

  /** Why a node without a type or alternatives is. */
  lemma UntypedReasons(num: Repr -> real, node: Value, x: Reason)
    requires Json(node) && node.Mapping? && Get(node, "anyOf").None? && (Get(node, "type").None? || Get(node, "type").value.Null?)
    ensures x in ShapeReasons(num, node) <==> AnnotationRefused(node, x) || x.NoType?
  {
    AnnotationsAre(node, x);
  }

  /** Main result: why a node with alternatives and no type beside them is. */
  lemma AnyOfReasons(num: Repr -> real, node: Value, x: Reason)
    requires Json(node) && node.Mapping? && Get(node, "anyOf").Some? && (Get(node, "type").None? || Get(node, "type").value.Null?)
    ensures x in ShapeReasons(num, node) <==>
            || AnnotationRefused(node, x) || KeywordRefused(node, {"type", "anyOf", "enum", "const", "title", "description"}, x)
            || (if ItemsAt(node, "anyOf") == [] then x.BadAlternatives?
                else exists v :: v in ItemsAt(node, "anyOf") && Json(v) && x in NodeReasons(num, v))
  {
    AnnotationsAre(node, x);
    KeywordsAreRefused(node, EVERY_NODE, x);
    AlternativesRefused(num, node, x);
  }

  lemma AlternativesRefused(num: Repr -> real, node: Value, x: Reason)
    requires Json(node) && node.Mapping? && Get(node, "anyOf").Some?
    ensures Options(node) == ItemsAt(node, "anyOf")
    ensures x in Concat(AlternativeReasons(num, node)) <==> exists v :: v in ItemsAt(node, "anyOf") && Json(v) && x in NodeReasons(num, v)
  {
    var options, reasons := Options(node), AlternativeReasons(num, node);
    forall v | v in options && Json(v) && x in NodeReasons(num, v) ensures x in Concat(reasons) {
      var i :| 0 <= i < |options| && options[i] == v;
      ConcatHas(reasons, i, x);
    }
    if x in Concat(reasons) {
      var i := ConcatFrom(reasons, x);
      assert options[i] in options;
    }
  }

  /** Of a node that is otherwise in order, an `enum` that lists nothing, or each literal the node without them refuses. */
  lemma LiteralsReasons(num: Repr -> real, node: Value, x: Reason)
    requires Json(node) && ShapeReasons(num, node) == []
    ensures node.Mapping? && Json(Bare(node)) && Shaped(Bare(node))
    ensures x in NodeReasons(num, node) <==>
            if Get(node, "enum").Some? && ItemsAt(node, "enum") == [] then x.BadEnum?
            else x.LiteralRefused? && exists i :: 0 <= i < |Literals(node)| && Violations(num, Bare(node), Literals(node)[i]) != []
  {
    ShapeSound(num, node);
    BareShaped(node);
    BareJson(node);
    assert Enum(node) == ItemsAt(node, "enum");
    LiteralsAreRefused(num, Bare(node), Literals(node), x);
  }

  lemma {:induction false} LiteralListed(num: Repr -> real, bare: Value, literals: seq<Value>, i: nat)
    requires Json(bare) && Shaped(bare) && forall k :: 0 <= k < |literals| ==> Json(literals[k])
    requires i < |literals| && Violations(num, bare, literals[i]) != []
    ensures LiteralRefused in LiteralsRefused(num, bare, literals)
  {
    if i > 0 { LiteralListed(num, bare, literals[1..], i - 1); }
  }

  lemma {:induction false} OnlyRefused(num: Repr -> real, bare: Value, literals: seq<Value>, x: Reason)
    requires Json(bare) && Shaped(bare) && forall k :: 0 <= k < |literals| ==> Json(literals[k])
    requires x in LiteralsRefused(num, bare, literals)
    ensures x == LiteralRefused
  {
    if x in LiteralsRefused(num, bare, literals[1..]) { OnlyRefused(num, bare, literals[1..], x); }
  }

  lemma {:induction false} ListedLiteral(num: Repr -> real, bare: Value, literals: seq<Value>, x: Reason) returns (i: nat)
    requires Json(bare) && Shaped(bare) && forall k :: 0 <= k < |literals| ==> Json(literals[k])
    requires x in LiteralsRefused(num, bare, literals)
    ensures x.LiteralRefused? && i < |literals| && Violations(num, bare, literals[i]) != []
  {
    if Violations(num, bare, literals[0]) == [] {
      assert LiteralsRefused(num, bare, literals) == [] + LiteralsRefused(num, bare, literals[1..]);
      var k := ListedLiteral(num, bare, literals[1..], x);
      i := k + 1;
    } else {
      i := 0;
      OnlyRefused(num, bare, literals, x);
    }
  }

  lemma LiteralsAreRefused(num: Repr -> real, bare: Value, literals: seq<Value>, x: Reason)
    requires Json(bare) && Shaped(bare) && forall i :: 0 <= i < |literals| ==> Json(literals[i])
    ensures x in LiteralsRefused(num, bare, literals) <==>
            x.LiteralRefused? && exists i :: 0 <= i < |literals| && Violations(num, bare, literals[i]) != []
  {
    forall i | 0 <= i < |literals| && Violations(num, bare, literals[i]) != [] ensures LiteralRefused in LiteralsRefused(num, bare, literals) {
      LiteralListed(num, bare, literals, i);
    }
    if x in LiteralsRefused(num, bare, literals) {
      var i := ListedLiteral(num, bare, literals, x);
      assert 0 <= i < |literals| && Violations(num, bare, literals[i]) != [];
    }
    assert x.LiteralRefused? ==> x == LiteralRefused;
  }
}
