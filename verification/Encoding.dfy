/** The canonical typed encoding of `core/fingerprint.py`, and why it identifies a value.

    The encoding is not prefix-free (`i:1` is a prefix of `i:12`), so the proof carries what
    may follow a value inside a larger encoding: nothing, or one of `, ] } =`. */
module Encoding {
  import opened Util

  // ---- the value domain ---------------------------------------------------------------

  predicate IsDigit(c: char) {
    '0' <= c <= '9'
  }

  /** The alphabet of a finite float's `repr`. */
  predicate FloatChar(c: char) {
    IsDigit(c) || c == '.' || c == 'e' || c == '+' || c == '-'
  }

  predicate IsRepr(s: string) {
    s != "" && forall i :: 0 <= i < |s| ==> FloatChar(s[i])
  }

  /** A finite float, named by its `repr`: Python's `repr` is injective on floats. */
  type Repr = s: string | IsRepr(s) witness "0.0"

  datatype FloatValue = Finite(repr: Repr) | NaN | Infinity(negative: bool)

  datatype Key = Name(text: string) | NotAString(tag: int)

  datatype Entry = Entry(key: Key, value: Value)

  datatype SequenceKind = List | Tuple | OtherSequence

  /** A Python value. A mapping keeps its insertion order; `frozen` marks a `FrozenDict`. */
  datatype Value =
    | Null
    | Bool(b: bool)
    | Int(i: int)
    | Float(f: FloatValue)
    | Str(s: string)
    | Mapping(frozen: bool, entries: seq<Entry>)
    | Sequence(kind: SequenceKind, items: seq<Value>)
    | SetLike
    | Bytes
    | Foreign

  predicate DistinctKeys(es: seq<Entry>) {
    forall i, j :: 0 <= i < j < |es| ==> es[i].key != es[j].key
  }

  /** What every Python value satisfies: a mapping holds each key once. */
  predicate Valid(v: Value) {
    match v
    case Mapping(_, es) => DistinctKeys(es) && forall i :: 0 <= i < |es| ==> Valid(es[i].value)
    case Sequence(_, items) => forall i :: 0 <= i < |items| ==> Valid(items[i])
    case _ => true
  }

  predicate AllNames(es: seq<Entry>) {
    forall i :: 0 <= i < |es| ==> es[i].key.Name?
  }

  /** The domain of the encoding, stated without reference to it. */
  predicate Encodable(v: Value) {
    match v
    case Float(f) => f.Finite?
    case Mapping(_, es) => AllNames(es) && forall i :: 0 <= i < |es| ==> Encodable(es[i].value)
    case Sequence(_, items) => forall i :: 0 <= i < |items| ==> Encodable(items[i])
    case SetLike | Bytes | Foreign => false
    case _ => true
  }

  function NameSet(es: seq<Entry>): set<string> {
    set e | e in es && e.key.Name? :: e.key.text
  }

  /** `value[key]` for a key the mapping holds. */
  function Lookup(es: seq<Entry>, n: string): (r: Value)
    requires n in NameSet(es)
    ensures exists i :: 0 <= i < |es| && es[i] == Entry(Name(n), r)
    ensures es decreases to r
  {
    if es[0].key == Name(n) then
      assert es[0] decreases to es[0].value;
      assert es decreases to es[0];
      es[0].value
    else
      assert n in NameSet(es[1..]);
      var r := Lookup(es[1..], n);
      assert exists i :: 0 <= i < |es[1..]| && es[1..][i] == Entry(Name(n), r);
      r
  }

  /** The same typed value: tags are never mixed, and insertion order and container class
      (list or tuple, dict or FrozenDict) do not matter. */
  predicate Same(v: Value, w: Value) {
    match (v, w)
    case (Null, Null) => true
    case (Bool(a), Bool(b)) => a == b
    case (Int(a), Int(b)) => a == b
    case (Float(a), Float(b)) => a == b
    case (Str(a), Str(b)) => a == b
    case (Mapping(_, a), Mapping(_, b)) =>
      NameSet(a) == NameSet(b) && forall n :: n in NameSet(a) ==> Same(Lookup(a, n), Lookup(b, n))
    case (Sequence(_, a), Sequence(_, b)) =>
      |a| == |b| && forall i :: 0 <= i < |a| ==> Same(a[i], b[i])
    case _ => false
  }

  // ---- sorted keys -----------------------------------------------------------------------

  /** Python's order on strings: code point by code point, a proper prefix first. */
  predicate Before(a: string, b: string) {
    if b == "" then false
    else if a == "" then true
    else if a[0] != b[0] then a[0] < b[0]
    else Before(a[1..], b[1..])
  }

  lemma {:induction false} BeforeTrichotomy(a: string, b: string)
    ensures a != b ==> Before(a, b) || Before(b, a)
    ensures Before(a, b) ==> !Before(b, a) && a != b
  {
    if a != "" && b != "" && a[0] == b[0] {
      BeforeTrichotomy(a[1..], b[1..]);
      assert a == [a[0]] + a[1..] && b == [b[0]] + b[1..];
    }
  }

  lemma {:induction false} BeforeTransitive(a: string, b: string, c: string)
    requires Before(a, b) && Before(b, c)
    ensures Before(a, c)
  {
    if a != "" && a[0] == b[0] && b[0] == c[0] {
      BeforeTransitive(a[1..], b[1..], c[1..]);
    }
  }

  predicate Ascending(ns: seq<string>) {
    forall i, j :: 0 <= i < j < |ns| ==> Before(ns[i], ns[j])
  }

  function Insert(n: string, ns: seq<string>): (r: seq<string>)
    requires Ascending(ns) && n !in ns
    ensures Ascending(r)
    ensures forall x :: x in r <==> x == n || x in ns
  {
    if ns == [] then [n]
    else if Before(n, ns[0]) then
      assert forall j :: 0 <= j < |ns| ==> Before(n, ns[j]) by {
        forall j | 0 < j < |ns| ensures Before(n, ns[j]) { BeforeTransitive(n, ns[0], ns[j]); }
      }
      [n] + ns
    else
      BeforeTrichotomy(n, ns[0]);
      assert ns == [ns[0]] + ns[1..];
      var r := Insert(n, ns[1..]);
      assert forall j :: 0 <= j < |r| ==> r[j] in r;
      [ns[0]] + r
  }

  /** `sorted(value)`: the mapping's keys in order. */
  function SortedNames(es: seq<Entry>): (r: seq<string>)
    requires AllNames(es) && DistinctKeys(es)
    ensures Ascending(r)
    ensures forall n :: n in r <==> n in NameSet(es)
  {
    if es == [] then []
    else
      assert es == [es[0]] + es[1..];
      assert es[0].key.text !in NameSet(es[1..]);
      Insert(es[0].key.text, SortedNames(es[1..]))
  }

  /** A set of keys has one ascending order. */
  lemma {:induction false} AscendingUnique(a: seq<string>, b: seq<string>)
    requires Ascending(a) && Ascending(b)
    requires forall x :: x in a <==> x in b
    ensures a == b
  {
    assert b != [] ==> b[0] in b;
    if a != [] {
      assert a[0] in b && b != [];
      assert b[0] in a;
      BeforeTrichotomy(a[0], b[0]);
      forall x | x in a[1..] ensures x != a[0] && x in b[1..] {
        var i :| 0 <= i < |a[1..]| && a[1..][i] == x;
        assert Before(a[0], a[i + 1]);
        BeforeTrichotomy(a[0], x);
        assert x in b;
      }
      forall x | x in b[1..] ensures x in a[1..] {
        var i :| 0 <= i < |b[1..]| && b[1..][i] == x;
        assert Before(b[0], b[i + 1]);
        BeforeTrichotomy(b[0], x);
        assert x in a;
      }
      AscendingUnique(a[1..], b[1..]);
      assert a == [a[0]] + a[1..] && b == [b[0]] + b[1..];
    }
  }

  // ---- the encoder -----------------------------------------------------------------------

  datatype Refusal = NonStringKey | NonFinite | SetRefused | BytesRefused | NoRepresentation

  function DigitChar(d: nat): char
    requires d < 10
  {
    "0123456789"[d]
  }

  function Digits(n: nat): (r: string)
    ensures r != "" && forall i :: 0 <= i < |r| ==> IsDigit(r[i])
  {
    if n < 10 then [DigitChar(n)] else Digits(n / 10) + [DigitChar(n % 10)]
  }

  function Decimal(i: int): string {
    if i < 0 then "-" + Digits(-i) else Digits(i)
  }

  function EncodeStr(s: string): string {
    "s:" + Digits(|s|) + ":" + s
  }

  function Encode(v: Value): Result<string, Refusal>
    requires Valid(v)
    decreases v, 0
  {
    match v
    case Null => Ok("n")
    case Bool(b) => Ok(if b then "b:1" else "b:0")
    case Int(i) => Ok("i:" + Decimal(i))
    case Float(f) => if f.Finite? then Ok("f:" + f.repr) else Err(NonFinite)
    case Str(s) => Ok(EncodeStr(s))
    case Mapping(_, es) =>
      if !AllNames(es) then Err(NonStringKey)
      else
        var body :- EncodeNamed(es, SortedNames(es));
        Ok("m:{" + body + "}")
    case SetLike => Err(SetRefused)
    case Bytes => Err(BytesRefused)
    case Sequence(_, items) =>
      var body :- EncodeItems(items);
      Ok("l:[" + body + "]")
    case Foreign => Err(NoRepresentation)
  }

  /** The mapping's items for *names*, in that order, joined by commas. */
  function EncodeNamed(es: seq<Entry>, names: seq<string>): Result<string, Refusal>
    requires forall i :: 0 <= i < |es| ==> Valid(es[i].value)
    requires forall n :: n in names ==> n in NameSet(es)
    decreases es, |names|
  {
    if names == [] then Ok("")
    else
      var item :- Encode(Lookup(es, names[0]));
      var rest :- EncodeNamed(es, names[1..]);
      Ok(EncodeStr(names[0]) + "=" + item + (if |names| == 1 then "" else "," + rest))
  }

  function EncodeItems(items: seq<Value>): Result<string, Refusal>
    requires forall i :: 0 <= i < |items| ==> Valid(items[i])
    decreases items, 0
  {
    if items == [] then Ok("")
    else
      var item :- Encode(items[0]);
      var rest :- EncodeItems(items[1..]);
      Ok(item + (if |items| == 1 then "" else "," + rest))
  }

  // ---- the domain ------------------------------------------------------------------------

  /** `canonical_encode` raises exactly on the values outside the declared domain. */
  lemma {:induction false} EncodesExactly(v: Value)
    requires Valid(v)
    ensures Encode(v).Ok? <==> Encodable(v)
    decreases v, 0
  {
    match v
    case Mapping(_, es) =>
      if AllNames(es) {
        NamedEncodesExactly(es, SortedNames(es));
        ValuesAreLookups(es);
      }
    case Sequence(_, items) => ItemsEncodeExactly(items);
    case _ =>
  }

  /** Looking a mapping's keys up reaches exactly its values. */
  lemma ValuesAreLookups(es: seq<Entry>)
    requires DistinctKeys(es) && AllNames(es)
    ensures (forall n :: n in NameSet(es) ==> Encodable(Lookup(es, n)))
       <==> (forall i :: 0 <= i < |es| ==> Encodable(es[i].value))
  {
    forall i | 0 <= i < |es|
      ensures es[i].key.text in NameSet(es) && Lookup(es, es[i].key.text) == es[i].value
    {
      LookupUnique(es, i);
    }
  }

  lemma LookupUnique(es: seq<Entry>, i: nat)
    requires DistinctKeys(es) && i < |es| && es[i].key.Name?
    ensures es[i].key.text in NameSet(es) && Lookup(es, es[i].key.text) == es[i].value
  {
    assert es[i] in es;
  }

  /** Mappings with the same keys in the same places are the same value place by place. */
  lemma SameByPosition(a: seq<Entry>, b: seq<Entry>)
    requires DistinctKeys(a) && AllNames(a) && |a| == |b|
    requires forall i :: 0 <= i < |a| ==> a[i].key == b[i].key
    ensures NameSet(a) == NameSet(b)
    ensures (forall n :: n in NameSet(a) ==> Same(Lookup(a, n), Lookup(b, n)))
       <==> (forall i :: 0 <= i < |a| ==> Same(a[i].value, b[i].value))
  {
    forall i | 0 <= i < |a|
      ensures a[i].key.text in NameSet(a) && a[i].key.text in NameSet(b)
      ensures Lookup(a, a[i].key.text) == a[i].value && Lookup(b, a[i].key.text) == b[i].value
    {
      LookupUnique(a, i);
      LookupUnique(b, i);
    }
    assert forall n :: n in NameSet(b) ==> exists i :: 0 <= i < |b| && b[i].key == Name(n);
  }

  lemma {:induction false} NamedEncodesExactly(es: seq<Entry>, names: seq<string>)
    requires forall i :: 0 <= i < |es| ==> Valid(es[i].value)
    requires forall n :: n in names ==> n in NameSet(es)
    ensures EncodeNamed(es, names).Ok? <==> forall n :: n in names ==> Encodable(Lookup(es, n))
    decreases es, |names|
  {
    if names != [] {
      EncodesExactly(Lookup(es, names[0]));
      NamedEncodesExactly(es, names[1..]);
      assert names == [names[0]] + names[1..];
    }
  }

  lemma {:induction false} ItemsEncodeExactly(items: seq<Value>)
    requires forall i :: 0 <= i < |items| ==> Valid(items[i])
    ensures EncodeItems(items).Ok? <==> forall i :: 0 <= i < |items| ==> Encodable(items[i])
    decreases items, 0
  {
    if items != [] {
      EncodesExactly(items[0]);
      ItemsEncodeExactly(items[1..]);
      assert items == [items[0]] + items[1..];
    }
  }

  // ---- unambiguity: equal encodings come from the same value ----------------------------------

  /** What may follow a value inside a larger encoding. */
  predicate Stops(s: string) {
    s == "" || s[0] == ',' || s[0] == ']' || s[0] == '}' || s[0] == '='
  }

  lemma Cancel(p: string, x: string, y: string)
    requires p + x == p + y
    ensures x == y
  {
    assert x == (p + x)[|p|..] && y == (p + y)[|p|..];
  }

  lemma Assoc(a: string, b: string, c: string)
    ensures a + b + c == a + (b + c)
  {
  }

  /** Peels the brackets off two framed bodies. */
  lemma Unframe(open: string, a: string, b: string, close: string, s: string, t: string)
    requires open + a + close + s == open + b + close + t
    ensures a + (close + s) == b + (close + t)
  {
    assert open + a + close + s == open + (a + (close + s));
    assert open + b + close + t == open + (b + (close + t));
    Cancel(open, a + (close + s), b + (close + t));
  }

  lemma Untag(tag: string, a: string, b: string, s: string, t: string)
    requires tag + a + s == tag + b + t
    ensures a + s == b + t
  {
    assert tag + a + s == tag + (a + s) && tag + b + t == tag + (b + t);
    Cancel(tag, a + s, b + t);
  }

  /** A maximal run of a character class is determined by the text. */
  lemma RunUnambiguous(p: char -> bool, a: string, s: string, b: string, t: string)
    requires forall i :: 0 <= i < |a| ==> p(a[i])
    requires forall i :: 0 <= i < |b| ==> p(b[i])
    requires s == "" || !p(s[0])
    requires t == "" || !p(t[0])
    requires a + s == b + t
    ensures a == b && s == t
  {
    var x := a + s;
    assert s != "" ==> x[|a|] == s[0];
    assert t != "" ==> (b + t)[|b|] == t[0];
    assert a == (a + s)[..|a|] == (b + t)[..|b|] == b;
    assert s == (a + s)[|a|..] == (b + t)[|b|..] == t;
  }

  /** The number a run of digits denotes. */
  function DigitsValue(s: string): int {
    if s == "" then 0 else 10 * DigitsValue(s[..|s| - 1]) + (s[|s| - 1] as int - '0' as int)
  }

  lemma {:induction false} DigitsRoundTrip(n: nat)
    ensures DigitsValue(Digits(n)) == n
  {
    if n >= 10 {
      DigitsRoundTrip(n / 10);
      assert Digits(n)[..|Digits(n)| - 1] == Digits(n / 10);
    } else {
      assert Digits(n)[..0] == "";
    }
  }

  lemma DigitsInjective(m: nat, n: nat)
    requires Digits(m) == Digits(n)
    ensures m == n
  {
    DigitsRoundTrip(m);
    DigitsRoundTrip(n);
  }

  predicate DecimalChar(c: char) {
    IsDigit(c) || c == '-'
  }

  lemma DecimalInjective(i: int, j: int)
    requires Decimal(i) == Decimal(j)
    ensures i == j
  {
    assert Decimal(i)[0] == '-' <==> i < 0;
    assert Decimal(j)[0] == '-' <==> j < 0;
    if i < 0 {
      assert Digits(-i) == Decimal(i)[1..] && Digits(-j) == Decimal(j)[1..];
      DigitsInjective(-i, -j);
    } else {
      DigitsInjective(i, j);
    }
  }

  lemma DecimalUnambiguous(i: int, j: int, s: string, t: string)
    requires Stops(s) && Stops(t)
    requires Decimal(i) + s == Decimal(j) + t
    ensures i == j && s == t
  {
    RunUnambiguous(DecimalChar, Decimal(i), s, Decimal(j), t);
    DecimalInjective(i, j);
  }

  /** Strings need nothing of what follows: their length is written first. */
  lemma StrUnambiguous(a: string, b: string, s: string, t: string)
    requires EncodeStr(a) + s == EncodeStr(b) + t
    ensures a == b && s == t
  {
    var x, y := ":" + a + s, ":" + b + t;
    assert EncodeStr(a) + s == "s:" + (Digits(|a|) + x);
    assert EncodeStr(b) + t == "s:" + (Digits(|b|) + y);
    Cancel("s:", Digits(|a|) + x, Digits(|b|) + y);
    RunUnambiguous(IsDigit, Digits(|a|), x, Digits(|b|), y);
    DigitsInjective(|a|, |b|);
    Cancel(":", a + s, b + t) by { assert x == ":" + (a + s) && y == ":" + (b + t); }
    assert a == (a + s)[..|a|] && b == (b + t)[..|b|];
    Cancel(a, s, t);
  }

  function Tag(v: Value): char {
    match v
    case Null => 'n'
    case Bool(_) => 'b'
    case Int(_) => 'i'
    case Float(_) => 'f'
    case Str(_) => 's'
    case Mapping(_, _) => 'm'
    case Sequence(_, _) => 'l'
    case _ => 'x'
  }

  lemma EncodeTagged(v: Value)
    requires Valid(v) && Encode(v).Ok?
    ensures Encode(v).value != "" && Encode(v).value[0] == Tag(v) && Tag(v) != 'x'
  {
  }

  /** The heart of the identity argument: an encoding, followed by anything that may follow a
      value, determines both the value and what follows. */
  lemma {:induction false} Unambiguous(v: Value, w: Value, s: string, t: string)
    requires Valid(v) && Valid(w) && Encode(v).Ok? && Encode(w).Ok?
    requires Stops(s) && Stops(t)
    requires Encode(v).value + s == Encode(w).value + t
    ensures Same(v, w) && s == t
    decreases v, 0
  {
    EncodeTagged(v);
    EncodeTagged(w);
    assert (Encode(v).value + s)[0] == Tag(v) && (Encode(w).value + t)[0] == Tag(w);
    match v {
      case Null => Cancel("n", s, t);
      case Bool(b) =>
        assert (Encode(v).value + s)[2] == Encode(v).value[2] && (Encode(w).value + t)[2] == Encode(w).value[2];
        Cancel(Encode(v).value, s, t);
      case Int(i) =>
        Untag("i:", Decimal(i), Decimal(w.i), s, t);
        DecimalUnambiguous(i, w.i, s, t);
      case Float(f) =>
        Untag("f:", f.repr, w.f.repr, s, t);
        RunUnambiguous(FloatChar, f.repr, s, w.f.repr, t);
      case Str(a) => StrUnambiguous(a, w.s, s, t);
      case Sequence(_, items) =>
        Unframe("l:[", EncodeItems(items).value, EncodeItems(w.items).value, "]", s, t);
        ItemsUnambiguous(items, w.items, s, t);
      case Mapping(_, es) =>
        var a, b := SortedNames(es), SortedNames(w.entries);
        Unframe("m:{", EncodeNamed(es, a).value, EncodeNamed(w.entries, b).value, "}", s, t);
        NamedUnambiguous(es, w.entries, a, b, s, t);
        assert NameSet(es) == NameSet(w.entries);
      case _ =>
    }
  }

  lemma {:induction false} ItemsUnambiguous(vs: seq<Value>, ws: seq<Value>, s: string, t: string)
    requires forall i :: 0 <= i < |vs| ==> Valid(vs[i])
    requires forall i :: 0 <= i < |ws| ==> Valid(ws[i])
    requires EncodeItems(vs).Ok? && EncodeItems(ws).Ok?
    requires EncodeItems(vs).value + ("]" + s) == EncodeItems(ws).value + ("]" + t)
    ensures |vs| == |ws| && (forall i :: 0 <= i < |vs| ==> Same(vs[i], ws[i])) && s == t
    decreases vs, 0
  {
    ItemsHead(vs, s);
    ItemsHead(ws, t);
    if vs == [] || ws == [] {
      assert vs == [] && ws == [];
      Cancel("]", s, t);
    } else {
      Unambiguous(vs[0], ws[0], ItemsTail(vs, s), ItemsTail(ws, t));
      ItemsTailUnambiguous(vs, ws, s, t);
      if |vs| > 1 {
        ItemsUnambiguous(vs[1..], ws[1..], s, t);
      }
      assert vs == [vs[0]] + vs[1..] && ws == [ws[0]] + ws[1..];
    }
  }

  lemma ItemsTailUnambiguous(vs: seq<Value>, ws: seq<Value>, s: string, t: string)
    requires vs != [] && forall i :: 0 <= i < |vs| ==> Valid(vs[i])
    requires ws != [] && forall i :: 0 <= i < |ws| ==> Valid(ws[i])
    requires EncodeItems(vs).Ok? && EncodeItems(ws).Ok?
    requires ItemsTail(vs, s) == ItemsTail(ws, t)
    ensures |vs| == 1 <==> |ws| == 1
    ensures |vs| == 1 ==> s == t
    ensures |vs| > 1 ==> EncodeItems(vs[1..]).Ok? && EncodeItems(ws[1..]).Ok?
                         && EncodeItems(vs[1..]).value + ("]" + s) == EncodeItems(ws[1..]).value + ("]" + t)
  {
    assert ItemsTail(vs, s)[0] == (if |vs| == 1 then ']' else ',');
    assert ItemsTail(ws, t)[0] == (if |ws| == 1 then ']' else ',');
    if |vs| == 1 {
      Cancel("]", s, t);
    } else {
      Cancel(",", EncodeItems(vs[1..]).value + ("]" + s), EncodeItems(ws[1..]).value + ("]" + t));
    }
  }

  /** What follows the first item, up to and past the closing bracket. */
  function ItemsTail(vs: seq<Value>, s: string): string
    requires vs != [] && forall i :: 0 <= i < |vs| ==> Valid(vs[i])
    requires EncodeItems(vs).Ok?
  {
    if |vs| == 1 then "]" + s else "," + (EncodeItems(vs[1..]).value + ("]" + s))
  }

  lemma ItemsHead(vs: seq<Value>, s: string)
    requires forall i :: 0 <= i < |vs| ==> Valid(vs[i])
    requires EncodeItems(vs).Ok?
    ensures vs == [] ==> EncodeItems(vs).value + ("]" + s) == "]" + s
    ensures vs != [] ==> EncodeItems(vs).value + ("]" + s) == Encode(vs[0]).value + ItemsTail(vs, s)
    ensures (EncodeItems(vs).value + ("]" + s))[0] == (if vs == [] then ']' else Tag(vs[0]))
    ensures vs != [] ==> Tag(vs[0]) != ']' && Stops(ItemsTail(vs, s))
  {
    if vs != [] {
      EncodeTagged(vs[0]);
      var item := Encode(vs[0]).value;
      if |vs| == 1 {
        assert EncodeItems(vs).value == item + "" == item;
      } else {
        var rest := EncodeItems(vs[1..]).value;
        assert EncodeItems(vs).value == item + ("," + rest);
        Assoc(item, "," + rest, "]" + s);
        Assoc(",", rest, "]" + s);
      }
      assert EncodeItems(vs).value[0] == item[0];
    }
  }

  predicate SameAt(vs: seq<Entry>, ws: seq<Entry>, n: string) {
    n in NameSet(vs) && n in NameSet(ws) && Same(Lookup(vs, n), Lookup(ws, n))
  }

  lemma {:induction false} NamedUnambiguous(
    vs: seq<Entry>, ws: seq<Entry>, a: seq<string>, b: seq<string>, s: string, t: string)
    requires forall i :: 0 <= i < |vs| ==> Valid(vs[i].value)
    requires forall i :: 0 <= i < |ws| ==> Valid(ws[i].value)
    requires forall n :: n in a ==> n in NameSet(vs)
    requires forall n :: n in b ==> n in NameSet(ws)
    requires EncodeNamed(vs, a).Ok? && EncodeNamed(ws, b).Ok?
    requires EncodeNamed(vs, a).value + ("}" + s) == EncodeNamed(ws, b).value + ("}" + t)
    ensures a == b && (forall n :: n in a ==> SameAt(vs, ws, n)) && s == t
    decreases vs, |a|, 1
  {
    NamedEmptyUnambiguous(vs, ws, a, b, s, t);
    if a != [] {
      FirstNamedUnambiguous(vs, ws, a, b, s, t);
      NamedTailUnambiguous(vs, ws, a, b, s, t);
      assert a == [a[0]] + a[1..] && b == [b[0]] + b[1..];
      if |a| > 1 {
        NamedUnambiguous(vs, ws, a[1..], b[1..], s, t);
      }
    }
  }

  lemma NamedEmptyUnambiguous(
    vs: seq<Entry>, ws: seq<Entry>, a: seq<string>, b: seq<string>, s: string, t: string)
    requires forall i :: 0 <= i < |vs| ==> Valid(vs[i].value)
    requires forall i :: 0 <= i < |ws| ==> Valid(ws[i].value)
    requires forall n :: n in a ==> n in NameSet(vs)
    requires forall n :: n in b ==> n in NameSet(ws)
    requires EncodeNamed(vs, a).Ok? && EncodeNamed(ws, b).Ok?
    requires EncodeNamed(vs, a).value + ("}" + s) == EncodeNamed(ws, b).value + ("}" + t)
    ensures a == [] <==> b == []
    ensures a == [] ==> s == t
  {
    NamedHead(vs, a, s);
    NamedHead(ws, b, t);
    if a == [] { Cancel("}", s, t); }
  }

  lemma NamedTailUnambiguous(
    vs: seq<Entry>, ws: seq<Entry>, a: seq<string>, b: seq<string>, s: string, t: string)
    requires forall i :: 0 <= i < |vs| ==> Valid(vs[i].value)
    requires forall i :: 0 <= i < |ws| ==> Valid(ws[i].value)
    requires a != [] && forall n :: n in a ==> n in NameSet(vs)
    requires b != [] && forall n :: n in b ==> n in NameSet(ws)
    requires EncodeNamed(vs, a).Ok? && EncodeNamed(ws, b).Ok?
    requires NamedTail(vs, a, s) == NamedTail(ws, b, t)
    ensures |a| == 1 <==> |b| == 1
    ensures |a| == 1 ==> s == t
    ensures |a| > 1 ==> EncodeNamed(vs, a[1..]).Ok? && EncodeNamed(ws, b[1..]).Ok?
                        && EncodeNamed(vs, a[1..]).value + ("}" + s) == EncodeNamed(ws, b[1..]).value + ("}" + t)
  {
    assert NamedTail(vs, a, s)[0] == (if |a| == 1 then '}' else ',');
    assert NamedTail(ws, b, t)[0] == (if |b| == 1 then '}' else ',');
    if |a| == 1 {
      Cancel("}", s, t);
    } else {
      Cancel(",", EncodeNamed(vs, a[1..]).value + ("}" + s), EncodeNamed(ws, b[1..]).value + ("}" + t));
    }
  }

  lemma {:induction false} FirstNamedUnambiguous(
    vs: seq<Entry>, ws: seq<Entry>, a: seq<string>, b: seq<string>, s: string, t: string)
    requires forall i :: 0 <= i < |vs| ==> Valid(vs[i].value)
    requires forall i :: 0 <= i < |ws| ==> Valid(ws[i].value)
    requires a != [] && forall n :: n in a ==> n in NameSet(vs)
    requires b != [] && forall n :: n in b ==> n in NameSet(ws)
    requires EncodeNamed(vs, a).Ok? && EncodeNamed(ws, b).Ok?
    requires EncodeNamed(vs, a).value + ("}" + s) == EncodeNamed(ws, b).value + ("}" + t)
    ensures a[0] == b[0] && SameAt(vs, ws, a[0])
    ensures NamedTail(vs, a, s) == NamedTail(ws, b, t)
    decreases vs, |a|, 0
  {
    NamedHead(vs, a, s);
    NamedHead(ws, b, t);
    var v, w := Lookup(vs, a[0]), Lookup(ws, b[0]);
    var restV, restW := NamedTail(vs, a, s), NamedTail(ws, b, t);
    StrUnambiguous(a[0], b[0], "=" + (Encode(v).value + restV), "=" + (Encode(w).value + restW));
    Cancel("=", Encode(v).value + restV, Encode(w).value + restW);
    Unambiguous(v, w, restV, restW);
  }

  /** What follows the first item's value, up to and past the closing brace. */
  function NamedTail(es: seq<Entry>, names: seq<string>, s: string): string
    requires forall i :: 0 <= i < |es| ==> Valid(es[i].value)
    requires names != [] && forall n :: n in names ==> n in NameSet(es)
    requires EncodeNamed(es, names).Ok?
  {
    if |names| == 1 then "}" + s else "," + (EncodeNamed(es, names[1..]).value + ("}" + s))
  }

  lemma NamedHead(es: seq<Entry>, names: seq<string>, s: string)
    requires forall i :: 0 <= i < |es| ==> Valid(es[i].value)
    requires forall n :: n in names ==> n in NameSet(es)
    requires EncodeNamed(es, names).Ok?
    ensures names == [] ==> EncodeNamed(es, names).value + ("}" + s) == "}" + s
    ensures names != [] ==> EncodeNamed(es, names).value + ("}" + s)
                            == EncodeStr(names[0]) + ("=" + (Encode(Lookup(es, names[0])).value + NamedTail(es, names, s)))
    ensures (EncodeNamed(es, names).value + ("}" + s))[0] == (if names == [] then '}' else 's')
    ensures names != [] ==> Stops(NamedTail(es, names, s))
  {
    if names != [] {
      var key, item := EncodeStr(names[0]), Encode(Lookup(es, names[0])).value;
      var rest := if |names| == 1 then "" else "," + EncodeNamed(es, names[1..]).value;
      assert EncodeNamed(es, names).value == key + "=" + item + rest;
      Assoc(key + "=" + item, rest, "}" + s);
      Assoc(key + "=", item, rest + ("}" + s));
      Assoc(key, "=", item + (rest + ("}" + s)));
      if |names| == 1 {
        assert rest + ("}" + s) == "}" + s;
      } else {
        Assoc(",", EncodeNamed(es, names[1..]).value, "}" + s);
      }
      assert EncodeNamed(es, names).value[0] == key[0];
    }
  }

  // ---- determinism: the same value always encodes the same ---------------------------------------

  lemma {:induction false} SameEncodesEqually(v: Value, w: Value)
    requires Valid(v) && Valid(w) && Same(v, w)
    requires Encode(v).Ok? && Encode(w).Ok?
    ensures Encode(v) == Encode(w)
    decreases v, 0
  {
    match v
    case Mapping(_, es) =>
      AscendingUnique(SortedNames(es), SortedNames(w.entries));
      SameNamedEncodeEqually(es, w.entries, SortedNames(es));
    case Sequence(_, items) => SameItemsEncodeEqually(items, w.items);
    case _ =>
  }

  lemma {:induction false} SameNamedEncodeEqually(vs: seq<Entry>, ws: seq<Entry>, names: seq<string>)
    requires forall i :: 0 <= i < |vs| ==> Valid(vs[i].value)
    requires forall i :: 0 <= i < |ws| ==> Valid(ws[i].value)
    requires forall n :: n in names ==> n in NameSet(vs) && n in NameSet(ws)
    requires forall n :: n in names ==> Same(Lookup(vs, n), Lookup(ws, n))
    requires EncodeNamed(vs, names).Ok? && EncodeNamed(ws, names).Ok?
    ensures EncodeNamed(vs, names) == EncodeNamed(ws, names)
    decreases vs, |names|
  {
    if names != [] {
      SameEncodesEqually(Lookup(vs, names[0]), Lookup(ws, names[0]));
      SameNamedEncodeEqually(vs, ws, names[1..]);
    }
  }

  lemma {:induction false} SameItemsEncodeEqually(vs: seq<Value>, ws: seq<Value>)
    requires forall i :: 0 <= i < |vs| ==> Valid(vs[i])
    requires forall i :: 0 <= i < |ws| ==> Valid(ws[i])
    requires |vs| == |ws| && forall i :: 0 <= i < |vs| ==> Same(vs[i], ws[i])
    requires EncodeItems(vs).Ok? && EncodeItems(ws).Ok?
    ensures EncodeItems(vs) == EncodeItems(ws)
    decreases vs, 0
  {
    if vs != [] {
      SameEncodesEqually(vs[0], ws[0]);
      SameItemsEncodeEqually(vs[1..], ws[1..]);
    }
  }

  // ---- identity ------------------------------------------------------------------------------------

  /** Main result: two encodable values encode equally exactly when they are the same typed value. */
  lemma EncodingIdentifies(v: Value, w: Value)
    requires Valid(v) && Valid(w) && Encodable(v) && Encodable(w)
    ensures Encode(v) == Encode(w) <==> Same(v, w)
  {
    EncodesExactly(v);
    EncodesExactly(w);
    if Same(v, w) {
      SameEncodesEqually(v, w);
    }
    if Encode(v) == Encode(w) {
      Unambiguous(v, w, "", "");
    }
  }

  /** `fingerprint`, for a digest given as a function of the encoded text. */
  function Fingerprint(sha256: string -> string, v: Value): Result<string, Refusal>
    requires Valid(v)
  {
    var text :- Encode(v);
    Ok("sha256:" + sha256(text))
  }

  /** With a collision-free digest a fingerprint is an identity of the typed value. */
  lemma FingerprintIdentifies(sha256: string -> string, v: Value, w: Value)
    requires forall x, y :: sha256(x) == sha256(y) ==> x == y
    requires Valid(v) && Valid(w) && Encodable(v) && Encodable(w)
    ensures Fingerprint(sha256, v) == Fingerprint(sha256, w) <==> Same(v, w)
  {
    EncodingIdentifies(v, w);
    EncodesExactly(v);
    EncodesExactly(w);
    var a, b := Encode(v).value, Encode(w).value;
    assert ("sha256:" + sha256(a))[7..] == sha256(a) && ("sha256:" + sha256(b))[7..] == sha256(b);
  }

  // ---- the text itself -------------------------------------------------------------------------------

  lemma {:induction false} NoLeadingZero(n: nat)
    ensures Digits(n)[0] == '0' <==> n == 0
  {
    if n >= 10 { NoLeadingZero(n / 10); }
  }

  /** Stored fingerprints hold only for this text: the tag and text of every scalar, numbers in decimal without leading
      zeros; and items and entries between their brackets, separated by commas. */
  lemma TextIs(i: int, s: string, repr: Repr)
    ensures Encode(Null) == Ok("n") && Encode(Bool(true)) == Ok("b:1") && Encode(Bool(false)) == Ok("b:0")
    ensures i >= 0 ==> exists digits :: Encode(Int(i)) == Ok("i:" + digits) && Spells(digits, i)
    ensures i < 0 ==> exists digits :: Encode(Int(i)) == Ok("i:-" + digits) && Spells(digits, -i)
    ensures exists digits :: Encode(Str(s)) == Ok("s:" + digits + ":" + s) && Spells(digits, |s|)
    ensures Encode(Float(Finite(repr))) == Ok("f:" + repr)
  {
    DigitsSpell(if i < 0 then -i else i);
    DigitsSpell(|s|);
    var digits := Digits(if i < 0 then -i else i);
    assert "i:" + ("-" + digits) == "i:-" + digits;
  }

  /** The decimal text of a number. */
  predicate Spells(digits: string, n: int) {
    && digits != "" && (forall k :: 0 <= k < |digits| ==> '0' <= digits[k] <= '9')
    && DigitsValue(digits) == n && (digits[0] == '0' ==> n == 0)
  }

  lemma DigitsSpell(n: nat)
    ensures Spells(Digits(n), n)
  {
    DigitsRoundTrip(n);
    NoLeadingZero(n);
    assert forall k :: 0 <= k < |Digits(n)| ==> IsDigit(Digits(n)[k]);
  }

  /** `",".join(texts)`. */
  function Joined(texts: seq<string>): string {
    if texts == [] then ""
    else if |texts| == 1 then texts[0]
    else Joined(texts[..|texts| - 1]) + "," + texts[|texts| - 1]
  }

  lemma {:induction false} JoinedFront(text: string, texts: seq<string>)
    requires texts != []
    ensures Joined([text] + texts) == text + ("," + Joined(texts))
  {
    var n, all := |texts| - 1, [text] + texts;
    assert all[..n + 1] == [text] + texts[..n];
    if n == 0 {
      assert all[..1] == [text];
    } else {
      JoinedFront(text, texts[..n]);
      assert text + ("," + Joined(texts[..n])) + "," + texts[n] == text + ("," + (Joined(texts[..n]) + "," + texts[n]));
    }
  }

  lemma {:induction false} ItemsJoined(items: seq<Value>, texts: seq<string>)
    requires |items| == |texts| && forall i :: 0 <= i < |items| ==> Valid(items[i]) && Encode(items[i]) == Ok(texts[i])
    ensures EncodeItems(items) == Ok(Joined(texts))
  {
    if |items| == 1 {
      ItemsJoined(items[1..], texts[1..]);
      assert texts[0] + "" == texts[0];
    } else if items != [] {
      ItemsJoined(items[1..], texts[1..]);
      JoinedFront(texts[0], texts[1..]);
      assert texts == [texts[0]] + texts[1..];
    }
  }

  /** Main result: a sequence of any class is its items' texts in order, joined by commas, in brackets. */
  lemma SequenceText(kind: SequenceKind, items: seq<Value>, texts: seq<string>)
    requires Valid(Sequence(kind, items))
    requires |items| == |texts| && forall i :: 0 <= i < |items| ==> Encode(items[i]) == Ok(texts[i])
    ensures Encode(Sequence(kind, items)) == Ok("l:[" + Joined(texts) + "]")
  {
    ItemsJoined(items, texts);
  }

  /** `key=value`, each by its encoding. */
  function PairTexts(names: seq<string>, texts: seq<string>): seq<string>
    requires |names| == |texts|
  {
    seq(|names|, i requires 0 <= i < |names| => EncodeStr(names[i]) + "=" + texts[i])
  }

  lemma {:induction false} NamedJoined(es: seq<Entry>, names: seq<string>, texts: seq<string>)
    requires forall i :: 0 <= i < |es| ==> Valid(es[i].value)
    requires |names| == |texts| && forall i :: 0 <= i < |names| ==> names[i] in NameSet(es) && Encode(Lookup(es, names[i])) == Ok(texts[i])
    ensures EncodeNamed(es, names) == Ok(Joined(PairTexts(names, texts)))
  {
    if names != [] {
      var pairs := PairTexts(names, texts);
      NamedJoined(es, names[1..], texts[1..]);
      assert PairTexts(names[1..], texts[1..]) == pairs[1..];
      assert pairs == [pairs[0]] + pairs[1..];
      NamedFirst(es, names, pairs[0], Joined(pairs[1..]));
      if |names| > 1 {
        JoinedFront(pairs[0], pairs[1..]);
      }
    }
  }

  lemma NamedFirst(es: seq<Entry>, names: seq<string>, pair: string, rest: string)
    requires forall i :: 0 <= i < |es| ==> Valid(es[i].value)
    requires names != [] && (forall n :: n in names ==> n in NameSet(es)) && Encode(Lookup(es, names[0])).Ok?
    requires pair == EncodeStr(names[0]) + "=" + Encode(Lookup(es, names[0])).value && EncodeNamed(es, names[1..]) == Ok(rest)
    ensures EncodeNamed(es, names) == Ok(if |names| == 1 then pair else pair + ("," + rest))
  {
    assert pair + "" == pair;
  }

  /** Main result: a mapping is its keys and their values in order of the keys, joined by commas, in braces. */
  lemma MappingText(frozen: bool, es: seq<Entry>, names: seq<string>, texts: seq<string>)
    requires Valid(Mapping(frozen, es)) && AllNames(es)
    requires Ascending(names) && forall n :: n in names <==> n in NameSet(es)
    requires |names| == |texts| && forall i :: 0 <= i < |names| ==> Encode(Lookup(es, names[i])) == Ok(texts[i])
    ensures Encode(Mapping(frozen, es)) == Ok("m:{" + Joined(PairTexts(names, texts)) + "}")
  {
    AscendingUnique(names, SortedNames(es));
    NamedJoined(es, names, texts);
  }
}
