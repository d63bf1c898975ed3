/** Deep immutability (`core/immutable.py`): freezing, thawing, and their agreement with the
    canonical encoding. */
module Freezing {
  import opened Util
  import opened Encoding

  /** The class invariant of `FrozenDict` and of whatever `deep_freeze` returns: finite scalars,
      tuples and FrozenDicts with string keys, all the way down. */
  predicate Frozen(v: Value) {
    match v
    case Float(f) => f.Finite?
    case Mapping(frozen, es) => frozen && AllNames(es) && forall i :: 0 <= i < |es| ==> Frozen(es[i].value)
    case Sequence(kind, items) => kind == Tuple && forall i :: 0 <= i < |items| ==> Frozen(items[i])
    case SetLike | Bytes | Foreign => false
    case _ => true
  }

  /** Every FrozenDict inside *v* satisfies its class invariant. */
  predicate Genuine(v: Value) {
    match v
    case Mapping(frozen, es) => (frozen ==> Frozen(v)) && forall i :: 0 <= i < |es| ==> Genuine(es[i].value)
    case Sequence(_, items) => forall i :: 0 <= i < |items| ==> Genuine(items[i])
    case _ => true
  }

  function DeepFreeze(v: Value): Result<Value, Refusal>
    decreases v, 0
  {
    match v
    case Null | Bool(_) | Int(_) | Str(_) => Ok(v)
    case Float(f) => if f.Finite? then Ok(v) else Err(NonFinite)
    case Mapping(frozen, es) =>
      // A FrozenDict is already frozen, by class invariant, and returned as it is.
      if frozen then Ok(v)
      else
        var data :- FreezeEntries(es);
        Ok(Mapping(true, data))
    case SetLike => Err(SetRefused)
    case Bytes => Err(BytesRefused)
    case Sequence(_, items) =>
      var frozenItems :- FreezeItems(items);
      Ok(Sequence(Tuple, frozenItems))
    case Foreign => Err(NoRepresentation)
  }

  /** `FrozenDict.__init__`: key by key, in insertion order. */
  function FreezeEntries(es: seq<Entry>): Result<seq<Entry>, Refusal>
    decreases es, 0
  {
    if es == [] then Ok([])
    else if !es[0].key.Name? then Err(NonStringKey)
    else
      assert es[0] decreases to es[0].value;
      assert es decreases to es[0];
      var value :- DeepFreeze(es[0].value);
      var rest :- FreezeEntries(es[1..]);
      Ok([Entry(es[0].key, value)] + rest)
  }

  function FreezeItems(items: seq<Value>): Result<seq<Value>, Refusal>
    decreases items, 0
  {
    if items == [] then Ok([])
    else
      var item :- DeepFreeze(items[0]);
      var rest :- FreezeItems(items[1..]);
      Ok([item] + rest)
  }

  function Thaw(v: Value): Value {
    match v
    case Mapping(_, es) =>
      Mapping(false, seq(|es|, i requires 0 <= i < |es| => Entry(es[i].key, Thaw(es[i].value))))
    case Sequence(kind, items) =>
      if kind == OtherSequence then v
      else Sequence(List, seq(|items|, i requires 0 <= i < |items| => Thaw(items[i])))
    case _ => v
  }

  /** Equal values, up to the class of their containers: a tuple like a list, a FrozenDict like
      a dict, with every mapping in the same insertion order. */
  predicate Alike(v: Value, w: Value) {
    match (v, w)
    case (Mapping(_, a), Mapping(_, b)) =>
      |a| == |b| && forall i :: 0 <= i < |a| ==> a[i].key == b[i].key && Alike(a[i].value, b[i].value)
    case (Sequence(_, a), Sequence(_, b)) =>
      |a| == |b| && forall i :: 0 <= i < |a| ==> Alike(a[i], b[i])
    case (Mapping(_, _), _) => false
    case (Sequence(_, _), _) => false
    case _ => v == w
  }

  /** Plain mutable data: dicts and lists only. */
  predicate Plain(v: Value) {
    match v
    case Mapping(frozen, es) => !frozen && forall i :: 0 <= i < |es| ==> Plain(es[i].value)
    case Sequence(kind, items) => kind == List && forall i :: 0 <= i < |items| ==> Plain(items[i])
    case _ => true
  }

  // ---- freezing ----------------------------------------------------------------------------

  lemma {:induction false} FrozenIsEncodable(v: Value)
    requires Frozen(v)
    ensures Encodable(v)
  {
    match v
    case Mapping(_, es) =>
      forall i | 0 <= i < |es| ensures Encodable(es[i].value) { FrozenIsEncodable(es[i].value); }
    case Sequence(_, items) =>
      forall i | 0 <= i < |items| ensures Encodable(items[i]) { FrozenIsEncodable(items[i]); }
    case _ =>
  }

  lemma {:induction false} AlikeReflexive(v: Value)
    ensures Alike(v, v)
  {
    match v
    case Mapping(_, es) =>
      forall i | 0 <= i < |es| ensures Alike(es[i].value, es[i].value) { AlikeReflexive(es[i].value); }
    case Sequence(_, items) =>
      forall i | 0 <= i < |items| ensures Alike(items[i], items[i]) { AlikeReflexive(items[i]); }
    case _ =>
  }

  /** `deep_freeze` succeeds exactly on the encodable values, and returns a deeply frozen value
      that differs from its argument in container classes only. */
  lemma {:induction false} FreezeFreezes(v: Value)
    requires Genuine(v)
    ensures DeepFreeze(v).Ok? <==> Encodable(v)
    ensures DeepFreeze(v).Ok? ==> Frozen(DeepFreeze(v).value) && Alike(DeepFreeze(v).value, v)
    decreases v, 0
  {
    match v
    case Mapping(frozen, es) =>
      if frozen {
        FrozenIsEncodable(v);
        AlikeReflexive(v);
      } else {
        FreezeEntriesFreezes(es);
      }
    case Sequence(_, items) => FreezeItemsFreezes(items);
    case _ =>
  }

  lemma {:induction false} FreezeEntriesFreezes(es: seq<Entry>)
    requires forall i :: 0 <= i < |es| ==> Genuine(es[i].value)
    ensures FreezeEntries(es).Ok? <==> AllNames(es) && forall i :: 0 <= i < |es| ==> Encodable(es[i].value)
    ensures FreezeEntries(es).Ok? ==>
              var r := FreezeEntries(es).value;
              |r| == |es| && forall i :: 0 <= i < |es| ==>
                                           r[i].key == es[i].key && Frozen(r[i].value) && Alike(r[i].value, es[i].value)
    decreases es, 0
  {
    if es != [] {
      assert es[0] decreases to es[0].value;
      assert es decreases to es[0];
      FreezeFreezes(es[0].value);
      FreezeEntriesFreezes(es[1..]);
      assert es == [es[0]] + es[1..];
    }
  }

  lemma {:induction false} FreezeItemsFreezes(items: seq<Value>)
    requires forall i :: 0 <= i < |items| ==> Genuine(items[i])
    ensures FreezeItems(items).Ok? <==> forall i :: 0 <= i < |items| ==> Encodable(items[i])
    ensures FreezeItems(items).Ok? ==>
              var r := FreezeItems(items).value;
              |r| == |items| && forall i :: 0 <= i < |items| ==> Frozen(r[i]) && Alike(r[i], items[i])
    decreases items, 0
  {
    if items != [] {
      FreezeFreezes(items[0]);
      FreezeItemsFreezes(items[1..]);
      assert items == [items[0]] + items[1..];
    }
  }

  /** A frozen value passes through unchanged. */
  lemma {:induction false} FrozenIsFixed(v: Value)
    requires Frozen(v)
    ensures DeepFreeze(v) == Ok(v)
  {
    match v
    case Sequence(_, items) => FrozenItemsAreFixed(items);
    case _ =>
  }

  lemma {:induction false} FrozenItemsAreFixed(items: seq<Value>)
    requires forall i :: 0 <= i < |items| ==> Frozen(items[i])
    ensures FreezeItems(items) == Ok(items)
  {
    if items != [] {
      FrozenIsFixed(items[0]);
      FrozenItemsAreFixed(items[1..]);
      assert items == [items[0]] + items[1..];
    }
  }

  /** Freezing twice is freezing once. */
  lemma FreezeIdempotent(v: Value)
    requires Genuine(v) && DeepFreeze(v).Ok?
    ensures DeepFreeze(DeepFreeze(v).value) == DeepFreeze(v)
  {
    FreezeFreezes(v);
    FrozenIsFixed(DeepFreeze(v).value);
  }

  // ---- identity ------------------------------------------------------------------------------

  /** Values that differ in container classes only are the same typed value. */
  lemma {:induction false} AlikeIsSame(v: Value, w: Value)
    requires Alike(v, w) && Valid(v) && Encodable(v)
    ensures Valid(w) && Encodable(w) && Same(v, w)
  {
    match v
    case Mapping(_, a) =>
      var b := w.entries;
      forall i | 0 <= i < |a| ensures Valid(b[i].value) && Encodable(b[i].value) && Same(a[i].value, b[i].value) {
        AlikeIsSame(a[i].value, b[i].value);
      }
      SameByPosition(a, b);
    case Sequence(_, a) =>
      forall i | 0 <= i < |a| ensures Valid(w.items[i]) && Encodable(w.items[i]) && Same(a[i], w.items[i]) {
        AlikeIsSame(a[i], w.items[i]);
      }
    case _ =>
  }

  lemma {:induction false} AlikeSymmetric(v: Value, w: Value)
    requires Alike(v, w)
    ensures Alike(w, v)
  {
    match v
    case Mapping(_, a) =>
      forall i | 0 <= i < |a| ensures Alike(w.entries[i].value, a[i].value) { AlikeSymmetric(a[i].value, w.entries[i].value); }
    case Sequence(_, a) =>
      forall i | 0 <= i < |a| ensures Alike(w.items[i], a[i]) { AlikeSymmetric(a[i], w.items[i]); }
    case _ =>
  }

  /** Freezing and encoding accept the same values, and freezing leaves the encoding unchanged:
      a record's identity does not depend on whether it was frozen first. */
  lemma FreezingKeepsIdentity(v: Value)
    requires Valid(v) && Genuine(v)
    ensures DeepFreeze(v).Ok? <==> Encode(v).Ok?
    ensures DeepFreeze(v).Ok? ==> Valid(DeepFreeze(v).value) && Encode(DeepFreeze(v).value) == Encode(v)
  {
    FreezeFreezes(v);
    EncodesExactly(v);
    if DeepFreeze(v).Ok? {
      var w := DeepFreeze(v).value;
      AlikeSymmetric(w, v);
      AlikeIsSame(v, w);
      EncodingIdentifies(v, w);
    }
  }

  lemma {:induction false} ThawThaws(v: Value)
    requires Frozen(v)
    ensures Plain(Thaw(v)) && Alike(Thaw(v), v)
  {
    match v
    case Mapping(_, es) =>
      forall i | 0 <= i < |es| ensures Plain(Thaw(es[i].value)) && Alike(Thaw(es[i].value), es[i].value) {
        ThawThaws(es[i].value);
      }
    case Sequence(_, items) =>
      forall i | 0 <= i < |items| ensures Plain(Thaw(items[i])) && Alike(Thaw(items[i]), items[i]) {
        ThawThaws(items[i]);
      }
    case _ =>
  }

  lemma {:induction false} AlikeTransitive(u: Value, v: Value, w: Value)
    requires Alike(u, v) && Alike(v, w)
    ensures Alike(u, w)
  {
    match u
    case Mapping(_, a) =>
      forall i | 0 <= i < |a| ensures Alike(a[i].value, w.entries[i].value) {
        AlikeTransitive(a[i].value, v.entries[i].value, w.entries[i].value);
      }
    case Sequence(_, a) =>
      forall i | 0 <= i < |a| ensures Alike(a[i], w.items[i]) {
        AlikeTransitive(a[i], v.items[i], w.items[i]);
      }
    case _ =>
  }

  lemma {:induction false} PlainUnique(v: Value, w: Value)
    requires Plain(v) && Plain(w) && Alike(v, w)
    ensures v == w
  {
    match v
    case Mapping(_, a) =>
      forall i | 0 <= i < |a| ensures a[i] == w.entries[i] { PlainUnique(a[i].value, w.entries[i].value); }
      assert a == w.entries;
    case Sequence(_, a) =>
      forall i | 0 <= i < |a| ensures a[i] == w.items[i] { PlainUnique(a[i], w.items[i]); }
      assert a == w.items;
    case _ =>
  }

  /** Round trip: thawing what freezing returned is plain data that differs from the argument in
      container classes only; on plain data it is the argument itself. */
  lemma ThawInvertsFreeze(v: Value)
    requires Genuine(v) && DeepFreeze(v).Ok?
    ensures var back := Thaw(DeepFreeze(v).value);
            Plain(back) && Alike(back, v) && (Plain(v) ==> back == v)
  {
    FreezeFreezes(v);
    var w := DeepFreeze(v).value;
    ThawThaws(w);
    AlikeTransitive(Thaw(w), w, v);
    if Plain(v) {
      PlainUnique(Thaw(w), v);
    }
  }

  /** No sequence of a class that is neither a list nor a tuple. */
  predicate ListsOrTuples(v: Value) {
    match v
    case Mapping(_, es) => forall i :: 0 <= i < |es| ==> ListsOrTuples(es[i].value)
    case Sequence(kind, items) => kind != OtherSequence && forall i :: 0 <= i < |items| ==> ListsOrTuples(items[i])
    case _ => true
  }

  /** Thawing leaves nothing but dicts and lists, except where there is a sequence of another class, which it leaves. */
  lemma {:induction false} ThawIsPlain(v: Value)
    ensures Plain(Thaw(v)) <==> ListsOrTuples(v)
  {
    match v
    case Mapping(_, es) =>
      forall i | 0 <= i < |es| ensures Plain(Thaw(es[i].value)) <==> ListsOrTuples(es[i].value) { ThawIsPlain(es[i].value); }
      assert forall i :: 0 <= i < |es| ==> Thaw(v).entries[i].value == Thaw(es[i].value);
    case Sequence(kind, items) =>
      if kind != OtherSequence {
        forall i | 0 <= i < |items| ensures Plain(Thaw(items[i])) <==> ListsOrTuples(items[i]) { ThawIsPlain(items[i]); }
        assert forall i :: 0 <= i < |items| ==> Thaw(v).items[i] == Thaw(items[i]);
      }
    case _ =>
  }
}
