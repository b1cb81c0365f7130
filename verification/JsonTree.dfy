/** Decoded JSON documents and the bag of their leaves. */
module JsonTree {
  import opened Wrappers

  datatype Value = Bool(b: bool) | Number(n: real) | Text(s: string)

  /** `Null` is both the JSON null and the Go `nil` that says nothing survived. */
  datatype Json = Null | Scalar(v: Value) | Arr(items: seq<Json>) | Obj(fields: map<string, Json>)

  /** A step from a value into a part of it; all items of an array are reached by the same step. */
  datatype Step = Key(k: string) | Item

  /**
   The bag of non-null scalar leaves, as a multiplicity: how often the scalar `v` occurs in `j` at the
   path `p`, array positions erased.
   */
  function Count(j: Json, p: seq<Step>, v: Value): nat
    decreases |p|, 0
  {
    match j
    case Null => 0
    case Scalar(w) => if p == [] && w == v then 1 else 0
    case Arr(items) => if p != [] && p[0].Item? then CountItems(items, p[1..], v) else 0
    case Obj(fields) =>
      if p != [] && p[0].Key? && p[0].k in fields then Count(fields[p[0].k], p[1..], v) else 0
  }

  function CountItems(items: seq<Json>, p: seq<Step>, v: Value): nat
    decreases |p|, |items|
  {
    if items == [] then 0 else Count(items[0], p, v) + CountItems(items[1..], p, v)
  }

  /** A step to one particular part of a value. */
  datatype Place = Field(k: string) | Index(i: nat)

  /** The value at a location of the document, if there is one. */
  function At(j: Json, place: seq<Place>): Option<Json> {
    if place == [] then Some(j)
    else
      match j
      case Arr(items) =>
        if place[0].Index? && place[0].i < |items| then At(items[place[0].i], place[1..]) else None
      case Obj(fields) =>
        if place[0].Field? && place[0].k in fields then At(fields[place[0].k], place[1..]) else None
      case _ => None
  }

  /** The steps to a location, array positions erased. */
  function Erase(place: seq<Place>): (p: seq<Step>)
    ensures |p| == |place|
  {
    if place == [] then []
    else [if place[0].Field? then Key(place[0].k) else Item] + Erase(place[1..])
  }

  /** A leaf is counted exactly if it is at some location with that path. */
  lemma {:induction false} CountedIffThere(j: Json, p: seq<Step>, v: Value)
    ensures Count(j, p, v) > 0 <==> exists place :: Erase(place) == p && At(j, place) == Some(Scalar(v))
    decreases |p|
  {
    if Count(j, p, v) > 0 {
      var place := LeafPlace(j, p, v);
    }
    forall place | Erase(place) == p && At(j, place) == Some(Scalar(v)) ensures Count(j, p, v) > 0 {
      LeafCounted(j, place, v);
    }
  }

  lemma {:induction false} LeafPlace(j: Json, p: seq<Step>, v: Value) returns (place: seq<Place>)
    requires Count(j, p, v) > 0
    ensures Erase(place) == p && At(j, place) == Some(Scalar(v))
    decreases |p|
  {
    match j
    case Scalar(_) => place := [];
    case Arr(items) =>
      var i := CountedItem(items, p[1..], v);
      var rest := LeafPlace(items[i], p[1..], v);
      place := [Index(i)] + rest;
      assert place[1..] == rest && p == [Item] + p[1..];
    case Obj(fields) =>
      var rest := LeafPlace(fields[p[0].k], p[1..], v);
      place := [Field(p[0].k)] + rest;
      assert place[1..] == rest && p == [Key(p[0].k)] + p[1..];
  }

  lemma {:induction false} CountedItem(items: seq<Json>, p: seq<Step>, v: Value) returns (i: nat)
    requires CountItems(items, p, v) > 0
    ensures i < |items| && Count(items[i], p, v) > 0
  {
    if Count(items[0], p, v) > 0 {
      i := 0;
    } else {
      var rest := CountedItem(items[1..], p, v);
      i := rest + 1;
    }
  }

  lemma {:induction false} LeafCounted(j: Json, place: seq<Place>, v: Value)
    requires At(j, place) == Some(Scalar(v))
    ensures Count(j, Erase(place), v) > 0
    decreases |place|
  {
    if place != [] {
      assert Erase(place)[1..] == Erase(place[1..]);
      match j
      case Arr(items) =>
        LeafCounted(items[place[0].i], place[1..], v);
        ItemCounted(items, place[0].i, Erase(place[1..]), v);
      case Obj(fields) =>
        LeafCounted(fields[place[0].k], place[1..], v);
    }
  }

  lemma {:induction false} ItemCounted(items: seq<Json>, i: nat, p: seq<Step>, v: Value)
    requires i < |items| && Count(items[i], p, v) > 0
    ensures CountItems(items, p, v) > 0
  {
    if i > 0 {
      ItemCounted(items[1..], i - 1, p, v);
    }
  }
}
