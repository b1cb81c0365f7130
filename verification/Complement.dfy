/**
 Include and exclude are complements: for the same fields, every leaf of a document that is laid out as
 the patterns say is kept by exactly one of the two, although one walks a trie and the other matches
 dotted strings.
 */
module Complement {
  import opened PathPattern
  import opened PatternMatch
  import opened JsonTree
  import Projection
  import opened Deletion
  import opened DottedPaths

  /**
   The document follows the pending patterns: an array stands exactly where they write `[]`, and no key is
   both named by one of them and covered by a `*` of another.
   */
  predicate Aligned(data: Json, tails: set<Path>) {
    match data
    case Obj(fields) =>
      forall k :: k in fields ==>
           && KeyClear(tails, k)
           && ([] in Projection.Branch(tails, k) || Aligned(fields[k], Projection.Branch(tails, k)))
    case Arr(items) =>
      && (forall t :: t in tails ==> t != [] && t[0] == ARRAY)
      && forall i :: 0 <= i < |items| ==> Aligned(items[i], Projection.Branch(tails, ARRAY))
    case _ => true
  }

  predicate AllEndInKeys(tails: set<Path>) {
    forall t :: t in tails ==> EndsInKey(t)
  }

  lemma ArrayStepDown(tails: set<Path>, ks: Path)
    requires MatchesOne(ks, tails) && ks != []
    requires forall t :: t in tails ==> t != [] && t[0] == ARRAY
    ensures MatchesOne(ks, Projection.Branch(tails, ARRAY))
  {
    var t :| t in tails && KeysMatch(ks, t);
    KeysMatchStep(ks, t);
    assert t[1..] in Projection.Derive(tails, ARRAY);
  }

  lemma ArrayStepUp(tails: set<Path>, ks: Path)
    requires MatchesOne(ks, Projection.Branch(tails, ARRAY)) && ks != []
    requires forall t :: t in tails ==> t != [] && t[0] == ARRAY
    ensures MatchesOne(ks, tails)
  {
    var r :| r in Projection.Branch(tails, ARRAY) && KeysMatch(ks, r);
    var t :| t in tails && t != [] && t[0] == ARRAY && t[1..] == r;
    KeysMatchStep(ks, t);
  }

  lemma ArrayStep(tails: set<Path>, ks: Path)
    requires AllEndInKeys(tails) && ks != []
    requires forall t :: t in tails ==> t[0] == ARRAY
    ensures AllEndInKeys(Projection.Branch(tails, ARRAY))
    ensures MatchesOne(ks, tails) <==> MatchesOne(ks, Projection.Branch(tails, ARRAY))
  {
    if MatchesOne(ks, tails) {
      ArrayStepDown(tails, ks);
    }
    if MatchesOne(ks, Projection.Branch(tails, ARRAY)) {
      ArrayStepUp(tails, ks);
    }
  }

  /** No array marker is pending, and `k` is not both named and covered by a `*`. */
  predicate KeyClear(tails: set<Path>, k: string) {
    && (forall t :: t in tails ==> t != [] && t[0] != ARRAY)
    && (k == WILDCARD || Projection.Derive(tails, k) == {} || Projection.Derive(tails, WILDCARD) == {})
  }

  /** The branch for a key holds the rests of exactly the patterns that admit it. */
  lemma BranchAdmits(tails: set<Path>, k: string)
    requires KeyClear(tails, k)
    ensures forall t :: t in tails && Admits(t[0], k) ==> t[1..] in Projection.Branch(tails, k)
    ensures forall r :: r in Projection.Branch(tails, k) ==> exists t :: t in tails && t[1..] == r && Admits(t[0], k)
  {
    var rest := Projection.Branch(tails, k);
    forall t | t in tails && Admits(t[0], k) ensures t[1..] in rest {
      assert t[1..] in Projection.Derive(tails, t[0]);
    }
    forall r | r in rest ensures exists t :: t in tails && t[1..] == r && Admits(t[0], k) {
      var t :| t in tails && t != [] && (t[0] == k || t[0] == WILDCARD) && t[1..] == r;
    }
  }

  /** A pattern matches the key itself when it ends there. */
  lemma KeyStep(tails: set<Path>, k: string)
    requires AllEndInKeys(tails) && KeyClear(tails, k)
    ensures MatchesOne([k], tails) <==> [] in Projection.Branch(tails, k)
    ensures [] !in Projection.Branch(tails, k) ==> AllEndInKeys(Projection.Branch(tails, k))
  {
    BranchAdmits(tails, k);
    assert [k][1..] == [];
    forall t | t in tails ensures KeysMatch([k], t) <==> Admits(t[0], k) && t[1..] == [] {
      KeysMatchStep([k], t);
    }
  }

  /** Below a key where no pattern ends, the rests go on. */
  lemma BelowKey(tails: set<Path>, k: string, ks: Path)
    requires AllEndInKeys(tails) && KeyClear(tails, k) && ks != []
    requires [] !in Projection.Branch(tails, k)
    ensures MatchesOne([k] + ks, tails) <==> MatchesOne(ks, Projection.Branch(tails, k))
  {
    BranchAdmits(tails, k);
    var all := [k] + ks;
    assert all[1..] == ks;
    forall t | t in tails ensures KeysMatch(all, t) <==> Admits(t[0], k) && KeysMatch(ks, t[1..]) {
      KeysMatchStep(all, t);
      if Admits(t[0], k) {
        assert t[1..] != [];
      }
    }
  }

  lemma {:induction false} SomeItemCounts(items: seq<Json>, p: seq<Step>, v: Value) returns (i: nat)
    requires CountItems(items, p, v) > 0
    ensures i < |items| && Count(items[i], p, v) > 0
  {
    if Count(items[0], p, v) > 0 {
      i := 0;
    } else {
      i := SomeItemCounts(items[1..], p, v);
      i := i + 1;
    }
  }

  /** On a leaf of an aligned document the trie walk and the key-list match decide alike. */
  lemma {:induction false} AcceptedIffRemoved(data: Json, tails: set<Path>, gone: Path -> bool, keys: Path, p: seq<Step>, v: Value)
    requires Aligned(data, tails) && AllEndInKeys(tails)
    requires forall ks :: ks != [] ==> gone(keys + ks) == MatchesOne(ks, tails)
    requires Count(data, p, v) > 0
    ensures Projection.Accepts(tails, p) <==> Removed(gone, keys, p)
    decreases |p|
  {
    match data
    case Scalar(w) =>
    case Arr(items) =>
      var rest := Projection.Branch(tails, ARRAY);
      forall ks | ks != [] ensures gone(keys + ks) == MatchesOne(ks, rest) && AllEndInKeys(rest) {
        ArrayStep(tails, ks);
      }
      ArrayStep(tails, [""]);
      var i := SomeItemCounts(items, p[1..], v);
      AcceptedIffRemoved(items[i], rest, gone, keys, p[1..], v);
    case Obj(fields) =>
      var k := p[0].k;
      var rest := Projection.Branch(tails, k);
      KeyStep(tails, k);
      if [] !in rest {
        forall ks | ks != [] ensures gone(keys + [k] + ks) == MatchesOne(ks, rest) {
          BelowKey(tails, k, ks);
          assert keys + [k] + ks == keys + ([k] + ks);
        }
        AcceptedIffRemoved(fields[k], rest, gone, keys + [k], p[1..], v);
      }
  }

  /** Does the trie walk decide as the string match does, at every leaf of the document? */
  ghost predicate DecidedOnce(data: Json, fields: seq<string>) {
    forall p, v :: Count(data, p, v) > 0 ==>
      (Projection.Accepts(Patterns(fields), p) <==> Removed(ByDottedPath(fields), [], p))
  }

  ghost predicate Splits(data: Json, fields: seq<string>) {
    forall p, v :: Count(data, p, v)
      == Count(Projection.Project(data, Patterns(fields)), p, v) + Count(Exclude(data, fields), p, v)
  }

  /**
   The exact condition, for every document and all fields: the bag of leaves splits into what include keeps
   and what exclude keeps, if and only if each leaf is accepted by the one exactly when it is cut off by the
   other.
   */
  lemma ComplementExact(data: Json, fields: seq<string>)
    ensures Splits(data, fields) <==> DecidedOnce(data, fields)
  {
    forall p, v
      ensures Count(data, p, v) > 0 ==>
        (Count(data, p, v) == Count(Projection.Project(data, Patterns(fields)), p, v) + Count(Exclude(data, fields), p, v)
         <==> (Projection.Accepts(Patterns(fields), p) <==> Removed(ByDottedPath(fields), [], p)))
      ensures Count(data, p, v) == 0 ==>
        Count(Projection.Project(data, Patterns(fields)), p, v) == 0 && Count(Exclude(data, fields), p, v) == 0
    {
      Projection.LeafConservation(data, Patterns(fields), p, v);
      LeafDeletion(data, ByDottedPath(fields), [], p, v);
    }
  }

  /** On documents laid out as the patterns say, every leaf is kept by exactly one of the two. */
  lemma IncludeExcludeComplement(data: Json, fields: seq<string>)
    requires KeptApart(data, [])
    requires AllEndInKeys(Patterns(fields)) && Aligned(data, Patterns(fields))
    ensures Splits(data, fields)
  {
    var tails := Patterns(fields);
    var gone := BySegments(tails);
    PathsAgree(data, fields, []);
    forall p, v | Count(data, p, v) > 0
      ensures Projection.Accepts(tails, p) <==> Removed(ByDottedPath(fields), [], p)
    {
      LeafDeletion(data, gone, [], p, v);
      LeafDeletion(data, ByDottedPath(fields), [], p, v);
      forall ks: Path ensures gone([] + ks) == MatchesOne(ks, tails) {
        assert [] + ks == ks;
      }
      AcceptedIffRemoved(data, tails, gone, [], p, v);
    }
    ComplementExact(data, fields);
  }

  // ---------- fields and documents on which it fails ----------

  lemma ExcludePlain(data: Json, fields: seq<string>, p: seq<Step>, v: Value)
    requires DotFree(data) && EmptyKeyIsLeaf(data)
    ensures Count(Exclude(data, fields), p, v)
         == if Removed(BySegments(Patterns(fields)), [], p) then 0 else Count(data, p, v)
  {
    ExcludeIsBySegments(data, fields);
    LeafDeletion(data, BySegments(Patterns(fields)), [], p, v);
  }

  /** An array where the field writes none: on an array under `a`, the field `a.b` makes both filters drop the leaf. */
  lemma UnwrittenArrayLosesLeaf(v: Value)
    ensures var data := Obj(map["a" := Arr([Obj(map["b" := Scalar(v)])])]);
            var p := [Key("a"), Item, Key("b")];
            && Count(data, p, v) == 1
            && Count(Projection.Project(data, Patterns(["a.b"])), p, v) == 0
            && Count(Exclude(data, ["a.b"]), p, v) == 0
  {
    var data := Obj(map["a" := Arr([Obj(map["b" := Scalar(v)])])]);
    var p := [Key("a"), Item, Key("b")];
    var tails := Patterns(["a.b"]);
    FieldAB();
    LeafUnderArray(v);
    Projection.LeafConservation(data, tails, p, v);
    AfterA(tails);
    ExcludePlain(data, ["a.b"], p, v);
    RemovedAB(tails);
  }

  lemma LeafUnderArray(v: Value)
    ensures var data := Obj(map["a" := Arr([Obj(map["b" := Scalar(v)])])]);
            Count(data, [Key("a"), Item, Key("b")], v) == 1 && DotFree(data) && EmptyKeyIsLeaf(data)
  {
    var inner := Obj(map["b" := Scalar(v)]);
    var p := [Key("a"), Item, Key("b")];
    assert p[1..] == [Item, Key("b")] && p[1..][1..] == [Key("b")];
    CountInItems(inner, [Key("b")], v);
    assert [Key("b")][1..] == [] && Count(inner, [Key("b")], v) == Count(Scalar(v), [], v);
    assert DotFree(Arr([inner]));
  }

  lemma FieldAB()
    ensures Patterns(["a.b"]) == {["a", "b"]}
  {
    PlainName("a");
    PlainName("b");
    TokensOfTwo("a", "b");
    assert "a.b" == "a" + "." + "b" && "a.b" in ["a.b"];
  }

  /** A key that is both named and covered by `*`: the name hides `*.a` from include, but not from exclude. */
  lemma ShadowedKeyLosesLeaf(v: Value)
    ensures var data := Obj(map["x" := Obj(map["a" := Scalar(v)])]);
            var p := [Key("x"), Key("a")];
            var fields := ["*.a", "x.b"];
            && Count(data, p, v) == 1
            && Count(Projection.Project(data, Patterns(fields)), p, v) == 0
            && Count(Exclude(data, fields), p, v) == 0
  {
    var data := Obj(map["x" := Obj(map["a" := Scalar(v)])]);
    var p := [Key("x"), Key("a")];
    var fields := ["*.a", "x.b"];
    LeafBelowKey(v);
    Projection.ShadowingLosesData(v);
    Projection.ShadowingFields();
    ExcludePlain(data, fields, p, v);
    RemovedXA(Patterns(fields));
  }

  lemma LeafBelowKey(v: Value)
    ensures var data := Obj(map["x" := Obj(map["a" := Scalar(v)])]);
            Count(data, [Key("x"), Key("a")], v) == 1 && DotFree(data) && EmptyKeyIsLeaf(data)
  {
    var p := [Key("x"), Key("a")];
    assert p[1..] == [Key("a")] && p[1..][1..] == [];
    assert Count(Obj(map["a" := Scalar(v)]), [Key("a")], v) == Count(Scalar(v), [], v);
  }

  lemma RemovedXA(tails: set<Path>)
    requires [WILDCARD, "a"] in tails
    ensures Removed(BySegments(tails), [], [Key("x"), Key("a")])
  {
    var p, pattern, xa := [Key("x"), Key("a")], [WILDCARD, "a"], ["x", "a"];
    var keys: Path := [];
    assert p[1..] == [Key("a")];
    assert keys + ["x"] == ["x"] && ["x"] + ["a"] == xa;
    assert pattern[1..] == ["a"] && Strip(["a"]) == ["a"] && Strip(pattern) == pattern;
    assert KeysMatch(xa, pattern);
  }

  lemma CountInItems(item: Json, p: seq<Step>, v: Value)
    ensures CountItems([item], p, v) == Count(item, p, v)
  {
    assert [item][1..] == [];
  }

  lemma AfterA(tails: set<Path>)
    requires tails == {["a", "b"]}
    ensures !Projection.Accepts(tails, [Key("a"), Item, Key("b")])
  {
    var p := [Key("a"), Item, Key("b")];
    assert ["a", "b"][1..] == ["b"];
    Projection.DeriveMember(tails, "a", ["b"]);
    var t := Projection.Branch(tails, "a");
    assert t == {["b"]};
    assert Projection.Branch(t, ARRAY) == {};
    assert p[1..][0] == Item;
    Projection.NothingAccepted(p[1..][1..]);
  }

  lemma RemovedAB(tails: set<Path>)
    requires tails == {["a", "b"]}
    ensures Removed(BySegments(tails), [], [Key("a"), Item, Key("b")])
  {
    var p, ab := [Key("a"), Item, Key("b")], ["a", "b"];
    var keys: Path := [];
    assert p[1..] == [Item, Key("b")] && p[1..][1..] == [Key("b")];
    assert keys + ["a"] == ["a"] && ["a"] + ["b"] == ab;
    assert ab[1..] == ["b"] && Strip(["b"]) == ["b"] && Strip(ab) == ab;
    assert ab in tails && KeysMatch(ab, ab);
  }

  /** A field that ends in `[]`: scalars of the array under `a` are kept by both filters. */
  lemma TrailingMarkerKeepsLeafTwice(v: Value)
    ensures var data := Obj(map["a" := Arr([Scalar(v)])]);
            var p := [Key("a"), Item];
            && Count(data, p, v) == 1
            && Count(Projection.Project(data, Patterns(["a[]"])), p, v) == 1
            && Count(Exclude(data, ["a[]"]), p, v) == 1
  {
    var data := Obj(map["a" := Arr([Scalar(v)])]);
    var p := [Key("a"), Item];
    var tails := Patterns(["a[]"]);
    FieldTrailing();
    LeafInArray(v);
    Projection.LeafConservation(data, tails, p, v);
    AcceptsTrailing(tails);
    ExcludePlain(data, ["a[]"], p, v);
    NotRemovedTrailing(tails);
  }

  lemma LeafInArray(v: Value)
    ensures var data := Obj(map["a" := Arr([Scalar(v)])]);
            Count(data, [Key("a"), Item], v) == 1 && DotFree(data) && EmptyKeyIsLeaf(data)
  {
    var p := [Key("a"), Item];
    assert p[1..] == [Item] && p[1..][1..] == [];
    CountInItems(Scalar(v), [], v);
  }

  lemma NotRemovedTrailing(tails: set<Path>)
    requires tails == {["a", ARRAY]}
    ensures !Removed(BySegments(tails), [], [Key("a"), Item])
  {
    var p := [Key("a"), Item];
    assert p[1..] == [Item] && p[1..][1..] == [];
  }

  lemma FieldTrailing()
    ensures Patterns(["a[]"]) == {["a", ARRAY]}
  {
    TokensOfArrayField("a");
    assert "a[]" == "a" + ARRAY && "a[]" in ["a[]"];
  }

  lemma AcceptsTrailing(tails: set<Path>)
    requires tails == {["a", ARRAY]}
    ensures Projection.Accepts(tails, [Key("a"), Item])
  {
    var p := [Key("a"), Item];
    assert ["a"] + [ARRAY] == ["a", ARRAY] && [ARRAY] + [] == [ARRAY];
    Projection.DeriveMember(tails, "a", [ARRAY]);
    var t := Projection.Branch(tails, "a");
    Projection.DeriveMember(t, ARRAY, []);
    assert p[1..] == [Item] && [Item][1..] == [];
    assert [] in Projection.Branch(t, ARRAY);
    assert Projection.Accepts(t, [Item]);
  }
}
