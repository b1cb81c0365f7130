/**
 What an include filter means: a projection of the document driven by the set of pattern tails that are
 still to be matched. It never mentions a trie; the heap trie of `PathTrie` is proved to compute it.
 */
module Projection {
  import opened PathPattern
  import opened JsonTree
  import opened Wrappers

  /** What remains of the patterns that begin with segment `k`. */
  function Derive(tails: set<Path>, k: string): set<Path> {
    set t | t in tails && t != [] && t[0] == k :: t[1..]
  }

  /** The tails followed under key or marker `k`: an explicit segment shadows `*`. */
  function Branch(tails: set<Path>, k: string): set<Path> {
    if Derive(tails, k) != {} then Derive(tails, k) else Derive(tails, WILDCARD)
  }

  function Project(data: Json, tails: set<Path>): Json
    decreases data, 0
  {
    match data
    case Obj(fields) =>
      var kept := map k | k in fields && Member(fields[k], Branch(tails, k)).Some?
                      :: Member(fields[k], Branch(tails, k)).value;
      if kept == map[] then Null else Obj(kept)
    case Arr(items) =>
      if Branch(tails, ARRAY) == {} then Null else Arr(ProjectItems(items, Branch(tails, ARRAY)))
    case _ => if [] in tails then data else Null
  }

  /** A field whose remaining tails are `tails`: dropped, kept whole, or projected and kept if not null. */
  function Member(value: Json, tails: set<Path>): Option<Json>
    decreases value, 1
  {
    if tails == {} then None
    else if [] in tails then Some(value)
    else if Project(value, tails) == Null then None
    else Some(Project(value, tails))
  }

  function ProjectItems(items: seq<Json>, tails: set<Path>): seq<Json>
    decreases items, 0
  {
    if items == [] then []
    else
      var first := Project(items[0], tails);
      (if first == Null then [] else [first]) + ProjectItems(items[1..], tails)
  }

  lemma DeriveMember(tails: set<Path>, k: string, t: Path)
    ensures t in Derive(tails, k) <==> [k] + t in tails
  {
    assert ([k] + t)[0] == k && ([k] + t)[1..] == t;
    if t in Derive(tails, k) {
      var f :| f in tails && f != [] && f[0] == k && f[1..] == t;
      assert f == [k] + t;
    }
  }

  /** The projection of an object, field by field. */
  lemma ProjectField(fields: map<string, Json>, tails: set<Path>, k: string)
    requires k in fields
    ensures var out, m := Project(Obj(fields), tails), Member(fields[k], Branch(tails, k));
            && (m.Some? <==> out.Obj? && k in out.fields)
            && (m.Some? ==> out.fields[k] == m.value)
  {
    var kept := map k | k in fields && Member(fields[k], Branch(tails, k)).Some?
                    :: Member(fields[k], Branch(tails, k)).value;
    assert k in kept <==> Member(fields[k], Branch(tails, k)).Some?;
  }

  predicate Holds(result: map<string, Json>, k: string, member: Option<Json>) {
    if k in result then member == Some(result[k]) else member.None?
  }

  /** A map that holds the members of an object is its projection. */
  lemma ProjectFields(fields: map<string, Json>, tails: set<Path>, result: map<string, Json>)
    requires result.Keys <= fields.Keys
    requires forall k :: k in fields ==> Holds(result, k, Member(fields[k], Branch(tails, k)))
    ensures Project(Obj(fields), tails) == if result == map[] then Null else Obj(result)
  {
    var kept := map k | k in fields && Member(fields[k], Branch(tails, k)).Some?
                    :: Member(fields[k], Branch(tails, k)).value;
    assert kept == result;
  }

  lemma {:induction false} ProjectItemsConcat(a: seq<Json>, b: seq<Json>, tails: set<Path>)
    ensures ProjectItems(a + b, tails) == ProjectItems(a, tails) + ProjectItems(b, tails)
  {
    if a == [] {
      assert a + b == b;
    } else {
      assert (a + b)[1..] == a[1..] + b;
      ProjectItemsConcat(a[1..], b, tails);
    }
  }

  lemma ProjectItemsSnoc(items: seq<Json>, i: nat, tails: set<Path>)
    requires i < |items|
    ensures ProjectItems(items[..i + 1], tails)
         == ProjectItems(items[..i], tails) + if Project(items[i], tails) == Null then [] else [Project(items[i], tails)]
  {
    assert items[..i + 1] == items[..i] + [items[i]];
    ProjectItemsConcat(items[..i], [items[i]], tails);
  }

  // ---------- which leaves survive ----------

  /** Is a leaf at path `p` kept? Follow the segments; a pattern that ends in a key keeps all below it. */
  predicate Accepts(tails: set<Path>, p: seq<Step>)
    decreases |p|
  {
    if p == [] then [] in tails
    else
      match p[0]
      case Key(k) => var t := Branch(tails, k); [] in t || Accepts(t, p[1..])
      case Item => Accepts(Branch(tails, ARRAY), p[1..])
  }

  lemma NothingAccepted(p: seq<Step>)
    ensures !Accepts({}, p)
    decreases |p|
  {
    if p != [] {
      assert Branch({}, ARRAY) == {} && (p[0].Key? ==> Branch({}, p[0].k) == {});
      NothingAccepted(p[1..]);
    }
  }

  /** Include keeps exactly the leaves on accepted paths, each as often as it occurs in the document. */
  lemma {:induction false} LeafConservation(data: Json, tails: set<Path>, p: seq<Step>, v: Value)
    ensures Count(Project(data, tails), p, v) == if Accepts(tails, p) then Count(data, p, v) else 0
    decreases |p|, 0
  {
    match data
    case Null =>
    case Scalar(w) =>
    case Arr(items) =>
      if p != [] && p[0].Item? {
        var t := Branch(tails, ARRAY);
        if t == {} {
          NothingAccepted(p[1..]);
        } else {
          ItemConservation(items, t, p[1..], v);
        }
      }
    case Obj(fields) =>
      if p != [] && p[0].Key? && p[0].k in fields {
        var t := Branch(tails, p[0].k);
        ProjectField(fields, tails, p[0].k);
        if t == {} {
          NothingAccepted(p[1..]);
        } else if [] !in t {
          LeafConservation(fields[p[0].k], t, p[1..], v);
        }
      }
  }

  lemma {:induction false} ItemConservation(items: seq<Json>, tails: set<Path>, p: seq<Step>, v: Value)
    ensures CountItems(ProjectItems(items, tails), p, v) == if Accepts(tails, p) then CountItems(items, p, v) else 0
    decreases |p|, |items| + 1
  {
    if items != [] {
      LeafConservation(items[0], tails, p, v);
      ItemConservation(items[1..], tails, p, v);
      var first := Project(items[0], tails);
      if first == Null {
        assert [] + ProjectItems(items[1..], tails) == ProjectItems(items[1..], tails);
      } else {
        assert ([first] + ProjectItems(items[1..], tails))[1..] == ProjectItems(items[1..], tails);
      }
    }
  }

  // ---------- idempotence and shape ----------

  lemma {:induction false} ProjectIdempotent(data: Json, tails: set<Path>)
    ensures Project(Project(data, tails), tails) == Project(data, tails)
    decreases data, 0
  {
    match data
    case Obj(fields) =>
      var once := Project(data, tails);
      if once.Obj? {
        forall k | k in once.fields ensures Member(once.fields[k], Branch(tails, k)) == Some(once.fields[k]) {
          ProjectField(fields, tails, k);
          ProjectIdempotent(fields[k], Branch(tails, k));
        }
        AllKept(once.fields, tails);
      }
    case Arr(items) =>
      if Branch(tails, ARRAY) != {} {
        ItemsIdempotent(items, Branch(tails, ARRAY));
      }
    case _ =>
  }

  lemma AllKept(fields: map<string, Json>, tails: set<Path>)
    requires fields != map[]
    requires forall k :: k in fields ==> Member(fields[k], Branch(tails, k)) == Some(fields[k])
    ensures Project(Obj(fields), tails) == Obj(fields)
  {
    ProjectFields(fields, tails, fields);
  }

  lemma {:induction false} ItemsIdempotent(items: seq<Json>, tails: set<Path>)
    ensures ProjectItems(ProjectItems(items, tails), tails) == ProjectItems(items, tails)
    decreases items, 0
  {
    if items != [] {
      ProjectIdempotent(items[0], tails);
      ItemsIdempotent(items[1..], tails);
      var first, rest := Project(items[0], tails), ProjectItems(items[1..], tails);
      if first == Null {
        assert [] + rest == rest;
      } else {
        assert ([first] + rest)[1..] == rest;
      }
    }
  }

  /** `small` is null or `large` with fields and items left out at any depth. */
  predicate Embeds(small: Json, large: Json)
    decreases large, 0
  {
    || small == Null
    || (small.Scalar? && small == large)
    || (small.Obj? && large.Obj? && small.fields.Keys <= large.fields.Keys
        && forall k :: k in small.fields ==> Embeds(small.fields[k], large.fields[k]))
    || (small.Arr? && large.Arr? && EmbedsItems(small.items, large.items))
  }

  predicate EmbedsItems(small: seq<Json>, large: seq<Json>)
    decreases large, 0
  {
    if large == [] then small == []
    else
      || EmbedsItems(small, large[1..])
      || (small != [] && Embeds(small[0], large[0]) && EmbedsItems(small[1..], large[1..]))
  }

  lemma {:induction false} EmbedsItself(data: Json)
    ensures Embeds(data, data)
    decreases data, 0
  {
    match data
    case Obj(fields) =>
      forall k | k in fields ensures Embeds(fields[k], fields[k]) { EmbedsItself(fields[k]); }
    case Arr(items) => EmbedsItemsThemselves(items);
    case _ =>
  }

  lemma {:induction false} EmbedsItemsThemselves(items: seq<Json>)
    ensures EmbedsItems(items, items)
    decreases items, 0
  {
    if items != [] {
      EmbedsItself(items[0]);
      EmbedsItemsThemselves(items[1..]);
    }
  }

  /** Include invents nothing and moves nothing. */
  lemma {:induction false} ProjectEmbeds(data: Json, tails: set<Path>)
    ensures Embeds(Project(data, tails), data)
    decreases data, 0
  {
    match data
    case Obj(fields) =>
      forall k | k in fields ensures Embeds(fields[k], fields[k]) && Embeds(Project(fields[k], Branch(tails, k)), fields[k]) {
        EmbedsItself(fields[k]);
        ProjectEmbeds(fields[k], Branch(tails, k));
      }
    case Arr(items) =>
      if Branch(tails, ARRAY) != {} {
        ProjectItemsEmbed(items, Branch(tails, ARRAY));
      }
    case _ =>
  }

  lemma {:induction false} ProjectItemsEmbed(items: seq<Json>, tails: set<Path>)
    ensures EmbedsItems(ProjectItems(items, tails), items)
    decreases items, 0
  {
    if items != [] {
      ProjectEmbeds(items[0], tails);
      ProjectItemsEmbed(items[1..], tails);
      var first, rest := Project(items[0], tails), ProjectItems(items[1..], tails);
      if first == Null {
        assert [] + rest == rest;
      } else {
        assert ([first] + rest)[1..] == rest;
      }
    }
  }

  // ---------- adding patterns ----------

  /** No pattern writes a name where another one, equal up to there, writes `*`. */
  predicate Unshadowed(tails: set<Path>) {
    forall f, g, i :: f in tails && g in tails && 0 <= i < |f| && i < |g| && f[..i] == g[..i] && f[i] == WILDCARD
      ==> g[i] == WILDCARD
  }

  lemma UnshadowedDerive(tails: set<Path>, k: string)
    requires Unshadowed(tails)
    ensures Unshadowed(Derive(tails, k))
    ensures k != WILDCARD ==> Derive(tails, k) == {} || Derive(tails, WILDCARD) == {}
  {
    var d := Derive(tails, k);
    forall f, g, i | f in d && g in d && 0 <= i < |f| && i < |g| && f[..i] == g[..i] && f[i] == WILDCARD
      ensures g[i] == WILDCARD
    {
      DeriveMember(tails, k, f);
      DeriveMember(tails, k, g);
      assert ([k] + f)[..i + 1] == [k] + f[..i] && ([k] + g)[..i + 1] == [k] + g[..i];
      assert ([k] + f)[i + 1] == f[i] && ([k] + g)[i + 1] == g[i];
    }
    if k != WILDCARD && d != {} {
      var f :| f in tails && f != [] && f[0] == k;
      forall g | g in tails && g != [] ensures g[0] != WILDCARD {
        assert g[..0] == f[..0];
      }
    }
  }

  lemma BranchGrows(tails: set<Path>, more: set<Path>, k: string)
    requires tails <= more && Unshadowed(more)
    ensures Branch(tails, k) <= Branch(more, k) && Unshadowed(Branch(more, k))
  {
    UnshadowedDerive(more, k);
    UnshadowedDerive(more, WILDCARD);
    assert Derive(tails, k) <= Derive(more, k) && Derive(tails, WILDCARD) <= Derive(more, WILDCARD);
  }

  lemma {:induction false} AcceptsGrows(tails: set<Path>, more: set<Path>, p: seq<Step>)
    requires tails <= more && Unshadowed(more) && Accepts(tails, p)
    ensures Accepts(more, p)
    decreases |p|
  {
    if p != [] {
      var k := if p[0].Key? then p[0].k else ARRAY;
      BranchGrows(tails, more, k);
      if !(p[0].Key? && [] in Branch(tails, k)) {
        AcceptsGrows(Branch(tails, k), Branch(more, k), p[1..]);
      }
    }
  }

  /** More patterns keep more leaves, provided no added name shadows a `*`. */
  lemma IncludeMonotone(data: Json, tails: set<Path>, more: set<Path>, p: seq<Step>, v: Value)
    requires tails <= more && Unshadowed(more)
    ensures Count(Project(data, tails), p, v) <= Count(Project(data, more), p, v)
  {
    LeafConservation(data, tails, p, v);
    LeafConservation(data, more, p, v);
    if Accepts(tails, p) {
      AcceptsGrows(tails, more, p);
    }
  }

  /** With shadowing it fails: `*.a` keeps the leaf at `x.a`, and adding the field `x.b` loses it. */
  lemma ShadowingLosesData(v: Value)
    ensures
      var data := Obj(map["x" := Obj(map["a" := Scalar(v)])]);
      var p := [Key("x"), Key("a")];
      && Count(Project(data, Patterns(["*.a"])), p, v) == 1
      && Count(Project(data, Patterns(["*.a", "x.b"])), p, v) == 0
  {
    var data := Obj(map["x" := Obj(map["a" := Scalar(v)])]);
    var p := [Key("x"), Key("a")];
    ShadowingFields();
    var few, many := Patterns(["*.a"]), Patterns(["*.a", "x.b"]);
    assert p[1..] == [Key("a")] && p[1..][1..] == [];
    assert Count(data.fields["x"], [Key("a")], v) == Count(Scalar(v), [], v);
    LeafConservation(data, few, p, v);
    LeafConservation(data, many, p, v);
    assert Accepts(few, p) by { StarBranch(few); }
    assert !Accepts(many, p) by { NamedBranch(many); }
  }

  lemma ShadowingFields()
    ensures Patterns(["*.a"]) == {[WILDCARD, "a"]}
    ensures Patterns(["*.a", "x.b"]) == {[WILDCARD, "a"], ["x", "b"]}
  {
    PlainName("a");
    PlainName("b");
    PlainName("x");
    PlainName(WILDCARD);
    TokensOfTwo(WILDCARD, "a");
    TokensOfTwo("x", "b");
    assert "*.a" == WILDCARD + "." + "a" && "x.b" == "x" + "." + "b";
    var fields := ["*.a", "x.b"];
    assert fields[0] in fields && fields[1] in fields;
  }

  lemma StarBranch(few: set<Path>)
    requires few == {[WILDCARD, "a"]}
    ensures Accepts(Branch(few, "x"), [Key("a")])
  {
    assert [WILDCARD] + ["a"] == [WILDCARD, "a"];
    DeriveMember(few, WILDCARD, ["a"]);
    assert Derive(few, "x") == {};
    var t := Branch(few, "x");
    DeriveMember(t, "a", []);
    assert ["a"] + [] == ["a"];
  }

  lemma NamedBranch(many: set<Path>)
    requires many == {[WILDCARD, "a"], ["x", "b"]}
    ensures Branch(many, "x") == {["b"]} && !Accepts(Branch(many, "x"), [Key("a")])
  {
    DeriveMember(many, "x", ["b"]);
    assert ["x", "b"][1..] == ["b"];
    var t := Branch(many, "x");
    assert t == {["b"]};
    assert Branch(t, "a") == {};
    NothingAccepted([]);
  }
}
