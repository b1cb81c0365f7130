/**
 What include keeps, location by location: null, empty objects and empty arrays as well as leaves. The walk
 along the keys from the root decides, and nothing else about the document does.
 */
module IncludeLocations {
  import opened Wrappers
  import opened PathPattern
  import opened JsonTree
  import opened Projection

  function Fields(keys: Path): seq<Place> {
    if keys == [] then [] else [Field(keys[0])] + Fields(keys[1..])
  }

  /** The pattern tails that the walk along these segments reaches. */
  function Reach(tails: set<Path>, segments: Path): set<Path>
    decreases |segments|
  {
    if segments == [] then tails else Reach(Branch(tails, segments[0]), segments[1..])
  }

  /** One step of the walk: the patterns that name the segment, or, if none does, those that write `*`. */
  lemma BranchExact(tails: set<Path>, k: string, t: Path)
    ensures t in Branch(tails, k) <==>
      [k] + t in tails || ((forall other: Path :: [k] + other !in tails) && ["*"] + t in tails)
  {
    DeriveMember(tails, k, t);
    DeriveMember(tails, WILDCARD, t);
    if Derive(tails, k) == {} {
      forall other: Path ensures [k] + other !in tails {
        DeriveMember(tails, k, other);
      }
    } else {
      var other :| other in Derive(tails, k);
      DeriveMember(tails, k, other);
    }
  }

  lemma {:induction false} ReachNothing(segments: Path)
    ensures Reach({}, segments) == {}
  {
    if segments != [] {
      assert Branch({}, segments[0]) == {};
      ReachNothing(segments[1..]);
    }
  }

  lemma ProjectNothing(data: Json)
    ensures Project(data, {}) == Null
  {
    assert forall k :: Branch({}, k) == {};
  }

  lemma AtField(data: Json, k: string, rest: seq<Place>)
    ensures At(data, [Field(k)] + rest) == if data.Obj? && k in data.fields then At(data.fields[k], rest) else None
  {
    assert ([Field(k)] + rest)[1..] == rest;
  }

  lemma FieldsStep(keys: Path, rest: seq<Place>)
    requires keys != []
    ensures Fields(keys) + rest == [Field(keys[0])] + (Fields(keys[1..]) + rest)
  {
  }

  // ---------- along the keys ----------

  /** Where the walk has met the end of a pattern, the document is kept as it is, whatever it holds there. */
  lemma {:induction false} PastTerminal(data: Json, tails: set<Path>, keys: Path, rest: seq<Place>)
    requires keys != [] && [] in Reach(tails, keys)
    ensures At(Project(data, tails), Fields(keys) + rest) == At(data, Fields(keys) + rest)
    decreases |keys|
  {
    var k, out := keys[0], Project(data, tails);
    var below := Fields(keys[1..]) + rest;
    FieldsStep(keys, rest);
    AtField(data, k, below);
    AtField(out, k, below);
    if data.Obj? && k in data.fields {
      var t := Branch(tails, k);
      ProjectField(data.fields, tails, k);
      if [] !in t {
        ReachNothing(keys[1..]);
        PastTerminal(data.fields[k], t, keys[1..], rest);
        FieldsStep(keys[1..], rest);
      }
    }
  }

  /** Where it has met none, what is there is kept in part: the projection for the tails reached, unless that is null. */
  lemma {:induction false} BeforeTerminal(data: Json, tails: set<Path>, keys: Path)
    requires forall n :: 0 < n <= |keys| ==> [] !in Reach(tails, keys[..n])
    ensures var before := At(data, Fields(keys));
            At(Project(data, tails), Fields(keys)) ==
              if before.Some? && (keys == [] || Project(before.value, Reach(tails, keys)) != Null)
              then Some(Project(before.value, Reach(tails, keys))) else None
    decreases |keys|
  {
    if keys != [] {
      var k, rest := keys[0], keys[1..];
      AtField(data, k, Fields(rest));
      assert keys[..1][1..] == [] && [] !in Reach(tails, keys[..1]);
      if data.Obj? && k in data.fields {
        var t := Branch(tails, k);
        forall n | 0 < n <= |rest| ensures [] !in Reach(t, rest[..n]) {
          assert keys[..n + 1][1..] == rest[..n];
        }
        MemberBelow(data, tails, k, Fields(rest));
        BeforeTerminal(data.fields[k], t, rest);
        NullHasNothing(Fields(rest));
      } else {
        AtField(Project(data, tails), k, Fields(rest));
      }
    }
  }

  lemma MemberBelow(data: Json, tails: set<Path>, k: string, rest: seq<Place>)
    requires data.Obj? && k in data.fields && [] !in Branch(tails, k)
    ensures var inner := Project(data.fields[k], Branch(tails, k));
            At(Project(data, tails), [Field(k)] + rest) == if inner == Null then None else At(inner, rest)
  {
    AtField(Project(data, tails), k, rest);
    ProjectField(data.fields, tails, k);
    ProjectNothing(data.fields[k]);
  }

  lemma NullHasNothing(place: seq<Place>)
    ensures At(Null, place) == if place == [] then Some(Null) else None
  {
  }

  /** Every location that a field names is kept with all that it holds, whatever the other fields are. */
  lemma NamedLocationKept(data: Json, fields: seq<string>, field: string, rest: seq<Place>)
    requires field in fields && Tokens(field) != []
    ensures At(Project(data, Patterns(fields)), Fields(Tokens(field)) + rest) == At(data, Fields(Tokens(field)) + rest)
  {
    PatternReached(Patterns(fields), Tokens(field));
    PastTerminal(data, Patterns(fields), Tokens(field), rest);
  }

  lemma {:induction false} PatternReached(tails: set<Path>, pattern: Path)
    requires pattern in tails
    ensures [] in Reach(tails, pattern)
    decreases |pattern|
  {
    if pattern != [] {
      assert pattern[1..] in Derive(tails, pattern[0]);
      PatternReached(Branch(tails, pattern[0]), pattern[1..]);
    }
  }

  // ---------- what survives at all ----------

  /** Something along these keys is kept: the end of a pattern, a scalar at the root, or an array with a branch for it. */
  ghost predicate Anchored(data: Json, tails: set<Path>, keys: Path) {
    var there, reached := At(data, Fields(keys)), Reach(tails, keys);
    && there.Some?
    && (([] in reached && (keys != [] || there.value.Scalar?)) || (there.value.Arr? && Branch(reached, ARRAY) != {}))
  }

  /** Include answers null exactly if nothing is anchored: one kept null member saves the objects around it. */
  lemma SurvivesExact(data: Json, tails: set<Path>)
    ensures Project(data, tails) != Null <==> exists keys :: Anchored(data, tails, keys)
  {
    if Project(data, tails) != Null {
      var keys := Anchor(data, tails);
    }
    forall keys | Anchored(data, tails, keys) ensures Project(data, tails) != Null {
      AnchoredSurvives(data, tails, keys);
    }
  }

  lemma {:induction false} AnchoredSurvives(data: Json, tails: set<Path>, keys: Path)
    requires Anchored(data, tails, keys)
    ensures Project(data, tails) != Null
    decreases |keys|
  {
    if keys != [] {
      var k, rest := keys[0], keys[1..];
      AtField(data, k, Fields(rest));
      ProjectField(data.fields, tails, k);
      if [] !in Branch(tails, k) {
        assert Reach(tails, keys) == Reach(Branch(tails, k), rest);
        assert rest == [] ==> [] !in Reach(tails, keys);
        AnchoredSurvives(data.fields[k], Branch(tails, k), rest);
        ProjectNothing(data.fields[k]);
      }
    }
  }

  lemma {:induction false} Anchor(data: Json, tails: set<Path>) returns (keys: Path)
    requires Project(data, tails) != Null
    ensures Anchored(data, tails, keys)
    decreases data
  {
    keys := [];
    if data.Obj? {
      var k :| k in data.fields && Member(data.fields[k], Branch(tails, k)).Some?;
      keys := [k];
      AtField(data, k, []);
      if [] !in Branch(tails, k) {
        var rest := Anchor(data.fields[k], Branch(tails, k));
        keys := [k] + rest;
        assert keys[1..] == rest;
        AtField(data, k, Fields(rest));
      }
    }
  }

  // ---------- containers ----------

  /**
   The kind of the answer. An object is never empty; an array stays an array, be it without items, exactly if
   a pattern goes on with `[]`, or else with `*`; a scalar is kept exactly at the end of a pattern.
   */
  lemma IncludedKind(data: Json, tails: set<Path>)
    ensures var out := Project(data, tails);
            && (out.Obj? ==> data.Obj? && out.fields != map[] && out.fields.Keys <= data.fields.Keys)
            && (out.Arr? <==> data.Arr? && exists t: Path :: ["[]"] + t in tails || ["*"] + t in tails)
            && (out.Scalar? <==> data.Scalar? && [] in tails)
            && (out.Scalar? ==> out == data)
  {
    if t: Path :| ["[]"] + t in tails {
      DeriveMember(tails, ARRAY, t);
    } else if t: Path :| ["*"] + t in tails {
      DeriveMember(tails, WILDCARD, t);
    }
    if Branch(tails, ARRAY) != {} {
      var t :| t in Branch(tails, ARRAY);
      BranchExact(tails, ARRAY, t);
    }
  }

  /** The items of an array: those whose projection is not null, in order; `at[n]` is where item `n` comes from. */
  lemma IncludedItems(data: Json, tails: set<Path>) returns (at: seq<nat>)
    requires Project(data, tails).Arr?
    ensures var out, t := Project(data, tails).items, Branch(tails, ARRAY);
            && data.Arr? && |at| == |out|
            && (forall m, n :: 0 <= m < n < |at| ==> at[m] < at[n])
            && (forall n :: 0 <= n < |at| ==>
                  at[n] < |data.items| && out[n] == Project(data.items[at[n]], t) && out[n] != Null)
            && (forall i: nat :: i < |data.items| && i !in at ==> Project(data.items[i], t) == Null)
  {
    at := ItemPositions(data.items, Branch(tails, ARRAY), |data.items|);
    assert data.items[..|data.items|] == data.items;
  }

  predicate Positions(items: seq<Json>, tails: set<Path>, out: seq<Json>, at: seq<nat>) {
    && |at| == |out|
    && (forall m, n :: 0 <= m < n < |at| ==> at[m] < at[n])
    && (forall n :: 0 <= n < |at| ==> at[n] < |items| && out[n] == Project(items[at[n]], tails) && out[n] != Null)
    && (forall i: nat :: i < |items| && i !in at ==> Project(items[i], tails) == Null)
  }

  lemma PositionsNext(items: seq<Json>, tails: set<Path>, out: seq<Json>, at: seq<nat>, last: Json)
    requires Positions(items, tails, out, at)
    ensures var next := Project(last, tails);
            if next == Null then Positions(items + [last], tails, out, at)
            else Positions(items + [last], tails, out + [next], at + [|items|])
  {
    var more, longer, next := items + [last], at + [|items|], Project(last, tails);
    assert forall i :: 0 <= i < |items| ==> more[i] == items[i];
    assert longer[|at|] == |items| && forall i: nat :: i in at ==> i in longer;
    if next != Null {
      forall n | 0 <= n < |longer|
        ensures longer[n] < |more| && (out + [next])[n] == Project(more[longer[n]], tails) && (out + [next])[n] != Null
      {
        assert n < |at| ==> longer[n] == at[n];
      }
    }
  }

  lemma {:induction false} ItemPositions(items: seq<Json>, tails: set<Path>, n: nat) returns (at: seq<nat>)
    requires n <= |items|
    ensures Positions(items[..n], tails, ProjectItems(items[..n], tails), at)
  {
    if n == 0 {
      at := [];
    } else {
      at := ItemPositions(items, tails, n - 1);
      ProjectItemsSnoc(items, n - 1, tails);
      PositionsNext(items[..n - 1], tails, ProjectItems(items[..n - 1], tails), at, items[n - 1]);
      assert items[..n - 1] + [items[n - 1]] == items[..n];
      if Project(items[n - 1], tails) != Null {
        at := at + [n - 1];
      }
    }
  }

  // ---------- accepted paths ----------

  function Segments(p: seq<Step>): Path {
    if p == [] then [] else [if p[0].Key? then p[0].k else "[]"] + Segments(p[1..])
  }

  /** A leaf path is accepted exactly if the walk along it meets the end of a pattern after a key, or at its own end. */
  lemma {:induction false} AcceptsExact(tails: set<Path>, p: seq<Step>)
    ensures Accepts(tails, p) <==>
      [] in Reach(tails, Segments(p)) || exists n :: 0 < n <= |p| && p[n - 1].Key? && [] in Reach(tails, Segments(p[..n]))
    decreases |p|
  {
    if p != [] {
      var k := if p[0].Key? then p[0].k else "[]";
      var t, rest := Branch(tails, k), p[1..];
      AcceptsExact(t, rest);
      forall n | 0 < n <= |p| ensures Reach(tails, Segments(p[..n])) == Reach(t, Segments(rest[..n - 1])) {
        assert p[..n][1..] == rest[..n - 1];
      }
      assert Segments(rest[..0]) == [];
      if n :| 0 < n <= |rest| && rest[n - 1].Key? && [] in Reach(t, Segments(rest[..n])) {
        assert p[n + 1 - 1].Key? && [] in Reach(tails, Segments(p[..n + 1]));
      }
      if p[0].Key? && [] in t {
        assert p[1 - 1].Key? && [] in Reach(tails, Segments(p[..1]));
      }
      if n :| 0 < n <= |p| && p[n - 1].Key? && [] in Reach(tails, Segments(p[..n])) {
        if n > 1 {
          assert rest[n - 1 - 1].Key? && [] in Reach(t, Segments(rest[..n - 1]));
        }
      }
    }
  }
}
