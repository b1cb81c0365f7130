/**
 What an exclude filter means: delete every object member whose key path is `gone`. The code threads a
 dotted string, splits it again at every member and matches the pieces; `gone` abstracts from that.
 */
module Deletion {
  import opened GoStrings
  import opened PathPattern
  import opened PatternMatch
  import opened JsonTree
  import opened Wrappers

  function Delete(data: Json, gone: Path -> bool, keys: Path): Json
    decreases data
  {
    match data
    case Obj(fields) =>
      Obj(map k | k in fields && !gone(keys + [k]) :: Delete(fields[k], gone, keys + [k]))
    case Arr(items) =>
      Arr(seq(|items|, i requires 0 <= i < |items| => Delete(items[i], gone, keys)))
    case _ => data
  }

  // ---------- the code's criterion: dotted strings ----------

  function Extend(path: string, key: string): string {
    if path == "" then key else path + "." + key
  }

  /** The string that the recursion carries below the keys `keys`. */
  function Dotted(keys: Path): string {
    if keys == [] then "" else Extend(Dotted(keys[..|keys| - 1]), keys[|keys| - 1])
  }

  /** A path is excluded when its pieces match one of the patterns. */
  predicate Excluded(path: string, patterns: seq<string>) {
    exists i :: 0 <= i < |patterns| && KeysMatch(Split(path, '.'), Tokens(patterns[i]))
  }

  function ByDottedPath(patterns: seq<string>): Path -> bool {
    keys => Excluded(Dotted(keys), patterns)
  }

  method MatchesExcludePattern(path: string, pattern: string) returns (b: bool)
    ensures b == KeysMatch(Split(path, '.'), Tokens(pattern))
  {
    var pathParts := Split(path, '.');
    var patternParts := ParsePathPattern(pattern);
    MatchClosedForm(pathParts, patternParts);
    b := MatchPathSegments(pathParts, patternParts, 0, 0);
  }

  method ShouldExclude(path: string, patterns: seq<string>) returns (b: bool)
    ensures b == Excluded(path, patterns)
  {
    for i := 0 to |patterns|
      invariant !Excluded(path, patterns[..i])
    {
      ExcludedNext(path, patterns, i);
      var matches := MatchesExcludePattern(path, patterns[i]);
      if matches {
        return true;
      }
    }
    assert patterns[..|patterns|] == patterns;
    return false;
  }

  lemma ExcludedNext(path: string, patterns: seq<string>, i: nat)
    requires i < |patterns|
    ensures Excluded(path, patterns[..i + 1]) <==> Excluded(path, patterns[..i]) || KeysMatch(Split(path, '.'), Tokens(patterns[i]))
    ensures KeysMatch(Split(path, '.'), Tokens(patterns[i])) ==> Excluded(path, patterns)
  {
    assert patterns[..i + 1] == patterns[..i] + [patterns[i]];
    assert patterns == patterns[..i + 1] + patterns[i + 1..];
    ExcludedConcat(path, patterns[..i], [patterns[i]]);
    ExcludedConcat(path, patterns[..i + 1], patterns[i + 1..]);
    ExcludedByOne(path, patterns[i]);
  }

  lemma ExcludedByOne(path: string, pattern: string)
    ensures Excluded(path, [pattern]) <==> KeysMatch(Split(path, '.'), Tokens(pattern))
  {
    assert [pattern][0] == pattern;
  }

  lemma DottedNext(keys: Path, key: string)
    ensures Dotted(keys + [key]) == if Dotted(keys) != "" then Dotted(keys) + "." + key else key
  {
    assert (keys + [key])[..|keys|] == keys;
  }

  lemma DeleteFields(fields: map<string, Json>, gone: Path -> bool, keys: Path, result: map<string, Json>)
    requires forall k :: k in result <==> k in fields && !gone(keys + [k])
    requires forall k :: k in result ==> result[k] == Delete(fields[k], gone, keys + [k])
    ensures Delete(Obj(fields), gone, keys) == Obj(result)
  {
    assert result == map k | k in fields && !gone(keys + [k]) :: Delete(fields[k], gone, keys + [k]);
  }

  method ExcludeRecursive(data: Json, patterns: seq<string>, currentPath: string, ghost keys: Path)
    returns (r: Json)
    requires currentPath == Dotted(keys)
    ensures r == Delete(data, ByDottedPath(patterns), keys)
    decreases data
  {
    ghost var gone := ByDottedPath(patterns);
    match data
    case Obj(fields) =>
      var result: map<string, Json> := map[];
      var todo := fields.Keys;
      while todo != {}
        invariant todo <= fields.Keys
        invariant forall k :: k in result <==> k in fields && k !in todo && !gone(keys + [k])
        invariant forall k :: k in result ==> result[k] == Delete(fields[k], gone, keys + [k])
        decreases todo
      {
        var key :| key in todo;
        todo := todo - {key};
        var fieldPath := if currentPath != "" then currentPath + "." + key else key;
        DottedNext(keys, key);
        var drop := ShouldExclude(fieldPath, patterns);
        if !drop {
          var value := ExcludeRecursive(fields[key], patterns, fieldPath, keys + [key]);
          result := result[key := value];
        }
      }
      DeleteFields(fields, gone, keys, result);
      return Obj(result);
    case Arr(items) =>
      var result: seq<Json> := [];
      for i := 0 to |items|
        invariant |result| == i
        invariant forall j :: 0 <= j < i ==> result[j] == Delete(items[j], gone, keys)
      {
        var item := ExcludeRecursive(items[i], patterns, currentPath, keys);
        result := result + [item];
      }
      return Arr(result);
    case _ =>
      return data;
  }

  /** The whole exclude filter. */
  function Exclude(data: Json, fields: seq<string>): Json {
    Delete(data, ByDottedPath(fields), [])
  }

  method ApplyExclude(data: Json, fields: seq<string>) returns (r: Json)
    ensures r == Exclude(data, fields)
  {
    r := ExcludeRecursive(data, fields, "", []);
  }

  // ---------- which locations survive ----------

  /** Is a member on the way of `p` deleted, below the keys `keys`? */
  predicate Removed(gone: Path -> bool, keys: Path, p: seq<Step>)
    decreases |p|
  {
    p != [] &&
    match p[0]
    case Item => Removed(gone, keys, p[1..])
    case Key(k) => gone(keys + [k]) || Removed(gone, keys + [k], p[1..])
  }

  function KeysOf(p: seq<Step>): Path {
    if p == [] then [] else (if p[0].Key? then [p[0].k] else []) + KeysOf(p[1..])
  }

  /** A path is cut off exactly when a beginning of it ends in a key and has, array steps erased, a gone key list. */
  lemma {:induction false} RemovedByPrefix(gone: Path -> bool, keys: Path, p: seq<Step>)
    ensures Removed(gone, keys, p) <==> exists n :: 0 < n <= |p| && p[n - 1].Key? && gone(keys + KeysOf(p[..n]))
    decreases |p|
  {
    if p != [] {
      var first := if p[0].Key? then [p[0].k] else [];
      RemovedByPrefix(gone, keys + first, p[1..]);
      forall n | 0 < n <= |p| ensures keys + KeysOf(p[..n]) == (keys + first) + KeysOf(p[1..][..n - 1]) {
        assert p[..n][1..] == p[1..][..n - 1];
      }
      assert keys + KeysOf(p[..1]) == keys + first && keys + [] == keys;
      if Removed(gone, keys + first, p[1..]) {
        var m :| 0 < m <= |p[1..]| && p[1..][m - 1].Key? && gone(keys + first + KeysOf(p[1..][..m]));
        assert p[m + 1 - 1].Key? && gone(keys + KeysOf(p[..m + 1]));
      }
      if n :| 0 < n <= |p| && p[n - 1].Key? && gone(keys + KeysOf(p[..n])) {
        if n > 1 {
          assert p[1..][n - 1 - 1].Key? && gone(keys + first + KeysOf(p[1..][..n - 1]));
        }
      }
    }
  }

  /** A location survives unless it is cut off; array positions never change. */
  lemma {:induction false} SurvivesAt(data: Json, gone: Path -> bool, keys: Path, place: seq<Place>)
    ensures At(Delete(data, gone, keys), place) ==
      if Removed(gone, keys, Erase(place)) || At(data, place).None? then None
      else Some(Delete(At(data, place).value, gone, keys + KeysOf(Erase(place))))
    decreases |place|
  {
    if place == [] {
      assert keys + [] == keys;
    } else {
      var p := Erase(place);
      assert p[1..] == Erase(place[1..]);
      match data
      case Obj(fields) =>
        if place[0].Field? && place[0].k in fields {
          var k := place[0].k;
          SurvivesAt(fields[k], gone, keys + [k], place[1..]);
          assert keys + KeysOf(p) == keys + [k] + KeysOf(p[1..]);
        }
      case Arr(items) =>
        if place[0].Index? && place[0].i < |items| {
          SurvivesAt(items[place[0].i], gone, keys, place[1..]);
          assert keys + KeysOf(p) == keys + KeysOf(p[1..]);
        }
      case _ =>
    }
  }

  /**
   What stands at a surviving location keeps its kind and shape: an object its members that are not deleted,
   even if none is left, an array all its items, null and scalars their value.
   */
  lemma ShapeKept(data: Json, gone: Path -> bool, keys: Path, place: seq<Place>)
    ensures var before, after, p := At(data, place), At(Delete(data, gone, keys), place), Erase(place);
            && (after.Some? <==> before.Some? && !Removed(gone, keys, p))
            && (after.Some? ==>
                  && (after.value.Obj? <==> before.value.Obj?)
                  && (after.value.Obj? ==> forall k ::
                        k in after.value.fields <==> k in before.value.fields && !gone(keys + KeysOf(p) + [k]))
                  && (after.value.Arr? <==> before.value.Arr?)
                  && (after.value.Arr? ==> |after.value.items| == |before.value.items|)
                  && (!before.value.Obj? && !before.value.Arr? ==> after.value == before.value))
  {
    SurvivesAt(data, gone, keys, place);
  }

  /** For the fields of a filter: a member is deleted exactly if its dotted path matches one of them. */
  lemma ExcludedShape(data: Json, fields: seq<string>, place: seq<Place>)
    ensures var before, after, p := At(data, place), At(Exclude(data, fields), place), Erase(place);
            && (after.Some? <==>
                  before.Some? && forall n :: 0 < n <= |p| && p[n - 1].Key? ==> !Excluded(Dotted(KeysOf(p[..n])), fields))
            && (after.Some? ==>
                  && (after.value.Obj? <==> before.value.Obj?)
                  && (after.value.Obj? ==> forall k ::
                        k in after.value.fields <==> k in before.value.fields && !Excluded(Dotted(KeysOf(p) + [k]), fields))
                  && (after.value.Arr? <==> before.value.Arr?)
                  && (after.value.Arr? ==> |after.value.items| == |before.value.items|)
                  && (!before.value.Obj? && !before.value.Arr? ==> after.value == before.value))
  {
    ShapeKept(data, ByDottedPath(fields), [], place);
    RemovedByPrefix(ByDottedPath(fields), [], Erase(place));
    assert forall ks: Path :: [] + ks == ks;
  }

  /** The bag of leaves that exclude keeps. */
  lemma {:induction false} LeafDeletion(data: Json, gone: Path -> bool, keys: Path, p: seq<Step>, v: Value)
    ensures Count(Delete(data, gone, keys), p, v) == if Removed(gone, keys, p) then 0 else Count(data, p, v)
    decreases |p|
  {
    if p != [] {
      match data
      case Obj(fields) =>
        if p[0].Key? && p[0].k in fields {
          LeafDeletion(fields[p[0].k], gone, keys + [p[0].k], p[1..], v);
        }
      case Arr(items) =>
        if p[0].Item? {
          var rest := p[1..];
          forall i | 0 <= i < |items|
            ensures Count(Delete(items[i], gone, keys), rest, v) == if Removed(gone, keys, rest) then 0 else Count(items[i], rest, v)
          {
            LeafDeletion(items[i], gone, keys, rest, v);
          }
          ItemwiseCount(Delete(data, gone, keys).items, items, rest, v, Removed(gone, keys, rest));
        }
      case _ =>
    }
  }

  lemma {:induction false} ItemwiseCount(after: seq<Json>, before: seq<Json>, p: seq<Step>, v: Value, removed: bool)
    requires |after| == |before|
    requires forall i :: 0 <= i < |before| ==> Count(after[i], p, v) == if removed then 0 else Count(before[i], p, v)
    ensures CountItems(after, p, v) == if removed then 0 else CountItems(before, p, v)
  {
    if before != [] {
      ItemwiseCount(after[1..], before[1..], p, v, removed);
    }
  }

  // ---------- excluding in several rounds ----------

  lemma {:induction false} DeleteComposes(data: Json, first: Path -> bool, second: Path -> bool, both: Path -> bool, keys: Path)
    requires forall ks :: both(ks) == (first(ks) || second(ks))
    ensures Delete(Delete(data, first, keys), second, keys) == Delete(data, both, keys)
    decreases data
  {
    match data
    case Obj(fields) =>
      forall k | k in fields
        ensures Delete(Delete(fields[k], first, keys + [k]), second, keys + [k]) == Delete(fields[k], both, keys + [k])
      {
        DeleteComposes(fields[k], first, second, both, keys + [k]);
      }
    case Arr(items) =>
      forall i | 0 <= i < |items|
        ensures Delete(Delete(items[i], first, keys), second, keys) == Delete(items[i], both, keys)
      {
        DeleteComposes(items[i], first, second, both, keys);
      }
    case _ =>
  }

  lemma {:induction false} DeleteSame(data: Json, first: Path -> bool, second: Path -> bool, keys: Path)
    requires forall ks :: first(ks) == second(ks)
    ensures Delete(data, first, keys) == Delete(data, second, keys)
    decreases data
  {
    match data
    case Obj(fields) =>
      forall k | k in fields ensures Delete(fields[k], first, keys + [k]) == Delete(fields[k], second, keys + [k]) {
        DeleteSame(fields[k], first, second, keys + [k]);
      }
    case Arr(items) =>
      forall i | 0 <= i < |items| ensures Delete(items[i], first, keys) == Delete(items[i], second, keys) {
        DeleteSame(items[i], first, second, keys);
      }
    case _ =>
  }

  /** Excluding F and then G excludes F ++ G, on every document: more fields only ever delete more. */
  lemma ExcludeComposes(data: Json, f: seq<string>, g: seq<string>)
    ensures Exclude(Exclude(data, f), g) == Exclude(data, f + g)
  {
    forall keys ensures ByDottedPath(f + g)(keys) == (ByDottedPath(f)(keys) || ByDottedPath(g)(keys)) {
      ExcludedConcat(Dotted(keys), f, g);
    }
    DeleteComposes(data, ByDottedPath(f), ByDottedPath(g), ByDottedPath(f + g), []);
  }

  lemma ExcludedConcat(path: string, f: seq<string>, g: seq<string>)
    ensures Excluded(path, f + g) <==> Excluded(path, f) || Excluded(path, g)
  {
    var keys := Split(path, '.');
    if i :| 0 <= i < |f| && KeysMatch(keys, Tokens(f[i])) {
      assert KeysMatch(keys, Tokens((f + g)[i]));
    }
    if i :| 0 <= i < |g| && KeysMatch(keys, Tokens(g[i])) {
      assert KeysMatch(keys, Tokens((f + g)[|f| + i]));
    }
  }

  /** Order, repetition and spelling of the fields are irrelevant, as are those that denote no segments. */
  lemma ExcludeByPatterns(data: Json, f: seq<string>, g: seq<string>)
    requires Patterns(f) == Patterns(g)
    ensures Exclude(data, f) == Exclude(data, g)
  {
    forall keys ensures ByDottedPath(f)(keys) == ByDottedPath(g)(keys) {
      ExcludedByPatterns(Dotted(keys), f);
      ExcludedByPatterns(Dotted(keys), g);
    }
    DeleteSame(data, ByDottedPath(f), ByDottedPath(g), []);
  }

  predicate MatchesOne(keys: Path, patterns: set<Path>) {
    exists t :: t in patterns && KeysMatch(keys, t)
  }

  lemma ExcludedByPatterns(path: string, fields: seq<string>)
    ensures Excluded(path, fields) <==> MatchesOne(Split(path, '.'), Patterns(fields))
  {
    var keys := Split(path, '.');
    if i :| 0 <= i < |fields| && KeysMatch(keys, Tokens(fields[i])) {
      assert fields[i] in fields && Tokens(fields[i]) in Patterns(fields);
    }
    if t :| t in Patterns(fields) && KeysMatch(keys, t) {
      var i :| 0 <= i < |fields| && Tokens(fields[i]) == t;
    }
  }

  /** Excluding twice is excluding once, and the order of two rounds does not matter. */
  lemma ExcludeIdempotentCommutes(data: Json, f: seq<string>, g: seq<string>)
    ensures Exclude(Exclude(data, f), f) == Exclude(data, f)
    ensures Exclude(Exclude(data, f), g) == Exclude(Exclude(data, g), f)
  {
    ExcludeComposes(data, f, f);
    assert Patterns(f + f) == Patterns(f) && Patterns(f + g) == Patterns(g + f);
    ExcludeByPatterns(data, f + f, f);
    ExcludeComposes(data, f, g);
    ExcludeComposes(data, g, f);
    ExcludeByPatterns(data, f + g, g + f);
  }

  /** More patterns keep fewer leaves. */
  lemma ExcludeAntitone(data: Json, f: seq<string>, g: seq<string>, p: seq<Step>, v: Value)
    requires Patterns(f) <= Patterns(g)
    ensures Count(Exclude(data, g), p, v) <= Count(Exclude(data, f), p, v)
  {
    LeafDeletion(data, ByDottedPath(f), [], p, v);
    LeafDeletion(data, ByDottedPath(g), [], p, v);
    RemovedByPrefix(ByDottedPath(f), [], p);
    RemovedByPrefix(ByDottedPath(g), [], p);
    forall keys ensures ByDottedPath(f)(keys) ==> ByDottedPath(g)(keys) {
      ExcludedByPatterns(Dotted(keys), f);
      ExcludedByPatterns(Dotted(keys), g);
    }
  }
}
