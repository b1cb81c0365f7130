/**
 Do the dotted strings of the exclude recursion stand for the key lists? For every document this is decided
 by its keys: at each member the pieces of the string and the key list must look alike to any pattern.
 */
module DottedPaths {
  import opened GoStrings
  import opened PathPattern
  import opened PatternMatch
  import opened JsonTree
  import opened Deletion

  /** Deletion by key lists: what an exclude filter is meant to do. */
  function BySegments(patterns: set<Path>): Path -> bool {
    keys => MatchesOne(keys, patterns)
  }

  // ---------- what a pattern can see of a key ----------

  /** Can a pattern write this key? Only segments other than `[]` and `*` stand for themselves. */
  predicate Nameable(key: string) {
    IsPart(key) && key != ARRAY && key != WILDCARD
  }

  /** No pattern tells the two lists apart: same length, and where they differ neither key can be written. */
  predicate Alike(a: Path, b: Path) {
    |a| == |b| && forall i :: 0 <= i < |a| ==> a[i] == b[i] || (!Nameable(a[i]) && !Nameable(b[i]))
  }

  /** At every member below `keys` the dotted string and the key list are alike. */
  predicate KeptApart(data: Json, keys: Path)
    decreases data
  {
    match data
    case Obj(fields) =>
      forall k :: k in fields ==> Alike(Split(Dotted(keys + [k]), '.'), keys + [k]) && KeptApart(fields[k], keys + [k])
    case Arr(items) => forall i :: 0 <= i < |items| ==> KeptApart(items[i], keys)
    case _ => true
  }

  // ---------- sufficient ----------

  lemma {:induction false} StripKeepsParts(pattern: Path)
    requires AllParts(pattern)
    ensures AllParts(Strip(pattern))
  {
    if pattern != [] {
      StripKeepsParts(pattern[1..]);
    }
  }

  lemma AlikeMatch(a: Path, b: Path, pattern: Path)
    requires Alike(a, b) && AllParts(pattern) && KeysMatch(a, pattern)
    ensures KeysMatch(b, pattern)
  {
    StripKeepsParts(pattern);
    var names := Strip(pattern);
    forall i | 0 <= i < |names| ensures Admits(names[i], b[i]) {
      assert Admits(names[i], a[i]) && IsPart(names[i]) && names[i] != ARRAY;
    }
  }

  lemma AlikeMatchOne(a: Path, b: Path, fields: seq<string>)
    requires Alike(a, b) && MatchesOne(a, Patterns(fields))
    ensures MatchesOne(b, Patterns(fields))
  {
    var t :| t in Patterns(fields) && KeysMatch(a, t);
    var f :| f in fields && Tokens(f) == t;
    TokensAreParts(f);
    AlikeMatch(a, b, t);
  }

  lemma AlikeGone(fields: seq<string>, keys: Path)
    requires Alike(Split(Dotted(keys), '.'), keys)
    ensures ByDottedPath(fields)(keys) == BySegments(Patterns(fields))(keys)
  {
    var pieces := Split(Dotted(keys), '.');
    ExcludedByPatterns(Dotted(keys), fields);
    if MatchesOne(pieces, Patterns(fields)) {
      AlikeMatchOne(pieces, keys, fields);
    }
    if MatchesOne(keys, Patterns(fields)) {
      AlikeMatchOne(keys, pieces, fields);
    }
  }

  lemma {:induction false} PathsAgree(data: Json, fields: seq<string>, keys: Path)
    requires KeptApart(data, keys)
    ensures Delete(data, ByDottedPath(fields), keys) == Delete(data, BySegments(Patterns(fields)), keys)
    decreases data
  {
    match data
    case Obj(m) =>
      forall k | k in m
        ensures ByDottedPath(fields)(keys + [k]) == BySegments(Patterns(fields))(keys + [k])
        ensures Delete(m[k], ByDottedPath(fields), keys + [k]) == Delete(m[k], BySegments(Patterns(fields)), keys + [k])
      {
        AlikeGone(fields, keys + [k]);
        PathsAgree(m[k], fields, keys + [k]);
      }
    case Arr(items) =>
      forall i | 0 <= i < |items|
        ensures Delete(items[i], ByDottedPath(fields), keys) == Delete(items[i], BySegments(Patterns(fields)), keys)
      {
        PathsAgree(items[i], fields, keys);
      }
    case _ =>
  }

  // ---------- necessary ----------

  /** The field that denotes one pattern. */
  function Only(pattern: Path): seq<string> {
    [Join(pattern, '.')]
  }

  lemma OnlyPattern(pattern: Path)
    requires pattern != [] && AllParts(pattern)
    ensures Patterns(Only(pattern)) == {pattern}
  {
    ParseOfPrint(pattern);
    assert Only(pattern)[0] in Only(pattern);
  }

  /** With a single pattern of names and stars, the criteria come down to matching its segments one by one. */
  lemma OnlyGone(pattern: Path, keys: Path)
    requires pattern != [] && AllParts(pattern) && ARRAY !in pattern
    ensures BySegments(Patterns(Only(pattern)))(keys) <==> NamesMatch(keys, pattern)
    ensures ByDottedPath(Only(pattern))(keys) <==> NamesMatch(Split(Dotted(keys), '.'), pattern)
  {
    OnlyPattern(pattern);
    StripNames(pattern);
    assert pattern in {pattern};
    ExcludedByPatterns(Dotted(keys), Only(pattern));
  }

  lemma {:induction false} StripNames(pattern: Path)
    requires ARRAY !in pattern
    ensures Strip(pattern) == pattern
  {
    if pattern != [] {
      StripNames(pattern[1..]);
    }
  }

  /** The pattern `*.*.….*`. */
  function Stars(n: nat): Path {
    seq(n, _ => WILDCARD)
  }

  /** Two lists that are not alike are told apart by a row of stars, or by stars and one name. */
  lemma Separate(a: Path, b: Path) returns (pattern: Path)
    requires !Alike(a, b) && b != []
    ensures AllParts(pattern) && ARRAY !in pattern && |pattern| >= |b|
    ensures NamesMatch(a, pattern) != NamesMatch(b, pattern)
  {
    if |a| != |b| {
      pattern := Stars(if |a| > |b| then |a| else |b|);
      assert pattern[|pattern| - 1] == WILDCARD;
    } else {
      var i :| 0 <= i < |a| && a[i] != b[i] && (Nameable(a[i]) || Nameable(b[i]));
      var name := if Nameable(a[i]) then a[i] else b[i];
      pattern := Stars(|a|)[i := name];
      NamedStars(a, i, name);
      NamedStars(b, i, name);
    }
  }

  lemma NamedStars(keys: Path, i: nat, name: string)
    requires i < |keys| && Nameable(name)
    ensures NamesMatch(keys, Stars(|keys|)[i := name]) <==> keys[i] == name
  {
    var pattern := Stars(|keys|)[i := name];
    assert pattern[i] == name;
    assert Admits(pattern[i], keys[i]) <==> keys[i] == name;
  }

  /** The field denoting `pattern` shows the difference in `data`, below `keys`. */
  predicate Shows(data: Json, pattern: Path, keys: Path) {
    Delete(data, ByDottedPath(Only(pattern)), keys) != Delete(data, BySegments(Patterns(Only(pattern))), keys)
  }

  lemma MemberShows(m: map<string, Json>, k: string, pattern: Path, keys: Path)
    requires k in m
    requires ByDottedPath(Only(pattern))(keys + [k]) == BySegments(Patterns(Only(pattern)))(keys + [k]) ==>
      !BySegments(Patterns(Only(pattern)))(keys + [k]) && Shows(m[k], pattern, keys + [k])
    ensures Shows(Obj(m), pattern, keys)
  {
    var d, s := ByDottedPath(Only(pattern)), BySegments(Patterns(Only(pattern)));
    var here := keys + [k];
    var byD, byS := Delete(Obj(m), d, keys).fields, Delete(Obj(m), s, keys).fields;
    assert k in byD <==> !d(here);
    assert k in byS <==> !s(here);
    if k in byD && k in byS {
      assert byD[k] == Delete(m[k], d, here) && byS[k] == Delete(m[k], s, here);
    }
  }

  lemma ItemShows(items: seq<Json>, i: nat, pattern: Path, keys: Path)
    requires i < |items| && Shows(items[i], pattern, keys)
    ensures Shows(Arr(items), pattern, keys)
  {
    var d, s := ByDottedPath(Only(pattern)), BySegments(Patterns(Only(pattern)));
    assert Delete(Arr(items), d, keys).items[i] == Delete(items[i], d, keys);
    assert Delete(Arr(items), s, keys).items[i] == Delete(items[i], s, keys);
  }

  /** A pattern too long for the keys above cannot delete them, so a difference further down stays visible. */
  lemma TooLong(pattern: Path, keys: Path)
    requires AllParts(pattern) && ARRAY !in pattern && |pattern| > |keys|
    requires Alike(Split(Dotted(keys), '.'), keys)
    ensures !ByDottedPath(Only(pattern))(keys) && !BySegments(Patterns(Only(pattern)))(keys)
  {
    OnlyGone(pattern, keys);
  }

  lemma {:induction false} DifferenceShows(data: Json, keys: Path) returns (pattern: Path)
    requires !KeptApart(data, keys)
    ensures AllParts(pattern) && ARRAY !in pattern && |pattern| > |keys|
    ensures Shows(data, pattern, keys)
    decreases data
  {
    match data
    case Obj(m) =>
      var k :| k in m && !(Alike(Split(Dotted(keys + [k]), '.'), keys + [k]) && KeptApart(m[k], keys + [k]));
      var here := keys + [k];
      if Alike(Split(Dotted(here), '.'), here) {
        pattern := DifferenceShows(m[k], here);
        TooLong(pattern, here);
      } else {
        pattern := Separate(Split(Dotted(here), '.'), here);
        OnlyGone(pattern, here);
      }
      MemberShows(m, k, pattern, keys);
    case Arr(items) =>
      var i :| 0 <= i < |items| && !KeptApart(items[i], keys);
      pattern := DifferenceShows(items[i], keys);
      ItemShows(items, i, pattern, keys);
  }

  /**
   The exact condition, for every document: exclude deletes by key lists, whatever the fields, if and only if
   at each member the dotted string and the key list are alike.
   */
  lemma DottedPathsExact(data: Json)
    ensures (forall fields :: Exclude(data, fields) == Delete(data, BySegments(Patterns(fields)), []))
       <==> KeptApart(data, [])
  {
    if KeptApart(data, []) {
      forall fields ensures Exclude(data, fields) == Delete(data, BySegments(Patterns(fields)), []) {
        PathsAgree(data, fields, []);
      }
    } else {
      var pattern := DifferenceShows(data, []);
      assert Exclude(data, Only(pattern)) != Delete(data, BySegments(Patterns(Only(pattern))), []);
    }
  }

  // ---------- plain keys are kept apart ----------

  predicate DotFree(data: Json) {
    match data
    case Obj(fields) => forall k :: k in fields ==> '.' !in k && DotFree(fields[k])
    case Arr(items) => forall i :: 0 <= i < |items| ==> DotFree(items[i])
    case _ => true
  }

  predicate Keyless(data: Json) {
    match data
    case Obj(fields) => fields == map[]
    case Arr(items) => forall i :: 0 <= i < |items| ==> Keyless(items[i])
    case _ => true
  }

  /** An empty key of the root object, or of an object among root array items, holds no further key. */
  predicate EmptyKeyIsLeaf(data: Json) {
    match data
    case Obj(fields) => "" in fields ==> Keyless(fields[""])
    case Arr(items) => forall i :: 0 <= i < |items| ==> EmptyKeyIsLeaf(items[i])
    case _ => true
  }

  predicate Plain(keys: Path) {
    && (forall i :: 0 <= i < |keys| ==> '.' !in keys[i])
    && (|keys| > 1 ==> keys[0] != "")
  }

  lemma {:induction false} DottedIsJoin(keys: Path)
    requires keys != [] && keys[0] != ""
    ensures Dotted(keys) == Join(keys, '.') && Dotted(keys) != ""
  {
    var n := |keys| - 1;
    if n > 0 {
      var front := keys[..n];
      DottedIsJoin(front);
      JoinSnoc(front, keys[n]);
      assert front + [keys[n]] == keys;
    } else {
      assert keys[..0] == [];
    }
  }

  lemma {:induction false} JoinSnoc(parts: Path, last: string)
    requires parts != []
    ensures Join(parts + [last], '.') == Join(parts, '.') + "." + last
  {
    var all := parts + [last];
    assert all[1..] == parts[1..] + [last];
    if |parts| > 1 {
      JoinSnoc(parts[1..], last);
      var rest := Join(parts[1..], '.');
      assert parts[0] + "." + (rest + "." + last) == (parts[0] + "." + rest) + "." + last;
    } else {
      assert Join(all[1..], '.') == last;
    }
  }

  /** Splitting the accumulated string recovers the keys. */
  lemma SplitRecoversKeys(keys: Path)
    requires keys != [] && Plain(keys)
    ensures Split(Dotted(keys), '.') == keys
  {
    if keys[0] != "" {
      DottedIsJoin(keys);
      SplitOfJoin(keys, '.');
    } else {
      assert keys == [""] && keys[..0] == [];
    }
  }

  /** Every key list below `keys` in `data` is plain. */
  predicate Safe(data: Json, keys: Path) {
    if keys == [] then EmptyKeyIsLeaf(data) else keys[0] != "" || Keyless(data)
  }

  lemma PlainBelow(m: map<string, Json>, k: string, keys: Path)
    requires k in m && '.' !in k && Plain(keys) && Safe(Obj(m), keys)
    ensures Plain(keys + [k]) && Safe(m[k], keys + [k])
    ensures Alike(Split(Dotted(keys + [k]), '.'), keys + [k])
  {
    var here := keys + [k];
    assert forall i :: 0 <= i < |keys| ==> here[i] == keys[i];
    SplitRecoversKeys(here);
    AlikeItself(here);
  }

  lemma AlikeItself(a: Path)
    ensures Alike(a, a)
  {
  }

  /** Without dots in keys, and without a key below an empty root key, the strings stand for the key lists. */
  lemma {:induction false} PlainKeysKeptApart(data: Json, keys: Path)
    requires DotFree(data) && Plain(keys) && Safe(data, keys)
    ensures KeptApart(data, keys)
    decreases data
  {
    match data
    case Obj(m) =>
      forall k | k in m ensures Alike(Split(Dotted(keys + [k]), '.'), keys + [k]) && KeptApart(m[k], keys + [k]) {
        PlainBelow(m, k, keys);
        PlainKeysKeptApart(m[k], keys + [k]);
      }
    case Arr(items) =>
      forall i | 0 <= i < |items| ensures KeptApart(items[i], keys) {
        PlainKeysKeptApart(items[i], keys);
      }
    case _ =>
  }

  lemma ExcludeIsBySegments(data: Json, fields: seq<string>)
    requires DotFree(data) && EmptyKeyIsLeaf(data)
    ensures Exclude(data, fields) == Delete(data, BySegments(Patterns(fields)), [])
  {
    PlainKeysKeptApart(data, []);
    PathsAgree(data, fields, []);
  }
}
