/** How an exclude pattern is matched against the segments of a dotted path. */
module PatternMatch {
  import opened PathPattern

  predicate MatchPathSegments(pathParts: Path, patternParts: Path, pathIdx: nat, patternIdx: nat)
    decreases |patternParts| - patternIdx
  {
    if patternIdx >= |patternParts| then pathIdx >= |pathParts|
    else if pathIdx >= |pathParts| then false
    else
      var patternPart := patternParts[patternIdx];
      if patternPart == ARRAY then
        MatchPathSegments(pathParts, patternParts, pathIdx, patternIdx + 1)
      else if patternPart == WILDCARD then
        if patternIdx == |patternParts| - 1 then true
        else MatchPathSegments(pathParts, patternParts, pathIdx + 1, patternIdx + 1)
      else if pathParts[pathIdx] == patternPart then
        MatchPathSegments(pathParts, patternParts, pathIdx + 1, patternIdx + 1)
      else false
  }

  /** The pattern without its array markers. */
  function Strip(pattern: Path): (names: Path)
    ensures |names| <= |pattern|
    ensures ARRAY !in names
  {
    if pattern == [] then []
    else (if pattern[0] == ARRAY then [] else [pattern[0]]) + Strip(pattern[1..])
  }

  /** Does the segment of a pattern admit this key? */
  predicate Admits(segment: string, key: string) {
    segment == WILDCARD || segment == key
  }

  predicate EndsInKey(pattern: Path) {
    pattern != [] && pattern[|pattern| - 1] != ARRAY
  }

  /**
   What a pattern excludes, in closed form. Array markers count for nothing, an inner `*` stands for one
   segment, a final `*` for one or more; an empty pattern and one that ends in `[]` match nothing.
   */
  predicate KeysMatch(keys: Path, pattern: Path) {
    EndsInKey(pattern) && NamesMatch(keys, Strip(pattern))
  }

  predicate NamesMatch(keys: Path, names: Path) {
    && |names| <= |keys|
    && (forall i :: 0 <= i < |names| ==> Admits(names[i], keys[i]))
    && (|names| == |keys| || (names != [] && names[|names| - 1] == WILDCARD))
  }

  lemma {:induction false} StripKeepsEnd(pattern: Path)
    requires EndsInKey(pattern)
    ensures Strip(pattern) != [] && Strip(pattern)[|Strip(pattern)| - 1] == pattern[|pattern| - 1]
  {
    if |pattern| > 1 {
      StripKeepsEnd(pattern[1..]);
    }
  }

  /** `KeysMatch` peels a pattern from the left, one segment at a time. */
  lemma KeysMatchStep(keys: Path, pattern: Path)
    requires keys != [] && pattern != []
    ensures pattern[0] == ARRAY ==> (KeysMatch(keys, pattern) <==> KeysMatch(keys, pattern[1..]))
    ensures pattern[0] != ARRAY && |pattern| == 1 ==>
      (KeysMatch(keys, pattern) <==> Admits(pattern[0], keys[0]) && (|keys| == 1 || pattern[0] == WILDCARD))
    ensures pattern[0] != ARRAY && |pattern| > 1 ==>
      (KeysMatch(keys, pattern) <==> Admits(pattern[0], keys[0]) && |keys| > 1 && KeysMatch(keys[1..], pattern[1..]))
  {
    var names, rest := Strip(pattern), Strip(pattern[1..]);
    if pattern[0] == ARRAY {
      assert names == rest;
      if |pattern| > 1 {
        assert EndsInKey(pattern) <==> EndsInKey(pattern[1..]);
      }
    } else {
      assert names == [pattern[0]] + rest;
      if |pattern| == 1 {
        assert rest == [];
      } else if EndsInKey(pattern) {
        StripKeepsEnd(pattern[1..]);
        assert names[1..] == rest;
        NamesStep(keys, names);
      }
    }
  }

  lemma NamesStep(keys: Path, names: Path)
    requires keys != [] && |names| > 1
    ensures NamesMatch(keys, names) <==> Admits(names[0], keys[0]) && |keys| > 1 && NamesMatch(keys[1..], names[1..])
  {
    if Admits(names[0], keys[0]) && |keys| > 1 && NamesMatch(keys[1..], names[1..]) {
      forall i | 0 <= i < |names| ensures Admits(names[i], keys[i]) {
        if i > 0 {
          assert Admits(names[1..][i - 1], keys[1..][i - 1]);
        }
      }
    }
  }

  // ---------- the closed form, letter by letter ----------

  lemma {:induction false} StripNothing(pattern: Path)
    requires "[]" !in pattern
    ensures Strip(pattern) == pattern
  {
    if pattern != [] {
      StripNothing(pattern[1..]);
    }
  }

  /** A pattern without array markers: names match themselves, `*` any key, a final `*` also all below. */
  lemma KeysMatchNames(keys: Path, pattern: Path)
    requires "[]" !in pattern
    ensures KeysMatch(keys, pattern) <==>
      && 0 < |pattern| <= |keys|
      && (forall i :: 0 <= i < |pattern| ==> pattern[i] == "*" || pattern[i] == keys[i])
      && (|pattern| == |keys| || pattern[|pattern| - 1] == "*")
  {
    StripNothing(pattern);
    if KeysMatch(keys, pattern) {
      assert forall i :: 0 <= i < |pattern| ==> Admits(pattern[i], keys[i]);
    }
  }

  lemma {:induction false} StripConcat(a: Path, b: Path)
    ensures Strip(a + b) == Strip(a) + Strip(b)
  {
    if a == [] {
      assert a + b == b;
    } else {
      StripConcat(a[1..], b);
      StripHead(a, b);
    }
  }

  lemma StripHead(a: Path, b: Path)
    requires a != []
    ensures Strip(a + b) == (if a[0] == ARRAY then [] else [a[0]]) + Strip(a[1..] + b)
  {
    assert (a + b)[1..] == a[1..] + b;
  }

  lemma StripMarker(a: Path, b: Path)
    ensures Strip(a + ["[]"] + b) == Strip(a + b)
  {
    StripConcat(a + ["[]"], b);
    StripLastMarker(a);
    StripConcat(a, b);
  }

  lemma StripLastMarker(a: Path)
    ensures Strip(a + ["[]"]) == Strip(a)
  {
    StripConcat(a, ["[]"]);
    assert Strip(["[]"]) == [];
  }

  lemma EndsAlike(a: Path, b: Path)
    ensures b != [] ==> (EndsInKey(a + ["[]"] + b) <==> EndsInKey(a + b))
    ensures b == [] ==> !EndsInKey(a + ["[]"] + b)
  {
  }

  /** An array marker counts for nothing, except at the end, where it makes the pattern match nothing. */
  lemma KeysMatchMarker(keys: Path, a: Path, b: Path)
    ensures b != [] ==> (KeysMatch(keys, a + ["[]"] + b) <==> KeysMatch(keys, a + b))
    ensures b == [] ==> !KeysMatch(keys, a + ["[]"] + b)
  {
    StripMarker(a, b);
    EndsAlike(a, b);
  }

  lemma {:induction false} MatchFrom(keys: Path, pattern: Path, i: nat, j: nat)
    requires i < |keys| && j <= |pattern|
    ensures MatchPathSegments(keys, pattern, i, j) <==> KeysMatch(keys[i..], pattern[j..])
    decreases |pattern| - j
  {
    if j < |pattern| {
      KeysMatchStep(keys[i..], pattern[j..]);
      assert pattern[j..][1..] == pattern[j + 1..] && keys[i..][1..] == keys[i + 1..];
      if pattern[j] == ARRAY {
        MatchFrom(keys, pattern, i, j + 1);
      } else if i + 1 < |keys| {
        MatchFrom(keys, pattern, i + 1, j + 1);
      }
    }
  }

  /** The recursive matcher computes the closed form on every path that splitting can produce. */
  lemma MatchClosedForm(keys: Path, pattern: Path)
    requires keys != []
    ensures MatchPathSegments(keys, pattern, 0, 0) <==> KeysMatch(keys, pattern)
  {
    MatchFrom(keys, pattern, 0, 0);
    assert keys[0..] == keys && pattern[0..] == pattern;
  }
}
