/**
 Field patterns such as `items[].id` and the tokenizer that cuts them into segments.

 The tokenizer is a hand-written byte scanner. Its specification is declarative: surround every `[]`
 with dots, split at the dots and forget the empty pieces.
 */
module PathPattern {
  import opened GoStrings

  type Path = seq<string>

  const ARRAY := "[]"
  const WILDCARD := "*"

  /** Does `s` start with the two characters of an array marker? */
  predicate Marker(s: string) {
    |s| >= 2 && s[0] == '[' && s[1] == ']'
  }

  /** Every `[]`, taken from the left, becomes `.[].` */
  function Spread(s: string): string {
    if s == "" then ""
    else if Marker(s) then ".[]." + Spread(s[2..])
    else [s[0]] + Spread(s[1..])
  }

  function NonEmpty(parts: seq<string>): seq<string> {
    if parts == [] then []
    else (if parts[0] == "" then [] else [parts[0]]) + NonEmpty(parts[1..])
  }

  /** The segments a pattern stands for. */
  function Tokens(pattern: string): Path {
    NonEmpty(Split(Spread(pattern), '.'))
  }

  predicate HasMarker(s: string) {
    exists i :: 0 <= i < |s| && Marker(s[i..])
  }

  /** A segment: the array marker, or a non-empty name without dots and array markers. */
  predicate IsPart(part: string) {
    part == ARRAY || (part != "" && '.' !in part && !HasMarker(part))
  }

  predicate AllParts(parts: Path) {
    forall i :: 0 <= i < |parts| ==> IsPart(parts[i])
  }

  /** The segments of a text whose first piece has been read up to `current`. */
  function Rest(current: string, text: string): Path {
    NonEmpty(Split(current + Spread(text), '.'))
  }

  /** The segments read so far once the current name is closed. */
  function Close(parts: Path, current: string): Path {
    if current == "" then parts else parts + [current]
  }

  method ParsePathPattern(pattern: string) returns (parts: Path)
    ensures parts == Tokens(pattern)
    ensures AllParts(parts)
  {
    TokensAreParts(pattern);
    if pattern == "" {
      return [];
    }
    parts := [];
    var current := "";
    var i := 0;
    assert "" + Spread(pattern) == Spread(pattern) && pattern[0..] == pattern;
    while i < |pattern|
      invariant 0 <= i <= |pattern|
      invariant '.' !in current
      invariant Tokens(pattern) == parts + Rest(current, pattern[i..])
    {
      if i + 1 < |pattern| && pattern[i..i + 2] == ARRAY {
        ScanMarker(parts, current, pattern, i);
        if |current| > 0 {
          parts := parts + [current];
          current := "";
        }
        parts := parts + [ARRAY];
        i := i + 2;
        if i < |pattern| && pattern[i] == '.' {
          ScanDot(parts, "", pattern, i);
          i := i + 1;
        }
      } else if pattern[i] == '.' {
        ScanDot(parts, current, pattern, i);
        if |current| > 0 {
          parts := parts + [current];
          current := "";
        }
        i := i + 1;
      } else {
        ScanName(current, pattern, i);
        current := current + [pattern[i]];
        i := i + 1;
      }
    }
    RestOfNothing(current);
    if |current| > 0 {
      parts := parts + [current];
    }
  }

  lemma RestOfNothing(current: string)
    requires '.' !in current
    ensures Rest(current, "") == Close([], current)
  {
    assert current + "" == current;
    SplitWhole(current, '.');
    assert NonEmpty([current]) == Close([], current) + NonEmpty([]);
  }

  /** An array marker closes the current name and is a segment itself. */
  lemma ScanMarker(parts: Path, current: string, text: string, i: nat)
    requires '.' !in current && i + 1 < |text| && text[i..i + 2] == ARRAY
    ensures parts + Rest(current, text[i..]) == Close(parts, current) + [ARRAY] + Rest("", text[i + 2..])
  {
    MarkerAt(text, i);
    var tail := Spread(text[i + 2..]);
    SplitAroundMarker(current, tail);
    NonEmptyFirst(parts, current, [ARRAY] + Split(tail, '.'));
    assert [current] + ([ARRAY] + Split(tail, '.')) == [current, ARRAY] + Split(tail, '.');
    NonEmptyFirst(Close(parts, current), ARRAY, Split(tail, '.'));
    assert "" + tail == tail;
  }

  lemma MarkerAt(text: string, i: nat)
    requires i + 1 < |text|
    ensures Marker(text[i..]) <==> text[i..i + 2] == ARRAY
    ensures text[i..][2..] == text[i + 2..]
  {
    assert text[i..i + 2] == [text[i..][0], text[i..][1]];
  }

  /** A dot closes the current name. */
  lemma ScanDot(parts: Path, current: string, text: string, i: nat)
    requires '.' !in current && i < |text| && text[i] == '.'
    ensures parts + Rest(current, text[i..]) == Close(parts, current) + Rest("", text[i + 1..])
  {
    var tail := Spread(text[i + 1..]);
    assert text[i..][1..] == text[i + 1..];
    Associative(current, ".", tail);
    SplitAtSeparator(current, tail, '.');
    SplitWhole(current, '.');
    NonEmptyFirst(parts, current, Split(tail, '.'));
    assert "" + tail == tail;
  }

  lemma NonEmptyFirst(parts: Path, first: string, rest: seq<string>)
    ensures parts + NonEmpty([first] + rest) == Close(parts, first) + NonEmpty(rest)
  {
    assert ([first] + rest)[1..] == rest;
  }

  /** Any other character extends the current name. */
  lemma ScanName(current: string, text: string, i: nat)
    requires i < |text| && (i + 1 < |text| ==> text[i..i + 2] != ARRAY)
    ensures Rest(current, text[i..]) == Rest(current + [text[i]], text[i + 1..])
  {
    if i + 1 < |text| {
      MarkerAt(text, i);
    }
    assert text[i..][1..] == text[i + 1..];
    Associative(current, [text[i]], Spread(text[i + 1..]));
  }

  lemma SplitAroundMarker(current: string, tail: string)
    requires '.' !in current
    ensures Split(current + (".[]." + tail), '.') == [current, ARRAY] + Split(tail, '.')
  {
    assert current + (".[]." + tail) == current + "." + (ARRAY + "." + tail);
    SplitAtSeparator(current, ARRAY + "." + tail, '.');
    SplitAtSeparator(ARRAY, tail, '.');
    SplitWhole(current, '.');
    SplitWhole(ARRAY, '.');
  }

  lemma {:induction false} NonEmptyConcat(a: seq<string>, b: seq<string>)
    ensures NonEmpty(a + b) == NonEmpty(a) + NonEmpty(b)
  {
    if a == [] {
      assert a + b == b;
    } else {
      assert (a + b)[1..] == a[1..] + b;
      NonEmptyConcat(a[1..], b);
    }
  }

  /** The segment lists of the fields that have at least one segment. */
  function Patterns(fields: seq<string>): set<Path> {
    set f | f in fields && Tokens(f) != [] :: Tokens(f)
  }

  // ---------- every token is a segment ----------

  lemma {:induction false} SpreadPieces(s: string)
    ensures var pieces := Split(Spread(s), '.');
            && !HasMarker(pieces[0])
            && (pieces[0] != "" ==> s != "" && pieces[0][0] == s[0])
            && forall i :: 0 <= i < |pieces| && pieces[i] != "" ==> IsPart(pieces[i])
  {
    if s == "" {
    } else if Marker(s) {
      SpreadPieces(s[2..]);
      SplitAroundMarker("", Spread(s[2..]));
      assert "" + Spread(s) == Spread(s);
    } else {
      SpreadPieces(s[1..]);
      var rest := Split(Spread(s[1..]), '.');
      assert Spread(s)[1..] == Spread(s[1..]);
      if s[0] != '.' {
        var first := [s[0]] + rest[0];
        forall i | 0 <= i < |first| ensures !Marker(first[i..]) {
          if i == 0 {
          } else {
            assert first[i..] == rest[0][i - 1..];
          }
        }
      }
    }
  }

  lemma {:induction false} NonEmptyKeeps(pieces: seq<string>)
    requires forall i :: 0 <= i < |pieces| && pieces[i] != "" ==> IsPart(pieces[i])
    ensures AllParts(NonEmpty(pieces))
  {
    if pieces != [] {
      NonEmptyKeeps(pieces[1..]);
    }
  }

  lemma TokensAreParts(pattern: string)
    ensures AllParts(Tokens(pattern))
  {
    SpreadPieces(pattern);
    NonEmptyKeeps(Split(Spread(pattern), '.'));
  }

  // ---------- printing and parsing are inverse ----------

  lemma {:induction false} SpreadJoined(a: string, rest: string)
    requires rest != "" && rest[0] != ']'
    ensures Spread(a + rest) == Spread(a) + Spread(rest)
  {
    if a == "" {
      assert a + rest == rest;
    } else {
      MarkerJoined(a, rest);
      if Marker(a) {
        SpreadJoined(a[2..], rest);
        Associative(".[].", Spread(a[2..]), Spread(rest));
      } else {
        SpreadJoined(a[1..], rest);
        Associative([a[0]], Spread(a[1..]), Spread(rest));
      }
    }
  }

  lemma Associative(a: string, b: string, c: string)
    ensures a + (b + c) == (a + b) + c
  {
  }

  lemma MarkerJoined(a: string, rest: string)
    requires a != "" && rest != "" && rest[0] != ']'
    ensures Marker(a + rest) <==> Marker(a)
    ensures (a + rest)[0] == a[0] && (a + rest)[1..] == a[1..] + rest
    ensures Marker(a) ==> (a + rest)[2..] == a[2..] + rest
  {
  }

  lemma SpreadAtDot(a: string, b: string)
    ensures Spread(a + "." + b) == Spread(a) + "." + Spread(b)
  {
    var rest := "." + b;
    SpreadJoined(a, rest);
    assert rest[1..] == b && a + "." + b == a + rest;
  }

  lemma {:induction false} SpreadPlain(s: string)
    requires !HasMarker(s)
    ensures Spread(s) == s
  {
    if s != "" {
      assert s[0..] == s;
      forall i | 0 <= i < |s[1..]| ensures !Marker(s[1..][i..]) {
        assert s[1..][i..] == s[i + 1..];
      }
      SpreadPlain(s[1..]);
    }
  }

  lemma TokensOfPart(part: string)
    requires IsPart(part)
    ensures Tokens(part) == [part]
  {
    assert "" + Spread(part) == Spread(part);
    if part == ARRAY {
      SplitAroundMarker("", "");
      assert "" + (".[]." + "") == Spread(part);
      NonEmptyConcat(["", ARRAY], [""]);
      assert ["", ARRAY][1..] == [ARRAY];
    } else {
      SpreadPlain(part);
      assert part + "" == part;
      RestOfNothing(part);
    }
  }

  /** A pattern is read segment by segment: a dot separates without any context. */
  lemma TokensAtDot(a: string, b: string)
    ensures Tokens(a + "." + b) == Tokens(a) + Tokens(b)
  {
    SpreadAtDot(a, b);
    SplitAtSeparator(Spread(a), Spread(b), '.');
    NonEmptyConcat(Split(Spread(a), '.'), Split(Spread(b), '.'));
  }

  /** So does an array marker, which is a segment itself. */
  lemma TokensAtMarker(a: string, b: string)
    ensures Tokens(a + "[]" + b) == Tokens(a) + ["[]"] + Tokens(b)
  {
    var rest := "[]" + b;
    assert rest[2..] == b && a + "[]" + b == a + rest;
    SpreadJoined(a, rest);
    var tail := Spread(b);
    assert Spread(a) + (".[]." + tail) == Spread(a) + "." + (ARRAY + "." + tail);
    SplitAtSeparator(Spread(a), ARRAY + "." + tail, '.');
    SplitAtSeparator(ARRAY, tail, '.');
    SplitWhole(ARRAY, '.');
    NonEmptyConcat(Split(Spread(a), '.'), [ARRAY] + Split(tail, '.'));
    NonEmptyConcat([ARRAY], Split(tail, '.'));
    Associative3(Tokens(a), [ARRAY], Tokens(b));
  }

  lemma Associative3(a: Path, b: Path, c: Path)
    ensures a + (b + c) == a + b + c
  {
  }

  /** A text without dots and array markers is one segment, or none if it is empty. */
  lemma TokensOfName(name: string)
    requires forall i :: 0 <= i < |name| ==> name[i] != '.'
    requires forall i :: 0 <= i < |name| - 1 ==> !(name[i] == '[' && name[i + 1] == ']')
    ensures Tokens(name) == if name == "" then [] else [name]
  {
    if name == "" {
      assert NonEmpty([""]) == [];
    } else {
      TokensOfPart(name);
    }
  }

  lemma {:induction false} ParseOfPrint(parts: Path)
    requires AllParts(parts)
    ensures Tokens(Join(parts, '.')) == parts
  {
    if |parts| >= 1 {
      TokensOfPart(parts[0]);
      if |parts| > 1 {
        ParseOfPrint(parts[1..]);
        TokensAtDot(parts[0], Join(parts[1..], '.'));
      }
    }
  }

  /** The segment lists that some pattern denotes are exactly the lists of segments. */
  lemma ParseImage(parts: Path)
    ensures AllParts(parts) <==> exists pattern :: Tokens(pattern) == parts
  {
    if AllParts(parts) {
      ParseOfPrint(parts);
    }
    forall pattern | Tokens(pattern) == parts ensures AllParts(parts) {
      TokensAreParts(pattern);
    }
  }

  /** Printing the parsed pattern and parsing it again changes nothing, whatever the string. */
  lemma ParsePrintParse(pattern: string)
    ensures Tokens(Join(Tokens(pattern), '.')) == Tokens(pattern)
  {
    TokensAreParts(pattern);
    ParseOfPrint(Tokens(pattern));
  }

  // ---------- some fields ----------

  lemma PlainName(name: string)
    requires |name| == 1 && name[0] != '.'
    ensures IsPart(name)
  {
  }

  lemma TokensOfTwo(a: string, b: string)
    requires IsPart(a) && IsPart(b)
    ensures Tokens(a + "." + b) == [a, b]
  {
    TokensAtDot(a, b);
    TokensOfPart(a);
    TokensOfPart(b);
  }

  /** The field `a[]`, for a one-letter name. */
  lemma TokensOfArrayField(name: string)
    requires |name| == 1 && name[0] != '.' && name[0] != '['
    ensures Tokens(name + ARRAY) == [name, ARRAY]
  {
    var field := name + ARRAY;
    assert field[1..] == ARRAY && Spread(ARRAY) == ".[]." + "";
    assert Spread(field) == name + (".[]." + "");
    SplitAroundMarker(name, "");
    NonEmptyConcat([name, ARRAY], [""]);
    NonEmptyConcat([name], [ARRAY]);
    assert [name] + [ARRAY] == [name, ARRAY];
  }
}
