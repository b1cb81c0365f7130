/** Routes with `*` segments, the requests they match, and which rules can never fire. */
module Matcher {
  import opened GoStrings
  import opened PathPattern
  import opened PatternMatch
  import opened Api
  import opened Wrappers

  /** `normalizePath`: a leading slash is added, one trailing slash is removed. */
  function Normalize(path: string): (r: string)
    ensures r != "" && r[0] == '/'
  {
    var rooted := if path != "" && path[0] == '/' then path else "/" + path;
    if |rooted| > 1 && rooted[|rooted| - 1] == '/' then rooted[..|rooted| - 1] else rooted
  }

  method NormalizePath(path: string) returns (r: string)
    ensures r == Normalize(path)
  {
    r := path;
    if r == "" {
      return "/";
    }
    if !("/" <= r) {
      r := "/" + r;
    }
    if |r| > 1 && r[|r| - 1] == '/' {
      r := r[..|r| - 1];
    }
  }

  function Segments(path: string): Path {
    Split(Normalize(path), '/')
  }

  predicate SegmentsMatch(route: Path, path: Path) {
    |route| == |path| && forall i :: 0 <= i < |route| ==> Admits(route[i], path[i])
  }

  predicate RouteMatches(route: string, path: string) {
    SegmentsMatch(Segments(route), Segments(path))
  }

  /** The early equality test decides nothing that the segment loop would not. */
  method Matches(route: string, path: string) returns (b: bool)
    ensures b == RouteMatches(route, path)
    ensures var r, p := Split(Normalize(route), '/'), Split(Normalize(path), '/');
            b <==> |r| == |p| && forall i :: 0 <= i < |r| ==> r[i] == "*" || r[i] == p[i]
  {
    RouteExact(route, path);
    var pattern := NormalizePath(route);
    var actual := NormalizePath(path);
    if pattern == actual {
      return true;
    }
    var patternParts := Split(pattern, '/');
    var pathParts := Split(actual, '/');
    if |patternParts| != |pathParts| {
      return false;
    }
    for i := 0 to |patternParts|
      invariant forall j :: 0 <= j < i ==> Admits(patternParts[j], pathParts[j])
    {
      if patternParts[i] == WILDCARD {
        continue;
      }
      if patternParts[i] != pathParts[i] {
        return false;
      }
    }
    return true;
  }

  predicate MethodMatches(method_: string, actual: string) {
    method_ == "" || Upper(method_) == Upper(actual)
  }

  predicate Fires(rule: PolicyRule, path: string, method_: string) {
    MethodMatches(rule.method_, method_) && RouteMatches(rule.route, path)
  }

  method MatchesWithMethod(route: string, method_: string, path: string, actual: string) returns (b: bool)
    ensures b == (MethodMatches(method_, actual) && RouteMatches(route, path))
  {
    if method_ != "" && Upper(method_) != Upper(actual) {
      return false;
    }
    b := Matches(route, path);
  }

  // ---------- what a route matches ----------

  /** Normalizing twice strips a second slash if there was one to strip. */
  lemma NormalizeTwiceExact(path: string)
    ensures Normalize(Normalize(path)) == Normalize(path)
       <==> !(|path| > 1 && path[|path| - 1] == '/' && path[|path| - 2] == '/' && path != "//")
  {
    var rooted := if path != "" && path[0] == '/' then path else "/" + path;
    assert |path| > 0 ==> rooted[|rooted| - 1] == path[|path| - 1];
    assert |path| > 1 ==> rooted[|rooted| - 2] == path[|path| - 2];
  }

  /** Every string with a leading slash is a normal form. */
  lemma NormalFormReached(form: string)
    requires form != "" && form[0] == '/'
    ensures Normalize(form + "/") == form
  {
    assert (form + "/")[..|form|] == form;
  }

  /** Adding the leading slash, and the strings that are left alone: with `NormalFormReached` this says all. */
  lemma NormalizeMeans(path: string)
    ensures Normalize("") == "/" && Normalize("/") == "/"
    ensures path != "" && path[0] != '/' ==> Normalize(path) == Normalize("/" + path)
    ensures path != "" && path[0] == '/' && path[|path| - 1] != '/' ==> Normalize(path) == path
  {
  }

  /**
   When a rule fires: its method is empty or the requested one up to ASCII case, and the normal forms of route
   and path have as many segments, which agree except where the route has `*`.
   */
  lemma FiresExact(rule: PolicyRule, path: string, method_: string)
    ensures var m, r, p := rule.method_, Split(Normalize(rule.route), '/'), Split(Normalize(path), '/');
            Fires(rule, path, method_) <==>
              && (m == ""
                  || (|m| == |method_|
                      && forall i :: 0 <= i < |m| ==>
                           || m[i] == method_[i]
                           || ('A' <= m[i] <= 'Z' && method_[i] as int == m[i] as int + 32)
                           || ('A' <= method_[i] <= 'Z' && m[i] as int == method_[i] as int + 32)))
              && |r| == |p| && forall i :: 0 <= i < |r| ==> r[i] == "*" || r[i] == p[i]
  {
    UpperAgree(rule.method_, method_);
    LowerAgree(rule.method_, method_);
    RouteExact(rule.route, path);
  }

  lemma RouteExact(route: string, path: string)
    ensures var r, p := Split(Normalize(route), '/'), Split(Normalize(path), '/');
            RouteMatches(route, path) <==> |r| == |p| && forall i :: 0 <= i < |r| ==> r[i] == "*" || r[i] == p[i]
  {
    var r, p := Split(Normalize(route), '/'), Split(Normalize(path), '/');
    if RouteMatches(route, path) {
      assert forall i :: 0 <= i < |r| ==> Admits(r[i], p[i]);
    }
  }

  lemma SegmentsInjective(a: string, b: string)
    requires Segments(a) == Segments(b)
    ensures Normalize(a) == Normalize(b)
  {
    JoinOfSplit(Normalize(a), '/');
    JoinOfSplit(Normalize(b), '/');
  }

  predicate Literal(route: string) {
    forall i :: 0 <= i < |Segments(route)| ==> Segments(route)[i] != WILDCARD
  }

  /** A route has no `*` segment exactly when it matches the paths with its own normal form and no others. */
  lemma LiteralExact(route: string)
    ensures Literal(route) <==> forall path :: RouteMatches(route, path) <==> Normalize(route) == Normalize(path)
  {
    if Literal(route) {
      forall path ensures RouteMatches(route, path) <==> Normalize(route) == Normalize(path) {
        if RouteMatches(route, path) {
          assert Segments(route) == Segments(path);
          SegmentsInjective(route, path);
        }
      }
    } else {
      var path := WildcardWitness(route);
      assert !(RouteMatches(route, path) <==> Normalize(route) == Normalize(path));
    }
  }

  lemma WildcardWitness(route: string) returns (path: string)
    requires !Literal(route)
    ensures RouteMatches(route, path) && Normalize(route) != Normalize(path)
  {
    var segments := Segments(route);
    var i :| 0 <= i < |segments| && segments[i] == WILDCARD;
    var other := segments[i := "x"];
    FirstSegmentEmpty(Normalize(route));
    var form := Join(other, '/');
    path := form + "/";
    SplitOfJoin(other, '/');
    assert |other| > 1;
    NormalFormReached(form);
    assert Segments(path) == other;
  }

  lemma FirstSegmentEmpty(form: string)
    requires form != "" && form[0] == '/'
    ensures |Split(form, '/')| > 1 && Split(form, '/')[0] == ""
  {
  }

  // ---------- which rules can fire ----------

  /** `first` matches whatever `second` matches: read the second route as a path. */
  predicate Covers(first: PolicyRule, second: PolicyRule) {
    && (first.method_ == "" || (second.method_ != "" && Upper(first.method_) == Upper(second.method_)))
    && RouteMatches(first.route, second.route)
  }

  lemma CoveredFires(first: PolicyRule, second: PolicyRule, path: string, method_: string)
    requires Covers(first, second) && Fires(second, path, method_)
    ensures Fires(first, path, method_)
  {
    var a, b, c := Segments(first.route), Segments(second.route), Segments(path);
    forall i | 0 <= i < |a| ensures Admits(a[i], c[i]) {
      assert Admits(a[i], b[i]) && Admits(b[i], c[i]);
    }
  }

  /** A method name that no rule of the list names. */
  function FreshMethod(rules: seq<PolicyRule>): (m: string)
    ensures forall i :: 0 <= i < |rules| ==> |rules[i].method_| < |m|
  {
    if rules == [] then "x"
    else
      var rest := FreshMethod(rules[1..]);
      rest + rules[0].method_ + "x"
  }

  /** The request that only a covering rule can take away from `rule`. */
  function HardestMethod(rule: PolicyRule, earlier: seq<PolicyRule>): string {
    if rule.method_ == "" then FreshMethod(earlier) else rule.method_
  }

  lemma HardestRequest(rule: PolicyRule, earlier: seq<PolicyRule>, j: nat)
    requires j < |earlier| && Fires(earlier[j], rule.route, HardestMethod(rule, earlier))
    ensures Covers(earlier[j], rule)
  {
  }

  /** `FindMatchingRule`: the index of the first rule that fires. */
  function FirstMatch(rules: seq<PolicyRule>, path: string, method_: string): (r: Option<nat>)
    ensures r.Some? ==> r.value < |rules| && Fires(rules[r.value], path, method_)
                        && forall j :: 0 <= j < r.value ==> !Fires(rules[j], path, method_)
    ensures r.None? ==> forall j :: 0 <= j < |rules| ==> !Fires(rules[j], path, method_)
  {
    if rules == [] then None
    else if Fires(rules[0], path, method_) then Some(0)
    else
      match FirstMatch(rules[1..], path, method_)
      case None => None
      case Some(i) => Some(i + 1)
  }

  function MatchingRule(rules: seq<PolicyRule>, path: string, method_: string): Option<PolicyRule> {
    match FirstMatch(rules, path, method_)
    case None => None
    case Some(i) => Some(rules[i])
  }

  /** The rule that governs a request: the first that fires, or none if none does. */
  ghost predicate Governs(rules: seq<PolicyRule>, path: string, method_: string, rule: Option<PolicyRule>) {
    match rule
    case None => forall i :: 0 <= i < |rules| ==> !Fires(rules[i], path, method_)
    case Some(r) =>
      exists i :: 0 <= i < |rules| && rules[i] == r && Fires(r, path, method_) && forall j :: 0 <= j < i ==> !Fires(rules[j], path, method_)
  }

  /** Exactly one answer governs a request, and the search finds it. */
  lemma GovernsExact(rules: seq<PolicyRule>, path: string, method_: string, rule: Option<PolicyRule>)
    ensures Governs(rules, path, method_, rule) <==> rule == MatchingRule(rules, path, method_)
  {
    match FirstMatch(rules, path, method_)
    case None =>
    case Some(i) =>
      assert rules[i] == rules[i] && Fires(rules[i], path, method_);
  }

  method FindMatchingRule(rules: seq<PolicyRule>, path: string, method_: string)
    returns (rule: Option<PolicyRule>)
    ensures rule == MatchingRule(rules, path, method_)
  {
    for i := 0 to |rules|
      invariant forall j :: 0 <= j < i ==> !Fires(rules[j], path, method_)
    {
      var fires := MatchesWithMethod(rules[i].route, rules[i].method_, path, method_);
      if fires {
        return Some(rules[i]);
      }
    }
    return None;
  }

  /** A rule never decides a request if and only if a single earlier rule covers it. */
  lemma DeadRuleExact(rules: seq<PolicyRule>, k: nat)
    requires k < |rules|
    ensures (forall path, method_ :: FirstMatch(rules, path, method_) != Some(k))
       <==> exists j :: 0 <= j < k && Covers(rules[j], rules[k])
  {
    if j :| 0 <= j < k && Covers(rules[j], rules[k]) {
      forall path, method_ ensures FirstMatch(rules, path, method_) != Some(k) {
        if Fires(rules[k], path, method_) {
          CoveredFires(rules[j], rules[k], path, method_);
        }
      }
    } else {
      FirstOnHardest(rules, k);
    }
  }

  lemma FirstOnHardest(rules: seq<PolicyRule>, k: nat)
    requires k < |rules|
    requires forall j :: 0 <= j < k ==> !Covers(rules[j], rules[k])
    ensures exists path, method_ :: FirstMatch(rules, path, method_) == Some(k)
  {
    var rule, earlier := rules[k], rules[..k];
    var m := HardestMethod(rule, earlier);
    forall j | 0 <= j < k ensures !Fires(rules[j], rule.route, m) {
      assert earlier[j] == rules[j];
      if Fires(earlier[j], rule.route, m) {
        HardestRequest(rule, earlier, j);
      }
    }
    OwnRequestFires(rule, m);
    FirstMatchIs(rules, k, rule.route, m);
  }

  lemma OwnRequestFires(rule: PolicyRule, m: string)
    requires rule.method_ == "" || rule.method_ == m
    ensures Fires(rule, rule.route, m)
  {
  }

  lemma FirstMatchIs(rules: seq<PolicyRule>, k: nat, path: string, method_: string)
    requires k < |rules| && Fires(rules[k], path, method_)
    requires forall j :: 0 <= j < k ==> !Fires(rules[j], path, method_)
    ensures FirstMatch(rules, path, method_) == Some(k)
  {
  }

  lemma MatchingRuleStep(first: PolicyRule, rest: seq<PolicyRule>, path: string, method_: string)
    ensures MatchingRule([first] + rest, path, method_)
         == if Fires(first, path, method_) then Some(first) else MatchingRule(rest, path, method_)
  {
    assert ([first] + rest)[1..] == rest;
  }

  lemma HeadApart(a: seq<PolicyRule>, b: seq<PolicyRule>)
    requires a != []
    ensures a == [a[0]] + a[1..] && a + b == [a[0]] + (a[1..] + b)
  {
  }

  lemma {:induction false} MatchingRuleConcat(a: seq<PolicyRule>, b: seq<PolicyRule>, path: string, method_: string)
    ensures MatchingRule(a + b, path, method_)
         == if MatchingRule(a, path, method_).Some? then MatchingRule(a, path, method_) else MatchingRule(b, path, method_)
  {
    if a == [] {
      assert a + b == b;
    } else {
      MatchingRuleConcat(a[1..], b, path, method_);
      HeadApart(a, b);
      MatchingRuleStep(a[0], a[1..], path, method_);
      MatchingRuleStep(a[0], a[1..] + b, path, method_);
    }
  }

  /** Deleting such a rule changes no decision. */
  lemma DeadRuleRemoval(rules: seq<PolicyRule>, j: nat, k: nat, path: string, method_: string)
    requires j < k < |rules| && Covers(rules[j], rules[k])
    ensures MatchingRule(rules[..k] + rules[k + 1..], path, method_) == MatchingRule(rules, path, method_)
  {
    var before, after := rules[..k], rules[k + 1..];
    assert rules == before + ([rules[k]] + after);
    MatchingRuleConcat(before, [rules[k]] + after, path, method_);
    MatchingRuleStep(rules[k], after, path, method_);
    MatchingRuleConcat(before, after, path, method_);
    if Fires(rules[k], path, method_) {
      CoveredFires(rules[j], rules[k], path, method_);
      assert before[j] == rules[j];
    }
  }
}
