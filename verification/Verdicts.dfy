/** What the request and response sides together guarantee. */
module Verdicts {
  import opened Wrappers
  import opened GoStrings
  import opened JsonTree
  import opened Api
  import opened Interceptor
  import Engine
  import Filter
  import Matcher

  /** The verdict on an upstream response, from the loaded group and the request. */
  function VerdictFor(codec: Codec, parse: Engine.UrlParser, group: Result<PolicyGroup>, host: string, path: string,
      method_: string, passthrough: bool, upstream: View): Verdict
  {
    Decide(codec, RequestContext(Engine.Resolve(parse, group, host), path, method_), passthrough, upstream)
  }

  /** The two halves of the interceptor around one exchange. */
  method Intercept(codec: Codec, parse: Engine.UrlParser, group: Result<PolicyGroup>, host: string, path: string,
      method_: string, passthrough: bool, resp: Response)
    modifies resp
    ensures var upstream := old(resp.Contents());
            resp.Contents() == Deliver(codec, upstream, VerdictFor(codec, parse, group, host, path, method_, passthrough, upstream))
  {
    var ctx := InterceptRequest(parse, group, host, path, method_);
    InterceptResponse(codec, ctx, passthrough, resp);
  }

  /** The filter of the first matching rule of the first policy for the host, if there is one. */
  function FilterOn(parse: Engine.UrlParser, group: Result<PolicyGroup>, host: string, path: string, method_: string):
    Option<ResponseFilter>
  {
    match Engine.Resolve(parse, group, host)
    case None => None
    case Some(data) => FilterFor(data, path, method_)
  }

  /** Without a group for the token, or without a policy for the host, the response is refused. */
  lemma RefusedWithoutPolicy(codec: Codec, parse: Engine.UrlParser, group: Result<PolicyGroup>, host: string, path: string,
      method_: string, passthrough: bool, upstream: View)
    ensures VerdictFor(codec, parse, group, host, path, method_, passthrough, upstream) == Refuse(403, "invalid or missing token")
       <==> (group.Success? ==> forall i: nat :: !Engine.Selected(parse, group.value, host, i))
  {
    if group.Success? {
      Engine.ResolveExact(parse, group.value, host);
    }
  }

  /**
   With a policy selected for the host and a rule, or none, that governs the request: exactly when the
   response passes unchanged, is rewritten, is refused as forbidden, or fails. `json` says that the content
   type contains `application/json` in any case; a filter never touches anything else.
   */
  lemma VerdictExact(codec: Codec, parse: Engine.UrlParser, g: PolicyGroup, host: string, path: string, method_: string,
      passthrough: bool, upstream: View, i: nat, rule: Option<PolicyRule>)
    requires Engine.Selected(parse, g, host, i)
    requires Matcher.Governs(g.policies[i].rules, path, method_, rule)
    ensures var verdict := VerdictFor(codec, parse, Success(g), host, path, method_, passthrough, upstream);
            var allowed := if rule.Some? then rule.value.action != "deny"
                           else if g.defaultAction != "" then g.defaultAction != "deny" else passthrough;
            var f := if rule.Some? then rule.value.responseFilter else None;
            var json := "Content-Type" in upstream.headers
                        && exists i :: 0 <= i <= |upstream.headers["Content-Type"]|
                             && "application/json" <= Lower(upstream.headers["Content-Type"])[i..];
            && (verdict.Pass? <==> allowed && (f.None? || (json && upstream.body.Absent?)))
            && (verdict.Rewrite? <==> allowed && f.Some? && json && upstream.body.Readable?
                                      && codec.decode(upstream.body.bytes).Some?
                                      && codec.encode(Filter.Filtered(codec.decode(upstream.body.bytes).value, f.value)).Some?)
            && (verdict.Rewrite? ==>
                  codec.encode(Filter.Filtered(codec.decode(upstream.body.bytes).value, f.value)) == Some(verdict.bytes))
            && (verdict.Refuse? ==> verdict.code == 403 || verdict.code == 500)
            && (verdict.Refuse? && verdict.code == 403 <==> !allowed || (f.Some? && !json))
            && (!allowed ==> verdict == Refuse(403, "access denied by policy"))
            && (allowed && f.Some? && !json ==> verdict == Refuse(403, "non-JSON response cannot be filtered"))
            && (allowed && f.Some? && json && upstream.body.Broken? ==> verdict == Refuse(500, upstream.body.error))
            && (allowed && f.Some? && json && upstream.body.Readable? ==>
                  && (codec.decode(upstream.body.bytes).None? ==> verdict == Refuse(500, "invalid JSON response"))
                  && (verdict.Refuse? && codec.decode(upstream.body.bytes).Some? ==>
                        verdict == Refuse(500, "failed to encode response")))
  {
    JsonExact(upstream);
    Engine.ResolveExact(parse, g, host);
    Matcher.GovernsExact(g.policies[i].rules, path, method_, rule);
  }

  lemma JsonExact(upstream: View)
    ensures DeclaresJson(upstream) <==>
      "Content-Type" in upstream.headers
      && exists i :: 0 <= i <= |upstream.headers["Content-Type"]|
           && "application/json" <= Lower(upstream.headers["Content-Type"])[i..]
  {
    assert |"application/json"| == 16;
  }

  /** Without a rule that fires, a default action and the pass-through flag, the request is denied. */
  lemma DeniedByDefault(codec: Codec, parse: Engine.UrlParser, g: PolicyGroup, host: string, path: string,
      method_: string, upstream: View, i: nat)
    requires Engine.Selected(parse, g, host, i) && g.defaultAction == ""
    requires forall k :: 0 <= k < |g.policies[i].rules| ==> !Matcher.Fires(g.policies[i].rules[k], path, method_)
    ensures VerdictFor(codec, parse, Success(g), host, path, method_, false, upstream) == Refuse(403, "access denied by policy")
  {
    Engine.ResolveExact(parse, g, host);
    Matcher.GovernsExact(g.policies[i].rules, path, method_, None);
  }

  // ---------- what reaches the client ----------

  /**
   A refused response: literal status and text, and a body that decodes to the error message and nothing else,
   so that nothing of the upstream body, status or length is left.
   */
  lemma RefusedResponse(codec: Codec, ctx: Context, passthrough: bool, upstream: View, other: View)
    requires Faithful(codec)
    requires Decide(codec, ctx, passthrough, upstream).Refuse?
    requires codec.encode(Obj(map["error" := Scalar(Text(Decide(codec, ctx, passthrough, upstream).message))])).Some?
    ensures var verdict := Decide(codec, ctx, passthrough, upstream);
            var out := Deliver(codec, upstream, verdict);
            && ((out.status == 403 && out.statusText == "Forbidden") || (out.status == 500 && out.statusText == "Internal Server Error"))
            && out.status == verdict.code
            && out.body.Readable?
            && codec.decode(out.body.bytes) == Some(Obj(map["error" := Scalar(Text(verdict.message))]))
            && out.contentLength == |out.body.bytes|
            && out.headers == upstream.headers["Content-Type" := "application/json"]["Content-Length" := Decimal(|out.body.bytes|)]
            && (other.headers == upstream.headers ==> Deliver(codec, other, verdict) == out)
  {
  }

  /** If the error cannot be encoded, which `json.Marshal` of a string map never reports, the body is empty. */
  lemma RefusedUnencoded(codec: Codec, upstream: View, code: int, message: string)
    requires codec.encode(Obj(map["error" := Scalar(Text(message))])).None?
    ensures var out := Deliver(codec, upstream, Refuse(code, message)); out.body == Readable("") && out.contentLength == 0
  {
  }

  /** The only leaf of a refused response is its message: no leaf of the upstream body gets through. */
  lemma RefusalHidesLeaves(codec: Codec, upstream: View, code: int, message: string, p: seq<Step>, v: Value)
    requires Faithful(codec) && codec.encode(Obj(map["error" := Scalar(Text(message))])).Some?
    ensures var out := Deliver(codec, upstream, Refuse(code, message));
            && out.body.Readable? && codec.decode(out.body.bytes).Some?
            && Count(codec.decode(out.body.bytes).value, p, v) == if p == [Key("error")] && v == Text(message) then 1 else 0
  {
    var doc := Obj(map["error" := Scalar(Text(message))]);
    assert codec.decode(codec.encode(doc).value) == Some(doc);
    if p != [] && p[0] == Key("error") {
      assert Count(doc, p, v) == Count(Scalar(Text(message)), p[1..], v);
      assert p == [Key("error")] <==> p[1..] == [];
    }
  }

  /** A response that is not refused keeps its status, and all its headers but the length of a rewritten body. */
  lemma DeliveredOtherwise(codec: Codec, upstream: View, verdict: Verdict)
    requires !verdict.Refuse?
    ensures var out := Deliver(codec, upstream, verdict);
            && out.status == upstream.status && out.statusText == upstream.statusText
            && (verdict.Pass? ==> out == upstream)
            && (verdict.Rewrite? ==>
                  && out.body == Readable(verdict.bytes) && out.contentLength == |verdict.bytes|
                  && out.headers == upstream.headers["Content-Length" := Decimal(|verdict.bytes|)])
  {
  }

  predicate LengthsAgree(v: View) {
    && v.body.Readable?
    && v.contentLength == |v.body.bytes|
    && CONTENT_LENGTH in v.headers && v.headers[CONTENT_LENGTH] == Decimal(|v.body.bytes|)
  }

  /** Whatever is rewritten carries its own length, three times over. */
  lemma RewritesAgreeOnLength(codec: Codec, upstream: View, verdict: Verdict)
    requires !verdict.Pass?
    ensures LengthsAgree(Deliver(codec, upstream, verdict))
  {
  }

  ghost predicate Faithful(codec: Codec) {
    forall j, bytes :: codec.encode(j) == Some(bytes) ==> codec.decode(bytes) == Some(j)
  }

  /**
   A rewritten response decodes to a document with exactly those leaves of the upstream document that the
   filter of the first matching rule lets through.
   */
  lemma DeliveredLeaves(codec: Codec, parse: Engine.UrlParser, group: Result<PolicyGroup>, host: string, path: string,
      method_: string, passthrough: bool, upstream: View) returns (before: Json, after: Json)
    requires Faithful(codec)
    requires VerdictFor(codec, parse, group, host, path, method_, passthrough, upstream).Rewrite?
    ensures var verdict := VerdictFor(codec, parse, group, host, path, method_, passthrough, upstream);
            var f := FilterOn(parse, group, host, path, method_);
            && f.Some? && upstream.body.Readable?
            && codec.decode(upstream.body.bytes) == Some(before)
            && Deliver(codec, upstream, verdict).body == Readable(verdict.bytes)
            && codec.decode(verdict.bytes) == Some(after)
            && (forall p, v :: Count(after, p, v) == if Filter.Lets(f.value, p) then Count(before, p, v) else 0)
  {
    var f := FilterOn(parse, group, host, path, method_).value;
    before := codec.decode(upstream.body.bytes).value;
    after := Filter.Filtered(before, f);
    forall p, v ensures Count(after, p, v) == if Filter.Lets(f, p) then Count(before, p, v) else 0 {
      Filter.FilteredLeaves(before, f, p, v);
    }
  }

  /** A second proxy with the same configuration leaves alone what the first one passed on. */
  lemma SecondProxyAddsNothing(codec: Codec, ctx: Context, passthrough: bool, upstream: View)
    requires Faithful(codec)
    requires !Decide(codec, ctx, passthrough, upstream).Refuse?
    ensures var once := Deliver(codec, upstream, Decide(codec, ctx, passthrough, upstream));
            Deliver(codec, once, Decide(codec, ctx, passthrough, once)) == once
  {
    var verdict := Decide(codec, ctx, passthrough, upstream);
    if verdict.Rewrite? {
      var once := Deliver(codec, upstream, verdict);
      var f := FilterFor(ctx.policyData.value, ctx.path, ctx.method_).value;
      var before := codec.decode(upstream.body.bytes).value;
      Filter.FilteredTwice(before, f);
      assert codec.decode(verdict.bytes) == Some(Filter.Filtered(before, f));
      assert DeclaresJson(once) == DeclaresJson(upstream);
      assert FilteredBytes(codec, f, verdict.bytes) == Success(verdict.bytes);
      assert once.headers[CONTENT_LENGTH := Decimal(|verdict.bytes|)] == once.headers;
    }
  }

  function WithoutRule(data: PolicyData, k: nat): PolicyData
    requires k < |data.policy.rules|
  {
    data.(policy := data.policy.(rules := data.policy.rules[..k] + data.policy.rules[k + 1..]))
  }

  /** The verdict depends on the rules only through the one that is found. */
  lemma DecidedByRule(codec: Codec, a: PolicyData, b: PolicyData, path: string, method_: string, passthrough: bool, upstream: View)
    requires a.defaultAction == b.defaultAction
    requires Matcher.MatchingRule(a.policy.rules, path, method_) == Matcher.MatchingRule(b.policy.rules, path, method_)
    ensures Decide(codec, RequestContext(Some(a), path, method_), passthrough, upstream)
         == Decide(codec, RequestContext(Some(b), path, method_), passthrough, upstream)
  {
  }

  /** Deleting a rule that an earlier one covers changes no verdict. */
  lemma CoveredRuleIrrelevant(codec: Codec, data: PolicyData, j: nat, k: nat, path: string, method_: string, passthrough: bool, upstream: View)
    requires j < k < |data.policy.rules| && Matcher.Covers(data.policy.rules[j], data.policy.rules[k])
    ensures Decide(codec, RequestContext(Some(WithoutRule(data, k)), path, method_), passthrough, upstream)
         == Decide(codec, RequestContext(Some(data), path, method_), passthrough, upstream)
  {
    Matcher.DeadRuleRemoval(data.policy.rules, j, k, path, method_);
    DecidedByRule(codec, WithoutRule(data, k), data, path, method_, passthrough, upstream);
  }
}
