/** One exchange through the proxy, from the policy files to the delivered response. */
module Proxy {
  import opened Wrappers
  import opened GoStrings
  import opened Api
  import opened Interceptor
  import opened PolicyFiles
  import opened Verdicts
  import Engine
  import Matcher
  import Filter

  /** What the proxy decides for a response, given the files it was started with. */
  function FileVerdict(codec: Codec, parse: Engine.UrlParser, files: seq<Result<GroupFile>>, env: Environment, token: string,
      host: string, path: string, method_: string, passthrough: bool, upstream: View): Verdict
  {
    VerdictFor(codec, parse, GroupFor(files, env, token), host, path, method_, passthrough, upstream)
  }

  /** The delivered response is a function of the files, the environment, the request and the upstream response. */
  method Exchange(api: FileApi, codec: Codec, token: string, host: string, path: string, method_: string, passthrough: bool,
      resp: Response)
    requires api.Valid()
    modifies resp
    ensures var upstream := old(resp.Contents());
            resp.Contents() == Deliver(codec, upstream,
              FileVerdict(codec, api.parse, api.files, api.env, token, host, path, method_, passthrough, upstream))
  {
    var group := api.GetPolicyData(token);
    Intercept(codec, api.parse, group, host, path, method_, passthrough, resp);
  }

  /** The response is refused for its token exactly if no loaded policy has both this token and this host. */
  lemma TokenRefusedExact(codec: Codec, parse: Engine.UrlParser, files: seq<Result<GroupFile>>, env: Environment, token: string,
      host: string, path: string, method_: string, passthrough: bool, upstream: View)
    requires Loadable(files, env, parse)
    ensures FileVerdict(codec, parse, files, env, token, host, path, method_, passthrough, upstream)
              == Refuse(403, "invalid or missing token")
       <==> forall n: nat, i: nat :: n < |files| && files[n].value.localToken == token && i < |files[n].value.policies| ==>
              var url := parse(files[n].value.policies[i].baseUrl);
              url.Some? && url.value.host != "" ==> Lower(url.value.host) != Lower(TrimSpace(host))
  {
    var group := GroupFor(files, env, token);
    GroupForExact(files, env, parse, token);
    RefusedWithoutPolicy(codec, parse, group, host, path, method_, passthrough, upstream);
    if n: nat :| n < |files| && files[n].value.localToken == token {
      Unserved(parse, files[n].value, env, host);
      assert forall m: nat :: m < |files| && files[m].value.localToken == token ==> m == n;
    }
  }

  /** No policy of the file is selected exactly if none serves the host. */
  lemma Unserved(parse: Engine.UrlParser, g: GroupFile, env: Environment, host: string)
    ensures (forall i: nat :: !Engine.Selected(parse, LoadedGroup(g, env), host, i))
       <==> (forall i: nat :: i < |g.policies| ==>
               var url := parse(g.policies[i].baseUrl);
               url.Some? && url.value.host != "" ==> Lower(url.value.host) != Lower(TrimSpace(host)))
  {
    var loaded := LoadedGroup(g, env);
    Engine.ServesExact(parse, loaded.policies, Lower(TrimSpace(host)));
    assert forall i :: 0 <= i < |g.policies| ==> loaded.policies[i] == LoadedPolicy(g.policies[i], env);
    var first := Engine.PolicyFor(parse, loaded.policies, Lower(TrimSpace(host)));
    if first.Some? {
      assert Engine.Selected(parse, loaded, host, first.value);
    }
  }

  /**
   With the file of the token, its first policy for the host, and the first rule of that policy which fires, or
   none: exactly when the response passes unchanged, is rewritten (and to what), or is refused as forbidden.
   */
  lemma FileVerdictExact(codec: Codec, parse: Engine.UrlParser, files: seq<Result<GroupFile>>, env: Environment, n: nat,
      host: string, path: string, method_: string, passthrough: bool, upstream: View, i: nat, rule: Option<PolicyRule>)
    requires Loadable(files, env, parse) && n < |files|
    requires Engine.Selected(parse, LoadedGroup(files[n].value, env), host, i)
    requires Matcher.Governs(files[n].value.policies[i].rules, path, method_, rule)
    ensures var verdict := FileVerdict(codec, parse, files, env, files[n].value.localToken, host, path, method_, passthrough, upstream);
            var allowed := if rule.Some? then rule.value.action != "deny" else passthrough;
            var f := if rule.Some? then rule.value.responseFilter else None;
            var json := "Content-Type" in upstream.headers
                        && exists i :: 0 <= i <= |upstream.headers["Content-Type"]|
                             && "application/json" <= Lower(upstream.headers["Content-Type"])[i..];
            && (verdict.Pass? <==> allowed && (f.None? || (json && upstream.body.Absent?)))
            && (verdict.Rewrite? <==> allowed && f.Some? && json && upstream.body.Readable?
                                      && codec.decode(upstream.body.bytes).Some?
                                      && codec.encode(Filter.Filtered(codec.decode(upstream.body.bytes).value, f.value)).Some?)
            && (verdict.Rewrite? ==>
                  codec.encode(Filter.Filtered(codec.decode(upstream.body.bytes).value, f.value)) == Some(verdict.bytes))
            && (verdict.Refuse? && verdict.code == 403 <==> !allowed || (f.Some? && !json))
            && (!allowed ==> verdict == Refuse(403, "access denied by policy"))
  {
    GroupForExact(files, env, parse, files[n].value.localToken);
    VerdictExact(codec, parse, LoadedGroup(files[n].value, env), host, path, method_, passthrough, upstream, i, rule);
  }
}
