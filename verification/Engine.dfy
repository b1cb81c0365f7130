/** From a token and a host to a policy. */
module Engine {
  import opened Wrappers
  import opened GoStrings
  import opened Api

  datatype Url = Url(scheme: string, host: string)

  /** `url.Parse`, which is not part of this model. */
  type UrlParser = string -> Option<Url>

  function ExtractHost(parse: UrlParser, baseUrl: string): Option<string> {
    match parse(baseUrl)
    case None => None
    case Some(u) => if u.host == "" then None else Some(u.host)
  }

  predicate ServesHost(parse: UrlParser, policy: Policy, host: string) {
    var h := ExtractHost(parse, policy.baseUrl);
    h.Some? && Lower(h.value) == host
  }

  /** A policy serves a host if its base URL has that host up to case; URLs without a host serve none. */
  lemma ServesExact(parse: UrlParser, policies: seq<Policy>, host: string)
    ensures forall i :: 0 <= i < |policies| ==>
      var url := parse(policies[i].baseUrl);
      ServesHost(parse, policies[i], host) <==> url.Some? && url.value.host != "" && Lower(url.value.host) == host
  {
  }

  /** The first policy for a host; policies without a readable host are passed over. */
  function PolicyFor(parse: UrlParser, policies: seq<Policy>, host: string): (r: Option<nat>)
    ensures r.Some? ==> r.value < |policies| && ServesHost(parse, policies[r.value], host)
                        && forall j :: 0 <= j < r.value ==> !ServesHost(parse, policies[j], host)
    ensures r.None? ==> forall j :: 0 <= j < |policies| ==> !ServesHost(parse, policies[j], host)
  {
    if policies == [] then None
    else if ServesHost(parse, policies[0], host) then Some(0)
    else
      match PolicyFor(parse, policies[1..], host)
      case None => None
      case Some(i) => Some(i + 1)
  }

  /** Policy `i` is the first of the group that serves the requested host. */
  ghost predicate Selected(parse: UrlParser, g: PolicyGroup, reqHost: string, i: nat) {
    var host := Lower(TrimSpace(reqHost));
    && i < |g.policies| && ServesHost(parse, g.policies[i], host)
    && forall j :: 0 <= j < i ==> !ServesHost(parse, g.policies[j], host)
  }

  /** What the engine answers for a loaded group. */
  function Resolve(parse: UrlParser, group: Result<PolicyGroup>, host: string): Option<PolicyData> {
    match group
    case Failure(_) => None
    case Success(g) =>
      match PolicyFor(parse, g.policies, Lower(TrimSpace(host)))
      case None => None
      case Some(i) => Some(PolicyData(g.policies[i], g.defaultAction))
  }

  /** The engine answers with policy `i` exactly when it is the selected one, and not at all when no policy serves the host. */
  lemma ResolveExact(parse: UrlParser, g: PolicyGroup, reqHost: string)
    ensures forall i: nat :: Selected(parse, g, reqHost, i) ==>
      Resolve(parse, Success(g), reqHost) == Some(PolicyData(g.policies[i], g.defaultAction))
    ensures Resolve(parse, Success(g), reqHost).Some? ==> exists i: nat :: Selected(parse, g, reqHost, i)
  {
    match PolicyFor(parse, g.policies, Lower(TrimSpace(reqHost)))
    case None =>
    case Some(k) =>
      assert Selected(parse, g, reqHost, k);
      forall i: nat | Selected(parse, g, reqHost, i) ensures i == k {
      }
  }

  method GetPolicyData(parse: UrlParser, group: Result<PolicyGroup>, reqHost: string)
    returns (r: Option<PolicyData>)
    ensures r == Resolve(parse, group, reqHost)
    ensures r.Some? ==>
      group.Success? &&
      exists i :: 0 <= i < |group.value.policies| &&
        r == Some(PolicyData(group.value.policies[i], group.value.defaultAction)) &&
        var url := parse(group.value.policies[i].baseUrl);
        url.Some? && url.value.host != "" && Lower(url.value.host) == Lower(TrimSpace(reqHost)) &&
        forall j :: 0 <= j < i ==>
          var other := parse(group.value.policies[j].baseUrl);
          other.Some? && other.value.host != "" ==> Lower(other.value.host) != Lower(TrimSpace(reqHost))
    ensures r.None? && group.Success? ==> forall i :: 0 <= i < |group.value.policies| ==>
      var url := parse(group.value.policies[i].baseUrl);
      url.Some? && url.value.host != "" ==> Lower(url.value.host) != Lower(TrimSpace(reqHost))
  {
    if group.Success? {
      ServesExact(parse, group.value.policies, Lower(TrimSpace(reqHost)));
    }
    if group.Failure? {
      return None;
    }
    var groupData := group.value;
    var host := Lower(TrimSpace(reqHost));
    for i := 0 to |groupData.policies|
      invariant forall j :: 0 <= j < i ==> !ServesHost(parse, groupData.policies[j], host)
    {
      var policyHost := ExtractHost(parse, groupData.policies[i].baseUrl);
      if policyHost.None? {
        continue;
      }
      if Lower(policyHost.value) == host {
        return Some(PolicyData(groupData.policies[i], groupData.defaultAction));
      }
    }
    return None;
  }
}
