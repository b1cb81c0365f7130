/** Policies as the loaders deliver them. */
module Api {
  import opened Wrappers

  const FILTER_INCLUDE := "include_fields"

  /** Every filter type other than `include_fields` excludes. */
  datatype ResponseFilter = ResponseFilter(kind: string, fields: seq<string>)

  /** An empty method stands for all methods. */
  datatype PolicyRule = PolicyRule(route: string, method_: string, action: string, responseFilter: Option<ResponseFilter>)

  datatype Policy = Policy(
    baseUrl: string,
    upstreamToken: string,
    upstreamTokenType: string,
    upstreamHeaderString: string,
    rules: seq<PolicyRule>)

  datatype HostEntry = HostEntry(host: string, scheme: string)

  datatype PolicyGroup = PolicyGroup(version: string, policies: seq<Policy>, defaultAction: string)

  /** The policy selected for one host, with the default action of its group. */
  datatype PolicyData = PolicyData(policy: Policy, defaultAction: string)
}
