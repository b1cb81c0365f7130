/** Loading policy group files, and how hosts, allowlist and engine fit together afterwards. */
module PolicyFiles {
  import opened Wrappers
  import opened GoStrings
  import opened Api
  import opened Engine
  import Allowlist

  datatype PolicyFile = PolicyFile(
    baseUrl: string,
    localUpstreamTokenKey: string,
    upstreamTokenType: string,
    upstreamHeaderString: string,
    rules: seq<PolicyRule>)

  datatype GroupFile = GroupFile(version: string, localToken: string, policies: seq<PolicyFile>)

  type Environment = string -> string

  // ---------- what can be loaded, and as what ----------

  predicate ValidGroup(g: GroupFile) {
    g.version != "" && g.localToken != "" && g.policies != [] && forall i :: 0 <= i < |g.policies| ==> g.policies[i].baseUrl != ""
  }

  predicate PolicyLoadable(p: PolicyFile, env: Environment, parse: UrlParser) {
    ExtractHost(parse, p.baseUrl).Some? && (p.localUpstreamTokenKey != "" ==> env(p.localUpstreamTokenKey) != "")
  }

  predicate PoliciesLoadable(ps: seq<PolicyFile>, env: Environment, parse: UrlParser) {
    forall i :: 0 <= i < |ps| ==> PolicyLoadable(ps[i], env, parse)
  }

  predicate GroupLoadable(g: GroupFile, env: Environment, parse: UrlParser) {
    ValidGroup(g) && PoliciesLoadable(g.policies, env, parse)
  }

  /** Every file reads and is valid, and no two of them share a token. */
  predicate Loadable(files: seq<Result<GroupFile>>, env: Environment, parse: UrlParser) {
    && (forall i :: 0 <= i < |files| ==> files[i].Success? && GroupLoadable(files[i].value, env, parse))
    && (forall i, j :: 0 <= i < j < |files| ==> files[i].value.localToken != files[j].value.localToken)
  }

  function LoadedPolicy(p: PolicyFile, env: Environment): Policy {
    Policy(p.baseUrl, if p.localUpstreamTokenKey == "" then "" else env(p.localUpstreamTokenKey),
           p.upstreamTokenType, p.upstreamHeaderString, p.rules)
  }

  function LoadedPolicies(ps: seq<PolicyFile>, env: Environment): seq<Policy> {
    seq(|ps|, i requires 0 <= i < |ps| => LoadedPolicy(ps[i], env))
  }

  function LoadedGroup(g: GroupFile, env: Environment): PolicyGroup {
    PolicyGroup(g.version, LoadedPolicies(g.policies, env), "")
  }

  /** Host and scheme of a base URL; a missing scheme means https. */
  function EntryOf(parse: UrlParser, baseUrl: string): HostEntry {
    match parse(baseUrl)
    case None => HostEntry("", "https")
    case Some(u) => HostEntry(u.host, if u.scheme == "" then "https" else u.scheme)
  }

  function EntriesOf(parse: UrlParser, ps: seq<PolicyFile>): seq<HostEntry> {
    seq(|ps|, i requires 0 <= i < |ps| => EntryOf(parse, ps[i].baseUrl))
  }

  /** All policy hosts, file by file. */
  function AllEntries(files: seq<Result<GroupFile>>, parse: UrlParser): seq<HostEntry> {
    if files == [] then []
    else
      var last := files[|files| - 1];
      AllEntries(files[..|files| - 1], parse) + if last.Success? then EntriesOf(parse, last.value.policies) else []
  }

  predicate HasHost(entries: seq<HostEntry>, host: string) {
    exists i :: 0 <= i < |entries| && entries[i].host == host
  }

  /** The entries whose host did not occur before. */
  function FirstSeen(entries: seq<HostEntry>): seq<HostEntry> {
    if entries == [] then []
    else
      var front, last := entries[..|entries| - 1], entries[|entries| - 1];
      if HasHost(front, last.host) then FirstSeen(front) else FirstSeen(front) + [last]
  }

  /** `at[n]` is where entry `n` of the list comes from: in order, and no earlier entry has its host. */
  ghost predicate FirstOccurrences(hosts: seq<HostEntry>, entries: seq<HostEntry>, at: seq<nat>) {
    && |at| == |hosts|
    && (forall m, n :: 0 <= m < n < |at| ==> at[m] < at[n])
    && (forall n :: 0 <= n < |at| ==>
          at[n] < |entries| && entries[at[n]] == hosts[n] && !HasHost(entries[..at[n]], hosts[n].host))
  }

  lemma HasHostSnoc(entries: seq<HostEntry>, last: HostEntry, host: string)
    ensures HasHost(entries + [last], host) <==> HasHost(entries, host) || host == last.host
  {
    var more := entries + [last];
    assert more[|entries|] == last;
    assert forall i :: 0 <= i < |entries| ==> more[i] == entries[i];
  }

  lemma {:induction false} FirstSeenHosts(entries: seq<HostEntry>, host: string)
    ensures HasHost(FirstSeen(entries), host) <==> HasHost(entries, host)
  {
    if entries != [] {
      var front, last := entries[..|entries| - 1], entries[|entries| - 1];
      assert entries == front + [last];
      FirstSeenHosts(front, host);
      HasHostSnoc(front, last, host);
      HasHostSnoc(FirstSeen(front), last, host);
    }
  }

  lemma {:induction false} FirstPositions(entries: seq<HostEntry>) returns (at: seq<nat>)
    ensures FirstOccurrences(FirstSeen(entries), entries, at)
  {
    if entries == [] {
      at := [];
    } else {
      var k := |entries| - 1;
      var front, last := entries[..k], entries[k];
      at := FirstPositions(front);
      PositionsSnoc(FirstSeen(front), front, at, last);
      assert entries == front + [last];
      if !HasHost(front, last.host) {
        at := at + [k];
      }
    }
  }

  lemma PositionsSnoc(hosts: seq<HostEntry>, front: seq<HostEntry>, at: seq<nat>, last: HostEntry)
    requires FirstOccurrences(hosts, front, at)
    ensures FirstOccurrences(hosts, front + [last], at)
    ensures !HasHost(front, last.host) ==> FirstOccurrences(hosts + [last], front + [last], at + [|front|])
  {
    assert forall i :: 0 <= i <= |front| ==> (front + [last])[..i] == front[..i];
  }

  lemma {:induction false} FirstSeenDistinct(entries: seq<HostEntry>)
    ensures forall m, n :: 0 <= m < n < |FirstSeen(entries)| ==> FirstSeen(entries)[m].host != FirstSeen(entries)[n].host
  {
    if entries != [] {
      var front, last := entries[..|entries| - 1], entries[|entries| - 1];
      FirstSeenDistinct(front);
      FirstSeenHosts(front, last.host);
    }
  }

  /** The host list has every host of the entries, in the order and with the scheme of its first occurrence, and once. */
  lemma FirstSeenMeans(entries: seq<HostEntry>) returns (at: seq<nat>)
    ensures |at| == |FirstSeen(entries)| && forall m, n :: 0 <= m < n < |at| ==> at[m] < at[n]
    ensures forall n :: 0 <= n < |at| ==>
      && at[n] < |entries| && entries[at[n]] == FirstSeen(entries)[n]
      && forall i :: 0 <= i < at[n] ==> entries[i].host != FirstSeen(entries)[n].host
    ensures forall i :: 0 <= i < |entries| ==> HasHost(FirstSeen(entries), entries[i].host)
    ensures forall m, n :: 0 <= m < n < |FirstSeen(entries)| ==> FirstSeen(entries)[m].host != FirstSeen(entries)[n].host
  {
    at := FirstPositions(entries);
    FirstSeenDistinct(entries);
    forall i | 0 <= i < |entries| ensures HasHost(FirstSeen(entries), entries[i].host) {
      FirstSeenHosts(entries, entries[i].host);
    }
    forall n | 0 <= n < |at| ensures forall i :: 0 <= i < at[n] ==> entries[i].host != FirstSeen(entries)[n].host {
      assert forall i :: 0 <= i < at[n] ==> entries[..at[n]][i] == entries[i];
    }
  }

  // ---------- the same on the contents of the files ----------

  /**
   When files can be loaded: each has been read, has a version, a token of its own and a policy, and each of
   its policies has a base URL with a host and, if it names an environment variable, a value for it.
   */
  lemma LoadableExact(files: seq<Result<GroupFile>>, env: Environment, parse: UrlParser)
    ensures Loadable(files, env, parse) <==>
      && (forall n :: 0 <= n < |files| ==>
            && files[n].Success? && files[n].value.version != "" && files[n].value.localToken != ""
            && files[n].value.policies != []
            && forall i :: 0 <= i < |files[n].value.policies| ==>
                 var p := files[n].value.policies[i];
                 && p.baseUrl != "" && parse(p.baseUrl).Some? && parse(p.baseUrl).value.host != ""
                 && (p.localUpstreamTokenKey != "" ==> env(p.localUpstreamTokenKey) != ""))
      && (forall m, n :: 0 <= m < n < |files| ==> files[m].value.localToken != files[n].value.localToken)
  {
    forall n | 0 <= n < |files| && files[n].Success? ensures
      GroupLoadable(files[n].value, env, parse) <==>
        && files[n].value.version != "" && files[n].value.localToken != "" && files[n].value.policies != []
        && forall i :: 0 <= i < |files[n].value.policies| ==>
             var p := files[n].value.policies[i];
             && p.baseUrl != "" && parse(p.baseUrl).Some? && parse(p.baseUrl).value.host != ""
             && (p.localUpstreamTokenKey != "" ==> env(p.localUpstreamTokenKey) != "")
    {
      GroupExact(files[n].value, env, parse);
    }
  }

  lemma GroupExact(g: GroupFile, env: Environment, parse: UrlParser)
    ensures GroupLoadable(g, env, parse) <==>
      && g.version != "" && g.localToken != "" && g.policies != []
      && forall i :: 0 <= i < |g.policies| ==>
           var p := g.policies[i];
           && p.baseUrl != "" && parse(p.baseUrl).Some? && parse(p.baseUrl).value.host != ""
           && (p.localUpstreamTokenKey != "" ==> env(p.localUpstreamTokenKey) != "")
  {
    if GroupLoadable(g, env, parse) {
      forall i | 0 <= i < |g.policies| ensures PolicyLoadable(g.policies[i], env, parse) && g.policies[i].baseUrl != "" {
      }
    }
  }

  /** What a file becomes: all its policies in order, each with the token that the environment has for it. */
  lemma LoadedGroupExact(g: GroupFile, env: Environment)
    ensures var loaded := LoadedGroup(g, env);
            && loaded.version == g.version && loaded.defaultAction == "" && |loaded.policies| == |g.policies|
            && forall i :: 0 <= i < |g.policies| ==>
                 var p, from := loaded.policies[i], g.policies[i];
                 && p.baseUrl == from.baseUrl && p.rules == from.rules
                 && p.upstreamTokenType == from.upstreamTokenType && p.upstreamHeaderString == from.upstreamHeaderString
                 && p.upstreamToken == (if from.localUpstreamTokenKey == "" then "" else env(from.localUpstreamTokenKey))
  {
  }

  /** How many policies the files hold. */
  function PolicyCount(files: seq<Result<GroupFile>>): nat {
    if files == [] then 0
    else PolicyCount(files[..|files| - 1]) + if files[|files| - 1].Success? then |files[|files| - 1].value.policies| else 0
  }

  /** Policy `i` of file `n` is listed after all policies of earlier files and `i` of its own, with its host and scheme. */
  lemma EntryAt(files: seq<Result<GroupFile>>, parse: UrlParser, n: nat, i: nat)
    requires n < |files| && files[n].Success? && i < |files[n].value.policies|
    requires parse(files[n].value.policies[i].baseUrl).Some?
    ensures |AllEntries(files, parse)| == PolicyCount(files)
    ensures PolicyCount(files[..n]) + i < |AllEntries(files, parse)|
    ensures var entry, url := AllEntries(files, parse)[PolicyCount(files[..n]) + i], parse(files[n].value.policies[i].baseUrl).value;
            entry.host == url.host && entry.scheme == if url.scheme == "" then "https" else url.scheme
  {
    EntryCount(files, parse);
    EntryPosition(files, parse, n, i);
  }

  lemma {:induction false} EntryPosition(files: seq<Result<GroupFile>>, parse: UrlParser, n: nat, i: nat)
    requires n < |files| && files[n].Success? && i < |files[n].value.policies|
    ensures PolicyCount(files[..n]) + i < |AllEntries(files, parse)|
    ensures AllEntries(files, parse)[PolicyCount(files[..n]) + i] == EntryOf(parse, files[n].value.policies[i].baseUrl)
  {
    var k := |files| - 1;
    EntriesLast(files, parse);
    if n < k {
      EntryPosition(files[..k], parse, n, i);
      assert files[..k][..n] == files[..n];
    } else {
      EntryCount(files[..k], parse);
    }
  }

  lemma EntriesLast(files: seq<Result<GroupFile>>, parse: UrlParser)
    requires files != []
    ensures var front, all := AllEntries(files[..|files| - 1], parse), AllEntries(files, parse);
            && front <= all
            && (files[|files| - 1].Success? ==>
                  var ps := files[|files| - 1].value.policies;
                  |all| == |front| + |ps| && forall i :: 0 <= i < |ps| ==> all[|front| + i] == EntryOf(parse, ps[i].baseUrl))
  {
  }

  lemma {:induction false} EntryCount(files: seq<Result<GroupFile>>, parse: UrlParser)
    ensures |AllEntries(files, parse)| == PolicyCount(files)
  {
    if files != [] {
      EntryCount(files[..|files| - 1], parse);
    }
  }

  // ---------- the loader ----------

  class FileApi {
    var groups: map<string, PolicyGroup>
    var hosts: seq<HostEntry>
    ghost var files: seq<Result<GroupFile>> // what has been loaded
    const env: Environment
    const parse: UrlParser

    /** The state stands for the files. */
    ghost predicate Valid()
      reads this
    {
      && Loadable(files, env, parse)
      && hosts == FirstSeen(AllEntries(files, parse))
      && GroupsOf(groups, files, env)
    }

    constructor (env: Environment, parse: UrlParser)
      ensures Valid() && files == [] && this.env == env && this.parse == parse
    {
      groups, hosts, files := map[], [], [];
      this.env, this.parse := env, parse;
    }

    /** The group of the one file with this token, if there is one. */
    method GetPolicyData(token: string) returns (r: Result<PolicyGroup>)
      requires Valid()
      ensures r.Success? <==> exists n :: 0 <= n < |files| && files[n].value.localToken == token
      ensures forall n :: 0 <= n < |files| && files[n].value.localToken == token ==> r == Success(LoadedGroup(files[n].value, env))
      ensures r == GroupFor(files, env, token)
    {
      GroupForExact(files, env, parse, token);
      if token in groups {
        return Success(groups[token]);
      }
      return Failure("no policy group found for token");
    }

    /** One policy: its host is listed unless it was seen before. */
    method AddPolicy(pf: PolicyFile, seen: set<string>, ghost entries: seq<HostEntry>)
      returns (policy: Option<Policy>, seenHosts: set<string>)
      requires hosts == FirstSeen(entries) && seen == HostNames(entries)
      modifies this`hosts
      ensures policy.Some? <==> PolicyLoadable(pf, env, parse)
      ensures policy.Some? ==>
        && policy.value == LoadedPolicy(pf, env)
        && hosts == FirstSeen(entries + [EntryOf(parse, pf.baseUrl)])
        && seenHosts == HostNames(entries + [EntryOf(parse, pf.baseUrl)])
    {
      seenHosts := seen;
      var host := ExtractHost(parse, pf.baseUrl);
      if host.None? {
        return None, seenHosts;
      }
      var entry := EntryOf(parse, pf.baseUrl);
      NextHost(entries, entry);
      if host.value !in seenHosts {
        seenHosts := seenHosts + {host.value};
        hosts := hosts + [entry];
      }
      var upstreamToken := "";
      if pf.localUpstreamTokenKey != "" {
        upstreamToken := env(pf.localUpstreamTokenKey);
        if upstreamToken == "" {
          return None, seenHosts;
        }
      }
      policy := Some(Policy(pf.baseUrl, upstreamToken, pf.upstreamTokenType, pf.upstreamHeaderString, pf.rules));
    }

    /** The policies of one file; false when one of them cannot be loaded. */
    method AddPolicies(g: GroupFile, seen: set<string>, ghost entries: seq<HostEntry>)
      returns (ok: bool, policies: seq<Policy>, seenHosts: set<string>)
      requires hosts == FirstSeen(entries) && seen == HostNames(entries)
      modifies this`hosts
      ensures ok <==> PoliciesLoadable(g.policies, env, parse)
      ensures ok ==> policies == LoadedPolicies(g.policies, env)
      ensures ok ==> hosts == FirstSeen(entries + EntriesOf(parse, g.policies))
                     && seenHosts == HostNames(entries + EntriesOf(parse, g.policies))
    {
      policies, seenHosts := [], seen;
      PoliciesStart(g.policies, env, parse, entries);
      PoliciesEnd(g.policies, env, parse, entries);
      ghost var all := entries;
      for i := 0 to |g.policies|
        invariant forall j :: 0 <= j < i ==> PolicyLoadable(g.policies[j], env, parse)
        invariant SoFar(g.policies, env, parse, i, entries, policies, all)
        invariant hosts == FirstSeen(all) && seenHosts == HostNames(all)
      {
        var policy;
        policy, seenHosts := AddPolicy(g.policies[i], seenHosts, all);
        if policy.None? {
          return false, policies, seenHosts;
        }
        PoliciesNext(g.policies, env, parse, i, entries, policies, all);
        all := all + [EntryOf(parse, g.policies[i].baseUrl)];
        policies := policies + [policy.value];
      }
      ok := true;
    }

    /** One file: read, valid, with a new token and policies that can be loaded. */
    method AddFile(file: Result<GroupFile>, seen: set<string>) returns (error: Option<string>, seenHosts: set<string>)
      requires Valid() && seen == HostNames(AllEntries(files, parse))
      modifies this
      ensures error.None? <==> Loadable(old(files) + [file], env, parse)
      ensures error.None? ==> Valid() && files == old(files) + [file] && seenHosts == HostNames(AllEntries(files, parse))
    {
      seenHosts := seen;
      ghost var after := files + [file];
      LoadedNext(groups, files, file, after, env, parse);
      if file.Failure? {
        return Some(file.error), seenHosts;
      }
      var pg := file.value;
      if !ValidGroup(pg) {
        return Some("invalid policy group"), seenHosts;
      }
      if pg.localToken in groups {
        return Some("duplicate localToken"), seenHosts;
      }
      var ok, policies;
      ok, policies, seenHosts := AddPolicies(pg, seenHosts, AllEntries(files, parse));
      if !ok {
        return Some("policy cannot be loaded"), seenHosts;
      }
      groups := groups[pg.localToken := PolicyGroup(pg.version, policies, "")];
      files := after;
      return None, seenHosts;
    }
  }

  /** The first `i` policies of a file have been loaded after `entries`. */
  ghost predicate SoFar(ps: seq<PolicyFile>, env: Environment, parse: UrlParser, i: nat, entries: seq<HostEntry>,
      policies: seq<Policy>, all: seq<HostEntry>)
  {
    i <= |ps| && policies == LoadedPolicies(ps[..i], env) && all == entries + EntriesOf(parse, ps[..i])
  }

  lemma PoliciesStart(ps: seq<PolicyFile>, env: Environment, parse: UrlParser, entries: seq<HostEntry>)
    ensures SoFar(ps, env, parse, 0, entries, [], entries)
  {
    assert EntriesOf(parse, ps[..0]) == [];
  }

  lemma PoliciesNext(ps: seq<PolicyFile>, env: Environment, parse: UrlParser, i: nat, entries: seq<HostEntry>,
      policies: seq<Policy>, all: seq<HostEntry>)
    requires i < |ps| && SoFar(ps, env, parse, i, entries, policies, all)
    ensures SoFar(ps, env, parse, i + 1, entries, policies + [LoadedPolicy(ps[i], env)], all + [EntryOf(parse, ps[i].baseUrl)])
  {
    assert EntriesOf(parse, ps[..i + 1]) == EntriesOf(parse, ps[..i]) + [EntryOf(parse, ps[i].baseUrl)];
  }

  lemma PoliciesEnd(ps: seq<PolicyFile>, env: Environment, parse: UrlParser, entries: seq<HostEntry>)
    ensures forall policies, all :: SoFar(ps, env, parse, |ps|, entries, policies, all) ==>
      policies == LoadedPolicies(ps, env) && all == entries + EntriesOf(parse, ps)
  {
    assert ps[..|ps|] == ps;
  }

  function HostNames(entries: seq<HostEntry>): set<string> {
    set i | 0 <= i < |entries| :: entries[i].host
  }

  lemma HostNamesAre(entries: seq<HostEntry>, host: string)
    ensures host in HostNames(entries) <==> HasHost(entries, host)
  {
  }

  lemma NextHost(entries: seq<HostEntry>, entry: HostEntry)
    ensures HostNames(entries + [entry]) == HostNames(entries) + {entry.host}
    ensures FirstSeen(entries + [entry])
         == if entry.host in HostNames(entries) then FirstSeen(entries) else FirstSeen(entries) + [entry]
  {
    var more := entries + [entry];
    assert more[..|entries|] == entries && more[|entries|] == entry;
    HostNamesAre(entries, entry.host);
    forall host ensures host in HostNames(more) <==> host in HostNames(entries) || host == entry.host {
      HostNamesAre(entries, host);
      HostNamesAre(more, host);
      HasHostSnoc(entries, entry, host);
    }
  }

  method New(paths: seq<Result<GroupFile>>, env: Environment, parse: UrlParser) returns (r: Result<FileApi>)
    ensures r.Success? <==> Loadable(paths, env, parse)
    ensures r.Success? ==> fresh(r.value) && r.value.Valid()
    ensures r.Success? ==> r.value.files == paths && r.value.env == env && r.value.parse == parse
  {
    var fa := new FileApi(env, parse);
    var seenHosts: set<string> := {};
    for i := 0 to |paths|
      invariant fresh(fa) && fa.env == env && fa.parse == parse
      invariant fa.Valid() && fa.files == paths[..i]
      invariant seenHosts == HostNames(AllEntries(fa.files, parse))
    {
      var error;
      error, seenHosts := fa.AddFile(paths[i], seenHosts);
      LoadablePrefix(paths, i, env, parse);
      if error.Some? {
        return Failure(error.value);
      }
    }
    assert paths[..|paths|] == paths;
    return Success(fa);
  }

  lemma LoadablePrefix(files: seq<Result<GroupFile>>, n: nat, env: Environment, parse: UrlParser)
    requires n < |files|
    ensures files[..n] + [files[n]] == files[..n + 1]
    ensures Loadable(files, env, parse) ==> Loadable(files[..n + 1], env, parse)
  {
  }

  /** One more file can be loaded if its token is new; then the groups, the hosts and the files grow together. */
  lemma LoadedNext(groups: map<string, PolicyGroup>, before: seq<Result<GroupFile>>, file: Result<GroupFile>,
      after: seq<Result<GroupFile>>, env: Environment, parse: UrlParser)
    requires Loadable(before, env, parse) && GroupsOf(groups, before, env) && after == before + [file]
    ensures Loadable(after, env, parse) <==>
      && file.Success? && ValidGroup(file.value) && file.value.localToken !in groups
      && PoliciesLoadable(file.value.policies, env, parse)
    ensures file.Success? ==>
      AllEntries(after, parse) == AllEntries(before, parse) + EntriesOf(parse, file.value.policies)
    ensures file.Success? && file.value.localToken !in groups ==>
      GroupsOf(groups[file.value.localToken := LoadedGroup(file.value, env)], after, env)
  {
    assert after[|before|] == file;
    if file.Success? {
      EntriesSnoc(before, file, parse);
      if file.value.localToken !in groups {
        GroupsSnoc(groups, before, file.value, env);
        if GroupLoadable(file.value, env, parse) {
          LoadableSnoc(groups, before, file.value, env, parse);
        }
      } else {
        TokenTaken(groups, before, file.value, env, parse);
      }
    }
  }

  lemma TokenTaken(groups: map<string, PolicyGroup>, files: seq<Result<GroupFile>>, last: GroupFile, env: Environment, parse: UrlParser)
    requires GroupsOf(groups, files, env) && last.localToken in groups
    ensures !Loadable(files + [Success(last)], env, parse)
  {
    var more := files + [Success(last)];
    var j :| 0 <= j < |files| && files[j].Success? && files[j].value.localToken == last.localToken;
    assert more[j] == files[j] && more[|files|] == Success(last);
  }

  lemma EntriesSnoc(files: seq<Result<GroupFile>>, last: Result<GroupFile>, parse: UrlParser)
    requires last.Success?
    ensures AllEntries(files + [last], parse) == AllEntries(files, parse) + EntriesOf(parse, last.value.policies)
  {
    assert (files + [last])[..|files|] == files;
  }

  lemma GroupsSnoc(groups: map<string, PolicyGroup>, files: seq<Result<GroupFile>>, last: GroupFile, env: Environment)
    requires GroupsOf(groups, files, env) && last.localToken !in groups
    ensures GroupsOf(groups[last.localToken := LoadedGroup(last, env)], files + [Success(last)], env)
  {
    var more := files + [Success(last)];
    assert more[|files|] == Success(last);
    forall token | token in groups
      ensures exists i :: 0 <= i < |more| && more[i].Success? && more[i].value.localToken == token
    {
      var i :| 0 <= i < |files| && files[i].Success? && files[i].value.localToken == token;
      assert more[i] == files[i];
    }
  }

  lemma LoadableSnoc(groups: map<string, PolicyGroup>, files: seq<Result<GroupFile>>, last: GroupFile, env: Environment, parse: UrlParser)
    requires Loadable(files, env, parse) && GroupsOf(groups, files, env)
    requires GroupLoadable(last, env, parse) && last.localToken !in groups
    ensures Loadable(files + [Success(last)], env, parse)
  {
    var more := files + [Success(last)];
    assert forall i :: 0 <= i < |files| ==> more[i] == files[i];
    assert more[|files|] == Success(last);
  }

  ghost predicate GroupsOf(groups: map<string, PolicyGroup>, files: seq<Result<GroupFile>>, env: Environment) {
    && (forall i :: 0 <= i < |files| && files[i].Success? ==>
          files[i].value.localToken in groups && groups[files[i].value.localToken] == LoadedGroup(files[i].value, env))
    && (forall token :: token in groups ==> exists i :: 0 <= i < |files| && files[i].Success? && files[i].value.localToken == token)
  }

  /** The group of the file with this token. */
  function GroupFor(files: seq<Result<GroupFile>>, env: Environment, token: string): Result<PolicyGroup> {
    if files == [] then Failure("no policy group found for token")
    else if files[0].Success? && files[0].value.localToken == token then Success(LoadedGroup(files[0].value, env))
    else GroupFor(files[1..], env, token)
  }

  /** Tokens are unique, so it is the group of whichever file has the token. */
  lemma {:induction false} GroupForExact(files: seq<Result<GroupFile>>, env: Environment, parse: UrlParser, token: string)
    requires Loadable(files, env, parse)
    ensures forall n :: 0 <= n < |files| && files[n].value.localToken == token ==>
      GroupFor(files, env, token) == Success(LoadedGroup(files[n].value, env))
    ensures (forall n :: 0 <= n < |files| ==> files[n].value.localToken != token) ==>
      GroupFor(files, env, token) == Failure("no policy group found for token")
  {
    if files != [] {
      var rest := files[1..];
      assert forall n :: 0 <= n < |rest| ==> rest[n] == files[n + 1];
      GroupForExact(rest, env, parse, token);
    }
  }

  // ---------- the loaded parts fit together ----------

  lemma {:induction false} EntryListed(files: seq<Result<GroupFile>>, env: Environment, parse: UrlParser, n: nat, i: nat)
    requires Loadable(files, env, parse)
    requires n < |files| && i < |files[n].value.policies|
    ensures HasHost(AllEntries(files, parse), ExtractHost(parse, files[n].value.policies[i].baseUrl).value)
  {
    var k := |files| - 1;
    var front := files[..k];
    var last := EntriesOf(parse, files[k].value.policies);
    var all := AllEntries(files, parse);
    var here := AllEntries(front, parse);
    assert all == here + last;
    var host := ExtractHost(parse, files[n].value.policies[i].baseUrl).value;
    if n < k {
      EntryListed(front, env, parse, n, i);
      var m :| 0 <= m < |here| && here[m].host == host;
      assert all[m].host == host;
    } else {
      assert all[|here| + i].host == host;
    }
  }

  /** The allowlist answers from the host list as it would from all policy hosts. */
  lemma {:induction false} FirstSeenAnswers(entries: seq<HostEntry>, host: string)
    ensures Allowlist.SchemeFor(FirstSeen(entries), host) == Allowlist.SchemeFor(entries, host)
  {
    if entries != [] {
      var front, last := entries[..|entries| - 1], entries[|entries| - 1];
      assert entries == front + [last];
      FirstSeenAnswers(front, host);
      Allowlist.SchemeSnoc(front, last, host);
      Allowlist.SchemeSnoc(FirstSeen(front), last, host);
      if HasHost(front, last.host) {
        var i :| 0 <= i < |front| && front[i].host == last.host;
        assert Allowlist.Settles(front[i], host) == Allowlist.Settles(last, host);
      }
    }
  }

  lemma {:induction false} SchemesPresent(files: seq<Result<GroupFile>>, parse: UrlParser)
    ensures forall i :: 0 <= i < |AllEntries(files, parse)| ==> AllEntries(files, parse)[i].scheme != ""
  {
    if files != [] {
      SchemesPresent(files[..|files| - 1], parse);
    }
  }

  /** `FromEntries` changes nothing in the loaded host list. */
  lemma LoadedSchemesKept(files: seq<Result<GroupFile>>, parse: UrlParser)
    ensures var hosts := FirstSeen(AllEntries(files, parse)); Allowlist.WithSchemes(hosts) == hosts
  {
    var entries := AllEntries(files, parse);
    SchemesPresent(files, parse);
    var at := FirstPositions(entries);
    forall i | 0 <= i < |FirstSeen(entries)| ensures FirstSeen(entries)[i].scheme != "" {
      assert entries[at[i]] == FirstSeen(entries)[i];
    }
  }

  /** A request host that names a loaded host, up to case and outer white space. */
  predicate Names(reqHost: string, host: string) {
    Lower(TrimSpace(reqHost)) == Lower(host)
  }

  lemma NamedIsTrimmed(reqHost: string, host: string)
    requires Names(reqHost, host)
    ensures TrimSpace(host) == host
  {
    TrimSpaceTrims(reqHost);
    LowerTrimmed(TrimSpace(reqHost));
    LowerTrimmed(host);
    TrimSpaceTrims(host);
  }

  lemma NamedIsSettled(entry: HostEntry, reqHost: string)
    requires Names(reqHost, entry.host)
    ensures Allowlist.Settles(entry, Lower(TrimSpace(reqHost)))
  {
    NamedIsTrimmed(reqHost, entry.host);
  }

  /**
   Every policy that was loaded can be reached under every spelling of its host. The allowlist built from the
   loaded hosts answers with the scheme of the first policy, over all files, whose host settles the search; it
   panics only if that host is `*.`. The engine answers with the first policy of the group for that host.
   */
  lemma LoadedHostsAreServed(files: seq<Result<GroupFile>>, env: Environment, parse: UrlParser, n: nat, i: nat, reqHost: string)
    returns (settling: nat, first: nat)
    requires Loadable(files, env, parse)
    requires n < |files| && i < |files[n].value.policies|
    requires Lower(TrimSpace(reqHost)) == Lower(parse(files[n].value.policies[i].baseUrl).value.host)
    ensures var entries, host := AllEntries(files, parse), Lower(TrimSpace(reqHost));
            && settling < |entries| && Allowlist.Settles(entries[settling], host)
            && (forall j :: 0 <= j < settling ==> !Allowlist.Settles(entries[j], host))
            && Allowlist.SchemeFor(Allowlist.WithSchemes(FirstSeen(entries)), host)
               == (if Lower(TrimSpace(entries[settling].host)) == "*." then Allowlist.Panic
                   else Allowlist.Admitted(entries[settling].scheme))
    ensures var ps, host := files[n].value.policies, Lower(TrimSpace(reqHost));
            && first <= i
            && Resolve(parse, GroupFor(files, env, files[n].value.localToken), reqHost)
               == Some(PolicyData(LoadedPolicy(ps[first], env), ""))
            && ServesHost(parse, LoadedPolicy(ps[first], env), host)
            && forall j :: 0 <= j < first ==> !ServesHost(parse, LoadedPolicy(ps[j], env), host)
  {
    settling := SettlingEntry(files, env, parse, n, i, reqHost);
    first := ServingPolicy(files, env, parse, n, i, reqHost);
    var entries, host := AllEntries(files, parse), Lower(TrimSpace(reqHost));
    LoadedSchemesKept(files, parse);
    FirstSeenAnswers(entries, host);
    Allowlist.SchemeAt(entries, host, settling);
  }

  lemma SettlingEntry(files: seq<Result<GroupFile>>, env: Environment, parse: UrlParser, n: nat, i: nat, reqHost: string)
    returns (settling: nat)
    requires Loadable(files, env, parse)
    requires n < |files| && i < |files[n].value.policies|
    requires Names(reqHost, ExtractHost(parse, files[n].value.policies[i].baseUrl).value)
    ensures var entries, host := AllEntries(files, parse), Lower(TrimSpace(reqHost));
            && settling < |entries| && Allowlist.Settles(entries[settling], host)
            && (forall j :: 0 <= j < settling ==> !Allowlist.Settles(entries[j], host))
  {
    var entries, host := AllEntries(files, parse), Lower(TrimSpace(reqHost));
    EntryListed(files, env, parse, n, i);
    var m :| 0 <= m < |entries| && entries[m].host == ExtractHost(parse, files[n].value.policies[i].baseUrl).value;
    NamedIsSettled(entries[m], reqHost);
    settling := Allowlist.FirstSettling(entries, host, m);
  }

  lemma ServingPolicy(files: seq<Result<GroupFile>>, env: Environment, parse: UrlParser, n: nat, i: nat, reqHost: string)
    returns (first: nat)
    requires Loadable(files, env, parse)
    requires n < |files| && i < |files[n].value.policies|
    requires Names(reqHost, ExtractHost(parse, files[n].value.policies[i].baseUrl).value)
    ensures var ps, host := files[n].value.policies, Lower(TrimSpace(reqHost));
            && first <= i
            && Resolve(parse, GroupFor(files, env, files[n].value.localToken), reqHost)
               == Some(PolicyData(LoadedPolicy(ps[first], env), ""))
            && ServesHost(parse, LoadedPolicy(ps[first], env), host)
            && forall j :: 0 <= j < first ==> !ServesHost(parse, LoadedPolicy(ps[j], env), host)
  {
    var g := files[n].value;
    var host := Lower(TrimSpace(reqHost));
    GroupForExact(files, env, parse, g.localToken);
    var loaded := LoadedPolicies(g.policies, env);
    assert ServesHost(parse, loaded[i], host);
    first := PolicyFor(parse, loaded, host).value;
    forall j | 0 <= j < first ensures !ServesHost(parse, LoadedPolicy(g.policies[j], env), host) {
      assert loaded[j] == LoadedPolicy(g.policies[j], env);
    }
  }
}
