/** The hosts that the proxy forwards to. */
module Allowlist {
  import opened Wrappers
  import opened GoStrings
  import opened Api

  function WithScheme(entry: HostEntry): HostEntry {
    if entry.scheme == "" then entry.(scheme := "https") else entry
  }

  function WithSchemes(entries: seq<HostEntry>): seq<HostEntry> {
    seq(|entries|, i requires 0 <= i < |entries| => WithScheme(entries[i]))
  }

  method FromEntries(entries: seq<HostEntry>) returns (r: Result<array<HostEntry>>)
    ensures r.Failure? <==> entries == []
    ensures r.Success? ==> fresh(r.value) && r.value[..] == WithSchemes(entries)
    ensures r.Success? ==> forall i :: 0 <= i < |entries| ==>
      && r.value[i].host == entries[i].host
      && r.value[i].scheme == (if entries[i].scheme == "" then "https" else entries[i].scheme)
  {
    if |entries| == 0 {
      return Failure("allowlist must contain at least one host");
    }
    var allowed := new HostEntry[|entries|](i requires 0 <= i < |entries| => entries[i]);
    for i := 0 to allowed.Length
      invariant forall j :: 0 <= j < i ==> allowed[j] == WithScheme(entries[j])
      invariant forall j :: i <= j < allowed.Length ==> allowed[j] == entries[j]
    {
      if allowed[i].scheme == "" {
        allowed[i] := allowed[i].(scheme := "https");
      }
    }
    return Success(allowed);
  }

  predicate HasSuffix(s: string, suffix: string) {
    |suffix| <= |s| && s[|s| - |suffix|..] == suffix
  }

  function AllowedName(entry: HostEntry): string {
    Lower(TrimSpace(entry.host))
  }

  /** An entry that begins with `*.` goes by suffix (and, for the bare name, drops one more character), any other by equality. */
  predicate EntryAdmits(entry: HostEntry, host: string) {
    var name := AllowedName(entry);
    if "*." <= name then name != "*." && (host == name[3..] || HasSuffix(host, name[2..])) else host == name
  }

  /** The search ends at this entry: it admits the host, or it is `*.`, whose empty suffix cannot be sliced. */
  predicate Settles(entry: HostEntry, host: string) {
    AllowedName(entry) == "*." || EntryAdmits(entry, host)
  }

  datatype HostAnswer = Admitted(scheme: string) | Unknown | Panic

  /** The answer of the first entry that settles the search. */
  function SchemeFor(entries: seq<HostEntry>, host: string): (answer: HostAnswer)
    ensures answer.Unknown? <==> forall i :: 0 <= i < |entries| ==> !Settles(entries[i], host)
  {
    if entries == [] then Unknown
    else if AllowedName(entries[0]) == "*." then Panic
    else if EntryAdmits(entries[0], host) then Admitted(entries[0].scheme)
    else SchemeFor(entries[1..], host)
  }

  /**
   Which hosts an entry admits. Without `*.` its own name, trimmed and folded, alone; with `*.` the hosts that
   end in what follows, and what follows without its first character.
   */
  lemma AdmitsExact(entry: HostEntry, host: string)
    ensures var name := Lower(TrimSpace(entry.host));
            && (!("*." <= name) ==> (EntryAdmits(entry, host) <==> host == name))
            && (name == "*." ==> !EntryAdmits(entry, host))
            && ("*." <= name && name != "*." ==>
                  (EntryAdmits(entry, host) <==> host == name[3..] || exists front: string :: host == front + name[2..]))
  {
    var name := Lower(TrimSpace(entry.host));
    if "*." <= name && name != "*." {
      if HasSuffix(host, name[2..]) {
        assert host == host[..|host| - |name[2..]|] + name[2..];
      }
      forall front: string | host == front + name[2..] ensures HasSuffix(host, name[2..]) {
      }
    }
  }

  /** The three answers: a scheme, the panic, or none, each by the first entry that admits the host or is `*.`. */
  lemma SchemeForExact(entries: seq<HostEntry>, host: string)
    ensures var answer := SchemeFor(entries, host);
            && (answer.Unknown? <==> forall i :: 0 <= i < |entries| ==>
                  !EntryAdmits(entries[i], host) && Lower(TrimSpace(entries[i].host)) != "*.")
            && (!answer.Unknown? ==> exists i :: 0 <= i < |entries| && SettledBy(entries, host, i, answer))
  {
    if !SchemeFor(entries, host).Unknown? {
      var m :| 0 <= m < |entries| && Settles(entries[m], host);
      var i := FirstSettling(entries, host, m);
      SchemeAt(entries, host, i);
      assert SettledBy(entries, host, i, SchemeFor(entries, host));
    }
  }

  /** Entry `i` is the first that admits the host or is `*.`, and this is the answer to it. */
  predicate SettledBy(entries: seq<HostEntry>, host: string, i: nat, answer: HostAnswer)
    requires i < |entries|
  {
    && (forall j :: 0 <= j < i ==> !EntryAdmits(entries[j], host) && Lower(TrimSpace(entries[j].host)) != "*.")
    && (if Lower(TrimSpace(entries[i].host)) == "*." then answer == Panic
        else EntryAdmits(entries[i], host) && answer == Admitted(entries[i].scheme))
  }

  lemma {:induction false} FirstSettling(entries: seq<HostEntry>, host: string, m: nat) returns (first: nat)
    requires m < |entries| && Settles(entries[m], host)
    ensures first <= m && Settles(entries[first], host)
    ensures forall j :: 0 <= j < first ==> !Settles(entries[j], host)
  {
    if j: nat :| j < m && Settles(entries[j], host) {
      first := FirstSettling(entries, host, j);
    } else {
      first := m;
    }
  }

  lemma {:induction false} SchemeAt(entries: seq<HostEntry>, host: string, i: nat)
    requires i < |entries| && Settles(entries[i], host)
    requires forall j :: 0 <= j < i ==> !Settles(entries[j], host)
    ensures SchemeFor(entries, host) == if AllowedName(entries[i]) == "*." then Panic else Admitted(entries[i].scheme)
  {
    if i > 0 {
      assert !Settles(entries[0], host);
      SchemeAt(entries[1..], host, i - 1);
    }
  }

  lemma {:induction false} SchemeSnoc(entries: seq<HostEntry>, last: HostEntry, host: string)
    ensures SchemeFor(entries + [last], host)
      == if SchemeFor(entries, host).Unknown? then SchemeFor([last], host) else SchemeFor(entries, host)
  {
    if entries == [] {
      assert entries + [last] == [last];
    } else {
      assert (entries + [last])[1..] == entries[1..] + [last];
      SchemeSnoc(entries[1..], last, host);
    }
  }

  /** `FindHost`, for any list of entries: the answer of the first entry that settles the search. */
  method FindHost(entries: array<HostEntry>, reqHost: string) returns (answer: HostAnswer)
    ensures answer == SchemeFor(entries[..], Lower(TrimSpace(reqHost)))
  {
    var host := Lower(TrimSpace(reqHost));
    for i := 0 to entries.Length
      invariant forall j :: 0 <= j < i ==> !Settles(entries[j], host)
    {
      var allowedHost := Lower(TrimSpace(entries[i].host));
      if Settles(entries[i], host) {
        SchemeAt(entries[..], host, i);
      }
      if "*." <= allowedHost {
        var suffix := allowedHost[2..];
        if |suffix| == 0 {
          return Panic;
        }
        assert suffix[1..] == allowedHost[3..];
        if host == suffix[1..] || HasSuffix(host, suffix) {
          return Admitted(entries[i].scheme);
        }
      } else if host == allowedHost {
        return Admitted(entries[i].scheme);
      }
    }
    return Unknown;
  }
}
