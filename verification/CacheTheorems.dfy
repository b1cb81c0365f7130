/** What the policy cache guarantees to its callers, over whole runs. */
module CacheTheorems {
  import opened Wrappers
  import opened Api
  import opened TtlCache
  import opened CacheInvariant

  /** The event hands a policy group to a caller: a cache hit, or a load. */
  predicate Provides(e: Event) {
    e.Served? || e.Stored?
  }

  /**
   A call whose token cannot be hashed is rejected. Any other answer was decided by a hit, a load or a failed
   load of the same call under a lock that was released before the answer, and the cache did not change from
   the decision to that release; afterwards it may change before the caller has the answer.
   */
  lemma ReturnedWasDecided(cfg: Config, run: seq<State>, acts: seq<Action>, n: nat)
    requires IsRun(cfg, run, acts) && n < |run[|acts|].log|
    requires var e := run[|acts|].log[n]; e.Returned? || e.Rejected?
    ensures var log := run[|acts|].log;
            && (log[n].Rejected? <==> cfg.hasher(log[n].token).Failure?)
            && (log[n].Returned? ==>
                  && log[n].source < log[n].released < n
                  && log[log[n].released] == Released(log[n].tid)
                  && var e := log[log[n].source];
                     && (e.Served? || e.Stored? || e.LoadFailed?)
                     && e.tid == log[n].tid && e.token == log[n].token && Success(e.hash) == cfg.hasher(e.token)
                     && e.since < log[n].source && log[e.since] == Locked(e.tid)
                     && (e.LoadFailed? ==>
                           && e.since < e.query < log[n].source && log[e.query].Queried?
                           && log[e.query].tid == e.tid && log[e.query].hash == e.hash
                           && log[n].result == LoadFromDB(cfg, e.token, e.hash, log[e.query].answer)
                           && log[n].result == Failure(e.error))
                     && (!e.LoadFailed? ==> log[n].result == Success(e.data))
                     && (forall j :: e.since <= j < log[n].released && j != log[n].source ==> !log[j].Stored? && !log[j].Removed?))
  {
    var log := run[|acts|].log;
    RunInv(cfg, run, acts, |acts|);
    LogOkAt(cfg, log, n);
    if log[n].Returned? {
      LogOkAt(cfg, log, log[n].source);
      assert forall j :: 0 <= j < n ==> log[..n][j] == log[j];
    }
  }

  // ---------- where the data comes from ----------

  /** The store behind a provided group, its query, and the quiet between that query and now. */
  lemma StoreBehind(cfg: Config, log: seq<Event>, n: nat) returns (store: nat, query: nat)
    requires LogOk(cfg, log) && n < |log| && Provides(log[n])
    ensures query < store <= n && Stores(log[store], log[n].hash) && log[store].data == log[n].data
    ensures log[store].query == query && cfg.hasher(log[n].token) == Success(log[n].hash)
    ensures FromQuery(cfg, log[query], log[store].tid, log[store].token, log[store].hash, Success(log[n].data))
    ensures log[store].recheckAt <= log[query].at <= log[store].at
    ensures log[n].Served? ==> log[store].at <= log[n].at && log[n].at - log[store].at < cfg.ttl
    ensures log[n].Stored? ==> store == n
    ensures forall j :: query < j < n ==> !Drops(log[j], log[n].hash)
  {
    LogOkAt(cfg, log, n);
    var hash := log[n].hash;
    store := if log[n].Stored? then n else Latest(log[..n], hash).value;
    LogOkAt(cfg, log, store);
    query := log[store].query;
    forall j | query < j < n ensures !Drops(log[j], hash) {
      if j < store {
        assert !Mutates(log[..store][j]);
      } else if store < j {
        LatestMeans(log[..n], hash, j);
      }
    }
  }

  /**
   Invalidation is effective in every interleaving: whatever is provided for a hash after it was removed
   comes from a query made after the removal.
   */
  lemma InvalidationEffective(cfg: Config, run: seq<State>, acts: seq<Action>, removal: nat, n: nat) returns (query: nat)
    requires IsRun(cfg, run, acts)
    requires removal < n < |run[|acts|].log|
    requires var log := run[|acts|].log; Provides(log[n]) && Drops(log[removal], log[n].hash)
    ensures var log := run[|acts|].log;
            removal < query < n && log[query].Queried? && log[query].hash == log[n].hash && log[query].answer.Found?
  {
    var log := run[|acts|].log;
    RunInv(cfg, run, acts, |acts|);
    var store;
    store, query := StoreBehind(cfg, log, n);
    assert removal != query;
  }

  /**
   What a call returns comes from a query after a given removal of its hash exactly if the lock under which
   the call was decided was taken after the removal. Otherwise the removal came after the call's unlock.
   */
  lemma ReturnsAreFresh(cfg: Config, run: seq<State>, acts: seq<Action>, removal: nat, n: nat) returns (query: nat)
    requires IsRun(cfg, run, acts)
    requires removal < |run[|acts|].log| && n < |run[|acts|].log|
    requires var log := run[|acts|].log;
             && log[n].Returned? && log[n].result.Success?
             && cfg.hasher(log[n].token).Success? && Drops(log[removal], cfg.hasher(log[n].token).value)
    ensures var log := run[|acts|].log;
            && query < log[n].source < log[n].released < n
            && log[query].Queried? && log[query].hash == cfg.hasher(log[n].token).value && log[query].answer.Found?
            && Provides(log[log[n].source]) && log[log[n].source].since < log[n].source
            && log[log[log[n].source].since] == Locked(log[n].tid)
            && (removal < query <==> removal < log[log[n].source].since)
            && (removal < query || log[n].released < removal)
  {
    var log := run[|acts|].log;
    ReturnedWasDecided(cfg, run, acts, n);
    var source, released := log[n].source, log[n].released;
    RunInv(cfg, run, acts, |acts|);
    LogOkAt(cfg, log, source);
    var store;
    store, query := StoreBehind(cfg, log, source);
    var since := log[source].since;
    assert removal != query && removal != source && removal != since && removal != released;
    assert forall j :: 0 <= j < source ==> log[..source][j] == log[j];
  }

  // ---------- calls that begin after a removal ----------

  /** The event decides a call under a lock taken at event `base` or later. */
  predicate LockedFrom(e: Event, base: nat) {
    (Provides(e) || e.LoadFailed?) && base <= e.since
  }

  predicate PcFrom(pc: Pc, log: seq<Event>, base: nat) {
    && (pc.Checking? || pc.Missed? || pc.Rechecking? || pc.Querying? || pc.Storing? ==> base <= pc.since)
    && (pc.LeavingRead? || pc.LeavingWrite? || pc.Returning? ==> pc.source < |log| && LockedFrom(log[pc.source], base))
  }

  predicate ReturnsFrom(log: seq<Event>, t: Tid, base: nat) {
    forall k :: base <= k < |log| && log[k].Returned? && log[k].tid == t ==>
      log[k].source < |log| && LockedFrom(log[log[k].source], base)
  }

  lemma OwnPcFrom(cfg: Config, s: State, t: Tid, fails: bool, base: nat)
    requires t in s.pcs && CanStep(s, s.pcs[t]) && base <= |s.log| && PcFrom(s.pcs[t], s.log, base)
    ensures var after := Advance(cfg, s, t, fails); PcFrom(after.pcs[t], after.log, base)
  {
    var pc := s.pcs[t];
    assert pc.LeavingRead? || pc.LeavingWrite? ==> (s.log + [Released(t)])[pc.source] == s.log[pc.source];
  }

  lemma OwnReturnFrom(cfg: Config, s: State, t: Tid, fails: bool, base: nat)
    requires t in s.pcs && CanStep(s, s.pcs[t]) && PcFrom(s.pcs[t], s.log, base)
    ensures var after := Advance(cfg, s, t, fails);
            |s.log| < |after.log| && after.log[|s.log|].Returned? ==>
              after.log[|s.log|].source < |s.log| && LockedFrom(s.log[after.log[|s.log|].source], base)
  {
  }

  /** A step logs in its own name, and only an answer that it has. */
  lemma StepLogsOwn(cfg: Config, s: State, t: Tid, fails: bool)
    requires t in s.pcs && CanStep(s, s.pcs[t])
    ensures var after := Advance(cfg, s, t, fails); |s.log| < |after.log| ==> after.log[|s.log|].tid == t
  {
  }

  lemma OtherStepFrom(s: State, after: State, u: Tid, t: Tid, base: nat)
    requires t in s.pcs && base <= |s.log| && PcFrom(s.pcs[t], s.log, base) && ReturnsFrom(s.log, t, base)
    requires u in after.pcs && after.pcs == s.pcs[u := after.pcs[u]] && u != t
    requires OneMore(s.log, after.log, true) && (|s.log| < |after.log| ==> after.log[|s.log|].tid == u)
    ensures PcFrom(after.pcs[t], after.log, base) && ReturnsFrom(after.log, t, base)
  {
  }

  lemma StepFrom(cfg: Config, s: State, u: Tid, fails: bool, t: Tid, base: nat)
    requires u in s.pcs && CanStep(s, s.pcs[u]) && t in s.pcs && base <= |s.log|
    requires PcFrom(s.pcs[t], s.log, base) && ReturnsFrom(s.log, t, base)
    ensures var after := Advance(cfg, s, u, fails);
            t in after.pcs && base <= |after.log| && PcFrom(after.pcs[t], after.log, base) && ReturnsFrom(after.log, t, base)
  {
    StepLogs(cfg, s, u, fails);
    StepMovesOne(cfg, s, u, fails);
    if u == t {
      OwnPcFrom(cfg, s, t, fails, base);
      OwnReturnFrom(cfg, s, t, fails, base);
    } else {
      StepLogsOwn(cfg, s, u, fails);
      OtherStepFrom(s, Advance(cfg, s, u, fails), u, t, base);
    }
  }

  lemma ActFrom(cfg: Config, s: State, a: Action, t: Tid, base: nat)
    requires Enabled(s, a) && t in s.pcs && base <= |s.log|
    requires PcFrom(s.pcs[t], s.log, base) && ReturnsFrom(s.log, t, base)
    ensures var after := Act(cfg, s, a);
            t in after.pcs && base <= |after.log| && PcFrom(after.pcs[t], after.log, base) && ReturnsFrom(after.log, t, base)
  {
    if a.Step? {
      StepFrom(cfg, s, a.tid, a.queryFails, t, base);
    }
  }

  lemma NextFrom(cfg: Config, run: seq<State>, acts: seq<Action>, m: nat, t: Tid, base: nat)
    requires IsRun(cfg, run, acts) && m < |acts| && t in run[m].pcs && base <= |run[m].log|
    requires PcFrom(run[m].pcs[t], run[m].log, base) && ReturnsFrom(run[m].log, t, base)
    ensures t in run[m + 1].pcs && base <= |run[m + 1].log|
    ensures PcFrom(run[m + 1].pcs[t], run[m + 1].log, base) && ReturnsFrom(run[m + 1].log, t, base)
  {
    assert Follows(cfg, run, acts, m);
    ActFrom(cfg, run[m], acts[m], t, base);
  }

  lemma {:induction false} CallFrom(cfg: Config, run: seq<State>, acts: seq<Action>, c: nat, m: nat, t: Tid)
    requires IsRun(cfg, run, acts) && c <= m < |run|
    requires t in run[c].pcs && run[c].pcs[t].Idle?
    ensures |run[c].log| <= |run[m].log| && t in run[m].pcs && PcFrom(run[m].pcs[t], run[m].log, |run[c].log|)
    ensures ReturnsFrom(run[m].log, t, |run[c].log|)
  {
    if c < m {
      CallFrom(cfg, run, acts, c, m - 1, t);
      NextFrom(cfg, run, acts, m - 1, t, |run[c].log|);
    }
  }

  lemma ActLogs(cfg: Config, s: State, a: Action)
    requires Enabled(s, a)
    ensures s.log <= Act(cfg, s, a).log
  {
    if a.Step? {
      StepLogs(cfg, s, a.tid, a.queryFails);
    }
  }

  lemma NextLogs(cfg: Config, run: seq<State>, acts: seq<Action>, m: nat)
    requires IsRun(cfg, run, acts) && m < |acts|
    ensures run[m].log <= run[m + 1].log
  {
    assert Follows(cfg, run, acts, m);
    ActLogs(cfg, run[m], acts[m]);
  }

  lemma {:induction false} LogGrows(cfg: Config, run: seq<State>, acts: seq<Action>, c: nat, m: nat)
    requires IsRun(cfg, run, acts) && c <= m < |run|
    ensures run[c].log <= run[m].log
  {
    if c < m {
      LogGrows(cfg, run, acts, c, m - 1);
      NextLogs(cfg, run, acts, m - 1);
    }
  }

  /**
   A call that begins after a removal of its hash, in particular after the removing call has returned,
   answers from a query after that removal: its thread was idle in state `c`, when the removal was in the log.
   */
  lemma LaterCallsAreFresh(cfg: Config, run: seq<State>, acts: seq<Action>, c: nat, removal: nat, n: nat) returns (query: nat)
    requires IsRun(cfg, run, acts) && c < |run|
    requires removal < |run[c].log| <= n < |run[|acts|].log|
    requires var e := run[|acts|].log[n];
             && e.Returned? && e.result.Success? && e.tid in run[c].pcs && run[c].pcs[e.tid].Idle?
             && cfg.hasher(e.token).Success? && Drops(run[c].log[removal], cfg.hasher(e.token).value)
    ensures var log := run[|acts|].log;
            && removal < query < n && log[query].Queried? && log[query].answer.Found?
            && log[query].hash == cfg.hasher(log[n].token).value
  {
    LogGrows(cfg, run, acts, c, |acts|);
    CallFrom(cfg, run, acts, c, |acts|, run[|acts|].log[n].tid);
    query := ReturnsAreFresh(cfg, run, acts, removal, n);
  }

  /**
   A hit equals what the loader answers for the same token on the row that the entry was loaded from, if and
   only if the validator accepts the token for the hash: the cache itself never asks the validator.
   */
  lemma HitAgreesWithLoader(cfg: Config, run: seq<State>, acts: seq<Action>, n: nat) returns (store: nat)
    requires IsRun(cfg, run, acts)
    requires n < |run[|acts|].log| && run[|acts|].log[n].Served?
    ensures var log := run[|acts|].log;
            && Latest(log[..n], log[n].hash) == Some(store)
            && log[store].query < store < n
            && log[log[store].query].Queried? && log[log[store].query].hash == log[n].hash
            && (LoadFromDB(cfg, log[n].token, log[n].hash, log[log[store].query].answer) == Success(log[n].data)
                <==> cfg.validator(log[n].token, log[n].hash))
  {
    var log := run[|acts|].log;
    RunInv(cfg, run, acts, |acts|);
    LogOkAt(cfg, log, n);
    store := Latest(log[..n], log[n].hash).value;
    LogOkAt(cfg, log, store);
  }

  // ---------- revocation ----------

  /** The token is revoked, its policy inactive, or one of the two expiry times has come. */
  ghost predicate OutOfForce(row: Row, now: int) {
    || row.revoked
    || !row.isActive
    || (row.expiresAt.Some? && row.expiresAt.value <= now)
    || (row.credentialExpiresAt.Some? && row.credentialExpiresAt.value <= now)
  }

  ghost predicate Revoked(s: State, hash: string) {
    hash in s.db ==> OutOfForce(s.db[hash], s.clock)
  }

  /** Queries take at most `latency` from reading the row to storing the entry. */
  ghost predicate LoadsWithin(log: seq<Event>, latency: int) {
    forall i, q :: 0 <= i < |log| && 0 <= q < |log| && log[i].Stored? && log[i].query == q && log[q].Queried?
      ==> log[i].at - log[q].at <= latency
  }

  lemma OnlyQueryingQueries(cfg: Config, s: State, t: Tid, fails: bool)
    requires t in s.pcs && CanStep(s, s.pcs[t])
    ensures var after := Advance(cfg, s, t, fails);
            |s.log| < |after.log| && after.log[|s.log|].Queried? ==> s.pcs[t].Querying?
  {
  }

  lemma QueryNow(cfg: Config, s: State, a: Action, q: nat)
    requires Enabled(s, a) && |s.log| <= q < |Act(cfg, s, a).log| && Act(cfg, s, a).log[q].Queried?
    ensures var e := Act(cfg, s, a).log[q]; e.at == s.clock && (Revoked(s, e.hash) ==> !e.answer.Found?)
  {
    if a.Step? {
      StepLogs(cfg, s, a.tid, a.queryFails);
      OnlyQueryingQueries(cfg, s, a.tid, a.queryFails);
    }
  }

  lemma NextQuery(cfg: Config, run: seq<State>, acts: seq<Action>, m: nat, q: nat)
    requires IsRun(cfg, run, acts) && m < |acts| && |run[m].log| <= q < |run[m + 1].log| && run[m + 1].log[q].Queried?
    ensures var e := run[m + 1].log[q]; e.at == run[m].clock && (Revoked(run[m], e.hash) ==> !e.answer.Found?)
  {
    assert Follows(cfg, run, acts, m);
    QueryNow(cfg, run[m], acts[m], q);
  }

  /** From time `r` on, no query finds a row that does not qualify from time `r` on. */
  lemma {:induction false} NothingFound(cfg: Config, run: seq<State>, acts: seq<Action>, hash: string, r: int, m: nat, q: nat)
    requires IsRun(cfg, run, acts) && m < |run| && q < |run[m].log|
    requires forall i :: 0 <= i < |run| && run[i].clock >= r ==> Revoked(run[i], hash)
    requires run[m].log[q].Queried? && run[m].log[q].hash == hash && run[m].log[q].at >= r
    ensures !run[m].log[q].answer.Found?
  {
    if m > 0 {
      NextLogs(cfg, run, acts, m - 1);
      if q < |run[m - 1].log| {
        NothingFound(cfg, run, acts, hash, r, m - 1, q);
      } else {
        NextQuery(cfg, run, acts, m - 1, q);
      }
    }
  }

  /**
   The lag of a revocation: once a row has stopped qualifying for good at time `r`, nothing is provided for
   its hash at `r + latency + ttl` or later.
   */
  lemma RevocationLag(cfg: Config, run: seq<State>, acts: seq<Action>, hash: string, r: int, latency: int, n: nat)
    requires IsRun(cfg, run, acts)
    requires forall i :: 0 <= i < |run| && run[i].clock >= r ==> Revoked(run[i], hash)
    requires LoadsWithin(run[|acts|].log, latency)
    requires n < |run[|acts|].log|
    requires Provides(run[|acts|].log[n]) && run[|acts|].log[n].hash == hash
    ensures run[|acts|].log[n].Served? ==> run[|acts|].log[n].at < r + latency + cfg.ttl
    ensures run[|acts|].log[n].Stored? ==> run[|acts|].log[n].at < r + latency
  {
    var log := run[|acts|].log;
    RunInv(cfg, run, acts, |acts|);
    var store, query := StoreBehind(cfg, log, n);
    if log[query].at >= r {
      NothingFound(cfg, run, acts, hash, r, |acts|, query);
    }
    assert log[store].at - log[query].at <= latency;
  }

  /** A row that has expired, or whose credential has, stops qualifying by itself. */
  lemma ExpiryRevokes(row: Row, now: int)
    requires (row.expiresAt.Some? && row.expiresAt.value <= now)
          || (row.credentialExpiresAt.Some? && row.credentialExpiresAt.value <= now)
    ensures forall later :: later >= now ==> OutOfForce(row, later)
  {
  }

  /** The lag for one cause: the stored token, if it is there, is revoked or its policy inactive from `r` on. */
  lemma SwitchedOffLag(cfg: Config, run: seq<State>, acts: seq<Action>, hash: string, r: int, latency: int, n: nat)
    requires IsRun(cfg, run, acts)
    requires forall i :: 0 <= i < |run| && run[i].clock >= r && hash in run[i].db ==>
      run[i].db[hash].revoked || !run[i].db[hash].isActive
    requires LoadsWithin(run[|acts|].log, latency)
    requires n < |run[|acts|].log|
    requires run[|acts|].log[n].Served? || run[|acts|].log[n].Stored?
    requires run[|acts|].log[n].hash == hash
    ensures run[|acts|].log[n].Served? ==> run[|acts|].log[n].at < r + latency + cfg.ttl
    ensures run[|acts|].log[n].Stored? ==> run[|acts|].log[n].at < r + latency
  {
    RevocationLag(cfg, run, acts, hash, r, latency, n);
  }

  // ---------- one load per window ----------

  /** Two loads of one hash without a removal between them: the second began after the first had expired. */
  lemma {:induction false} LoadsApart(cfg: Config, log: seq<Event>, i: nat, j: nat)
    requires LogOk(cfg, log) && i < j < |log|
    requires log[j].Stored? && Stores(log[i], log[j].hash)
    requires forall k :: i < k < j ==> !Drops(log[k], log[j].hash)
    ensures log[j].recheckAt - log[i].at >= cfg.ttl
  {
    var hash := log[j].hash;
    LogOkAt(cfg, log, j);
    LatestMeans(log[..j], hash, i);
    var m := Latest(log[..j], hash).value;
    if i < m {
      LogOkAt(cfg, log, m);
      LoadsApart(cfg, log, i, m);
    }
  }

  lemma SingleFlight(cfg: Config, run: seq<State>, acts: seq<Action>, i: nat, j: nat)
    requires IsRun(cfg, run, acts) && i < j < |run[|acts|].log|
    requires var log := run[|acts|].log;
             log[j].Stored? && Stores(log[i], log[j].hash) && forall k :: i < k < j ==> !Drops(log[k], log[j].hash)
    ensures run[|acts|].log[j].recheckAt - run[|acts|].log[i].at >= cfg.ttl
  {
    RunInv(cfg, run, acts, |acts|);
    LoadsApart(cfg, run[|acts|].log, i, j);
  }

  // ---------- locks ----------

  /** No thread is in a write section while another is in a read or write section. */
  lemma SectionsExclude(cfg: Config, run: seq<State>, acts: seq<Action>, n: nat, t: Tid, u: Tid)
    requires IsRun(cfg, run, acts) && n < |run|
    requires t in run[n].pcs && u in run[n].pcs && Writes(run[n].pcs[t])
    ensures !Reads(run[n].pcs[u]) && (Writes(run[n].pcs[u]) ==> t == u)
  {
    RunInv(cfg, run, acts, n);
    assert run[n].writer == Some(t);
    assert u !in run[n].readers;
  }

  /** The cache changes only in a step of the thread that holds the write lock, with no reader inside. */
  lemma OnlyWriterChangesCache(cfg: Config, run: seq<State>, acts: seq<Action>, n: nat)
    requires IsRun(cfg, run, acts) && n < |acts|
    requires run[n + 1].cache != run[n].cache
    ensures acts[n].Step? && run[n].writer == Some(acts[n].tid) && run[n].readers == {}
    ensures |run[n + 1].log| == |run[n].log| + 1 && Mutates(run[n + 1].log[|run[n].log|])
  {
    RunInv(cfg, run, acts, n);
    assert Follows(cfg, run, acts, n);
    StepChangesCache(cfg, run[n], acts[n]);
  }

  lemma StepChangesCache(cfg: Config, s: State, a: Action)
    requires Enabled(s, a) && Act(cfg, s, a).cache != s.cache
    ensures a.Step? && Writes(s.pcs[a.tid])
    ensures var after := Act(cfg, s, a); |after.log| == |s.log| + 1 && Mutates(after.log[|s.log|])
  {
  }

  /** A thread that waits for a lock, is about to return or runs no call holds none. */
  lemma WaitsEmptyHanded(cfg: Config, run: seq<State>, acts: seq<Action>, n: nat, t: Tid)
    requires IsRun(cfg, run, acts) && n < |run| && t in run[n].pcs
    requires var pc := run[n].pcs[t]; pc.Idle? || pc.WantRead? || pc.WantWrite? || pc.WantDrop? || pc.Returning?
    ensures t !in run[n].readers && run[n].writer != Some(t)
  {
    RunInv(cfg, run, acts, n);
  }

  predicate WaitsToWrite(pc: Pc) {
    pc.WantWrite? || pc.WantDrop?
  }

  /** May the thread step even if readers are held back while a writer waits? */
  ghost predicate CanStepBehindWriters(s: State, t: Tid) {
    && t in s.pcs && CanStep(s, s.pcs[t])
    && (s.pcs[t].WantRead? ==> forall u :: u in s.pcs ==> !WaitsToWrite(s.pcs[u]))
  }

  /** No deadlock: while some call is unfinished some thread can step, also under writer preference. */
  lemma SomeThreadCanStep(cfg: Config, run: seq<State>, acts: seq<Action>, n: nat, t: Tid) returns (u: Tid)
    requires IsRun(cfg, run, acts) && n < |run|
    requires t in run[n].pcs && !run[n].pcs[t].Idle?
    ensures CanStepBehindWriters(run[n], u)
  {
    var s := run[n];
    RunInv(cfg, run, acts, n);
    if s.writer.Some? {
      u := s.writer.value;
      assert Writes(s.pcs[u]);
    } else if s.readers != {} {
      u :| u in s.readers;
    } else {
      assert !Reads(s.pcs[t]) && !Writes(s.pcs[t]) by { assert t !in s.readers && s.writer != Some(t); }
      if w :| w in s.pcs && WaitsToWrite(s.pcs[w]) {
        u := w;
      } else {
        u := t;
      }
    }
  }

  /** The steps that a call has left at most. */
  function StepsLeft(pc: Pc): nat {
    match pc
    case Idle => 0
    case Returning(_, _, _, _) => 1
    case Dropped => 1
    case LeavingRead(_, _, _) => 2
    case LeavingWrite(_, _, _) => 2
    case Dropping(_) => 2
    case Storing(_, _, _, _, _, _) => 3
    case WantDrop(_) => 3
    case Querying(_, _, _, _) => 4
    case Rechecking(_, _, _) => 5
    case WantWrite(_, _) => 6
    case Missed(_, _, _) => 7
    case Checking(_, _, _) => 8
    case WantRead(_, _) => 9
  }

  lemma StepShortens(cfg: Config, s: State, t: Tid, fails: bool)
    requires t in s.pcs && CanStep(s, s.pcs[t])
    ensures StepsLeft(Advance(cfg, s, t, fails).pcs[t]) < StepsLeft(s.pcs[t])
  {
    var pc, next := s.pcs[t], Advance(cfg, s, t, fails).pcs[t];
    if pc.WantRead? || pc.Checking? || pc.Missed? || pc.LeavingRead? {
      assert next.Checking? || next.LeavingRead? || next.Missed? || next.WantWrite? || next.Returning?;
    } else if pc.WantDrop? || pc.Dropping? || pc.Dropped? {
    } else {
      assert pc.Storing? || pc.Querying? ==> next.LeavingWrite? || next.Storing?;
    }
  }

  /** Every own step brings a call nearer to its end, and no other action touches it. */
  lemma CallsEnd(cfg: Config, s: State, a: Action, t: Tid)
    requires Enabled(s, a) && t in s.pcs && !s.pcs[t].Idle?
    ensures t in Act(cfg, s, a).pcs
    ensures a.Step? && a.tid == t ==> StepsLeft(Act(cfg, s, a).pcs[t]) < StepsLeft(s.pcs[t])
    ensures !(a.Step? && a.tid == t) ==> Act(cfg, s, a).pcs[t] == s.pcs[t]
  {
    if a.Step? {
      StepShortens(cfg, s, a.tid, a.queryFails);
      StepMovesOne(cfg, s, a.tid, a.queryFails);
    }
  }
}
