/**
 The policy cache of the database API as a step system: any number of threads run `GetPolicyData`,
 `Invalidate` and `InvalidateAll`, one lock, check, query, store, unlock or return at a time, while the
 clock advances and the database changes under them. A log records what happened; no step reads it.
 */
module TtlCache {
  import opened Wrappers
  import opened Api

  type Tid = nat

  datatype Config = Config(ttl: int, hasher: string -> Result<string>, validator: (string, string) -> bool)

  /** A joined row of the token query: conditions of its WHERE clause, then the columns that are used. */
  datatype Row = Row(
    revoked: bool,
    expiresAt: Option<int>,
    isActive: bool,
    credentialExpiresAt: Option<int>,
    version: string,
    baseUrl: string,
    defaultAction: string,
    rules: Option<seq<PolicyRule>>, // none if the stored JSON does not parse
    upstreamToken: string,
    tokenType: Option<string>,
    headerString: Option<string>)

  predicate Qualifies(row: Row, now: int) {
    && !row.revoked
    && (row.expiresAt.Some? ==> row.expiresAt.value > now)
    && row.isActive
    && (row.credentialExpiresAt.Some? ==> row.credentialExpiresAt.value > now)
  }

  datatype Answer = Found(row: Row) | NotFound | QueryFailed

  /** `GetDownstreamTokenByHash`, which may also fail for reasons of its own. */
  function Query(db: map<string, Row>, hash: string, now: int, fails: bool): Answer {
    if fails then QueryFailed
    else if hash in db && Qualifies(db[hash], now) then Found(db[hash])
    else NotFound
  }

  function LoadFromDB(cfg: Config, token: string, hash: string, answer: Answer): Result<PolicyGroup> {
    match answer
    case NotFound => Failure("no active policy found for token")
    case QueryFailed => Failure("failed to get policy by token")
    case Found(row) =>
      if !cfg.validator(token, hash) then Failure("invalid token")
      else if row.rules.None? then Failure("failed to parse policy rules")
      else
        var tokenType := if row.tokenType.Some? then row.tokenType.value else "";
        var header := if row.headerString.Some? then row.headerString.value else "";
        Success(PolicyGroup(row.version,
                            [Policy(row.baseUrl, row.upstreamToken, tokenType, header, row.rules.value)],
                            row.defaultAction))
  }

  /**
   A load on the columns of the row: it succeeds exactly if the query works, the token and the policy are in
   force and unexpired, the validator accepts and the rules parse; then the group has the data of the row.
   */
  lemma LoadExact(cfg: Config, token: string, hash: string, db: map<string, Row>, now: int, fails: bool)
    ensures var r := LoadFromDB(cfg, token, hash, Query(db, hash, now, fails));
            && (r.Success? <==>
                  && !fails && hash in db && !db[hash].revoked && db[hash].isActive
                  && (db[hash].expiresAt.Some? ==> db[hash].expiresAt.value > now)
                  && (db[hash].credentialExpiresAt.Some? ==> db[hash].credentialExpiresAt.value > now)
                  && cfg.validator(token, hash) && db[hash].rules.Some?)
            && (r.Success? ==>
                  var row := db[hash];
                  && r.value.version == row.version && r.value.defaultAction == row.defaultAction
                  && |r.value.policies| == 1
                  && var p := r.value.policies[0];
                     && p.baseUrl == row.baseUrl && p.upstreamToken == row.upstreamToken && Some(p.rules) == row.rules
                     && p.upstreamTokenType == (if row.tokenType.Some? then row.tokenType.value else "")
                     && p.upstreamHeaderString == (if row.headerString.Some? then row.headerString.value else ""))
  {
  }

  datatype Entry = Entry(data: PolicyGroup, loadedAt: int)

  datatype Target = One(hash: string) | All

  /**
   Where a thread is. `since` (when the lock was taken), `query`, `source` and `released` only remember
   positions in the log.
   */
  datatype Pc =
    | Idle
    | WantRead(token: string, hash: string)                                     // before RLock
    | Checking(token: string, hash: string, since: nat)                         // read lock held
    | Missed(token: string, hash: string, since: nat)                           // read lock held, no fresh entry
    | WantWrite(token: string, hash: string)                                    // before Lock
    | Rechecking(token: string, hash: string, since: nat)                       // write lock held
    | Querying(token: string, hash: string, since: nat, recheckAt: int)         // write lock held
    | Storing(token: string, hash: string, since: nat, recheckAt: int, query: nat, answer: Answer) // write lock held
    | LeavingRead(token: string, result: Result<PolicyGroup>, source: nat)      // read lock held
    | LeavingWrite(token: string, result: Result<PolicyGroup>, source: nat)     // write lock held
    | Returning(token: string, result: Result<PolicyGroup>, source: nat, released: nat) // unlocked, not yet returned
    | WantDrop(target: Target)                                                  // before Lock
    | Dropping(target: Target)                                                  // write lock held
    | Dropped                                                                   // write lock held

  predicate Reads(pc: Pc) {
    pc.Checking? || pc.Missed? || pc.LeavingRead?
  }

  predicate Writes(pc: Pc) {
    pc.Rechecking? || pc.Querying? || pc.Storing? || pc.LeavingWrite? || pc.Dropping? || pc.Dropped?
  }

  datatype Event =
    | Locked(tid: Tid)
    | Released(tid: Tid)
    | Queried(tid: Tid, hash: string, answer: Answer, at: int)
    | Stored(tid: Tid, token: string, hash: string, data: PolicyGroup, at: int, since: nat, query: nat, recheckAt: int)
    | LoadFailed(tid: Tid, token: string, hash: string, error: string, since: nat, query: nat)
    | Served(tid: Tid, token: string, hash: string, data: PolicyGroup, at: int, since: nat)
    | Removed(tid: Tid, target: Target)
    | Rejected(tid: Tid, token: string)
    | Returned(tid: Tid, token: string, result: Result<PolicyGroup>, source: nat, released: nat)

  datatype State = State(
    pcs: map<Tid, Pc>,
    readers: set<Tid>,
    writer: Option<Tid>,
    cache: map<string, Entry>,
    clock: int,
    db: map<string, Row>,
    log: seq<Event>)

  datatype Operation = Get(token: string) | Invalidate(token: string) | InvalidateAll

  /** Threads call and step; the environment moves the clock and rewrites the database. */
  datatype Action =
    | Call(tid: Tid, op: Operation)
    | Step(tid: Tid, queryFails: bool)
    | Tick(now: int)
    | Change(db: map<string, Row>)

  predicate Init(s: State) {
    && (forall t :: t in s.pcs ==> s.pcs[t].Idle?)
    && s.readers == {} && s.writer.None? && s.cache == map[] && s.log == []
  }

  predicate Enabled(s: State, a: Action) {
    match a
    case Call(t, _) => t in s.pcs && s.pcs[t].Idle?
    case Step(t, _) => t in s.pcs && CanStep(s, s.pcs[t])
    case Tick(now) => now >= s.clock
    case Change(_) => true
  }

  predicate CanStep(s: State, pc: Pc) {
    match pc
    case Idle => false
    case WantRead(_, _) => s.writer.None?
    case WantWrite(_, _) => s.writer.None? && s.readers == {}
    case WantDrop(_) => s.writer.None? && s.readers == {}
    case _ => true
  }

  /** `exists && time.Since(loadedAt) < ttl`. */
  predicate Fresh(cfg: Config, s: State, hash: string) {
    hash in s.cache && s.clock - s.cache[hash].loadedAt < cfg.ttl
  }

  function Entered(cfg: Config, op: Operation): Pc {
    match op
    case Get(token) =>
      (match cfg.hasher(token) case Success(hash) => WantRead(token, hash) case Failure(_) => Idle)
    case Invalidate(token) =>
      (match cfg.hasher(token) case Success(hash) => WantDrop(One(hash)) case Failure(_) => Idle)
    case InvalidateAll => WantDrop(All)
  }

  function Drop(cache: map<string, Entry>, target: Target): map<string, Entry> {
    match target
    case One(hash) => cache - {hash}
    case All => map[]
  }

  function Act(cfg: Config, s: State, a: Action): State
    requires Enabled(s, a)
  {
    match a
    case Call(t, op) => Started(cfg, s, t, op)
    case Step(t, fails) => Advance(cfg, s, t, fails)
    case Tick(now) => s.(clock := now)
    case Change(db) => s.(db := db)
  }

  function Move(s: State, t: Tid, pc: Pc): State {
    s.(pcs := s.pcs[t := pc])
  }

  function Note(s: State, e: Event): State {
    s.(log := s.log + [e])
  }

  /** A call begins; `GetPolicyData` answers at once if the token cannot be hashed. */
  function Started(cfg: Config, s: State, t: Tid, op: Operation): State {
    var began := Move(s, t, Entered(cfg, op));
    if op.Get? && cfg.hasher(op.token).Failure? then Note(began, Rejected(t, op.token)) else began
  }

  function Advance(cfg: Config, s: State, t: Tid, fails: bool): State
    requires t in s.pcs && CanStep(s, s.pcs[t])
  {
    match s.pcs[t]
    case WantRead(token, hash) =>
      Note(Move(s.(readers := s.readers + {t}), t, Checking(token, hash, |s.log|)), Locked(t))
    case Checking(token, hash, since) =>
      if Fresh(cfg, s, hash) then
        Note(Move(s, t, LeavingRead(token, Success(s.cache[hash].data), |s.log|)),
             Served(t, token, hash, s.cache[hash].data, s.clock, since))
      else Move(s, t, Missed(token, hash, since))
    case Missed(token, hash, _) =>
      Note(Move(s.(readers := s.readers - {t}), t, WantWrite(token, hash)), Released(t))
    case LeavingRead(token, result, source) =>
      Note(Move(s.(readers := s.readers - {t}), t, Returning(token, result, source, |s.log|)), Released(t))
    case WantWrite(token, hash) =>
      Note(Move(s.(writer := Some(t)), t, Rechecking(token, hash, |s.log|)), Locked(t))
    case Rechecking(token, hash, since) =>
      if Fresh(cfg, s, hash) then
        Note(Move(s, t, LeavingWrite(token, Success(s.cache[hash].data), |s.log|)),
             Served(t, token, hash, s.cache[hash].data, s.clock, since))
      else Move(s, t, Querying(token, hash, since, s.clock))
    case Querying(token, hash, since, recheckAt) =>
      var answer := Query(s.db, hash, s.clock, fails);
      Note(Move(s, t, Storing(token, hash, since, recheckAt, |s.log|, answer)), Queried(t, hash, answer, s.clock))
    case Storing(token, hash, since, recheckAt, query, answer) =>
      (match LoadFromDB(cfg, token, hash, answer)
       case Failure(error) =>
         Note(Move(s, t, LeavingWrite(token, Failure(error), |s.log|)), LoadFailed(t, token, hash, error, since, query))
       case Success(data) =>
         Note(Move(s.(cache := s.cache[hash := Entry(data, s.clock)]), t, LeavingWrite(token, Success(data), |s.log|)),
              Stored(t, token, hash, data, s.clock, since, query, recheckAt)))
    case LeavingWrite(token, result, source) =>
      Note(Move(s.(writer := None), t, Returning(token, result, source, |s.log|)), Released(t))
    case Returning(token, result, source, released) =>
      Note(Move(s, t, Idle), Returned(t, token, result, source, released))
    case WantDrop(target) =>
      Note(Move(s.(writer := Some(t)), t, Dropping(target)), Locked(t))
    case Dropping(target) =>
      Note(Move(s.(cache := Drop(s.cache, target)), t, Dropped), Removed(t, target))
    case Dropped =>
      Note(Move(s.(writer := None), t, Idle), Released(t))
  }

  // ---------- the cache as a reading of the log ----------

  predicate Drops(e: Event, hash: string) {
    e.Removed? && (e.target == All || e.target == One(hash))
  }

  predicate Stores(e: Event, hash: string) {
    e.Stored? && e.hash == hash
  }

  predicate Mutates(e: Event) {
    e.Stored? || e.Removed?
  }

  /** The store whose entry a sequential cache would hold for `hash` after these events. */
  function Latest(log: seq<Event>, hash: string): (i: Option<nat>)
    ensures i.Some? ==> i.value < |log| && Stores(log[i.value], hash)
  {
    if log == [] then None
    else
      var n := |log| - 1;
      if Stores(log[n], hash) then Some(n)
      else if Drops(log[n], hash) then None
      else Latest(log[..n], hash)
  }

  lemma LatestAfter(log: seq<Event>, e: Event, hash: string)
    ensures Latest(log + [e], hash) ==
      if Stores(e, hash) then Some(|log|) else if Drops(e, hash) then None else Latest(log, hash)
  {
    assert (log + [e])[..|log|] == log;
  }

  /** Nothing was dropped since the latest store, and an earlier store was either dropped or overwritten. */
  lemma {:induction false} LatestMeans(log: seq<Event>, hash: string, j: nat)
    requires j < |log|
    ensures Latest(log, hash).Some? && Latest(log, hash).value < j ==> !Drops(log[j], hash) && !Stores(log[j], hash)
    ensures Stores(log[j], hash) && (forall k :: j < k < |log| ==> !Drops(log[k], hash))
      ==> Latest(log, hash).Some? && j <= Latest(log, hash).value
  {
    var n := |log| - 1;
    if j < n {
      LatestMeans(log[..n], hash, j);
      assert log[..n][j] == log[j];
      if forall k :: j < k < |log| ==> !Drops(log[k], hash) {
        assert forall k :: j < k < n ==> log[..n][k] == log[k];
      }
    }
  }

  // ---------- what every log says ----------

  /** The event decides a call of `token` by thread `t` in favour of `result`. */
  predicate Decides(e: Event, t: Tid, token: string, result: Result<PolicyGroup>) {
    match e
    case Served(u, tok, _, data, _, _) => u == t && tok == token && result == Success(data)
    case Stored(u, tok, _, data, _, _, _, _) => u == t && tok == token && result == Success(data)
    case LoadFailed(u, tok, _, error, _, _) => u == t && tok == token && result == Failure(error)
    case _ => false
  }

  /** Why an event may follow the events before it. */
  predicate Justified(cfg: Config, before: seq<Event>, e: Event) {
    match e
    case Served(t, token, hash, data, at, since) =>
      var i := Latest(before, hash);
      && cfg.hasher(token) == Success(hash) && InSection(before, since, t)
      && i.Some? && before[i.value].data == data
      && before[i.value].at <= at && at - before[i.value].at < cfg.ttl
    case Stored(t, token, hash, data, at, since, query, recheckAt) =>
      && cfg.hasher(token) == Success(hash) && InSection(before, since, t)
      && since < query < |before| && FromQuery(cfg, before[query], t, token, hash, Success(data))
      && recheckAt <= before[query].at <= at
      && StaleAt(cfg, before, hash, recheckAt)
    case LoadFailed(t, token, hash, error, since, query) =>
      && cfg.hasher(token) == Success(hash) && InSection(before, since, t)
      && since < query < |before| && FromQuery(cfg, before[query], t, token, hash, Failure(error))
    case Rejected(t, token) => cfg.hasher(token).Failure?
    case Returned(t, token, result, source, released) =>
      ReleasedAfter(before, t, token, result, source, released)
    case _ => true
  }

  predicate FromQuery(cfg: Config, e: Event, t: Tid, token: string, hash: string, loaded: Result<PolicyGroup>) {
    && e.Queried? && e.tid == t && e.hash == hash
    && LoadFromDB(cfg, token, hash, e.answer) == loaded
  }

  /** No store and no removal from event `i` on, up to event `j`. */
  predicate Quiet(log: seq<Event>, i: nat, j: nat)
    requires j <= |log|
  {
    forall k :: i <= k < j ==> !Mutates(log[k])
  }

  /** The thread took a lock at event `since`, and the cache has not changed from then on. */
  predicate InSection(log: seq<Event>, since: nat, t: Tid) {
    since < |log| && log[since] == Locked(t) && Quiet(log, since, |log|)
  }

  /** The call was decided at event `source`, its lock was released at event `released`, and the cache did not change in between. */
  predicate ReleasedAfter(log: seq<Event>, t: Tid, token: string, result: Result<PolicyGroup>, source: nat, released: nat) {
    && source < released < |log| && Decides(log[source], t, token, result)
    && log[released] == Released(t) && Quiet(log, source + 1, released)
  }

  /** Any entry for `hash` had expired when it was looked at. */
  predicate StaleAt(cfg: Config, log: seq<Event>, hash: string, at: int) {
    var i := Latest(log, hash);
    i.Some? ==> log[i.value].at <= at && at - log[i.value].at >= cfg.ttl
  }

  predicate LogOk(cfg: Config, log: seq<Event>) {
    log == [] || (LogOk(cfg, log[..|log| - 1]) && Justified(cfg, log[..|log| - 1], log[|log| - 1]))
  }

  lemma LogOkAfter(cfg: Config, log: seq<Event>, e: Event)
    requires LogOk(cfg, log) && Justified(cfg, log, e)
    ensures LogOk(cfg, log + [e])
  {
    assert (log + [e])[..|log|] == log;
  }

  lemma {:induction false} LogOkAt(cfg: Config, log: seq<Event>, n: nat)
    requires LogOk(cfg, log) && n < |log|
    ensures Justified(cfg, log[..n], log[n]) && LogOk(cfg, log[..n])
    decreases |log|
  {
    var m := |log| - 1;
    if n < m {
      LogOkAt(cfg, log[..m], n);
      assert log[..m][..n] == log[..n];
    }
  }
}
