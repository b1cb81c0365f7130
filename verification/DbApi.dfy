/**
 The cache object itself, its methods in the order of the code. Run by a single thread, each call is a run
 of the step system: the object is always in a state that the step system reaches.
 */
module DbApi {
  import opened Wrappers
  import opened Api
  import opened TtlCache
  import opened CacheInvariant

  /** Thread 0 is the only thread, and at `pc`. */
  ghost predicate Alone(cfg: Config, s: State, pc: Pc) {
    Reachable(cfg, s) && s.pcs == map[0 := pc]
  }

  lemma AloneCanStep(cfg: Config, s: State, pc: Pc)
    requires Alone(cfg, s, pc) && !pc.Idle?
    ensures CanStep(s, pc)
  {
    var run, acts :| IsRun(cfg, run, acts) && run[|acts|] == s;
    RunInv(cfg, run, acts, |acts|);
    if s.writer.Some? {
      assert s.writer.value in s.pcs;
    }
    if s.readers != {} {
      var t :| t in s.readers;
      assert t in s.pcs;
    }
  }

  lemma Go(cfg: Config, s: State, pc: Pc, fails: bool) returns (after: State)
    requires Alone(cfg, s, pc) && !pc.Idle?
    ensures CanStep(s, pc) && after == Advance(cfg, s, 0, fails)
    ensures Reachable(cfg, after)
  {
    AloneCanStep(cfg, s, pc);
    after := ReachableNext(cfg, s, Step(0, fails));
  }

  /** The cache stays as it was while the thread gets to `pc`. */
  ghost predicate Quietly(cfg: Config, s: State, after: State, pc: Pc) {
    Alone(cfg, after, pc) && after.clock == s.clock && after.cache == s.cache
  }

  lemma Enter(cfg: Config, s: State, op: Operation, now: int) returns (after: State)
    requires Alone(cfg, s, Idle) && now >= s.clock
    ensures Quietly(cfg, s.(clock := now), after, Entered(cfg, op))
    ensures op.Get? && cfg.hasher(op.token).Failure? ==> Answered(cfg, after, op.token, Failure("failed to hash token"))
  {
    after := ReachableNext(cfg, s, Tick(now));
    after := ReachableNext(cfg, after, Call(0, op));
  }

  lemma Wait(cfg: Config, s: State, pc: Pc, now: int, db: map<string, Row>) returns (after: State)
    requires Alone(cfg, s, pc) && now >= s.clock
    ensures Quietly(cfg, s.(clock := now), after, pc) && after.db == db
  {
    after := ReachableNext(cfg, s, Tick(now));
    after := ReachableNext(cfg, after, Change(db));
  }

  /** The call has ended with this answer. */
  ghost predicate Answered(cfg: Config, s: State, token: string, r: Result<PolicyGroup>) {
    && Alone(cfg, s, Idle) && s.log != []
    && var last := s.log[|s.log| - 1];
       || (last.Returned? && last.token == token && last.result == r)
       || (last.Rejected? && last.token == token && r == Failure("failed to hash token"))
  }

  lemma Leave(cfg: Config, s: State, pc: Pc) returns (after: State)
    requires Alone(cfg, s, pc) && (pc.LeavingRead? || pc.LeavingWrite?)
    ensures Answered(cfg, after, pc.token, pc.result) && after.cache == s.cache && after.clock == s.clock
  {
    var unlocked := Go(cfg, s, pc, false);
    after := Go(cfg, unlocked, Returning(pc.token, pc.result, pc.source, |s.log|), false);
  }

  lemma Lock(cfg: Config, s: State, token: string, hash: string) returns (after: State)
    requires Alone(cfg, s, WantRead(token, hash))
    ensures Quietly(cfg, s, after, Checking(token, hash, |s.log|))
  {
    after := Go(cfg, s, WantRead(token, hash), false);
  }

  lemma Hit(cfg: Config, s: State, pc: Pc) returns (after: State)
    requires Alone(cfg, s, pc) && (pc.Checking? || pc.Rechecking?) && Fresh(cfg, s, pc.hash)
    ensures Answered(cfg, after, pc.token, Success(s.cache[pc.hash].data)) && after.cache == s.cache && after.clock == s.clock
  {
    after := Go(cfg, s, pc, false);
    after := Leave(cfg, after, after.pcs[0]);
  }

  /** From a miss under the read lock to the write lock. */
  lemma Upgrade(cfg: Config, s: State, pc: Pc) returns (after: State, since: nat)
    requires Alone(cfg, s, pc) && pc.Checking? && !Fresh(cfg, s, pc.hash)
    ensures Quietly(cfg, s, after, Rechecking(pc.token, pc.hash, since))
  {
    var missed := Go(cfg, s, pc, false);
    var waiting := Go(cfg, missed, Missed(pc.token, pc.hash, pc.since), false);
    since := |waiting.log|;
    after := Go(cfg, waiting, WantWrite(pc.token, pc.hash), false);
  }

  lemma RecheckMiss(cfg: Config, s: State, pc: Pc) returns (after: State)
    requires Alone(cfg, s, pc) && pc.Rechecking? && !Fresh(cfg, s, pc.hash)
    ensures Quietly(cfg, s, after, Querying(pc.token, pc.hash, pc.since, s.clock))
  {
    after := Go(cfg, s, pc, false);
  }

  lemma Ask(cfg: Config, s: State, pc: Pc, fails: bool) returns (after: State)
    requires Alone(cfg, s, pc) && pc.Querying?
    ensures Quietly(cfg, s, after,
      Storing(pc.token, pc.hash, pc.since, pc.recheckAt, |s.log|, Query(s.db, pc.hash, s.clock, fails)))
  {
    after := Go(cfg, s, pc, fails);
  }

  lemma Store(cfg: Config, s: State, pc: Pc) returns (after: State)
    requires Alone(cfg, s, pc) && pc.Storing?
    ensures var loaded := LoadFromDB(cfg, pc.token, pc.hash, pc.answer);
            && Answered(cfg, after, pc.token, loaded) && after.clock == s.clock
            && after.cache == if loaded.Success? then s.cache[pc.hash := Entry(loaded.value, s.clock)] else s.cache
  {
    var loaded := LoadFromDB(cfg, pc.token, pc.hash, pc.answer);
    after := Go(cfg, s, pc, false);
    assert Alone(cfg, after, LeavingWrite(pc.token, loaded, |s.log|));
    after := Leave(cfg, after, LeavingWrite(pc.token, loaded, |s.log|));
  }

  lemma BeginDrop(cfg: Config, s: State, target: Target) returns (after: State)
    requires Alone(cfg, s, WantDrop(target))
    ensures Quietly(cfg, s, after, Dropping(target))
  {
    after := Go(cfg, s, WantDrop(target), false);
  }

  lemma DropAlone(cfg: Config, s: State, target: Target) returns (after: State)
    requires Alone(cfg, s, WantDrop(target))
    ensures Alone(cfg, after, Idle) && after.clock == s.clock && after.cache == Drop(s.cache, target)
  {
    var inside := BeginDrop(cfg, s, target);
    after := Go(cfg, inside, Dropping(target), false);
    after := Go(cfg, after, Dropped, false);
  }

  /**
   `loadFromDB`: it succeeds exactly for a hash with a row that is not revoked, active and unexpired, a token
   that the validator accepts and rules that parse; the group then holds one policy with the data of that row.
   */
  method BuildPolicyGroup(cfg: Config, token: string, tokenHash: string, db: map<string, Row>, now: int, fails: bool)
    returns (r: Result<PolicyGroup>)
    ensures r.Success? <==>
      && !fails && tokenHash in db && !db[tokenHash].revoked && db[tokenHash].isActive
      && (db[tokenHash].expiresAt.Some? ==> db[tokenHash].expiresAt.value > now)
      && (db[tokenHash].credentialExpiresAt.Some? ==> db[tokenHash].credentialExpiresAt.value > now)
      && cfg.validator(token, tokenHash) && db[tokenHash].rules.Some?
    ensures r.Success? ==>
      var row := db[tokenHash];
      && r.value.version == row.version && r.value.defaultAction == row.defaultAction && |r.value.policies| == 1
      && r.value.policies[0].baseUrl == row.baseUrl && r.value.policies[0].upstreamToken == row.upstreamToken
      && Some(r.value.policies[0].rules) == row.rules
      && r.value.policies[0].upstreamTokenType == (if row.tokenType.Some? then row.tokenType.value else "")
      && r.value.policies[0].upstreamHeaderString == (if row.headerString.Some? then row.headerString.value else "")
    ensures r == LoadFromDB(cfg, token, tokenHash, Query(db, tokenHash, now, fails))
  {
    LoadExact(cfg, token, tokenHash, db, now, fails);
    var answer := Query(db, tokenHash, now, fails);
    if answer.NotFound? {
      return Failure("no active policy found for token");
    }
    if answer.QueryFailed? {
      return Failure("failed to get policy by token");
    }
    var row := answer.row;
    if !cfg.validator(token, tokenHash) {
      return Failure("invalid token");
    }
    if row.rules.None? {
      return Failure("failed to parse policy rules");
    }
    var p := Policy(row.baseUrl, row.upstreamToken, "", "", row.rules.value);
    if row.tokenType.Some? {
      p := p.(upstreamTokenType := row.tokenType.value);
    }
    if row.headerString.Some? {
      p := p.(upstreamHeaderString := row.headerString.value);
    }
    return Success(PolicyGroup(row.version, [p], row.defaultAction));
  }

  class PolicyCache {
    const cfg: Config
    var cache: map<string, Entry>
    ghost var system: State

    ghost predicate Valid()
      reads this
    {
      Alone(cfg, system, Idle) && system.cache == cache
    }

    constructor (cfg: Config, clock: int)
      ensures Valid() && cache == map[] && this.cfg == cfg && system.clock == clock
    {
      this.cfg := cfg;
      cache := map[];
      var start := State(map[0 := Idle], {}, None, map[], clock, map[], []);
      system := start;
      assert IsRun(cfg, [start], []);
    }

    /** The readings of the clock come in order: first check, recheck, query, store. */
    method GetPolicyData(token: string, t1: int, t2: int, t3: int, t4: int, db: map<string, Row>, fails: bool)
      returns (r: Result<PolicyGroup>)
      requires Valid() && system.clock <= t1 <= t2 <= t3 <= t4
      modifies this
      ensures Valid() && system.clock <= t4
      ensures cfg.hasher(token).Failure? ==> r.Failure? && cache == old(cache)
      ensures cfg.hasher(token).Success? ==>
        var hash := cfg.hasher(token).value;
        if hash in old(cache) && t1 - old(cache)[hash].loadedAt < cfg.ttl
        then r == Success(old(cache)[hash].data) && cache == old(cache)
        else
          var loaded := LoadFromDB(cfg, token, hash, Query(db, hash, t3, fails));
          var recheckHit := hash in old(cache) && t2 - old(cache)[hash].loadedAt < cfg.ttl;
          if recheckHit then r == Success(old(cache)[hash].data) && cache == old(cache)
          else r == loaded && cache == if loaded.Success? then old(cache)[hash := Entry(loaded.value, t4)] else old(cache)
      ensures r.Success? && cfg.hasher(token).Success? ==>
        var hash := cfg.hasher(token).value;
        || (hash in old(cache) && (t1 - old(cache)[hash].loadedAt < cfg.ttl || t2 - old(cache)[hash].loadedAt < cfg.ttl))
        || (hash in db && !db[hash].revoked && db[hash].isActive
            && (db[hash].expiresAt.Some? ==> db[hash].expiresAt.value > t3)
            && (db[hash].credentialExpiresAt.Some? ==> db[hash].credentialExpiresAt.value > t3))
      ensures Answered(cfg, system, token, r)
    {
      var hashed := cfg.hasher(token);
      ghost var s := Enter(cfg, system, Get(token), t1);
      if hashed.Failure? {
        system := s;
        return Failure("failed to hash token");
      }
      var tokenHash := hashed.value;
      s := Lock(cfg, s, token, tokenHash);
      if tokenHash in cache && t1 - cache[tokenHash].loadedAt < cfg.ttl {
        var data := cache[tokenHash].data;
        system := Hit(cfg, s, s.pcs[0]);
        return Success(data);
      }
      LoadExact(cfg, token, tokenHash, db, t3, fails);
      ghost var since;
      s, since := Upgrade(cfg, s, s.pcs[0]);
      r := Load(token, tokenHash, t2, t3, t4, db, fails, s, since);
    }

    /** The part under the write lock. */
    method Load(token: string, tokenHash: string, t2: int, t3: int, t4: int, db: map<string, Row>, fails: bool,
        ghost entered: State, ghost since: nat)
      returns (r: Result<PolicyGroup>)
      requires Alone(cfg, entered, Rechecking(token, tokenHash, since)) && entered.cache == cache && entered.clock <= t2 <= t3 <= t4
      modifies this
      ensures Valid() && system.clock <= t4
      ensures var hit := tokenHash in old(cache) && t2 - old(cache)[tokenHash].loadedAt < cfg.ttl;
              var loaded := LoadFromDB(cfg, token, tokenHash, Query(db, tokenHash, t3, fails));
              if hit then r == Success(old(cache)[tokenHash].data) && cache == old(cache)
              else r == loaded
                   && cache == if loaded.Success? then old(cache)[tokenHash := Entry(loaded.value, t4)] else old(cache)
      ensures Answered(cfg, system, token, r)
    {
      ghost var s := Wait(cfg, entered, Rechecking(token, tokenHash, since), t2, db);
      if tokenHash in cache && t2 - cache[tokenHash].loadedAt < cfg.ttl {
        system := Hit(cfg, s, Rechecking(token, tokenHash, since));
        return Success(cache[tokenHash].data);
      }
      s := RecheckMiss(cfg, s, Rechecking(token, tokenHash, since));
      s := Wait(cfg, s, Querying(token, tokenHash, since, t2), t3, db);
      ghost var answer := Query(db, tokenHash, t3, fails);
      ghost var query := |s.log|;
      s := Ask(cfg, s, Querying(token, tokenHash, since, t2), fails);
      s := Wait(cfg, s, Storing(token, tokenHash, since, t2, query, answer), t4, db);
      r := BuildPolicyGroup(cfg, token, tokenHash, db, t3, fails);
      system := Store(cfg, s, Storing(token, tokenHash, since, t2, query, answer));
      if r.Success? {
        cache := cache[tokenHash := Entry(r.value, t4)];
      }
    }

    method Invalidate(token: string)
      requires Valid()
      modifies this
      ensures Valid() && system.clock == old(system.clock)
      ensures cache == if cfg.hasher(token).Success? then old(cache) - {cfg.hasher(token).value} else old(cache)
    {
      var hashed := cfg.hasher(token);
      if hashed.Failure? {
        return;
      }
      cache := cache - {hashed.value};
      ghost var s := Enter(cfg, system, Operation.Invalidate(token), system.clock);
      system := DropAlone(cfg, s, One(hashed.value));
    }

    method InvalidateAll()
      requires Valid()
      modifies this
      ensures Valid() && system.clock == old(system.clock)
      ensures cache == map[]
    {
      cache := map[];
      ghost var s := Enter(cfg, system, Operation.InvalidateAll, system.clock);
      system := DropAlone(cfg, s, All);
    }
  }
}
