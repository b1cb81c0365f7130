/** A run in which a call returns what was invalidated before it returned. */
module StaleReturns {
  import opened Wrappers
  import opened Api
  import opened TtlCache
  import opened CacheInvariant

  /** Two threads, the second of which is idle. */
  function Two(pc: Pc, readers: set<Tid>, writer: Option<Tid>, cache: map<string, Entry>, now: int, db: map<string, Row>,
      log: seq<Event>): State
  {
    State(map[0 := pc, 1 := Idle], readers, writer, cache, now, db, log)
  }

  lemma LockedFirst(cfg: Config, token: string, hash: string, now: int, db: map<string, Row>) returns (s: State)
    requires cfg.hasher(token) == Success(hash)
    ensures Reachable(cfg, s) && s == Two(Checking(token, hash, 0), {0}, None, map[], now, db, [Locked(0)])
  {
    s := Two(Idle, {}, None, map[], now, db, []);
    assert IsRun(cfg, [s], []);
    s := ReachableNext(cfg, s, Call(0, Get(token)));
    s := ReachableNext(cfg, s, Step(0, false));
  }

  lemma MissedFirst(cfg: Config, token: string, hash: string, now: int, db: map<string, Row>) returns (s: State)
    requires cfg.hasher(token) == Success(hash)
    ensures Reachable(cfg, s) && s == Two(WantWrite(token, hash), {}, None, map[], now, db, [Locked(0), Released(0)])
  {
    s := LockedFirst(cfg, token, hash, now, db);
    s := ReachableNext(cfg, s, Step(0, false));
    s := ReachableNext(cfg, s, Step(0, false));
  }

  lemma LockedAndAsked(cfg: Config, token: string, hash: string, row: Row, now: int) returns (s: State)
    requires cfg.hasher(token) == Success(hash) && Qualifies(row, now)
    ensures Reachable(cfg, s)
    ensures s == Two(Storing(token, hash, 2, now, 3, Found(row)), {}, Some(0), map[], now, map[hash := row],
                     [Locked(0), Released(0), Locked(0), Queried(0, hash, Found(row), now)])
  {
    s := MissedFirst(cfg, token, hash, now, map[hash := row]);
    s := ReachableNext(cfg, s, Step(0, false));
    assert s.pcs[0] == Rechecking(token, hash, 2);
    s := ReachableNext(cfg, s, Step(0, false));
    s := ReachableNext(cfg, s, Step(0, false));
  }

  /** The first thread has loaded `hash` and unlocked, but not returned. */
  lemma LoadedNotReturned(cfg: Config, token: string, hash: string, row: Row, now: int) returns (s: State)
    requires cfg.hasher(token) == Success(hash) && Qualifies(row, now) && LoadFromDB(cfg, token, hash, Found(row)).Success?
    ensures Reachable(cfg, s) && s.pcs == map[0 := Returning(token, LoadFromDB(cfg, token, hash, Found(row)), 4, 5), 1 := Idle]
    ensures s.writer.None? && s.readers == {} && |s.log| == 6 && s.log[3] == Queried(0, hash, Found(row), now)
  {
    s := LockedAndAsked(cfg, token, hash, row, now);
    s := ReachableNext(cfg, s, Step(0, false));
    s := ReachableNext(cfg, s, Step(0, false));
  }

  /** The second thread runs an invalidation from beginning to end. */
  lemma InvalidatedBySecond(cfg: Config, s: State, token: string, hash: string, pc: Pc) returns (after: State)
    requires cfg.hasher(token) == Success(hash)
    requires Reachable(cfg, s) && s.writer.None? && s.readers == {} && s.pcs == map[0 := pc, 1 := Idle]
    ensures Reachable(cfg, after) && after.pcs == s.pcs
    ensures after.log == s.log + [Locked(1), Removed(1, One(hash)), Released(1)]
  {
    after := ReachableNext(cfg, s, Call(1, Invalidate(token)));
    after := ReachableNext(cfg, after, Step(1, false));
    after := ReachableNext(cfg, after, Step(1, false));
    after := ReachableNext(cfg, after, Step(1, false));
  }

  /**
   The condition on the lock in `ReturnsAreFresh` is needed: a call may return what it has read under its lock although another
   thread has meanwhile completed an invalidation of that token.
   */
  lemma StaleReturn(cfg: Config, token: string, hash: string, row: Row, now: int) returns (s: State, query: nat, removal: nat, n: nat)
    requires cfg.hasher(token) == Success(hash) && Qualifies(row, now) && LoadFromDB(cfg, token, hash, Found(row)).Success?
    ensures Reachable(cfg, s) && s.pcs == map[0 := Idle, 1 := Idle] && query < removal < removal + 1 < n < |s.log|
    ensures s.log[query] == Queried(0, hash, Found(row), now)
    ensures Drops(s.log[removal], hash) && s.log[removal].tid == 1 && s.log[removal + 1] == Released(1)
    ensures s.log[n].Returned? && s.log[n].token == token && s.log[n].result == LoadFromDB(cfg, token, hash, Found(row))
  {
    s := LoadedNotReturned(cfg, token, hash, row, now);
    s := InvalidatedBySecond(cfg, s, token, hash, s.pcs[0]);
    s := ReachableNext(cfg, s, Step(0, false));
    query, removal, n := 3, 7, 9;
  }
}
