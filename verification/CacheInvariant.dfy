/** What every step of the cache keeps, and hence what holds in every run. */
module CacheInvariant {
  import opened Wrappers
  import opened Api
  import opened TtlCache

  /** The lock word says who is inside, and a writer is alone. */
  ghost predicate LockOk(s: State) {
    && (forall t :: t in s.readers <==> t in s.pcs && Reads(s.pcs[t]))
    && (forall t :: s.writer == Some(t) <==> t in s.pcs && Writes(s.pcs[t]))
    && (s.writer.Some? ==> s.readers == {})
  }

  /** The cache holds, for each hash, the latest store that was not removed since. */
  ghost predicate CacheOk(s: State) {
    forall hash :: EntryOk(s.cache, s.log, s.clock, hash)
  }

  predicate EntryOk(cache: map<string, Entry>, log: seq<Event>, clock: int, hash: string) {
    match Latest(log, hash)
    case None => hash !in cache
    case Some(i) => hash in cache && cache[hash] == Entry(log[i].data, log[i].at) && log[i].at <= clock
  }

  /** What a thread may rely on, given where it is. */
  predicate PcOk(cfg: Config, t: Tid, pc: Pc, log: seq<Event>, clock: int) {
    match pc
    case WantRead(token, hash) => cfg.hasher(token) == Success(hash)
    case WantWrite(token, hash) => cfg.hasher(token) == Success(hash)
    case Checking(token, hash, since) => cfg.hasher(token) == Success(hash) && InSection(log, since, t)
    case Missed(token, hash, since) => cfg.hasher(token) == Success(hash) && InSection(log, since, t)
    case Rechecking(token, hash, since) => cfg.hasher(token) == Success(hash) && InSection(log, since, t)
    case Querying(token, hash, since, recheckAt) =>
      && cfg.hasher(token) == Success(hash) && InSection(log, since, t)
      && recheckAt <= clock && StaleAt(cfg, log, hash, recheckAt)
    case Storing(token, hash, since, recheckAt, query, answer) =>
      && cfg.hasher(token) == Success(hash) && InSection(log, since, t)
      && StaleAt(cfg, log, hash, recheckAt)
      && since < query < |log|
      && (exists at :: log[query] == Queried(t, hash, answer, at) && recheckAt <= at <= clock)
    case LeavingRead(token, result, source) => Decided(log, t, token, result, source)
    case LeavingWrite(token, result, source) => Decided(log, t, token, result, source)
    case Returning(token, result, source, released) => ReleasedAfter(log, t, token, result, source, released)
    case _ => true
  }

  /** The call was decided at event `source`, and the cache has not changed since. */
  predicate Decided(log: seq<Event>, t: Tid, token: string, result: Result<PolicyGroup>, source: nat) {
    source < |log| && Decides(log[source], t, token, result) && Quiet(log, source + 1, |log|)
  }

  ghost predicate PcsOk(cfg: Config, s: State) {
    forall t :: t in s.pcs ==> PcOk(cfg, t, s.pcs[t], s.log, s.clock)
  }

  ghost predicate Inv(cfg: Config, s: State) {
    LockOk(s) && CacheOk(s) && PcsOk(cfg, s) && LogOk(cfg, s.log)
  }

  lemma InitInv(cfg: Config, s: State)
    requires Init(s)
    ensures Inv(cfg, s)
  {
  }

  // ---------- one step ----------

  predicate Outside(pc: Pc) {
    !Reads(pc) && !Writes(pc)
  }

  lemma LockTaken(cfg: Config, s: State, t: Tid, fails: bool)
    requires LockOk(s) && t in s.pcs && CanStep(s, s.pcs[t])
    requires Outside(s.pcs[t])
    ensures LockOk(Advance(cfg, s, t, fails))
  {
    var pc, after := s.pcs[t], Advance(cfg, s, t, fails);
    assert t !in s.readers && s.writer != Some(t);
    assert forall u :: u in s.pcs && u != t ==> after.pcs[u] == s.pcs[u];
    assert after.writer == (if pc.WantWrite? || pc.WantDrop? then Some(t) else s.writer);
    assert after.readers == (if pc.WantRead? then s.readers + {t} else s.readers);
  }

  lemma ReadLockKept(cfg: Config, s: State, t: Tid, fails: bool)
    requires LockOk(s) && t in s.pcs && Reads(s.pcs[t])
    ensures LockOk(Advance(cfg, s, t, fails))
  {
    var pc, after := s.pcs[t], Advance(cfg, s, t, fails);
    assert forall u :: u in s.pcs && u != t ==> after.pcs[u] == s.pcs[u];
    assert after.writer == s.writer && !Writes(after.pcs[t]);
    assert after.readers == (if Reads(after.pcs[t]) then s.readers else s.readers - {t});
  }

  /** Inside a write section nothing happens to the lock. */
  lemma WriteLockHeld(cfg: Config, s: State, t: Tid, fails: bool)
    requires LockOk(s) && t in s.pcs && Writes(s.pcs[t]) && !s.pcs[t].LeavingWrite? && !s.pcs[t].Dropped?
    ensures LockOk(Advance(cfg, s, t, fails))
  {
    var after := Advance(cfg, s, t, fails);
    assert after.pcs == s.pcs[t := after.pcs[t]] && Writes(after.pcs[t]);
    assert after.writer == s.writer && after.readers == s.readers;
  }

  lemma WriteLockReleased(cfg: Config, s: State, t: Tid, fails: bool)
    requires LockOk(s) && t in s.pcs && (s.pcs[t].LeavingWrite? || s.pcs[t].Dropped?)
    ensures LockOk(Advance(cfg, s, t, fails))
  {
    var after := Advance(cfg, s, t, fails);
    assert s.writer == Some(t);
    assert after.pcs == s.pcs[t := after.pcs[t]] && Outside(after.pcs[t]);
    assert after.writer == None && after.readers == s.readers;
  }

  lemma LockKept(cfg: Config, s: State, t: Tid, fails: bool)
    requires LockOk(s) && t in s.pcs && CanStep(s, s.pcs[t])
    ensures LockOk(Advance(cfg, s, t, fails))
  {
    if Reads(s.pcs[t]) {
      ReadLockKept(cfg, s, t, fails);
    } else if Writes(s.pcs[t]) {
      if s.pcs[t].LeavingWrite? || s.pcs[t].Dropped? {
        WriteLockReleased(cfg, s, t, fails);
      } else {
        WriteLockHeld(cfg, s, t, fails);
      }
    } else {
      LockTaken(cfg, s, t, fails);
    }
  }

  /** An event that changes nothing in the cache leaves every entry as it was. */
  lemma EntryKept(cache: map<string, Entry>, log: seq<Event>, clock: int, later: int, hash: string, e: Event)
    requires EntryOk(cache, log, clock, hash) && !Mutates(e) && clock <= later
    ensures EntryOk(cache, log + [e], later, hash)
  {
    LatestAfter(log, e, hash);
  }

  /** A store or a removal changes the cache as it changes the reading of the log. */
  lemma EntryStored(cfg: Config, s: State, t: Tid, fails: bool, hash: string)
    requires EntryOk(s.cache, s.log, s.clock, hash) && t in s.pcs && s.pcs[t].Storing?
    ensures var after := Advance(cfg, s, t, fails); EntryOk(after.cache, after.log, after.clock, hash)
  {
    var pc := s.pcs[t];
    match LoadFromDB(cfg, pc.token, pc.hash, pc.answer)
    case Failure(error) =>
      EntryKept(s.cache, s.log, s.clock, s.clock, hash, LoadFailed(t, pc.token, pc.hash, error, pc.since, pc.query));
    case Success(data) =>
      LatestAfter(s.log, Stored(t, pc.token, pc.hash, data, s.clock, pc.since, pc.query, pc.recheckAt), hash);
  }

  lemma EntryDropped(cfg: Config, s: State, t: Tid, fails: bool, hash: string)
    requires EntryOk(s.cache, s.log, s.clock, hash) && t in s.pcs && s.pcs[t].Dropping?
    ensures var after := Advance(cfg, s, t, fails); EntryOk(after.cache, after.log, after.clock, hash)
  {
    LatestAfter(s.log, Removed(t, s.pcs[t].target), hash);
  }

  lemma CacheKept(cfg: Config, s: State, t: Tid, fails: bool)
    requires CacheOk(s) && t in s.pcs && CanStep(s, s.pcs[t])
    ensures CacheOk(Advance(cfg, s, t, fails))
  {
    var after := Advance(cfg, s, t, fails);
    forall hash ensures EntryOk(after.cache, after.log, after.clock, hash) {
      assert EntryOk(s.cache, s.log, s.clock, hash);
      if s.pcs[t].Storing? {
        EntryStored(cfg, s, t, fails, hash);
      } else if s.pcs[t].Dropping? {
        EntryDropped(cfg, s, t, fails, hash);
      } else if after.log != s.log {
        EntryKept(s.cache, s.log, s.clock, s.clock, hash, after.log[|s.log|]);
      }
    }
  }

  lemma SectionKept(log: seq<Event>, since: nat, t: Tid, e: Event)
    requires InSection(log, since, t) && !Mutates(e)
    ensures InSection(log + [e], since, t)
  {
  }

  lemma StaleKept(cfg: Config, log: seq<Event>, hash: string, at: int, e: Event)
    requires StaleAt(cfg, log, hash, at) && !Mutates(e)
    ensures StaleAt(cfg, log + [e], hash, at)
  {
    LatestAfter(log, e, hash);
  }

  /** What other threads log does not disturb a thread: the cache changes only under the write lock. */
  lemma PcKept(cfg: Config, t: Tid, pc: Pc, log: seq<Event>, clock: int, later: int, e: Event)
    requires PcOk(cfg, t, pc, log, clock) && clock <= later
    requires Mutates(e) ==> Outside(pc)
    ensures PcOk(cfg, t, pc, log + [e], later)
  {
    if pc.Checking? || pc.Missed? || pc.Rechecking? || pc.Querying? || pc.Storing? {
      SectionKept(log, pc.since, t, e);
    }
    if pc.Querying? || pc.Storing? {
      StaleKept(cfg, log, pc.hash, pc.recheckAt, e);
    }
    if pc.Storing? {
      assert (log + [e])[pc.query] == log[pc.query];
    }
  }

  /** The stepping thread's own new position: it takes a lock. */
  lemma LockingPcOk(cfg: Config, s: State, t: Tid, fails: bool)
    requires t in s.pcs && CanStep(s, s.pcs[t]) && PcOk(cfg, t, s.pcs[t], s.log, s.clock)
    requires s.pcs[t].WantRead? || s.pcs[t].WantWrite?
    ensures var after := Advance(cfg, s, t, fails); PcOk(cfg, t, after.pcs[t], after.log, after.clock)
  {
  }

  /** It looks into the cache. */
  lemma CheckingPcOk(cfg: Config, s: State, t: Tid, fails: bool)
    requires t in s.pcs && PcOk(cfg, t, s.pcs[t], s.log, s.clock)
    requires s.pcs[t].Checking? || s.pcs[t].Rechecking?
    requires EntryOk(s.cache, s.log, s.clock, s.pcs[t].hash)
    ensures var after := Advance(cfg, s, t, fails); PcOk(cfg, t, after.pcs[t], after.log, after.clock)
  {
  }

  /** It queries: the answer is the last event, and nothing else has happened since. */
  lemma QueriedPcOk(cfg: Config, s: State, t: Tid, fails: bool)
    requires t in s.pcs && s.pcs[t].Querying? && PcOk(cfg, t, s.pcs[t], s.log, s.clock)
    ensures var after := Advance(cfg, s, t, fails); PcOk(cfg, t, after.pcs[t], after.log, after.clock)
  {
    var pc, after := s.pcs[t], Advance(cfg, s, t, fails);
    var e := Queried(t, pc.hash, Query(s.db, pc.hash, s.clock, fails), s.clock);
    assert after.log == s.log + [e];
    SectionKept(s.log, pc.since, t, e);
    StaleKept(cfg, s.log, pc.hash, pc.recheckAt, e);
    assert after.log[|s.log|] == e;
  }

  /** It stores what it has loaded. */
  lemma StoringPcOk(cfg: Config, s: State, t: Tid, fails: bool)
    requires t in s.pcs && s.pcs[t].Storing? && PcOk(cfg, t, s.pcs[t], s.log, s.clock)
    ensures var after := Advance(cfg, s, t, fails); PcOk(cfg, t, after.pcs[t], after.log, after.clock)
  {
  }

  /** It unlocks, or it ends. */
  lemma LeavingPcOk(cfg: Config, s: State, t: Tid, fails: bool)
    requires t in s.pcs && PcOk(cfg, t, s.pcs[t], s.log, s.clock)
    requires s.pcs[t].LeavingRead? || s.pcs[t].LeavingWrite?
    ensures var after := Advance(cfg, s, t, fails); PcOk(cfg, t, after.pcs[t], after.log, after.clock)
  {
  }

  lemma OwnPcOk(cfg: Config, s: State, t: Tid, fails: bool)
    requires Inv(cfg, s) && t in s.pcs && CanStep(s, s.pcs[t])
    ensures var after := Advance(cfg, s, t, fails); PcOk(cfg, t, after.pcs[t], after.log, after.clock)
  {
    var pc := s.pcs[t];
    assert PcOk(cfg, t, pc, s.log, s.clock);
    if pc.WantRead? || pc.WantWrite? {
      LockingPcOk(cfg, s, t, fails);
    } else if pc.Checking? || pc.Rechecking? {
      assert EntryOk(s.cache, s.log, s.clock, pc.hash);
      CheckingPcOk(cfg, s, t, fails);
    } else if pc.Querying? {
      QueriedPcOk(cfg, s, t, fails);
    } else if pc.Storing? {
      StoringPcOk(cfg, s, t, fails);
    } else if pc.LeavingRead? || pc.LeavingWrite? {
      LeavingPcOk(cfg, s, t, fails);
    }
  }

  predicate OneMore(log: seq<Event>, later: seq<Event>, writing: bool) {
    || later == log
    || (|later| == |log| + 1 && later == log + [later[|log|]] && (Mutates(later[|log|]) ==> writing))
  }

  /** A step logs at most one event, and only a writer changes the cache. */
  lemma StepLogs(cfg: Config, s: State, t: Tid, fails: bool)
    requires t in s.pcs && CanStep(s, s.pcs[t])
    ensures var after := Advance(cfg, s, t, fails);
            after.clock == s.clock && OneMore(s.log, after.log, Writes(s.pcs[t]))
  {
  }

  lemma StepMovesOne(cfg: Config, s: State, t: Tid, fails: bool)
    requires t in s.pcs && CanStep(s, s.pcs[t])
    ensures var after := Advance(cfg, s, t, fails); t in after.pcs && after.pcs == s.pcs[t := after.pcs[t]]
  {
  }

  lemma OtherPcKept(cfg: Config, s: State, t: Tid, u: Tid, later: seq<Event>)
    requires Inv(cfg, s) && t in s.pcs && u in s.pcs && t != u
    requires OneMore(s.log, later, Writes(s.pcs[t]))
    ensures PcOk(cfg, u, s.pcs[u], later, s.clock)
  {
    assert PcOk(cfg, u, s.pcs[u], s.log, s.clock);
    if later != s.log {
      OthersOutside(s, t, u);
      PcKept(cfg, u, s.pcs[u], s.log, s.clock, s.clock, later[|s.log|]);
    }
  }

  lemma PcsKept(cfg: Config, s: State, t: Tid, fails: bool)
    requires Inv(cfg, s) && t in s.pcs && CanStep(s, s.pcs[t])
    ensures PcsOk(cfg, Advance(cfg, s, t, fails))
  {
    var after := Advance(cfg, s, t, fails);
    OwnPcOk(cfg, s, t, fails);
    StepLogs(cfg, s, t, fails);
    StepMovesOne(cfg, s, t, fails);
    forall u | u in s.pcs && u != t ensures PcOk(cfg, u, after.pcs[u], after.log, after.clock) {
      OtherPcKept(cfg, s, t, u, after.log);
    }
  }

  lemma OthersOutside(s: State, t: Tid, u: Tid)
    requires LockOk(s) && t in s.pcs && u in s.pcs && t != u
    ensures Writes(s.pcs[t]) ==> Outside(s.pcs[u])
  {
    if Writes(s.pcs[t]) {
      assert s.writer == Some(t);
      assert u !in s.readers;
    }
  }

  lemma HitJustified(cfg: Config, s: State, t: Tid, fails: bool)
    requires t in s.pcs && (s.pcs[t].Checking? || s.pcs[t].Rechecking?) && PcOk(cfg, t, s.pcs[t], s.log, s.clock)
    requires EntryOk(s.cache, s.log, s.clock, s.pcs[t].hash)
    ensures var after := Advance(cfg, s, t, fails); after.log != s.log ==> Justified(cfg, s.log, after.log[|s.log|])
  {
  }

  lemma LoadJustified(cfg: Config, s: State, t: Tid, fails: bool)
    requires t in s.pcs && s.pcs[t].Storing? && PcOk(cfg, t, s.pcs[t], s.log, s.clock)
    ensures Justified(cfg, s.log, Advance(cfg, s, t, fails).log[|s.log|])
  {
  }

  lemma RestJustified(cfg: Config, s: State, t: Tid, fails: bool)
    requires t in s.pcs && CanStep(s, s.pcs[t]) && PcOk(cfg, t, s.pcs[t], s.log, s.clock)
    requires !s.pcs[t].Checking? && !s.pcs[t].Rechecking? && !s.pcs[t].Storing?
    ensures var after := Advance(cfg, s, t, fails); after.log != s.log ==> Justified(cfg, s.log, after.log[|s.log|])
  {
  }

  lemma LogKept(cfg: Config, s: State, t: Tid, fails: bool)
    requires Inv(cfg, s) && t in s.pcs && CanStep(s, s.pcs[t])
    ensures LogOk(cfg, Advance(cfg, s, t, fails).log)
  {
    var pc, after := s.pcs[t], Advance(cfg, s, t, fails);
    assert PcOk(cfg, t, pc, s.log, s.clock);
    if pc.Checking? || pc.Rechecking? {
      assert EntryOk(s.cache, s.log, s.clock, pc.hash);
      HitJustified(cfg, s, t, fails);
    } else if pc.Storing? {
      LoadJustified(cfg, s, t, fails);
    } else {
      RestJustified(cfg, s, t, fails);
    }
    StepLogs(cfg, s, t, fails);
    if after.log != s.log {
      LogOkAfter(cfg, s.log, after.log[|s.log|]);
    }
  }

  lemma TickKeepsInv(cfg: Config, s: State, now: int)
    requires Inv(cfg, s) && now >= s.clock
    ensures Inv(cfg, s.(clock := now))
  {
    forall hash ensures EntryOk(s.cache, s.log, now, hash) {
      assert EntryOk(s.cache, s.log, s.clock, hash);
    }
  }

  /** An event outside all steps: a call that is rejected. */
  lemma NoteKeepsInv(cfg: Config, s: State, e: Event)
    requires Inv(cfg, s) && !Mutates(e) && Justified(cfg, s.log, e)
    ensures Inv(cfg, Note(s, e))
  {
    LogOkAfter(cfg, s.log, e);
    forall hash ensures EntryOk(s.cache, s.log + [e], s.clock, hash) {
      assert EntryOk(s.cache, s.log, s.clock, hash);
      EntryKept(s.cache, s.log, s.clock, s.clock, hash, e);
    }
    forall u | u in s.pcs ensures PcOk(cfg, u, s.pcs[u], s.log + [e], s.clock) {
      PcKept(cfg, u, s.pcs[u], s.log, s.clock, s.clock, e);
    }
  }

  lemma EnterKeepsInv(cfg: Config, s: State, t: Tid, pc: Pc)
    requires Inv(cfg, s) && t in s.pcs && s.pcs[t].Idle?
    requires Outside(pc) && PcOk(cfg, t, pc, s.log, s.clock)
    ensures Inv(cfg, Move(s, t, pc))
  {
    assert t !in s.readers && s.writer != Some(t);
    assert forall hash :: EntryOk(s.cache, s.log, s.clock, hash);
  }

  lemma CallKeepsInv(cfg: Config, s: State, t: Tid, op: Operation)
    requires Inv(cfg, s) && t in s.pcs && s.pcs[t].Idle?
    ensures Inv(cfg, Started(cfg, s, t, op))
  {
    var began := Move(s, t, Entered(cfg, op));
    EnterKeepsInv(cfg, s, t, Entered(cfg, op));
    if op.Get? && cfg.hasher(op.token).Failure? {
      NoteKeepsInv(cfg, began, Rejected(t, op.token));
    }
  }

  lemma ActKeepsInv(cfg: Config, s: State, a: Action)
    requires Inv(cfg, s) && Enabled(s, a)
    ensures Inv(cfg, Act(cfg, s, a))
  {
    match a
    case Step(t, fails) =>
      LockKept(cfg, s, t, fails);
      CacheKept(cfg, s, t, fails);
      PcsKept(cfg, s, t, fails);
      LogKept(cfg, s, t, fails);
    case Tick(now) => TickKeepsInv(cfg, s, now);
    case Call(t, op) => CallKeepsInv(cfg, s, t, op);
    case Change(db) =>
      assert forall hash :: EntryOk(s.cache, s.log, s.clock, hash);
  }

  // ---------- runs ----------

  ghost predicate Follows(cfg: Config, run: seq<State>, acts: seq<Action>, i: nat)
    requires i < |acts| < |run|
  {
    Enabled(run[i], acts[i]) && run[i + 1] == Act(cfg, run[i], acts[i])
  }

  ghost predicate IsRun(cfg: Config, run: seq<State>, acts: seq<Action>) {
    && |run| == |acts| + 1
    && Init(run[0])
    && forall i :: 0 <= i < |acts| ==> Follows(cfg, run, acts, i)
  }

  /** The invariant holds in every state of every run. */
  lemma {:induction false} RunInv(cfg: Config, run: seq<State>, acts: seq<Action>, n: nat)
    requires IsRun(cfg, run, acts) && n < |run|
    ensures Inv(cfg, run[n])
  {
    if n == 0 {
      InitInv(cfg, run[0]);
    } else {
      RunInv(cfg, run, acts, n - 1);
      assert Follows(cfg, run, acts, n - 1);
      ActKeepsInv(cfg, run[n - 1], acts[n - 1]);
    }
  }

  ghost predicate Reachable(cfg: Config, s: State) {
    exists run, acts :: IsRun(cfg, run, acts) && run[|acts|] == s
  }

  lemma ReachableNext(cfg: Config, s: State, a: Action) returns (after: State)
    requires Reachable(cfg, s) && Enabled(s, a)
    ensures after == Act(cfg, s, a) && Reachable(cfg, after)
  {
    after := Act(cfg, s, a);
    var run, acts :| IsRun(cfg, run, acts) && run[|acts|] == s;
    RunNext(cfg, run, acts, a, after);
    assert (run + [after])[|acts + [a]|] == after;
  }

  lemma RunNext(cfg: Config, run: seq<State>, acts: seq<Action>, a: Action, after: State)
    requires IsRun(cfg, run, acts) && Enabled(run[|acts|], a) && after == Act(cfg, run[|acts|], a)
    ensures IsRun(cfg, run + [after], acts + [a])
  {
    forall i | 0 <= i < |acts| + 1 ensures Follows(cfg, run + [after], acts + [a], i) {
      assert i < |acts| ==> Follows(cfg, run, acts, i);
    }
  }
}
