/**
  Cache coalescing as a protocol: any number of callers, each a little program whose steps interleave, share a cache and
  per-key locks in Redis, both with expiry. A caller that wins the lock fetches and fills the cache; the others poll.
 */
module Coalescing {
  import opened Wrappers

  const LOCK_TTL_MS := 5000
  const LOCK_RETRY_MS := 50
  const LOCK_MAX_RETRIES := 40

  type CacheKey = string
  type Answer = Result<string, string>

  datatype Stored = Stored(value: string, expiresAt: nat)

  /**
    Where a caller is. The winner answers its request when its fetch succeeds; storing the value and releasing the lock is
    a task of its own, which goes on as `Storing` and `Releasing`.
   */
  datatype Place =
    | Asking
    | Locking
    | Fetching(since: nat)
    | Storing(value: string, since: nat)
    | Releasing(since: nat)
    | Waiting
    | FallingBack
    | Finished

  datatype Caller = Caller(key: CacheKey, place: Place, answer: Option<Answer>, fetches: nat, polls: nat)

  /** `fetched` remembers every successful fetch. */
  datatype State = State(clock: nat, cache: map<CacheKey, Stored>, locks: map<CacheKey, nat>,
                         callers: map<nat, Caller>, fetched: set<(CacheKey, string)>)

  /** `redis` says whether the Redis call of the step works; a failed read counts as a miss, a failed lock as held. */
  datatype Step =
    | Tick(ms: nat)
    | Call(id: nat, key: CacheKey)
    | Get(id: nat, redis: bool)
    | Lock(id: nat, redis: bool)
    | Fetch(id: nat, outcome: Answer)
    | Store(id: nat, redis: bool, ttlSecs: int)
    | Release(id: nat, redis: bool)
    | Poll(id: nat, redis: bool)
    | Crash(id: nat)

  function Cached(s: State, key: CacheKey): Option<string> {
    if key in s.cache && s.clock < s.cache[key].expiresAt then Some(s.cache[key].value) else None
  }

  predicate Locked(s: State, key: CacheKey) {
    key in s.locks && s.clock < s.locks[key]
  }

  function With(s: State, id: nat, c: Caller): State {
    s.(callers := s.callers[id := c])
  }

  /** The value of the cache, if the read works and finds one. */
  function ReadCache(s: State, key: CacheKey, redis: bool): Option<string> {
    if redis then Cached(s, key) else None
  }

  /** A fetch ends the caller's own work: with a value or with its error, which is never stored. */
  function AfterFetch(s: State, id: nat, c: Caller, outcome: Answer, next: Place): State {
    var done := c.(answer := Some(outcome), fetches := c.fetches + 1);
    match outcome
    case Ok(v) => With(s, id, done.(place := next)).(fetched := s.fetched + {(c.key, v)})
    case Err(_) => With(s, id, done.(place := Finished))
  }

  /** One atomic step; a step the caller is not at changes nothing. */
  function Apply(s: State, step: Step): State {
    match step
    case Tick(ms) => s.(clock := s.clock + ms)
    case Call(id, key) =>
      if id in s.callers then s else With(s, id, Caller(key, Asking, None, 0, 0))
    case _ =>
      if step.id !in s.callers then s else Advance(s, step, s.callers[step.id])
  }

  function Advance(s: State, step: Step, c: Caller): State
    requires !step.Tick? && !step.Call?
  {
    var id := step.id;
    match step
    case Get(_, redis) =>
      if !c.place.Asking? then s
      else
        (match ReadCache(s, c.key, redis)
         case Some(v) => With(s, id, c.(place := Finished, answer := Some(Ok(v))))
         case None => With(s, id, c.(place := Locking)))
    case Lock(_, redis) =>
      if !c.place.Locking? then s
      else if redis && !Locked(s, c.key) then
        With(s, id, c.(place := Fetching(s.clock))).(locks := s.locks[c.key := s.clock + LOCK_TTL_MS])
      else With(s, id, c.(place := Waiting))
    case Fetch(_, outcome) =>
      if c.place.Fetching? then
        AfterFetch(s, id, c, outcome, if outcome.Ok? then Storing(outcome.value, c.place.since) else Finished)
      else if c.place.FallingBack? then AfterFetch(s, id, c, outcome, Finished)
      else s
    case Store(_, redis, ttl) =>
      if !c.place.Storing? then s
      else
        var s' := With(s, id, c.(place := Releasing(c.place.since)));
        if redis && ttl > 0 then s'.(cache := s.cache[c.key := Stored(c.place.value, s.clock + ttl * 1000)]) else s'
    case Release(_, redis) =>
      if !c.place.Releasing? then s
      else
        var s' := With(s, id, c.(place := Finished));
        if redis then s'.(locks := s.locks - {c.key}) else s'
    case Poll(_, redis) =>
      if !c.place.Waiting? then s
      else
        (match ReadCache(s, c.key, redis)
         case Some(v) => With(s, id, c.(place := Finished, answer := Some(Ok(v)), polls := c.polls + 1))
         case None =>
           With(s, id, c.(place := if c.polls + 1 == LOCK_MAX_RETRIES then FallingBack else Waiting, polls := c.polls + 1)))
    case Crash(_) => With(s, id, c.(place := Finished))
  }

  const Start := State(0, map[], map[], map[], {})

  function Replay(steps: seq<Step>): State {
    if steps == [] then Start else Apply(Replay(steps[..|steps| - 1]), steps[|steps| - 1])
  }

  function RunFrom(s: State, steps: seq<Step>): State {
    if steps == [] then s else Apply(RunFrom(s, steps[..|steps| - 1]), steps[|steps| - 1])
  }

  lemma RunFromLast(s: State, steps: seq<Step>, step: Step)
    ensures RunFrom(s, steps + [step]) == Apply(RunFrom(s, steps), step)
  {
    hide Apply;
    assert (steps + [step])[..|steps|] == steps;
  }

  /** Any history is one run continued by another. */
  lemma {:induction false} ReplaySplits(a: seq<Step>, b: seq<Step>)
    ensures Replay(a + b) == RunFrom(Replay(a), b)
    decreases |b|
  {
    hide Apply;
    if b == [] {
      assert a + b == a;
    } else {
      ReplaySplits(a, b[..|b| - 1]);
      assert (a + b)[..|a + b| - 1] == a + b[..|b| - 1];
    }
  }

  // ---- every value comes from a fetch; effort is bounded ----

  ghost predicate CallerFetched(s: State, c: Caller) {
    && (c.answer.Some? && c.answer.value.Ok? ==> (c.key, c.answer.value.value) in s.fetched)
    && (c.place.Storing? ==> (c.key, c.place.value) in s.fetched)
  }

  ghost predicate Fetched(s: State) {
    && (forall key | key in s.cache :: (key, s.cache[key].value) in s.fetched)
    && (forall id | id in s.callers :: CallerFetched(s, s.callers[id]))
  }

  ghost predicate Bounded(c: Caller) {
    && c.fetches <= 1 && c.polls <= LOCK_MAX_RETRIES
    && (c.place.Asking? || c.place.Locking? || c.place.Fetching? || c.place.Waiting? || c.place.FallingBack? ==>
          c.fetches == 0 && c.answer.None?)
    && (c.place.Asking? || c.place.Locking? || c.place.Fetching? ==> c.polls == 0)
    && (c.place.Waiting? ==> c.polls < LOCK_MAX_RETRIES)
    && (c.answer.Some? && c.answer.value.Err? ==> c.fetches == 1)
    && (c.place.FallingBack? ==> c.polls == LOCK_MAX_RETRIES)
    && (c.fetches == 1 ==> c.polls == 0 || c.polls == LOCK_MAX_RETRIES)
  }

  lemma StepKeepsProvenance(s: State, step: Step)
    requires Fetched(s)
    ensures Fetched(Apply(s, step)) && s.fetched <= Apply(s, step).fetched
  {
  }

  lemma StepKeepsBounds(s: State, step: Step)
    requires forall id | id in s.callers :: Bounded(s.callers[id])
    ensures forall id | id in Apply(s, step).callers :: Bounded(Apply(s, step).callers[id])
  {
  }

  lemma {:induction false} RunsAreFetchedAndBounded(steps: seq<Step>)
    ensures var s := Replay(steps); Fetched(s) && forall id | id in s.callers :: Bounded(s.callers[id])
  {
    hide Apply;
    if steps != [] {
      RunsAreFetchedAndBounded(steps[..|steps| - 1]);
      StepKeepsProvenance(Replay(steps[..|steps| - 1]), steps[|steps| - 1]);
      StepKeepsBounds(Replay(steps[..|steps| - 1]), steps[|steps| - 1]);
    }
  }

  ghost predicate Succeeded(steps: seq<Step>, key: CacheKey, v: string) {
    exists i :: 0 <= i < |steps| && steps[i].Fetch? && steps[i].outcome == Ok(v)
                && steps[i].id in Replay(steps[..i]).callers && Replay(steps[..i]).callers[steps[i].id].key == key
  }

  /** The memory of fetches is honest: it holds only values that a fetch step of a caller of that key returned. */
  lemma {:induction false} FetchedMeansFetched(steps: seq<Step>, key: CacheKey, v: string)
    requires (key, v) in Replay(steps).fetched
    ensures Succeeded(steps, key, v)
  {
    if steps != [] {
      var front, last := steps[..|steps| - 1], steps[|steps| - 1];
      if (key, v) in Replay(front).fetched {
        FetchedMeansFetched(front, key, v);
        var i :| 0 <= i < |front| && front[i].Fetch? && front[i].outcome == Ok(v)
                 && front[i].id in Replay(front[..i]).callers && Replay(front[..i]).callers[front[i].id].key == key;
        assert front[..i] == steps[..i] && steps[i] == front[i];
      } else {
        var i := |steps| - 1;
        assert steps[..i] == front;
        assert steps[i].Fetch? && steps[i].outcome == Ok(v);
      }
    }
  }

  /**
    Over every interleaving: what is cached for a key, and what any caller of the key is answered, was returned by a
    successful fetch of that key; an error answer is the caller's own fetch. No caller fetches twice or polls more than 40 times.
   */
  lemma ValuesComeFromFetches(steps: seq<Step>, id: nat, key: CacheKey)
    ensures var s := Replay(steps);
            && (key in s.cache ==> Succeeded(steps, key, s.cache[key].value))
            && (id in s.callers ==>
                  var c := s.callers[id];
                  && (c.answer.Some? && c.answer.value.Ok? ==> Succeeded(steps, c.key, c.answer.value.value))
                  && (c.answer.Some? && c.answer.value.Err? ==> c.fetches == 1)
                  && c.fetches <= 1 && c.polls <= 40 && (c.fetches == 1 ==> c.polls == 0 || c.polls == 40))
  {
    hide Replay, Succeeded;
    RunsAreFetchedAndBounded(steps);
    var s := Replay(steps);
    if key in s.cache {
      FetchedMeansFetched(steps, key, s.cache[key].value);
    }
    if id in s.callers && s.callers[id].answer.Some? && s.callers[id].answer.value.Ok? {
      FetchedMeansFetched(steps, s.callers[id].key, s.callers[id].answer.value.value);
    }
  }

  // ---- one winner at a time ----

  predicate InFlight(c: Caller) {
    c.place.Fetching? || c.place.Storing? || c.place.Releasing?
  }

  /** No winner has been in flight for the lifetime of its lock. */
  ghost predicate Timely(s: State) {
    forall id | id in s.callers && InFlight(s.callers[id]) :: s.clock < s.callers[id].place.since + LOCK_TTL_MS
  }

  ghost predicate Exclusive(s: State) {
    forall id, other | id in s.callers && other in s.callers && InFlight(s.callers[id]) && InFlight(s.callers[other])
                       && s.callers[id].key == s.callers[other].key :: id == other
  }

  /** The lock of a winner in flight is its own. */
  ghost predicate Holds(s: State) {
    forall id | id in s.callers && InFlight(s.callers[id]) ::
      s.callers[id].key in s.locks && s.locks[s.callers[id].key] == s.callers[id].place.since + LOCK_TTL_MS
  }

  lemma FetchNamesOneCaller(s: State, id: nat, c: Caller, outcome: Answer, next: Place)
    ensures var s' := AfterFetch(s, id, c, outcome, next);
            && s'.callers.Keys <= s.callers.Keys + {id}
            && (forall other | other in s.callers && other != id :: other in s'.callers && s'.callers[other] == s.callers[other])
  {
  }

  /** The caller's `SET NX` succeeds. */
  ghost predicate TakesLock(s: State, step: Step) {
    step.Lock? && step.redis && step.id in s.callers && s.callers[step.id].place.Locking? && !Locked(s, s.callers[step.id].key)
  }

  /** A winner that is still in flight when its lock has run out. */
  ghost predicate Overdue(s: State, id: nat) {
    id in s.callers && InFlight(s.callers[id]) && s.clock >= s.callers[id].place.since + LOCK_TTL_MS
  }

  /** A caller takes the lock while a winner of its key is overdue. */
  ghost predicate Overtakes(s: State, step: Step) {
    TakesLock(s, step) && exists other :: Overdue(s, other) && s.callers[other].key == s.callers[step.id].key
  }

  lemma StepNamesOneCaller(s: State, step: Step)
    requires !step.Tick?
    ensures var s' := Apply(s, step);
            && s'.callers.Keys <= s.callers.Keys + {step.id}
            && (forall other | other in s.callers && other != step.id ::
                  other in s'.callers && s'.callers[other] == s.callers[other])
  {
    hide ReadCache, Locked, AfterFetch;
    if step.Fetch? && step.id in s.callers {
      var c := s.callers[step.id];
      FetchNamesOneCaller(s, step.id, c, step.outcome, Finished);
      if c.place.Fetching? && step.outcome.Ok? {
        FetchNamesOneCaller(s, step.id, c, step.outcome, Storing(step.outcome.value, c.place.since));
      }
    }
  }

  /** What a step of a caller can do to its flight and to the locks. */
  lemma StepShape(s: State, step: Step)
    requires !step.Tick?
    ensures var s' := Apply(s, step);
            && (step.id in s'.callers && InFlight(s'.callers[step.id]) ==>
                  var c := s'.callers[step.id];
                  || (step.id in s.callers && InFlight(s.callers[step.id]) && s.callers[step.id].key == c.key
                      && s.callers[step.id].place.since == c.place.since && s'.locks == s.locks)
                  || (TakesLock(s, step) && s.callers[step.id].key == c.key
                      && c.place.since == s.clock && s'.locks == s.locks[c.key := s.clock + LOCK_TTL_MS]))
            && (step.id !in s'.callers || !InFlight(s'.callers[step.id]) ==>
                  || s'.locks == s.locks
                  || (step.id in s.callers && InFlight(s.callers[step.id]) && s'.locks == s.locks - {s.callers[step.id].key}))
  {
    hide ReadCache, Locked;
  }

  /** A step keeps winners apart unless it takes the lock of one that is overdue. */
  lemma StepKeepsExclusion(s: State, step: Step)
    requires Exclusive(s) && Holds(s) && !Overtakes(s, step)
    ensures Exclusive(Apply(s, step)) && Holds(Apply(s, step))
  {
    if step.Tick? {
    } else {
      hide Apply, Exclusive, Holds, Overtakes, TakesLock;
      StepNamesOneCaller(s, step);
      StepShape(s, step);
      ShapeKeepsExclusion(s, step, Apply(s, step));
    }
  }

  lemma ShapeKeepsExclusion(s: State, step: Step, s': State)
    requires Exclusive(s) && Holds(s) && !step.Tick? && !Overtakes(s, step)
    requires s'.callers.Keys <= s.callers.Keys + {step.id}
    requires forall other | other in s.callers && other != step.id :: other in s'.callers && s'.callers[other] == s.callers[other]
    requires step.id in s'.callers && InFlight(s'.callers[step.id]) ==>
               var c := s'.callers[step.id];
               || (step.id in s.callers && InFlight(s.callers[step.id]) && s.callers[step.id].key == c.key
                   && s.callers[step.id].place.since == c.place.since && s'.locks == s.locks)
               || (TakesLock(s, step) && s.callers[step.id].key == c.key
                   && c.place.since == s.clock && s'.locks == s.locks[c.key := s.clock + LOCK_TTL_MS])
    requires step.id !in s'.callers || !InFlight(s'.callers[step.id]) ==>
               || s'.locks == s.locks
               || (step.id in s.callers && InFlight(s.callers[step.id]) && s'.locks == s.locks - {s.callers[step.id].key})
    ensures Exclusive(s') && Holds(s')
  {
    forall other | other in s'.callers && other != step.id && InFlight(s'.callers[other])
      ensures other in s.callers && s.callers[other] == s'.callers[other]
      ensures TakesLock(s, step) ==> s.callers[other].key != s.callers[step.id].key
    {
      if TakesLock(s, step) && s.callers[other].key == s.callers[step.id].key {
        assert Overdue(s, other);
      }
    }
  }

  /** Taking the lock puts a second winner in flight exactly when a winner of the key has outlived its lock. */
  lemma LockJoinsExactly(s: State, id: nat)
    requires Exclusive(s) && Holds(s) && id in s.callers && s.callers[id].place.Locking?
    ensures !Exclusive(Apply(s, Lock(id, true)))
       <==> exists other :: other in s.callers && s.callers[other].key == s.callers[id].key && Overdue(s, other)
  {
    if other :| other in s.callers && s.callers[other].key == s.callers[id].key && Overdue(s, other) {
      TwoInFlight(Apply(s, Lock(id, true)), id, other);
    } else {
      StepKeepsExclusion(s, Lock(id, true));
    }
  }

  lemma OvertakingJoins(s: State, step: Step)
    requires Exclusive(s) && Holds(s) && Overtakes(s, step)
    ensures !Exclusive(Apply(s, step))
  {
    LockJoinsExactly(s, step.id);
  }

  ghost predicate NeverOvertaken(steps: seq<Step>) {
    forall n | 0 <= n < |steps| :: !Overtakes(Replay(steps[..n]), steps[n])
  }

  ghost predicate AlwaysExclusive(steps: seq<Step>) {
    forall n | 0 <= n <= |steps| :: Exclusive(Replay(steps[..n]))
  }

  lemma {:induction false} NeverOvertakenIsExclusive(steps: seq<Step>)
    requires NeverOvertaken(steps)
    ensures Exclusive(Replay(steps)) && Holds(Replay(steps))
  {
    hide Apply, Overtakes, Exclusive, Holds;
    if steps == [] {
      StartIsExclusive();
    } else {
      var front := steps[..|steps| - 1];
      assert forall n | 0 <= n < |front| :: front[..n] == steps[..n] && front[n] == steps[n];
      NeverOvertakenIsExclusive(front);
      StepKeepsExclusion(Replay(front), steps[|steps| - 1]);
    }
  }

  lemma {:induction false} ExclusiveIsNeverOvertaken(steps: seq<Step>)
    requires AlwaysExclusive(steps)
    ensures NeverOvertaken(steps) && Holds(Replay(steps))
  {
    hide Apply, Overtakes, Exclusive, Holds;
    if steps == [] {
      StartIsExclusive();
    } else {
      var front, last := steps[..|steps| - 1], steps[|steps| - 1];
      assert forall n | 0 <= n <= |front| :: front[..n] == steps[..n];
      ExclusiveIsNeverOvertaken(front);
      assert steps[..|steps|] == steps && front[..|front|] == front;
      assert Exclusive(Replay(steps[..|steps|])) && Exclusive(Replay(steps[..|front|]));
      if Overtakes(Replay(front), last) {
        OvertakingJoins(Replay(front), last);
        assert false;
      }
      StepKeepsExclusion(Replay(front), last);
    }
  }

  /** Over a run there is never more than one winner in flight for a key exactly when no caller takes the lock of an overdue one. */
  lemma ExclusiveExactly(steps: seq<Step>)
    ensures AlwaysExclusive(steps) <==> NeverOvertaken(steps)
  {
    hide Overtakes, Exclusive, Holds, Replay;
    if AlwaysExclusive(steps) {
      ExclusiveIsNeverOvertaken(steps);
    }
    if NeverOvertaken(steps) {
      forall n | 0 <= n <= |steps|
        ensures Exclusive(Replay(steps[..n]))
      {
        assert forall k | 0 <= k < n :: steps[..n][..k] == steps[..k] && steps[..n][k] == steps[k];
        NeverOvertakenIsExclusive(steps[..n]);
      }
    }
  }

  /** As long as winners finish within the lock's lifetime, at most one is in flight for a key, over every interleaving. */
  lemma AtMostOneWinner(steps: seq<Step>)
    requires forall n | 0 <= n < |steps| :: Timely(Replay(steps[..n]))
    ensures Exclusive(Replay(steps)) && Holds(Replay(steps))
  {
    hide Replay, Exclusive, Holds;
    NeverOvertakenIsExclusive(steps);
  }

  lemma StartIsExclusive()
    ensures Exclusive(Start) && Holds(Start)
  {
  }

  lemma ReplayLast(steps: seq<Step>, step: Step)
    ensures Replay(steps + [step]) == Apply(Replay(steps), step)
  {
  }

  /** A winner that outlives its lock is joined by a second one. */
  lemma SlowWinnerIsJoined(key: CacheKey)
    ensures exists steps :: !Exclusive(Replay(steps))
  {
    hide Apply, Replay, Exclusive;
    var none: seq<Step> := [];
    var called := (none + [Call(1, key)]) + [Call(2, key)];
    var missed := (called + [Get(1, true)]) + [Get(2, true)];
    var late := (missed + [Lock(1, true)]) + [Tick(LOCK_TTL_MS)];
    ReplayLast(none, Call(1, key));
    ReplayLast(none + [Call(1, key)], Call(2, key));
    ReplayLast(called, Get(1, true));
    ReplayLast(called + [Get(1, true)], Get(2, true));
    ReplayLast(missed, Lock(1, true));
    ReplayLast(missed + [Lock(1, true)], Tick(LOCK_TTL_MS));
    ReplayLast(late, Lock(2, true));
    StartsEmpty();
    TwoCallersMiss(key);
    SecondLockSucceeds(key, Replay(missed));
  }

  lemma TwoCallersMiss(key: CacheKey)
    ensures var s := Apply(Apply(Apply(Apply(Start, Call(1, key)), Call(2, key)), Get(1, true)), Get(2, true));
            s == State(0, map[], map[], map[1 := Caller(key, Locking, None, 0, 0), 2 := Caller(key, Locking, None, 0, 0)], {})
  {
  }

  lemma SecondLockSucceeds(key: CacheKey, s: State)
    requires s == State(0, map[], map[], map[1 := Caller(key, Locking, None, 0, 0), 2 := Caller(key, Locking, None, 0, 0)], {})
    ensures !Exclusive(Apply(Apply(Apply(s, Lock(1, true)), Tick(LOCK_TTL_MS)), Lock(2, true)))
  {
    var late := Apply(Apply(s, Lock(1, true)), Tick(LOCK_TTL_MS));
    assert late.callers[2] == s.callers[2] && InFlight(late.callers[1]) && !Locked(late, key);
    TwoInFlight(Apply(late, Lock(2, true)), 1, 2);
  }

  lemma StartsEmpty()
    ensures Replay([]) == Start
  {
  }

  lemma TwoInFlight(s: State, a: nat, b: nat)
    requires a != b && a in s.callers && b in s.callers && s.callers[a].key == s.callers[b].key
    requires InFlight(s.callers[a]) && InFlight(s.callers[b])
    ensures !Exclusive(s)
  {
  }

  // ---- the callers around one call ----

  predicate Concerns(step: Step, id: nat) {
    !step.Tick? && step.id == id
  }

  lemma OthersKeepCaller(s: State, step: Step, id: nat)
    requires id in s.callers && !Concerns(step, id)
    ensures id in Apply(s, step).callers && Apply(s, step).callers[id] == s.callers[id]
  {
  }

  // ---- what the steps do ----

  /** A cached value is there until its time is over. */
  lemma CachedWhile(s: State, key: CacheKey)
    ensures Cached(s, key) == if key in s.cache && s.clock < s.cache[key].expiresAt then Some(s.cache[key].value) else None
  {
  }

  lemma CallSteps(s: State, id: nat, key: CacheKey)
    requires id !in s.callers
    ensures Apply(s, Call(id, key)) == With(s, id, Caller(key, Asking, None, 0, 0))
  {
  }

  /** A read that works answers with a live value; otherwise the caller goes for the lock. */
  lemma GetSteps(s: State, id: nat, redis: bool)
    requires id in s.callers && s.callers[id].place.Asking?
    ensures var c, s' := s.callers[id], Apply(s, Get(id, redis));
            if redis && Cached(s, c.key).Some? then s' == With(s, id, c.(place := Finished, answer := Some(Ok(Cached(s, c.key).value))))
            else s' == With(s, id, c.(place := Locking))
  {
  }

  /** The lock is taken, for five seconds, when no unexpired one is there. */
  lemma LockSteps(s: State, id: nat, redis: bool)
    requires id in s.callers && s.callers[id].place.Locking?
    ensures var c, s' := s.callers[id], Apply(s, Lock(id, redis));
            if redis && (c.key !in s.locks || s.locks[c.key] <= s.clock)
            then s' == With(s, id, c.(place := Fetching(s.clock))).(locks := s.locks[c.key := s.clock + 5000])
            else s' == With(s, id, c.(place := Waiting))
  {
  }

  /** The fetch answers the caller; a winner with a value goes on to store it. */
  lemma FetchSteps(s: State, id: nat, outcome: Answer)
    requires id in s.callers && (s.callers[id].place.Fetching? || s.callers[id].place.FallingBack?)
    ensures var c, s' := s.callers[id], Apply(s, Fetch(id, outcome));
            && id in s'.callers
            && s'.callers[id] == c.(place := if c.place.Fetching? && outcome.Ok? then Storing(outcome.value, c.place.since) else Finished,
                                    answer := Some(outcome), fetches := c.fetches + 1)
            && s'.cache == s.cache && s'.locks == s.locks && s'.clock == s.clock
  {
  }

  /** A poll is a read; after the fortieth miss the caller fetches itself. */
  lemma PollSteps(s: State, id: nat, redis: bool)
    requires id in s.callers && s.callers[id].place.Waiting?
    ensures var c, s' := s.callers[id], Apply(s, Poll(id, redis));
            if redis && Cached(s, c.key).Some?
            then s' == With(s, id, c.(place := Finished, answer := Some(Ok(Cached(s, c.key).value)), polls := c.polls + 1))
            else s' == With(s, id, c.(place := if c.polls + 1 == 40 then FallingBack else Waiting, polls := c.polls + 1))
  {
  }

  /** The winner stores its value for the given time, then gives the lock back. */
  lemma StoreSteps(s: State, id: nat, redis: bool, ttlSecs: int)
    requires id in s.callers && s.callers[id].place.Storing?
    ensures var c, s' := s.callers[id], Apply(s, Store(id, redis, ttlSecs));
            s' == With(s, id, c.(place := Releasing(c.place.since)))
                  .(cache := if redis && ttlSecs > 0 then s.cache[c.key := Stored(c.place.value, s.clock + ttlSecs * 1000)] else s.cache)
  {
  }

  lemma ReleaseSteps(s: State, id: nat, redis: bool)
    requires id in s.callers && s.callers[id].place.Releasing?
    ensures var c, s' := s.callers[id], Apply(s, Release(id, redis));
            s' == With(s, id, c.(place := Finished)).(locks := if redis then s.locks - {c.key} else s.locks)
  {
  }

  /** A caller that dies leaves its lock to run out. */
  lemma CrashSteps(s: State, id: nat)
    requires id in s.callers
    ensures Apply(s, Crash(id)) == With(s, id, s.callers[id].(place := Finished))
  {
  }

  // ---- a stored value is served ----

  /** The step puts a new value of the key into the cache. */
  ghost predicate StoresKey(s: State, step: Step, key: CacheKey) {
    step.Store? && step.redis && step.ttlSecs > 0
    && step.id in s.callers && s.callers[step.id].place.Storing? && s.callers[step.id].key == key
  }

  ghost predicate NoStoreOf(s: State, steps: seq<Step>, key: CacheKey) {
    forall n | 0 <= n < |steps| :: !StoresKey(RunFrom(s, steps[..n]), steps[n], key)
  }

  lemma StepKeepsCached(s: State, step: Step, key: CacheKey)
    requires !StoresKey(s, step, key)
    ensures var s' := Apply(s, step);
            && s.clock <= s'.clock && (key in s'.cache <==> key in s.cache) && (key in s.cache ==> s'.cache[key] == s.cache[key])
  {
    hide ReadCache, Locked;
  }

  lemma {:induction false} RunKeepsCached(s: State, steps: seq<Step>, key: CacheKey)
    requires NoStoreOf(s, steps, key)
    ensures var s' := RunFrom(s, steps);
            && s.clock <= s'.clock && (key in s'.cache <==> key in s.cache) && (key in s.cache ==> s'.cache[key] == s.cache[key])
  {
    hide Apply, StoresKey;
    if steps != [] {
      var front := steps[..|steps| - 1];
      assert forall n | 0 <= n < |front| :: front[..n] == steps[..n] && front[n] == steps[n];
      RunKeepsCached(s, front, key);
      StepKeepsCached(RunFrom(s, front), steps[|steps| - 1], key);
    }
  }

  /**
    What a winner stores for `ttlSecs` is what every read of the key in that time answers, without a fetch, as long as nobody
    stores another value; after that time a read misses.
   */
  lemma StoredValueIsServed(s: State, id: nat, ttlSecs: int, more: seq<Step>, reader: nat)
    requires id in s.callers && s.callers[id].place.Storing? && ttlSecs > 0
    requires NoStoreOf(Apply(s, Store(id, true, ttlSecs)), more, s.callers[id].key)
    requires var s' := RunFrom(Apply(s, Store(id, true, ttlSecs)), more);
             reader in s'.callers && s'.callers[reader].key == s.callers[id].key
    ensures var s', value := RunFrom(Apply(s, Store(id, true, ttlSecs)), more), s.callers[id].place.value;
            var c, alive := s'.callers[reader], s'.clock < s.clock + ttlSecs * 1000;
            && (c.place.Asking? ==>
                  Apply(s', Get(reader, true)).callers[reader] ==
                    if alive then c.(place := Finished, answer := Some(Ok(value))) else c.(place := Locking))
            && (c.place.Waiting? && alive ==>
                  Apply(s', Poll(reader, true)).callers[reader] ==
                    c.(place := Finished, answer := Some(Ok(value)), polls := c.polls + 1))
  {
    hide Apply, RunFrom, NoStoreOf;
    StoreSteps(s, id, true, ttlSecs);
    var s1 := Apply(s, Store(id, true, ttlSecs));
    RunKeepsCached(s1, more, s.callers[id].key);
    var s' := RunFrom(s1, more);
    if s'.callers[reader].place.Asking? {
      GetSteps(s', reader, true);
    } else if s'.callers[reader].place.Waiting? {
      PollSteps(s', reader, true);
    }
  }

  /** A released lock goes to the next caller that asks for it. */
  lemma ReleasedLockIsFree(s: State, id: nat, other: nat)
    requires id in s.callers && s.callers[id].place.Releasing?
    requires other in s.callers && s.callers[other].place.Locking? && s.callers[other].key == s.callers[id].key
    ensures var s' := Apply(s, Release(id, true)); Apply(s', Lock(other, true)).callers[other].place == Fetching(s.clock)
  {
    hide Apply;
    ReleaseSteps(s, id, true);
    LockSteps(Apply(s, Release(id, true)), other, true);
  }

  // ---- one call, in its own order ----

  predicate Hit(s: State, key: CacheKey, redis: bool) {
    redis && Cached(s, key).Some?
  }

  predicate LockFree(s: State, key: CacheKey) {
    key !in s.locks || s.locks[key] <= s.clock
  }

  /** What caller `id` finds when it reads the cache, then when it asks for the lock, then at its poll number `k`. */
  ghost function AtGet(s: State, id: nat, key: CacheKey, env: nat -> seq<Step>): State {
    RunFrom(Apply(s, Call(id, key)), env(0))
  }

  ghost function AtLock(s: State, id: nat, key: CacheKey, redis: nat -> bool, env: nat -> seq<Step>): State {
    RunFrom(Apply(AtGet(s, id, key, env), Get(id, redis(0))), env(1))
  }

  ghost function AtPoll(s: State, id: nat, redis: nat -> bool, env: nat -> seq<Step>, k: nat): State {
    RunFrom(AfterPolls(s, id, redis, env, k), [Tick(50)] + env(k + 2))
  }

  ghost function AfterPolls(s: State, id: nat, redis: nat -> bool, env: nat -> seq<Step>, k: nat): State {
    if k == 0 then s
    else Apply(RunFrom(AfterPolls(s, id, redis, env, k - 1), [Tick(50)] + env(k + 1)), Poll(id, redis(k + 1)))
  }

  /** From `s` on the caller polls: the first hit answers it, and 40 misses make it fetch. */
  ghost predicate Polled(s: State, id: nat, key: CacheKey, redis: nat -> bool, env: nat -> seq<Step>, outcome: Answer, r: Answer,
                         end: Caller) {
    && (forall k | 0 <= k < 40 && Hit(AtPoll(s, id, redis, env, k), key, redis(k + 2))
                   && (forall j | 0 <= j < k :: !Hit(AtPoll(s, id, redis, env, j), key, redis(j + 2))) ::
          r == Ok(Cached(AtPoll(s, id, redis, env, k), key).value) && end.fetches == 0 && end.polls == k + 1)
    && ((forall k | 0 <= k < 40 :: !Hit(AtPoll(s, id, redis, env, k), key, redis(k + 2))) ==>
          r == outcome && end.fetches == 1 && end.polls == 40)
  }

  ghost predicate Missed(s: State, id: nat, key: CacheKey, redis: nat -> bool, env: nat -> seq<Step>, n: nat) {
    forall j | 0 <= j < n :: !Hit(AtPoll(s, id, redis, env, j), key, redis(j + 2))
  }

  lemma MissedNone(s: State, id: nat, key: CacheKey, redis: nat -> bool, env: nat -> seq<Step>)
    ensures Missed(s, id, key, redis, env, 0) && AfterPolls(s, id, redis, env, 0) == s
  {
  }

  lemma MissedOneMore(s: State, id: nat, key: CacheKey, redis: nat -> bool, env: nat -> seq<Step>, n: nat)
    requires Missed(s, id, key, redis, env, n)
    ensures AtPoll(s, id, redis, env, n) == RunFrom(AfterPolls(s, id, redis, env, n), [Tick(50)] + env(n + 2))
    ensures AfterPolls(s, id, redis, env, n + 1) == Apply(AtPoll(s, id, redis, env, n), Poll(id, redis(n + 2)))
    ensures !Hit(AtPoll(s, id, redis, env, n), key, redis(n + 2)) ==> Missed(s, id, key, redis, env, n + 1)
  {
    hide Apply, RunFrom, Hit;
  }

  lemma PolledToHit(s: State, id: nat, key: CacheKey, redis: nat -> bool, env: nat -> seq<Step>, outcome: Answer, r: Answer, end: Caller,
                    n: nat)
    requires n < 40 && Missed(s, id, key, redis, env, n) && Hit(AtPoll(s, id, redis, env, n), key, redis(n + 2))
    requires r == Ok(Cached(AtPoll(s, id, redis, env, n), key).value) && end.fetches == 0 && end.polls == n + 1
    ensures Polled(s, id, key, redis, env, outcome, r, end)
  {
    hide Hit, Cached, AtPoll;
  }

  lemma PolledInVain(s: State, id: nat, key: CacheKey, redis: nat -> bool, env: nat -> seq<Step>, outcome: Answer, r: Answer, end: Caller)
    requires Missed(s, id, key, redis, env, 40) && r == outcome && end.fetches == 1 && end.polls == 40
    ensures Polled(s, id, key, redis, env, outcome, r, end)
  {
    hide Hit, Cached, AtPoll;
  }

  /** The same steps, as seen by the caller alone. */
  lemma CallGives(s: State, id: nat, key: CacheKey)
    requires id !in s.callers
    ensures var s' := Apply(s, Call(id, key)); id in s'.callers && s'.callers[id] == Caller(key, Asking, None, 0, 0)
  {
  }

  lemma GetGives(s: State, id: nat, redis: bool)
    requires id in s.callers && s.callers[id].place.Asking?
    ensures var c, s' := s.callers[id], Apply(s, Get(id, redis));
            id in s'.callers
            && s'.callers[id] == if Hit(s, c.key, redis) then c.(place := Finished, answer := Some(Ok(Cached(s, c.key).value)))
                                 else c.(place := Locking)
  {
    GetSteps(s, id, redis);
    hide Apply, Cached;
  }

  lemma LockGives(s: State, id: nat, redis: bool)
    requires id in s.callers && s.callers[id].place.Locking?
    ensures var c, s' := s.callers[id], Apply(s, Lock(id, redis));
            id in s'.callers
            && s'.callers[id] == if redis && LockFree(s, c.key) then c.(place := Fetching(s.clock)) else c.(place := Waiting)
  {
    LockSteps(s, id, redis);
    hide Apply;
  }

  class Coalescer {
    var s: State

    constructor ()
      ensures s == Start
    {
      s := Start;
    }

    /** What the other callers do, and time, between two steps of this one. */
    method Others(env: seq<Step>, id: nat)
      requires id in s.callers && Fetched(s)
      requires forall e | e in env :: !Concerns(e, id)
      modifies this
      ensures id in s.callers && s.callers[id] == old(s).callers[id] && Fetched(s)
      ensures s == RunFrom(old(s), env)
    {
      hide Apply, Fetched;
      assert env[..0] == [];
      for i := 0 to |env|
        invariant id in s.callers && s.callers[id] == old(s).callers[id] && Fetched(s)
        invariant s == RunFrom(old(s), env[..i])
      {
        assert env[i] in env;
        RunFromLast(old(s), env[..i], env[i]);
        assert env[..i + 1] == env[..i] + [env[i]];
        OthersKeepCaller(s, env[i], id);
        StepKeepsProvenance(s, env[i]);
        s := Apply(s, env[i]);
      }
      assert env[..|env|] == env;
    }

    /**
      `coalesce_cache` for caller `id`: `redis(n)` tells whether its n-th Redis call works, `env(n)` what happens around it
      before step n, `outcome` what its fetcher would return.
     */
    method CoalesceCache(id: nat, key: CacheKey, redis: nat -> bool, env: nat -> seq<Step>, outcome: Answer)
      returns (r: Answer)
      requires id !in s.callers && Fetched(s)
      requires forall n, e | e in env(n) :: !Concerns(e, id)
      modifies this
      ensures Fetched(s) && id in s.callers && s.callers[id].answer == Some(r)
      ensures s.callers[id].fetches <= 1 && s.callers[id].polls <= LOCK_MAX_RETRIES
      ensures r.Ok? ==> (key, r.value) in s.fetched
      ensures s.callers[id].fetches == 0 ==> r.Ok?
      ensures s.callers[id].fetches == 1 ==> r == outcome
      // A value alive in the cache at its read is its answer.
      ensures Hit(AtGet(old(s), id, key, env), key, redis(0)) ==>
                r == Ok(Cached(AtGet(old(s), id, key, env), key).value) && s.callers[id].fetches == 0 && s.callers[id].polls == 0
      // On a miss it fetches if it gets the lock, and polls if it does not.
      ensures !Hit(AtGet(old(s), id, key, env), key, redis(0)) ==>
                var l := AtLock(old(s), id, key, redis, env);
                if redis(1) && LockFree(l, key) then r == outcome && s.callers[id].fetches == 1 && s.callers[id].polls == 0
                else Polled(Apply(l, Lock(id, redis(1))), id, key, redis, env, outcome, r, s.callers[id])
    {
      hide Fetched, Cached, Apply, RunFrom, Polled, Hit, LockFree;
      CallGives(s, id, key);
      s := Run(s, Call(id, key));
      Others(env(0), id);
      GetGives(s, id, redis(0));
      s := Run(s, Get(id, redis(0)));
      if s.callers[id].place.Finished? {
        r := Reply(id);
        return;
      }
      Others(env(1), id);
      LockGives(s, id, redis(1));
      s := Run(s, Lock(id, redis(1)));
      if s.callers[id].place.Fetching? {
        Others(env(2), id);
        FetchSteps(s, id, outcome);
        s := Run(s, Fetch(id, outcome));
        r := Reply(id);
        return;
      }
      r := WaitForWinner(id, redis, env, outcome);
    }

    /** The loser's part: poll 40 times, 50 ms apart, then fetch after all. */
    method WaitForWinner(id: nat, redis: nat -> bool, env: nat -> seq<Step>, outcome: Answer) returns (r: Answer)
      requires id in s.callers && Fetched(s)
      requires s.callers[id] == Caller(s.callers[id].key, Waiting, None, 0, 0)
      requires forall n, e | e in env(n) :: !Concerns(e, id)
      modifies this
      ensures Fetched(s) && id in s.callers && s.callers[id].answer == Some(r) && s.callers[id].key == old(s).callers[id].key
      ensures s.callers[id].fetches <= 1 && s.callers[id].polls <= LOCK_MAX_RETRIES
      ensures r.Ok? ==> (s.callers[id].key, r.value) in s.fetched
      ensures s.callers[id].fetches == 0 ==> r.Ok?
      ensures s.callers[id].fetches == 1 ==> r == outcome
      ensures Polled(old(s), id, old(s).callers[id].key, redis, env, outcome, r, s.callers[id])
    {
      hide Fetched, Cached, Apply, RunFrom, AtPoll, AfterPolls, Missed, Polled;
      ghost var key := s.callers[id].key;
      MissedNone(s, id, key, redis, env);
      for attempt := 0 to LOCK_MAX_RETRIES
        invariant id in s.callers && Fetched(s) && s == AfterPolls(old(s), id, redis, env, attempt)
        invariant s.callers[id] == Caller(key, if attempt == LOCK_MAX_RETRIES then FallingBack else Waiting, None, 0, attempt)
        invariant Missed(old(s), id, key, redis, env, attempt)
      {
        MissedOneMore(old(s), id, key, redis, env, attempt);
        Others([Tick(LOCK_RETRY_MS)] + env(attempt + 2), id);
        PollSteps(s, id, redis(attempt + 2));
        s := Run(s, Poll(id, redis(attempt + 2)));
        if s.callers[id].place.Finished? {
          r := Reply(id);
          PolledToHit(old(s), id, key, redis, env, outcome, r, s.callers[id], attempt);
          return;
        }
      }
      Others(env(LOCK_MAX_RETRIES + 2), id);
      FetchSteps(s, id, outcome);
      s := Run(s, Fetch(id, outcome));
      r := Reply(id);
      PolledInVain(old(s), id, key, redis, env, outcome, r, s.callers[id]);
    }

    method Reply(id: nat) returns (r: Answer)
      requires Fetched(s) && id in s.callers && s.callers[id].answer.Some?
      ensures Some(r) == s.callers[id].answer
      ensures r.Ok? ==> (s.callers[id].key, r.value) in s.fetched
    {
      assert CallerFetched(s, s.callers[id]);
      r := s.callers[id].answer.value;
    }
  }

  function Run(s: State, step: Step): (s': State)
    requires Fetched(s)
    ensures Fetched(s') && s' == Apply(s, step)
  {
    StepKeepsProvenance(s, step);
    Apply(s, step)
  }
}
