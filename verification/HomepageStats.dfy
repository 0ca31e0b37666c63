/**
 The two-layer cache in front of the homepage statistics: a Redis cell shared by every process and an
 in-process snapshot with failure memory. The refresh flow of a process runs inside a singleflight section
 and is one atomic step here; requests that are answered before it are steps of their own.

 Times are nanoseconds. A payload carries `born`, the moment its refresh published it: history that no
 code reads, so that the age of whatever is served can be stated.
 */
module HomepageStats {
  import opened Wrappers

  const SECOND := 1_000_000_000
  const CACHE_TTL := 300 * SECOND
  const FAILURE_BACKOFF := 30 * SECOND
  const WINDOW_DAYS := 30

  datatype Availability = Available | Unavailable

  datatype StatTriple = StatTriple(value: int, availability: Availability)

  datatype Response = Response(
    windowDays: int,
    successful: StatTriple,
    processedTokens: StatTriple,
    activeVendors: StatTriple,
    availableModels: StatTriple,
    asOf: nat)

  predicate OperationalStatsOK(r: Response) {
    r.successful.availability.Available? && r.processedTokens.availability.Available?
  }

  datatype Payload = Payload(response: Response, born: nat)

  function UnavailableEnvelope(now: nat): Payload {
    var none := StatTriple(0, Unavailable);
    Payload(Response(WINDOW_DAYS, none, none, none, none, now / SECOND), now)
  }

  datatype Snapshot = Snapshot(payload: Payload, at: nat)

  /** The package-level variables of one process. */
  datatype Process = Process(snapshot: Option<Snapshot>, lastFailedAt: Option<nat>, failedPayload: Option<Payload>)

  const FRESH_PROCESS := Process(None, None, None)

  datatype CacheHeader = Hit | HitMemory | Miss | MissStale

  predicate InFailureBackoff(p: Process, now: nat) {
    p.lastFailedAt.Some? && now - p.lastFailedAt.value < FAILURE_BACKOFF
  }

  predicate HasFreshSnapshot(p: Process, now: nat) {
    p.snapshot.Some? && now - p.snapshot.value.at < CACHE_TTL
  }

  /** The last failure forbids a new aggregate and leaves something to serve instead. */
  predicate HeldBack(p: Process, now: nat) {
    InFailureBackoff(p, now) && (p.snapshot.Some? || p.failedPayload.Some?)
  }

  /** What the aggregate and its publication would yield if the section gets that far. */
  datatype Aggregate = Aggregate(response: Response, marshals: bool, publishedAt: nat)

  datatype Refreshed = Refreshed(process: Process, payload: Payload, header: CacheHeader, computed: bool, publish: Option<Payload>)

  /** One refresh section that starts at `now` and reads `redis` from the shared cell. */
  function Refresh(p: Process, now: nat, redis: Option<Payload>, a: Aggregate): Refreshed {
    if redis.Some? then
      Refreshed(p.(snapshot := Some(Snapshot(redis.value, now))), redis.value, Hit, false, None)
    else if HasFreshSnapshot(p, now) then
      Refreshed(p, p.snapshot.value.payload, HitMemory, false, None)
    else if InFailureBackoff(p, now) && p.snapshot.Some? then
      Refreshed(p, p.snapshot.value.payload, MissStale, false, None)
    else if InFailureBackoff(p, now) && p.failedPayload.Some? then
      Refreshed(p, p.failedPayload.value, Miss, false, None)
    else
      var payload := Payload(a.response, a.publishedAt);
      if a.marshals && OperationalStatsOK(a.response) then
        Refreshed(Process(Some(Snapshot(payload, now)), None, None), payload, Miss, true, Some(payload))
      else
        var failed := p.(lastFailedAt := Some(now), failedPayload := if a.marshals then Some(payload) else None);
        if p.snapshot.Some? then Refreshed(failed, p.snapshot.value.payload, MissStale, true, None)
        else Refreshed(failed, if a.marshals then payload else UnavailableEnvelope(now), Miss, true, None)
  }

  /** The variables of one process and the code that updates them in place. */
  class Cache {
    var snapshotPayload: Option<Payload>
    var snapshotAt: nat
    var lastFailedAt: Option<nat>
    var lastFailedPayload: Option<Payload>

    ghost function Value(): Process
      reads this
    {
      Process(if snapshotPayload.Some? then Some(Snapshot(snapshotPayload.value, snapshotAt)) else None,
              lastFailedAt, lastFailedPayload)
    }

    constructor ()
      ensures Value() == FRESH_PROCESS
    {
      snapshotPayload, snapshotAt, lastFailedAt, lastFailedPayload := None, 0, None, None;
    }

    method WriteSnapshot(payload: Payload, at: nat)
      modifies this
      ensures Value() == old(Value()).(snapshot := Some(Snapshot(payload, at)))
    {
      snapshotPayload := Some(payload);
      snapshotAt := at;
    }

    method MarkFailure(at: nat, failedPayload: Option<Payload>)
      modifies this
      ensures Value() == old(Value()).(lastFailedAt := Some(at), failedPayload := failedPayload)
    {
      lastFailedAt := Some(at);
      lastFailedPayload := failedPayload;
    }

    method ClearFailure()
      modifies this
      ensures Value() == old(Value()).(lastFailedAt := None, failedPayload := None)
    {
      lastFailedAt := None;
      lastFailedPayload := None;
    }

    method RefreshSection(now: nat, redis: Option<Payload>, a: Aggregate)
      returns (payload: Payload, header: CacheHeader, publish: Option<Payload>)
      modifies this
      ensures var r := Refresh(old(Value()), now, redis, a);
              Value() == r.process && payload == r.payload && header == r.header && publish == r.publish
    {
      publish := None;
      if redis.Some? {
        WriteSnapshot(redis.value, now);
        return redis.value, Hit, None;
      }
      if snapshotPayload.Some? && now - snapshotAt < CACHE_TTL {
        return snapshotPayload.value, HitMemory, None;
      }
      var stale := snapshotPayload;
      if lastFailedAt.Some? && now - lastFailedAt.value < FAILURE_BACKOFF {
        if stale.Some? {
          return stale.value, MissStale, None;
        }
        if lastFailedPayload.Some? {
          return lastFailedPayload.value, Miss, None;
        }
      }
      var computed := Payload(a.response, a.publishedAt);
      if !a.marshals {
        MarkFailure(now, None);
        if stale.Some? {
          return stale.value, MissStale, None;
        }
        return UnavailableEnvelope(now), Miss, None;
      }
      if OperationalStatsOK(a.response) {
        WriteSnapshot(computed, now);
        ClearFailure();
        return computed, Miss, Some(computed);
      }
      MarkFailure(now, Some(computed));
      if stale.Some? {
        return stale.value, MissStale, None;
      }
      return computed, Miss, None;
    }
  }

  // ----- Several processes, one Redis cell -----

  datatype Cell = Cell(payload: Payload, expiresAt: nat)

  datatype Served = Served(process: nat, at: nat, payload: Payload, header: CacheHeader)

  /** A computed aggregate: which process, when its section started, what came out, whether there was a snapshot to
      fall back on, and which answer the section gave. */
  datatype Computation = Computation(process: nat, startedAt: nat, payload: Payload, marshalled: bool, stale: bool, answer: nat)
  {
    predicate Published() { marshalled && OperationalStatsOK(payload.response) }
  }

  datatype State = State(
    clock: nat,
    redis: Option<Cell>,
    processes: seq<Process>,
    computed: seq<Computation>,
    served: seq<Served>)

  datatype Step =
    | Handle(process: nat, at: nat, redisAnswers: bool)
    | Section(process: nat, now: nat, redisAnswers: bool, computedAt: nat, aggregate: Aggregate, redisStores: bool)

  function Init(processes: nat): State {
    State(0, None, seq(processes, _ => FRESH_PROCESS), [], [])
  }

  /** What a Redis read returns at a given time: nothing once the cell expired or when Redis is off or down. */
  function RedisGet(s: State, redisEnabled: bool, answers: bool, at: nat): Option<Payload> {
    if redisEnabled && answers && s.redis.Some? && at < s.redis.value.expiresAt
    then Some(s.redis.value.payload) else None
  }

  /** The clock is monotone; an aggregate is computed after its section starts and published after that,
      and states the second in which it was computed. */
  predicate Enabled(s: State, step: Step) {
    match step
    case Handle(p, at, _) => p < |s.processes| && s.clock <= at
    case Section(p, now, _, computedAt, a, _) =>
      && p < |s.processes|
      && s.clock <= now <= computedAt <= a.publishedAt
      && a.response.asOf == computedAt / SECOND
  }

  function Apply(redisEnabled: bool, s: State, step: Step): State
    requires Enabled(s, step)
  {
    match step
    case Handle(p, at, answers) =>
      var redis := RedisGet(s, redisEnabled, answers, at);
      var process := s.processes[p];
      if redis.Some? then s.(clock := at, served := s.served + [Served(p, at, redis.value, Hit)])
      else if HasFreshSnapshot(process, at) then
        s.(clock := at, served := s.served + [Served(p, at, process.snapshot.value.payload, HitMemory)])
      else s.(clock := at)
    case Section(p, now, answers, _, a, stores) =>
      var process := s.processes[p];
      var r := Refresh(process, now, RedisGet(s, redisEnabled, answers, now), a);
      var end := if r.computed then a.publishedAt else now;
      State(end,
            if r.publish.Some? && redisEnabled && stores
            then Some(Cell(r.publish.value, a.publishedAt + CACHE_TTL)) else s.redis,
            s.processes[p := r.process],
            if r.computed
            then s.computed + [Computation(p, now, Payload(a.response, a.publishedAt), a.marshals, process.snapshot.Some?,
                                           |s.served|)]
            else s.computed,
            s.served + [Served(p, end, r.payload, r.header)])
  }

  function Exec(redisEnabled: bool, start: State, steps: seq<Step>): Option<State> {
    if steps == [] then Some(start)
    else
      match Exec(redisEnabled, start, steps[..|steps| - 1])
      case None => None
      case Some(s) =>
        var last := steps[|steps| - 1];
        if Enabled(s, last) then Some(Apply(redisEnabled, s, last)) else None
  }

  // ----- Invariants -----

  /** A payload that a successful computation of this run published, unchanged. */
  ghost predicate Genuine(s: State, payload: Payload) {
    exists i :: 0 <= i < |s.computed| && s.computed[i].Published() && s.computed[i].payload == payload
  }

  /** Cached payloads are genuine; the cell dies a TTL after publication, a snapshot may have been
      restamped only while the cell was alive. */
  ghost predicate CachesOK(s: State) {
    && (s.redis.Some? ==>
          && Genuine(s, s.redis.value.payload)
          && s.redis.value.expiresAt == s.redis.value.payload.born + CACHE_TTL)
    && (forall p :: 0 <= p < |s.processes| && s.processes[p].snapshot.Some? ==>
                      var snapshot := s.processes[p].snapshot.value;
                      Genuine(s, snapshot.payload) && snapshot.at < snapshot.payload.born + CACHE_TTL)
  }

  /** What was served: a genuine payload below its age bound, or an honest failure. */
  ghost predicate ServedOK(s: State, x: Served) {
    match x.header
    case Hit => Genuine(s, x.payload) && x.at < x.payload.born + CACHE_TTL
    case HitMemory => Genuine(s, x.payload) && x.at + 1 < x.payload.born + 2 * CACHE_TTL
    case MissStale => Genuine(s, x.payload)
    case Miss => exists i :: 0 <= i < |s.computed| && Supplies(s.computed[i], x)
  }

  /** An aggregate of the same process whose payload was served, or whose failure to marshal left nothing to serve. */
  predicate Supplies(c: Computation, x: Served) {
    && c.process == x.process
    && if c.marshalled then x.payload == c.payload else !c.stale && x.payload == UnavailableEnvelope(c.startedAt)
  }

  /** The section of an aggregate answered with the aggregate itself if it was published; otherwise with the snapshot,
      or without one with the aggregate if it could be marshalled, and with the unavailable envelope if not. */
  ghost predicate AnswerOK(s: State, c: Computation) {
    && c.answer < |s.served|
    && var x := s.served[c.answer];
       && x.process == c.process
       && (c.Published() ==> x.header == Miss && x.payload == c.payload)
       && (!c.Published() && c.stale ==> x.header == MissStale && Genuine(s, x.payload))
       && (!c.Published() && !c.stale ==>
             x.header == Miss && x.payload == if c.marshalled then c.payload else UnavailableEnvelope(c.startedAt))
  }

  /** What the variables of a process remember of its latest aggregate. */
  ghost predicate Remembers(s: State, c: Computation)
    requires c.process < |s.processes|
  {
    var p := s.processes[c.process];
    && c.startedAt <= s.clock
    && (c.Published() ==> p.snapshot.Some? && p.snapshot.value.at >= c.startedAt)
    && (!c.Published() ==> p.lastFailedAt == Some(c.startedAt) && (p.failedPayload.Some? <==> c.marshalled))
  }

  predicate LatestOf(s: State, i: nat)
    requires i < |s.computed|
  {
    forall j :: i < j < |s.computed| ==> s.computed[j].process != s.computed[i].process
  }

  /** An aggregate of process `p` that could not be published. */
  predicate FailedWith(c: Computation, p: nat, payload: Payload) {
    c.process == p && c.marshalled && !c.Published() && c.payload == payload
  }

  ghost predicate MemoryOK(s: State) {
    && (forall i :: 0 <= i < |s.computed| ==> s.computed[i].process < |s.processes|)
    && (forall i: nat :: i < |s.computed| && LatestOf(s, i) ==> Remembers(s, s.computed[i]))
    && (forall p :: 0 <= p < |s.processes| && s.processes[p].failedPayload.Some? ==>
                      exists i :: 0 <= i < |s.computed| && FailedWith(s.computed[i], p, s.processes[p].failedPayload.value))
  }

  /** No computation of the same process lies strictly between the two. */
  predicate Successive(s: State, i: nat, j: nat)
  {
    && i < j < |s.computed|
    && s.computed[i].process == s.computed[j].process
    && (forall k :: i < k < j ==> s.computed[k].process != s.computed[i].process)
  }

  predicate SpacingOK(first: Computation, second: Computation) {
    && (first.Published() ==> second.startedAt - first.startedAt >= CACHE_TTL)
    && (second.startedAt - first.startedAt < FAILURE_BACKOFF ==> !first.marshalled && !second.stale)
  }

  ghost predicate Inv(s: State) {
    && CachesOK(s)
    && MemoryOK(s)
    && (forall i :: 0 <= i < |s.served| ==> ServedOK(s, s.served[i]))
    && (forall i :: 0 <= i < |s.computed| ==> AnswerOK(s, s.computed[i]))
    && (forall i: nat, j: nat :: Successive(s, i, j) ==> SpacingOK(s.computed[i], s.computed[j]))
  }

  lemma GenuineGrows(s: State, t: State)
    requires s.computed <= t.computed
    ensures forall payload :: Genuine(s, payload) ==> Genuine(t, payload)
    ensures forall x :: ServedOK(s, x) ==> ServedOK(t, x)
  {
    forall payload | Genuine(s, payload) ensures Genuine(t, payload) {
      var i :| 0 <= i < |s.computed| && s.computed[i].Published() && s.computed[i].payload == payload;
      assert t.computed[i] == s.computed[i];
    }
    forall x | ServedOK(s, x) ensures ServedOK(t, x) {
      if x.header.Miss? {
        var i :| 0 <= i < |s.computed| && Supplies(s.computed[i], x);
        assert t.computed[i] == s.computed[i];
      }
    }
  }

  lemma CachesKept(redisEnabled: bool, s: State, step: Step)
    requires CachesOK(s) && Enabled(s, step)
    ensures CachesOK(Apply(redisEnabled, s, step))
  {
    var t := Apply(redisEnabled, s, step);
    GenuineGrows(s, t);
    if step.Section? {
      var r := Refresh(s.processes[step.process], step.now, RedisGet(s, redisEnabled, step.redisAnswers, step.now), step.aggregate);
      if r.publish.Some? {
        assert t.computed[|s.computed|].payload == r.publish.value;
        assert Genuine(t, r.publish.value);
      }
    }
  }

  lemma ServedKept(redisEnabled: bool, s: State, step: Step)
    requires CachesOK(s) && MemoryOK(s) && Enabled(s, step)
    requires forall i :: 0 <= i < |s.served| ==> ServedOK(s, s.served[i])
    ensures forall i :: 0 <= i < |Apply(redisEnabled, s, step).served| ==>
                          ServedOK(Apply(redisEnabled, s, step), Apply(redisEnabled, s, step).served[i])
  {
    var t := Apply(redisEnabled, s, step);
    GenuineGrows(s, t);
    if step.Section? {
      var p := s.processes[step.process];
      var r := Refresh(p, step.now, RedisGet(s, redisEnabled, step.redisAnswers, step.now), step.aggregate);
      var x := t.served[|s.served|];
      if r.header.Miss? && r.computed {
        assert Supplies(t.computed[|s.computed|], x);
      }
      if r.header.Miss? && !r.computed {
        var i :| 0 <= i < |s.computed| && FailedWith(s.computed[i], step.process, p.failedPayload.value);
        assert t.computed[i] == s.computed[i] && Supplies(t.computed[i], x);
      }
      assert ServedOK(t, t.served[|s.served|]);
    }
  }

  /** A section that computed was neither held back nor supplied with a fresh payload. */
  lemma MemoryKept(redisEnabled: bool, s: State, step: Step)
    requires MemoryOK(s) && Enabled(s, step)
    ensures MemoryOK(Apply(redisEnabled, s, step))
  {
    var t := Apply(redisEnabled, s, step);
    forall i: nat | i < |t.computed| && LatestOf(t, i) ensures Remembers(t, t.computed[i]) {
      RemembersKept(redisEnabled, s, step, i);
    }
    forall p | 0 <= p < |t.processes| && t.processes[p].failedPayload.Some?
      ensures exists i :: 0 <= i < |t.computed| && FailedWith(t.computed[i], p, t.processes[p].failedPayload.value)
    {
      FailedPayloadKept(redisEnabled, s, step, p);
    }
  }

  lemma RemembersKept(redisEnabled: bool, s: State, step: Step, i: nat)
    requires MemoryOK(s) && Enabled(s, step)
    requires i < |Apply(redisEnabled, s, step).computed| && LatestOf(Apply(redisEnabled, s, step), i)
    ensures var t := Apply(redisEnabled, s, step);
            t.computed[i].process < |t.processes| && Remembers(t, t.computed[i])
  {
    var t := Apply(redisEnabled, s, step);
    if i < |s.computed| {
      assert LatestOf(s, i) by {
        forall j | i < j < |s.computed| ensures s.computed[j].process != s.computed[i].process {
          assert t.computed[j] == s.computed[j];
        }
      }
      assert Remembers(s, s.computed[i]);
      if |t.computed| > |s.computed| {
        assert t.computed[|s.computed|].process != t.computed[i].process;
      }
    }
  }

  lemma FailedPayloadKept(redisEnabled: bool, s: State, step: Step, p: nat)
    requires MemoryOK(s) && Enabled(s, step)
    requires p < |Apply(redisEnabled, s, step).processes| && Apply(redisEnabled, s, step).processes[p].failedPayload.Some?
    ensures var t := Apply(redisEnabled, s, step);
            exists i :: 0 <= i < |t.computed| && FailedWith(t.computed[i], p, t.processes[p].failedPayload.value)
  {
    var t := Apply(redisEnabled, s, step);
    if t.processes[p].failedPayload == s.processes[p].failedPayload {
      var i :| 0 <= i < |s.computed| && FailedWith(s.computed[i], p, s.processes[p].failedPayload.value);
      assert t.computed[i] == s.computed[i];
    } else {
      assert FailedWith(t.computed[|s.computed|], p, t.processes[p].failedPayload.value);
    }
  }

  lemma AnswersKept(redisEnabled: bool, s: State, step: Step)
    requires CachesOK(s) && Enabled(s, step) && forall i :: 0 <= i < |s.computed| ==> AnswerOK(s, s.computed[i])
    ensures var t := Apply(redisEnabled, s, step); forall i :: 0 <= i < |t.computed| ==> AnswerOK(t, t.computed[i])
  {
    var t := Apply(redisEnabled, s, step);
    GenuineGrows(s, t);
    forall i | 0 <= i < |t.computed| ensures AnswerOK(t, t.computed[i]) {
      if i < |s.computed| {
        assert AnswerOK(s, s.computed[i]) && t.computed[i] == s.computed[i];
        assert t.served[s.computed[i].answer] == s.served[s.computed[i].answer];
      }
    }
  }

  lemma SpacingKept(redisEnabled: bool, s: State, step: Step)
    requires MemoryOK(s) && Enabled(s, step)
    requires forall i: nat, j: nat :: Successive(s, i, j) ==> SpacingOK(s.computed[i], s.computed[j])
    ensures var t := Apply(redisEnabled, s, step);
            forall i: nat, j: nat :: Successive(t, i, j) ==> SpacingOK(t.computed[i], t.computed[j])
  {
    var t := Apply(redisEnabled, s, step);
    forall i: nat, j: nat | Successive(t, i, j) ensures SpacingOK(t.computed[i], t.computed[j]) {
      if j < |s.computed| {
        assert Successive(s, i, j) by {
          forall k | i < k < j ensures s.computed[k].process != s.computed[i].process {
            assert t.computed[k] == s.computed[k];
          }
        }
      } else {
        assert LatestOf(s, i) by {
          forall k | i < k < |s.computed| ensures s.computed[k].process != s.computed[i].process {
            assert t.computed[k] == s.computed[k];
          }
        }
        assert Remembers(s, s.computed[i]);
      }
    }
  }

  lemma {:induction false} InvAlways(redisEnabled: bool, processes: nat, steps: seq<Step>)
    ensures Exec(redisEnabled, Init(processes), steps).Some? ==> Inv(Exec(redisEnabled, Init(processes), steps).value)
  {
    if steps != [] && Exec(redisEnabled, Init(processes), steps).Some? {
      InvAlways(redisEnabled, processes, steps[..|steps| - 1]);
      var s, step := Exec(redisEnabled, Init(processes), steps[..|steps| - 1]).value, steps[|steps| - 1];
      CachesKept(redisEnabled, s, step);
      ServedKept(redisEnabled, s, step);
      AnswersKept(redisEnabled, s, step);
      MemoryKept(redisEnabled, s, step);
      SpacingKept(redisEnabled, s, step);
    }
  }

  // ----- Main results -----

  /** In every run of any number of processes, Redis and every snapshot hold only payloads whose two
      operational aggregates succeeded, byte for byte as they were published. */
  lemma OnlyGoodPayloadsAreCached(redisEnabled: bool, processes: nat, steps: seq<Step>)
    requires Exec(redisEnabled, Init(processes), steps).Some?
    ensures var s := Exec(redisEnabled, Init(processes), steps).value;
            && (s.redis.Some? ==>
                  var payload := s.redis.value.payload;
                  && payload.response.successful.availability == Available
                  && payload.response.processedTokens.availability == Available
                  && Genuine(s, payload))
            && (forall p :: 0 <= p < |s.processes| && s.processes[p].snapshot.Some? ==>
                  var payload := s.processes[p].snapshot.value.payload;
                  && payload.response.successful.availability == Available
                  && payload.response.processedTokens.availability == Available
                  && Genuine(s, payload))
  {
    InvAlways(redisEnabled, processes, steps);
  }

  /** A section whose aggregate failed leaves Redis and the snapshot alone and serves the snapshot if any. */
  lemma FailedRefreshKeepsCaches(redisEnabled: bool, s: State, step: Step)
    requires Enabled(s, step) && step.Section?
    requires !step.aggregate.marshals || !OperationalStatsOK(step.aggregate.response)
    requires RedisGet(s, redisEnabled, step.redisAnswers, step.now).None?
    ensures var t := Apply(redisEnabled, s, step);
            && t.redis == s.redis
            && t.processes[step.process].snapshot == s.processes[step.process].snapshot
            && (s.processes[step.process].snapshot.Some? ==>
                  t.served[|s.served|].payload == s.processes[step.process].snapshot.value.payload)
            && (forall p :: 0 <= p < |s.processes| && p != step.process ==> t.processes[p] == s.processes[p])
  {
  }

  /** Nothing that is served was rewritten: a cached answer is a published payload with its own `as_of`,
      younger than one TTL from Redis and, by one tick, younger than two from memory. */
  lemma ServedAges(redisEnabled: bool, processes: nat, steps: seq<Step>, i: nat)
    requires Exec(redisEnabled, Init(processes), steps).Some?
    requires i < |Exec(redisEnabled, Init(processes), steps).value.served|
    ensures var s := Exec(redisEnabled, Init(processes), steps).value;
            var x := s.served[i];
            && (x.header.Hit? ==> Genuine(s, x.payload) && x.at - x.payload.born < CACHE_TTL)
            && (x.header.HitMemory? ==> Genuine(s, x.payload) && x.at - x.payload.born < 2 * CACHE_TTL - 1)
            && (x.header.MissStale? ==> Genuine(s, x.payload))
            && (x.header.Miss? ==> exists k :: 0 <= k < |s.computed| && Supplies(s.computed[k], x))
  {
    InvAlways(redisEnabled, processes, steps);
    var s := Exec(redisEnabled, Init(processes), steps).value;
    assert ServedOK(s, s.served[i]);
  }

  /** In every run the section of a published aggregate answered with that very aggregate. One that failed to publish
      answered with a published payload if it had a snapshot, else with its own aggregate if it could be marshalled,
      and only otherwise with the unavailable envelope. */
  lemma AnswersOfAggregates(redisEnabled: bool, processes: nat, steps: seq<Step>, i: nat)
    requires Exec(redisEnabled, Init(processes), steps).Some?
    requires i < |Exec(redisEnabled, Init(processes), steps).value.computed|
    ensures var s := Exec(redisEnabled, Init(processes), steps).value;
            var c := s.computed[i];
            && c.answer < |s.served| && s.served[c.answer].process == c.process
            && var x := s.served[c.answer];
               if c.marshalled && c.payload.response.successful.availability == Available
                  && c.payload.response.processedTokens.availability == Available
               then x.header == Miss && x.payload == c.payload
               else if c.stale then x.header == MissStale && Genuine(s, x.payload)
               else x.header == Miss && x.payload == if c.marshalled then c.payload else UnavailableEnvelope(c.startedAt)
  {
    InvAlways(redisEnabled, processes, steps);
    assert AnswerOK(Exec(redisEnabled, Init(processes), steps).value,
                    Exec(redisEnabled, Init(processes), steps).value.computed[i]);
  }

  /** The unavailable envelope shows no number as available, and an unavailable aggregate is never published. */
  lemma EnvelopeIsHonest(now: nat, born: nat)
    ensures var r := UnavailableEnvelope(now).response;
            && [r.successful, r.processedTokens, r.activeVendors, r.availableModels] == seq(4, _ => StatTriple(0, Unavailable))
            && r.asOf == now / 1_000_000_000 && r.windowDays == 30
            && forall p, startedAt, stale, answer :: !Computation(p, startedAt, Payload(r, born), true, stale, answer).Published()
  {
  }

  /** What a section that publishes does: Redis, if it is on and takes the write, holds the payload for one lifetime from
      publication, the snapshot holds it from the start of the section, and the failure memory is empty. */
  lemma PublicationFillsBothCaches(redisEnabled: bool, s: State, step: Step)
    requires Enabled(s, step) && step.Section?
    requires |Apply(redisEnabled, s, step).computed| > |s.computed|
    requires Apply(redisEnabled, s, step).computed[|s.computed|].Published()
    ensures var t := Apply(redisEnabled, s, step);
            var payload := t.computed[|s.computed|].payload;
            && payload == Payload(step.aggregate.response, step.aggregate.publishedAt)
            && t.processes[step.process] == Process(Some(Snapshot(payload, step.now)), None, None)
            && t.redis == if redisEnabled && step.redisStores
                          then Some(Cell(payload, step.aggregate.publishedAt + 300_000_000_000)) else s.redis
  {
  }

  /** Before any refresh a request is answered exactly when Redis or a fresh snapshot can answer it, and otherwise nothing
      happens to it yet. */
  lemma HandledIff(redisEnabled: bool, s: State, step: Step)
    requires Enabled(s, step) && step.Handle?
    ensures var t, p := Apply(redisEnabled, s, step), s.processes[step.process];
            && t.processes == s.processes && t.redis == s.redis && t.computed == s.computed
            && |t.served| - |s.served| ==
               if (redisEnabled && step.redisAnswers && s.redis.Some? && step.at < s.redis.value.expiresAt)
                  || (p.snapshot.Some? && step.at - p.snapshot.value.at < 300_000_000_000) then 1 else 0
  {
  }

  /** Without an aggregate a request is answered from the first layer that has something: Redis, the own snapshot, or
      after a recent failure the payload of that failure; `hit-memory` says that the snapshot is fresh. */
  lemma CachedAnswers(redisEnabled: bool, s: State, step: Step)
    requires Enabled(s, step) && Apply(redisEnabled, s, step).computed == s.computed
    requires |Apply(redisEnabled, s, step).served| > |s.served|
    ensures var t, p := Apply(redisEnabled, s, step), s.processes[step.process];
            var x := t.served[|s.served|];
            var now := if step.Handle? then step.at else step.now;
            && t.redis == s.redis && x.process == step.process && x.at == now
            && (redisEnabled && step.redisAnswers && s.redis.Some? && now < s.redis.value.expiresAt ==>
                  x.header == Hit && x.payload == s.redis.value.payload)
            && (x.header == Hit ==> redisEnabled && step.redisAnswers && s.redis.Some? && now < s.redis.value.expiresAt)
            && (x.header != Hit && p.snapshot.Some? ==>
                  && x.payload == p.snapshot.value.payload
                  && x.header == if now - p.snapshot.value.at < 300_000_000_000 then HitMemory else MissStale)
            && (x.header != Hit && p.snapshot.None? ==> x.header == Miss && p.failedPayload == Some(x.payload))
            && (x.header == MissStale || x.header == Miss ==>
                  p.lastFailedAt.Some? && now - p.lastFailedAt.value < 30_000_000_000)
  {
  }

  /** In one process a published aggregate is followed by at least a TTL without another, and any other
      aggregate by at least the failure backoff, unless marshalling failed while there was no snapshot. */
  lemma AggregatesAreSpaced(redisEnabled: bool, processes: nat, steps: seq<Step>, i: nat, j: nat)
    requires Exec(redisEnabled, Init(processes), steps).Some?
    requires Successive(Exec(redisEnabled, Init(processes), steps).value, i, j)
    ensures var computed := Exec(redisEnabled, Init(processes), steps).value.computed;
            var gap := computed[j].startedAt - computed[i].startedAt;
            && (computed[i].Published() ==> gap >= CACHE_TTL)
            && (computed[i].marshalled || computed[j].stale ==> gap >= FAILURE_BACKOFF)
  {
    InvAlways(redisEnabled, processes, steps);
  }

  // ----- The two bounds are exact -----

  function OkResponse(asOf: nat): Response {
    var one := StatTriple(1, Available);
    Response(WINDOW_DAYS, one, one, one, one, asOf)
  }

  /** Process 0 publishes, process 1 restamps the payload from Redis, then serves it from memory. */
  function RestampedRun(restampAt: nat, servedAt: nat): seq<Step> {
    [ Section(0, 0, true, 0, Aggregate(OkResponse(0), true, 0), true),
      Section(1, restampAt, true, restampAt, Aggregate(OkResponse(restampAt / SECOND), true, restampAt), true),
      Handle(1, servedAt, false) ]
  }

  /** Every age below that bound is reached by some answer from memory. */
  lemma MemoryAgeBoundIsTight(age: nat)
    requires age < 2 * CACHE_TTL - 1
    ensures exists steps, i: nat :: HitsMemoryAtAge(steps, i, age)
  {
    var restampAt := if age < CACHE_TTL then age else CACHE_TTL - 1;
    var steps := RestampedRun(restampAt, age);
    var s0 := Init(2);
    var s1 := Apply(true, s0, steps[0]);
    assert Exec(true, s0, steps[..1]) == Some(s1) by {
      assert steps[..1][..0] == [];
    }
    var s2 := Apply(true, s1, steps[1]);
    assert Exec(true, s0, steps[..2]) == Some(s2) by {
      assert steps[..2][..1] == steps[..1];
    }
    var s3 := Apply(true, s2, steps[2]);
    assert Exec(true, s0, steps) == Some(s3) by {
      assert steps[..3][..2] == steps[..2];
    }
    var payload := Payload(OkResponse(0), 0);
    assert s1.redis == Some(Cell(payload, CACHE_TTL)) && |s1.served| == 1;
    assert s2.processes[1].snapshot == Some(Snapshot(payload, restampAt)) && |s2.served| == 2;
    assert s3.served[2] == Served(1, age, payload, HitMemory);
    assert HitsMemoryAtAge(steps, 2, age);
  }

  predicate HitsMemoryAtAge(steps: seq<Step>, i: nat, age: nat) {
    var end := Exec(true, Init(2), steps);
    && end.Some? && i < |end.value.served|
    && end.value.served[i].header.HitMemory?
    && end.value.served[i].at - end.value.served[i].payload.born == age
  }

  /** After a marshalling failure in a process without a snapshot the backoff holds nothing back: the next
      section that finds Redis empty computes again, whenever it starts. It is the only such case. */
  lemma BackoffFailsExactlyWithoutAnswer(p: Process, now: nat, a: Aggregate)
    ensures Refresh(p, now, None, a).computed <==> !HasFreshSnapshot(p, now) && !HeldBack(p, now)
    ensures InFailureBackoff(p, now) && Refresh(p, now, None, a).computed ==> p.snapshot.None? && p.failedPayload.None?
    ensures p.snapshot.None? && p.failedPayload.None? ==> Refresh(p, now, None, a).computed
    ensures p.snapshot.None? && !a.marshals && Refresh(p, now, None, a).computed ==>
              Refresh(p, now, None, a).process == Process(None, Some(now), None)
  {
  }

  predicate RecomputesAtGap(steps: seq<Step>, gap: nat) {
    var end := Exec(false, Init(1), steps);
    && end.Some? && Successive(end.value, 0, 1)
    && end.value.computed[1].startedAt - end.value.computed[0].startedAt == gap
  }

  /** So no spacing at all can be promised when marshalling may fail: every gap occurs. */
  lemma MarshalFailureDefeatsBackoff(gap: nat)
    ensures exists steps :: RecomputesAtGap(steps, gap)
  {
    var steps := [ Section(0, 0, true, 0, Aggregate(OkResponse(0), false, 0), true),
                   Section(0, gap, true, gap, Aggregate(OkResponse(gap / SECOND), false, gap), true) ];
    var s0 := Init(1);
    var s1 := Apply(false, s0, steps[0]);
    assert Exec(false, s0, steps[..1]) == Some(s1) by {
      assert steps[..1][..0] == [];
    }
    var s2 := Apply(false, s1, steps[1]);
    assert Exec(false, s0, steps) == Some(s2) by {
      assert steps[..2][..1] == steps[..1];
    }
    assert s1.processes[0] == Process(None, Some(0), None) && |s1.computed| == 1;
    assert |s2.computed| == 2 && s2.computed[0] == s1.computed[0] && s2.computed[1].startedAt == gap;
    assert RecomputesAtGap(steps, gap);
  }
}
