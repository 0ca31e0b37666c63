/**
 The in-memory sliding-window rate limiter as a value: the request window of each key, the key store
 with its recency list, and the refinement to "count the accepted requests in the log".

 Clock readings are nanoseconds; windows compare whole seconds, eviction compares nanoseconds.
 */
module RateLimiter {
  import opened Wrappers

  const SECOND := 1_000_000_000

  function Unix(t: nat): nat {
    t / SECOND
  }

  // ----- One key's window, oldest request first -----

  function DropExpired(q: seq<nat>, now: nat, duration: int): seq<nat> {
    if q != [] && now - q[0] >= duration then DropExpired(q[1..], now, duration) else q
  }

  function RemoveExpired(q: seq<nat>, now: nat, duration: int): seq<nat> {
    if q == [] || now - q[0] < duration then q
    else if now - q[|q| - 1] >= duration then []
    else DropExpired(q, now, duration)
  }

  predicate Ordered(q: seq<nat>) {
    forall i, j :: 0 <= i < j < |q| ==> q[i] <= q[j]
  }

  /** How many of the timestamps lie inside the window that ends at `now`. */
  function InWindow(q: seq<nat>, now: nat, duration: int): nat {
    if q == [] then 0
    else InWindow(q[..|q| - 1], now, duration) + if now - q[|q| - 1] < duration then 1 else 0
  }

  // ----- The key store and its recency list, most recent first -----

  datatype Entry = Entry(lastActive: nat, requests: seq<nat>)

  datatype Limiter = Limiter(store: map<string, Entry>, lru: seq<string>)

  const EMPTY_LIMITER := Limiter(map[], [])

  function Without(lru: seq<string>, key: string): (r: seq<string>)
    ensures forall k :: k in r <==> k in lru && k != key
  {
    if lru == [] then []
    else if lru[0] == key then Without(lru[1..], key)
    else [lru[0]] + Without(lru[1..], key)
  }

  function Window(l: Limiter, key: string): seq<nat> {
    if key in l.store then l.store[key].requests else []
  }

  /** The key's window once requests outside it are forgotten; a new key has nothing to forget. */
  function Remaining(l: Limiter, key: string, duration: int, now: nat): seq<nat> {
    if key in l.store then RemoveExpired(l.store[key].requests, Unix(now), duration) else []
  }

  predicate Admits(l: Limiter, key: string, maxRequests: int, duration: int, now: nat) {
    |Remaining(l, key, duration, now)| < maxRequests
  }

  function AfterRequest(l: Limiter, key: string, maxRequests: int, duration: int, now: nat): Limiter {
    var kept := Remaining(l, key, duration, now);
    var requests := if Admits(l, key, maxRequests, duration, now) then kept + [Unix(now)] else kept;
    Limiter(l.store[key := Entry(now, requests)], [key] + Without(l.lru, key))
  }

  /** Walks the recency list from its tail and stops at the first active key. */
  function AfterTick(l: Limiter, expiration: int, now: nat): Limiter
    decreases |l.lru|
  {
    if expiration <= 0 || l.lru == [] then l
    else
      var oldest := l.lru[|l.lru| - 1];
      if oldest in l.store && now - l.store[oldest].lastActive < expiration then l
      else AfterTick(Limiter(l.store - {oldest}, l.lru[..|l.lru| - 1]), expiration, now)
  }

  predicate NoDuplicates(lru: seq<string>) {
    forall i, j :: 0 <= i < j < |lru| ==> lru[i] != lru[j]
  }

  predicate NewestFirst(lru: seq<string>, store: map<string, Entry>) {
    && (forall i :: 0 <= i < |lru| ==> lru[i] in store)
    && (forall i, j :: 0 <= i < j < |lru| ==> store[lru[i]].lastActive >= store[lru[j]].lastActive)
  }

  /** A window is ordered in time and not newer than its key's last activity. */
  predicate EntryOK(e: Entry) {
    && Ordered(e.requests)
    && (forall i :: 0 <= i < |e.requests| ==> e.requests[i] <= Unix(e.lastActive))
  }

  /** Store and recency list are in bijection and the list is ordered by last activity. */
  predicate Linked(l: Limiter) {
    && NoDuplicates(l.lru)
    && (forall k :: k in l.store ==> k in l.lru)
    && NewestFirst(l.lru, l.store)
  }

  predicate Consistent(l: Limiter) {
    && Linked(l)
    && (forall k :: k in l.store ==> EntryOK(l.store[k]))
  }

  predicate NotAfter(l: Limiter, clock: nat) {
    forall k :: k in l.store ==> l.store[k].lastActive <= clock
  }

  // ----- Windows -----

  lemma {:induction false} DropExpiredIsSuffix(q: seq<nat>, now: nat, duration: int)
    ensures var r := DropExpired(q, now, duration);
            && |r| <= |q| && r == q[|q| - |r|..]
            && (forall i :: 0 <= i < |q| - |r| ==> now - q[i] >= duration)
            && (r != [] ==> now - r[0] < duration)
  {
    if q != [] && now - q[0] >= duration {
      DropExpiredIsSuffix(q[1..], now, duration);
      var r := DropExpired(q[1..], now, duration);
      assert forall i :: 0 < i < |q| - |r| ==> q[i] == q[1..][i - 1];
    }
  }

  /** On an ordered window the two shortcuts agree with dropping exactly what left the window. */
  lemma RemoveExpiredKeepsTheWindow(q: seq<nat>, now: nat, duration: int)
    requires Ordered(q)
    ensures var r := RemoveExpired(q, now, duration);
            && |r| <= |q| && r == q[|q| - |r|..]
            && (forall i :: 0 <= i < |q| - |r| ==> now - q[i] >= duration)
            && (forall i :: 0 <= i < |r| ==> now - r[i] < duration)
  {
    DropExpiredIsSuffix(q, now, duration);
  }

  lemma {:induction false} InWindowOfSplit(q: seq<nat>, n: nat, now: nat, duration: int)
    requires n <= |q|
    requires forall i :: 0 <= i < n ==> now - q[i] >= duration
    requires forall i :: n <= i < |q| ==> now - q[i] < duration
    ensures InWindow(q, now, duration) == |q| - n
  {
    if q != [] {
      InWindowOfSplit(q[..|q| - 1], if n == |q| then n - 1 else n, now, duration);
    }
  }

  /** `kept` is the tail of `log`, and everything before it has left the window that ends at `now`. */
  predicate TailOfLog(log: seq<nat>, kept: seq<nat>, now: nat, duration: int) {
    && |kept| <= |log|
    && (forall i :: 0 <= i < |kept| ==> kept[i] == log[|log| - |kept| + i])
    && Ordered(log)
    && (forall i :: 0 <= i < |log| ==> log[i] <= now)
    && (forall i :: 0 <= i < |log| - |kept| ==> now - log[i] >= duration)
  }

  lemma TailAdvances(log: seq<nat>, kept: seq<nat>, now: nat, later: nat, duration: int)
    requires TailOfLog(log, kept, now, duration) && now <= later
    ensures TailOfLog(log, kept, later, duration)
  {
  }

  lemma TailOrdered(log: seq<nat>, kept: seq<nat>, now: nat, duration: int)
    requires TailOfLog(log, kept, now, duration)
    ensures Ordered(kept)
  {
  }

  lemma TailAfterRemove(log: seq<nat>, kept: seq<nat>, now: nat, duration: int)
    requires TailOfLog(log, kept, now, duration)
    ensures TailOfLog(log, RemoveExpired(kept, now, duration), now, duration)
    ensures |RemoveExpired(kept, now, duration)| == InWindow(log, now, duration)
  {
    TailOrdered(log, kept, now, duration);
    RemoveExpiredKeepsTheWindow(kept, now, duration);
    var r := RemoveExpired(kept, now, duration);
    assert forall i :: 0 <= i < |r| ==> r[i] == kept[|kept| - |r| + i];
    var n := |log| - |r|;
    forall i | 0 <= i < n ensures now - log[i] >= duration {
      if i >= |log| - |kept| {
        assert log[i] == kept[i - (|log| - |kept|)];
      }
    }
    forall i | n <= i < |log| ensures now - log[i] < duration {
      assert log[i] == r[i - n];
    }
    InWindowOfSplit(log, n, now, duration);
  }

  lemma TailAppend(log: seq<nat>, kept: seq<nat>, now: nat, duration: int)
    requires TailOfLog(log, kept, now, duration)
    ensures TailOfLog(log + [now], kept + [now], now, duration)
  {
  }

  lemma TailForgotten(log: seq<nat>, kept: seq<nat>, now: nat, duration: int)
    requires TailOfLog(log, kept, now, duration)
    requires forall i :: 0 <= i < |kept| ==> now - kept[i] >= duration
    ensures TailOfLog(log, [], now, duration)
  {
    forall i | 0 <= i < |log| ensures now - log[i] >= duration {
      if i >= |log| - |kept| {
        assert log[i] == kept[i - (|log| - |kept|)];
      }
    }
  }

  // ----- Consistency over every request and every tick -----

  lemma {:induction false} WithoutAbsent(lru: seq<string>, key: string)
    requires key !in lru
    ensures Without(lru, key) == lru
  {
    if lru != [] {
      WithoutAbsent(lru[1..], key);
    }
  }

  lemma {:induction false} WithoutAt(lru: seq<string>, k: nat)
    requires NoDuplicates(lru) && k < |lru|
    ensures Without(lru, lru[k]) == lru[..k] + lru[k + 1..]
  {
    if k == 0 {
      WithoutAbsent(lru[1..], lru[0]);
    } else {
      WithoutAt(lru[1..], k - 1);
      assert lru[1..][..k - 1] == lru[1..k] && lru[1..][k..] == lru[k + 1..];
      assert [lru[0]] + lru[1..k] == lru[..k];
    }
  }

  lemma RemoveAtKeepsOrder(lru: seq<string>, store: map<string, Entry>, k: nat)
    requires k < |lru| && NewestFirst(lru, store)
    ensures NewestFirst(lru[..k] + lru[k + 1..], store)
  {
    var rest := lru[..k] + lru[k + 1..];
    assert forall i :: 0 <= i < |rest| ==> rest[i] == lru[if i < k then i else i + 1];
  }

  lemma RemoveAtKeepsDistinct(lru: seq<string>, k: nat)
    requires k < |lru| && NoDuplicates(lru)
    ensures NoDuplicates(lru[..k] + lru[k + 1..])
  {
    var rest := lru[..k] + lru[k + 1..];
    assert forall i :: 0 <= i < |rest| ==> rest[i] == lru[if i < k then i else i + 1];
  }

  lemma WithoutKeepsOrder(lru: seq<string>, store: map<string, Entry>, key: string)
    requires NoDuplicates(lru) && NewestFirst(lru, store)
    ensures NoDuplicates(Without(lru, key)) && NewestFirst(Without(lru, key), store)
  {
    if key in lru {
      var k :| 0 <= k < |lru| && lru[k] == key;
      WithoutAt(lru, k);
      RemoveAtKeepsOrder(lru, store, k);
      RemoveAtKeepsDistinct(lru, k);
    } else {
      WithoutAbsent(lru, key);
    }
  }

  lemma PushFront(rest: seq<string>, store: map<string, Entry>, key: string, e: Entry)
    requires NoDuplicates(rest) && NewestFirst(rest, store) && key !in rest
    requires forall k :: k in store ==> store[k].lastActive <= e.lastActive
    ensures NoDuplicates([key] + rest) && NewestFirst([key] + rest, store[key := e])
  {
    forall i | 0 <= i < |rest| ensures rest[i] in store && rest[i] != key {
      assert rest[i] in rest;
    }
    assert forall i :: 0 < i < |[key] + rest| ==> ([key] + rest)[i] == rest[i - 1];
  }

  lemma MoveToFrontLinked(l: Limiter, key: string, e: Entry)
    requires Linked(l) && NotAfter(l, e.lastActive)
    ensures Linked(Limiter(l.store[key := e], [key] + Without(l.lru, key)))
  {
    var rest := Without(l.lru, key);
    WithoutKeepsOrder(l.lru, l.store, key);
    PushFront(rest, l.store, key, e);
    forall k | k in l.store[key := e] ensures k in [key] + rest {
      if k != key {
        assert k in rest;
      }
    }
  }

  lemma WindowAfterRequestOK(e: Entry, duration: int, now: nat)
    requires EntryOK(e) && e.lastActive <= now
    ensures var kept := RemoveExpired(e.requests, Unix(now), duration);
            EntryOK(Entry(now, kept)) && EntryOK(Entry(now, kept + [Unix(now)]))
  {
    var q := e.requests;
    UnixIsMonotone(e.lastActive, now);
    RemoveExpiredKeepsTheWindow(q, Unix(now), duration);
    var kept := RemoveExpired(q, Unix(now), duration);
    assert forall i :: 0 <= i < |kept| ==> kept[i] == q[|q| - |kept| + i];
  }

  lemma AfterRequestConsistent(l: Limiter, key: string, maxRequests: int, duration: int, now: nat)
    requires Consistent(l) && NotAfter(l, now)
    ensures Consistent(AfterRequest(l, key, maxRequests, duration, now))
    ensures NotAfter(AfterRequest(l, key, maxRequests, duration, now), now)
  {
    MoveToFrontLinked(l, key, AfterRequest(l, key, maxRequests, duration, now).store[key]);
    if key in l.store {
      WindowAfterRequestOK(l.store[key], duration, now);
    }
  }

  lemma UnixIsMonotone(a: nat, b: nat)
    requires a <= b
    ensures Unix(a) <= Unix(b)
  {
  }

  /** What a full scan over all keys would keep. */
  function Active(store: map<string, Entry>, expiration: int, now: nat): map<string, Entry> {
    map k | k in store && now - store[k].lastActive < expiration :: store[k]
  }

  lemma DropOldest(l: Limiter)
    requires Linked(l) && l.lru != []
    ensures Linked(Limiter(l.store - {l.lru[|l.lru| - 1]}, l.lru[..|l.lru| - 1]))
  {
    var last := |l.lru| - 1;
    var m := Limiter(l.store - {l.lru[last]}, l.lru[..last]);
    forall k | k in m.store ensures k in m.lru {
      var i :| 0 <= i < |l.lru| && l.lru[i] == k;
      assert m.lru[i] == k;
    }
  }

  lemma OldestIsActive(l: Limiter, expiration: int, now: nat)
    requires Linked(l)
    requires l.lru != [] ==> now - l.store[l.lru[|l.lru| - 1]].lastActive < expiration
    ensures Active(l.store, expiration, now) == l.store
  {
    forall k | k in l.store ensures now - l.store[k].lastActive < expiration {
      var i :| 0 <= i < |l.lru| && l.lru[i] == k;
      if i < |l.lru| - 1 {
        assert l.store[l.lru[i]].lastActive >= l.store[l.lru[|l.lru| - 1]].lastActive;
      }
    }
  }

  lemma ActiveWithoutIdle(store: map<string, Entry>, key: string, expiration: int, now: nat)
    requires key in store && now - store[key].lastActive >= expiration
    ensures Active(store - {key}, expiration, now) == Active(store, expiration, now)
  {
  }

  /** The walk that stops early removes exactly the keys a full scan would remove, keeps the order of the
      rest and keeps the list linked to the store. */
  lemma {:induction false} TickDeletesExactlyTheExpired(l: Limiter, expiration: int, now: nat)
    requires Linked(l)
    ensures var m := AfterTick(l, expiration, now);
            && Linked(m)
            && m.store == (if expiration <= 0 then l.store else Active(l.store, expiration, now))
            && m.lru <= l.lru
    decreases |l.lru|
  {
    if expiration > 0 {
      if l.lru == [] || now - l.store[l.lru[|l.lru| - 1]].lastActive < expiration {
        OldestIsActive(l, expiration, now);
      } else {
        var m := Limiter(l.store - {l.lru[|l.lru| - 1]}, l.lru[..|l.lru| - 1]);
        DropOldest(l);
        TickDeletesExactlyTheExpired(m, expiration, now);
        ActiveWithoutIdle(l.store, l.lru[|l.lru| - 1], expiration, now);
      }
    }
  }

  // ----- Runs -----

  datatype Op =
    | Request(key: string, maxRequests: int, at: nat)
    | Tick(at: nat)   // delivered by the ticker; its time may lie behind the clock

  /** The expiration of idle keys, and the window each key is used with. */
  datatype Config = Config(expiration: int, duration: map<string, int>)

  datatype Accepted = Accepted(key: string, at: nat)

  datatype State = State(limiter: Limiter, clock: nat, accepted: seq<Accepted>)

  const START := State(EMPTY_LIMITER, 0, [])

  predicate Possible(cfg: Config, s: State, op: Op) {
    op.Request? ==> op.key in cfg.duration && s.clock <= op.at
  }

  function Apply(cfg: Config, s: State, op: Op): State
    requires Possible(cfg, s, op)
  {
    match op
    case Request(key, maxRequests, at) =>
      var d := cfg.duration[key];
      State(AfterRequest(s.limiter, key, maxRequests, d, at), at,
            if Admits(s.limiter, key, maxRequests, d, at) then s.accepted + [Accepted(key, at)] else s.accepted)
    case Tick(at) =>
      State(AfterTick(s.limiter, cfg.expiration, at), if s.clock < at then at else s.clock, s.accepted)
  }

  function Exec(cfg: Config, ops: seq<Op>): Option<State> {
    if ops == [] then Some(START)
    else
      match Exec(cfg, ops[..|ops| - 1])
      case None => None
      case Some(s) =>
        var last := ops[|ops| - 1];
        if Possible(cfg, s, last) then Some(Apply(cfg, s, last)) else None
  }

  /** The accepted requests of one key in the whole history, as whole seconds. */
  function KeyLog(accepted: seq<Accepted>, key: string): seq<nat> {
    if accepted == [] then []
    else
      var last := accepted[|accepted| - 1];
      KeyLog(accepted[..|accepted| - 1], key) + if last.key == key then [Unix(last.at)] else []
  }

  /** The specification: fewer than `maxRequests` requests of this key were accepted in the last
      `duration` seconds of the whole history. */
  predicate LogAdmits(accepted: seq<Accepted>, key: string, maxRequests: int, duration: int, now: nat) {
    InWindow(KeyLog(accepted, key), Unix(now), duration) < maxRequests
  }

  /** An idle key is not evicted before its whole window has passed. */
  predicate Tolerated(cfg: Config, key: string)
    requires key in cfg.duration
  {
    cfg.expiration <= 0 || cfg.duration[key] * SECOND <= cfg.expiration
  }

  predicate WindowOfLog(cfg: Config, s: State, key: string)
    requires key in cfg.duration
  {
    TailOfLog(KeyLog(s.accepted, key), Window(s.limiter, key), Unix(s.clock), cfg.duration[key])
  }

  predicate Inv(cfg: Config, s: State) {
    && Consistent(s.limiter)
    && NotAfter(s.limiter, s.clock)
    && (forall key :: key in cfg.duration && Tolerated(cfg, key) ==> WindowOfLog(cfg, s, key))
  }

  lemma RequestAgreesWithLog(cfg: Config, s: State, op: Op)
    requires op.Request? && Possible(cfg, s, op) && WindowOfLog(cfg, s, op.key)
    ensures Admits(s.limiter, op.key, op.maxRequests, cfg.duration[op.key], op.at)
            == LogAdmits(s.accepted, op.key, op.maxRequests, cfg.duration[op.key], op.at)
    ensures TailOfLog(KeyLog(s.accepted, op.key), Remaining(s.limiter, op.key, cfg.duration[op.key], op.at),
                      Unix(op.at), cfg.duration[op.key])
  {
    var d, now := cfg.duration[op.key], Unix(op.at);
    var log, kept := KeyLog(s.accepted, op.key), Window(s.limiter, op.key);
    UnixIsMonotone(s.clock, op.at);
    TailAdvances(log, kept, Unix(s.clock), now, d);
    TailAfterRemove(log, kept, now, d);
  }

  lemma KeyLogAppend(accepted: seq<Accepted>, a: Accepted, key: string)
    ensures KeyLog(accepted + [a], key) == KeyLog(accepted, key) + if a.key == key then [Unix(a.at)] else []
  {
    assert (accepted + [a])[..|accepted|] == accepted;
  }

  lemma WindowAfterOwnRequest(cfg: Config, s: State, op: Op)
    requires op.Request? && Possible(cfg, s, op) && WindowOfLog(cfg, s, op.key)
    ensures WindowOfLog(cfg, Apply(cfg, s, op), op.key)
  {
    var t := Apply(cfg, s, op);
    var d, now := cfg.duration[op.key], Unix(op.at);
    var kept := Remaining(s.limiter, op.key, d, op.at);
    RequestAgreesWithLog(cfg, s, op);
    if Admits(s.limiter, op.key, op.maxRequests, d, op.at) {
      KeyLogAppend(s.accepted, Accepted(op.key, op.at), op.key);
      TailAppend(KeyLog(s.accepted, op.key), kept, now, d);
      assert Window(t.limiter, op.key) == kept + [now];
    } else {
      assert Window(t.limiter, op.key) == kept;
    }
  }

  lemma WindowAfterOtherRequest(cfg: Config, s: State, op: Op, key: string)
    requires op.Request? && Possible(cfg, s, op) && key in cfg.duration && key != op.key && WindowOfLog(cfg, s, key)
    ensures WindowOfLog(cfg, Apply(cfg, s, op), key)
  {
    var t := Apply(cfg, s, op);
    assert KeyLog(t.accepted, key) == KeyLog(s.accepted, key) by {
      KeyLogAppend(s.accepted, Accepted(op.key, op.at), key);
    }
    assert Window(t.limiter, key) == Window(s.limiter, key);
    UnixIsMonotone(s.clock, op.at);
    TailAdvances(KeyLog(s.accepted, key), Window(s.limiter, key), Unix(s.clock), Unix(op.at), cfg.duration[key]);
  }

  /** Idle for `duration` seconds or more, measured in nanoseconds, is outside the window in whole seconds. */
  lemma IdleMeansExpired(lastActive: nat, at: nat, duration: int, expiration: int)
    requires at - lastActive >= expiration && duration * SECOND <= expiration
    ensures Unix(at) - Unix(lastActive) >= duration
  {
    assert at >= lastActive + duration * SECOND;
  }

  lemma WindowAfterTick(cfg: Config, s: State, at: nat, key: string)
    requires Consistent(s.limiter) && key in cfg.duration && Tolerated(cfg, key) && WindowOfLog(cfg, s, key)
    ensures WindowOfLog(cfg, Apply(cfg, s, Tick(at)), key)
  {
    var t, d := Apply(cfg, s, Tick(at)), cfg.duration[key];
    TickDeletesExactlyTheExpired(s.limiter, cfg.expiration, at);
    UnixIsMonotone(s.clock, t.clock);
    UnixIsMonotone(at, t.clock);
    var log, kept := KeyLog(s.accepted, key), Window(s.limiter, key);
    TailAdvances(log, kept, Unix(s.clock), Unix(t.clock), d);
    if key in s.limiter.store && key !in t.limiter.store {
      var e := s.limiter.store[key];
      IdleMeansExpired(e.lastActive, at, d, cfg.expiration);
      assert EntryOK(e);
      TailForgotten(log, kept, Unix(t.clock), d);
    }
  }

  lemma {:induction false} InvAlways(cfg: Config, ops: seq<Op>)
    ensures Exec(cfg, ops).Some? ==> Inv(cfg, Exec(cfg, ops).value)
  {
    if ops != [] && Exec(cfg, ops).Some? {
      InvAlways(cfg, ops[..|ops| - 1]);
      var s, op := Exec(cfg, ops[..|ops| - 1]).value, ops[|ops| - 1];
      var t := Apply(cfg, s, op);
      if op.Request? {
        AfterRequestConsistent(s.limiter, op.key, op.maxRequests, cfg.duration[op.key], op.at);
      } else {
        TickDeletesExactlyTheExpired(s.limiter, cfg.expiration, op.at);
      }
      forall key | key in cfg.duration && Tolerated(cfg, key) ensures WindowOfLog(cfg, t, key) {
        if op.Tick? {
          WindowAfterTick(cfg, s, op.at, key);
        } else if op.key == key {
          WindowAfterOwnRequest(cfg, s, op);
        } else {
          WindowAfterOtherRequest(cfg, s, op, key);
        }
      }
    }
  }

  /** The verdict of the last operation of a run, when it is a request of this key, is the log's verdict. */
  predicate Faithful(cfg: Config, key: string, ops: seq<Op>) {
    ops != [] && ops[|ops| - 1].Request? && ops[|ops| - 1].key == key && Exec(cfg, ops).Some? ==>
      var op := ops[|ops| - 1];
      var s := Exec(cfg, ops[..|ops| - 1]).value;
      Admits(s.limiter, key, op.maxRequests, cfg.duration[key], op.at)
      == LogAdmits(s.accepted, key, op.maxRequests, cfg.duration[key], op.at)
  }

  lemma AdmissionFollowsTheLog(cfg: Config, key: string, ops: seq<Op>)
    requires key in cfg.duration && Tolerated(cfg, key)
    ensures Faithful(cfg, key, ops)
  {
    if ops != [] && ops[|ops| - 1].Request? && ops[|ops| - 1].key == key && Exec(cfg, ops).Some? {
      InvAlways(cfg, ops[..|ops| - 1]);
      RequestAgreesWithLog(cfg, Exec(cfg, ops[..|ops| - 1]).value, ops[|ops| - 1]);
    }
  }

  // ----- The condition is exact -----

  /** A first request, an eviction as soon as the key counts as idle, and a second request. */
  function EvictedTooEarly(cfg: Config, key: string): seq<Op>
    requires cfg.expiration > 0
  {
    [Request(key, 1, 0), Tick(cfg.expiration), Request(key, 1, cfg.expiration)]
  }

  /** A window longer than the expiration lets a key through that the log would refuse. */
  lemma EvictionVisible(cfg: Config, key: string)
    requires key in cfg.duration && !Tolerated(cfg, key)
    ensures !Faithful(cfg, key, EvictedTooEarly(cfg, key))
  {
    var ops, d, e := EvictedTooEarly(cfg, key), cfg.duration[key], cfg.expiration;
    var s2 := ForgottenKey(cfg, key);
    assert ops[..2] == [Request(key, 1, 0), Tick(e)];
    assert |Remaining(s2.limiter, key, d, e)| == 0;
    KeyLogAppend([], Accepted(key, 0), key);
    assert [] + [Accepted(key, 0)] == [Accepted(key, 0)];
    assert InWindow([0], Unix(e), d) == 1 by {
      assert [0][..0] == [];
    }
  }

  lemma ForgottenKey(cfg: Config, key: string) returns (s: State)
    requires key in cfg.duration && cfg.expiration > 0
    ensures s == State(EMPTY_LIMITER, cfg.expiration, [Accepted(key, 0)])
    ensures Exec(cfg, [Request(key, 1, 0), Tick(cfg.expiration)]) == Some(s)
  {
    var e := cfg.expiration;
    var s1 := FirstRequest(cfg, key);
    s := Apply(cfg, s1, Tick(e));
    assert [Request(key, 1, 0), Tick(e)][..1] == [Request(key, 1, 0)];
    var rest := Limiter(s1.limiter.store - {key}, s1.limiter.lru[..0]);
    assert rest == EMPTY_LIMITER;
    assert AfterTick(s1.limiter, e, e) == AfterTick(rest, e, e);
  }

  lemma FirstRequest(cfg: Config, key: string) returns (s: State)
    requires key in cfg.duration
    ensures s == State(Limiter(map[key := Entry(0, [0])], [key]), 0, [Accepted(key, 0)])
    ensures Exec(cfg, [Request(key, 1, 0)]) == Some(s)
  {
    var op := Request(key, 1, 0);
    s := Apply(cfg, START, op);
    assert [op][..0] == [];
    var d := cfg.duration[key];
    assert Admits(EMPTY_LIMITER, key, 1, d, 0);
    assert s.limiter == Limiter(map[][key := Entry(0, [] + [Unix(0)])], [key] + Without([], key));
    assert [] + [Unix(0)] == [0];
    assert [key] + Without([], key) == [key];
  }

  /** Idle-key eviction is unobservable for a key, in every run, if and only if the key's window is not
      longer than the expiration (or eviction is switched off). */
  lemma EvictionUnobservableIff(cfg: Config, key: string)
    requires key in cfg.duration
    ensures Tolerated(cfg, key) <==> forall ops :: Faithful(cfg, key, ops)
  {
    if Tolerated(cfg, key) {
      forall ops ensures Faithful(cfg, key, ops) {
        AdmissionFollowsTheLog(cfg, key, ops);
      }
    } else {
      EvictionVisible(cfg, key);
    }
  }

  /** Store, recency list and windows are consistent after every run. */
  lemma ConsistentAlways(cfg: Config, ops: seq<Op>)
    requires Exec(cfg, ops).Some?
    ensures Consistent(Exec(cfg, ops).value.limiter)
  {
    InvAlways(cfg, ops);
  }
}
