/**
 The rate limiter as it runs: a store of entries that own linked request queues, and a recency list of the same
 entries, all updated in place. Each operation is proved against the value model in module `RateLimiter`, which
 states what they mean.
 */
module InMemoryRateLimiter {
  import opened RateLimiter
  import opened Wrappers

  class RequestNode {
    var next: RequestNode?
    const timestamp: nat

    constructor (timestamp: nat)
      ensures this.timestamp == timestamp && next == null
    {
      this.timestamp := timestamp;
      next := null;
    }
  }

  /** Accepted requests of one key, oldest first, as a chain from `head` to `tail`. */
  class RequestQueue {
    var head: RequestNode?
    var tail: RequestNode?
    var length: int
    ghost var Contents: seq<nat>
    ghost var spine: seq<RequestNode>
    ghost var Repr: set<object>

    ghost predicate Valid()
      reads this, Repr
      ensures Valid() ==> this in Repr
    {
      && this in Repr
      && (forall i :: 0 <= i < |spine| ==> spine[i] in Repr)
      && length == |spine| == |Contents|
      && (forall i :: 0 <= i < |spine| ==> spine[i].timestamp == Contents[i])
      && (spine == [] ==> head == null && tail == null)
      && (spine != [] ==> head == spine[0] && tail == spine[|spine| - 1] && tail.next == null)
      && (forall i :: 0 <= i < |spine| - 1 ==> spine[i].next == spine[i + 1])
      && (forall i, j :: 0 <= i < j < |spine| ==> spine[i] != spine[j])
    }

    constructor ()
      ensures Valid() && fresh(Repr) && Contents == []
    {
      head, tail, length, spine, Contents := null, null, 0, [], [];
      Repr := {this};
    }

    method Append(timestamp: nat)
      requires Valid()
      modifies Repr
      ensures Valid() && fresh(Repr - old(Repr))
      ensures Contents == old(Contents) + [timestamp]
    {
      var request := new RequestNode(timestamp);
      if tail == null {
        head := request;
        tail := request;
      } else {
        tail.next := request;
        tail := request;
      }
      length := length + 1;
      spine, Contents, Repr := spine + [request], Contents + [timestamp], Repr + {request};
    }

    method Clear()
      requires Valid()
      modifies this
      ensures Valid() && Repr == old(Repr) && Contents == []
    {
      head, tail, length, spine, Contents := null, null, 0, [], [];
    }

    /** One round of the removal loop: unlinks the head, which is not the tail. */
    method Unlink()
      requires Valid() && |spine| >= 2
      modifies Repr
      ensures Valid() && Repr == old(Repr)
      ensures spine == old(spine)[1..] && Contents == old(Contents)[1..] && tail == old(tail)
    {
      var expired := head;
      head := expired.next;
      expired.next := null;
      length := length - 1;
      spine, Contents := spine[1..], Contents[1..];
    }

    method RemoveExpired(now: nat, duration: int)
      requires Valid()
      modifies Repr
      ensures Valid() && Repr == old(Repr)
      ensures Contents == RateLimiter.RemoveExpired(old(Contents), now, duration)
    {
      if head == null || now - head.timestamp < duration {
        return;
      }
      if now - tail.timestamp >= duration {
        Clear();
        return;
      }
      while now - head.timestamp >= duration
        invariant Valid() && Repr == old(Repr) && spine != []
        invariant now - tail.timestamp < duration
        invariant DropExpired(Contents, now, duration) == DropExpired(old(Contents), now, duration)
        decreases |spine|
      {
        assert |spine| >= 2;
        Unlink();
      }
    }
  }

  /** What a key owns: its time of last activity and its queue. The ghost `Value` is what they amount to. */
  class RateLimitEntry {
    const key: string
    const requests: RequestQueue
    var lastActive: nat
    ghost var Value: Entry
    ghost var Repr: set<object>

    ghost predicate Valid()
      reads this, Repr
      ensures Valid() ==> this in Repr
    {
      && this in Repr && requests in Repr && requests.Repr <= Repr && this !in requests.Repr
      && requests.Valid()
      && Value == Entry(lastActive, requests.Contents)
    }

    constructor (key: string, now: nat)
      ensures Valid() && fresh(Repr) && this.key == key && Value == Entry(now, [])
    {
      this.key, lastActive, Value := key, now, Entry(now, []);
      var queue := new RequestQueue();
      requests := queue;
      Repr := {this} + queue.Repr;
    }

    /** A known key: forget what left the window and note the activity. */
    method Touch(duration: int, now: nat)
      requires Valid()
      modifies Repr
      ensures Valid() && Repr == old(Repr)
      ensures Value == Entry(now, RateLimiter.RemoveExpired(old(Value).requests, Unix(now), duration))
    {
      requests.RemoveExpired(Unix(now), duration);
      lastActive := now;
      Value := Entry(now, requests.Contents);
    }

    method Admit(maxRequests: int, now: nat) returns (allowed: bool)
      requires Valid()
      modifies Repr
      ensures Valid() && fresh(Repr - old(Repr))
      ensures allowed <==> |old(Value).requests| < maxRequests
      ensures Value == if allowed then Entry(old(Value).lastActive, old(Value).requests + [Unix(now)]) else old(Value)
    {
      allowed := requests.length < maxRequests;
      if allowed {
        requests.Append(Unix(now));
        Value := Entry(lastActive, requests.Contents);
        Repr := Repr + requests.Repr;
      }
    }
  }

  function Touched(e: Entry, duration: int, now: nat): Entry {
    Entry(now, RateLimiter.RemoveExpired(e.requests, Unix(now), duration))
  }

  function Admitted(e: Entry, allowed: bool, now: nat): Entry {
    if allowed then Entry(e.lastActive, e.requests + [Unix(now)]) else e
  }

  /** Every entry of a store stands under its own key, is intact and shares no object with another; all their
      objects are among `objects`. */
  ghost predicate Separate(store: map<string, RateLimitEntry>, objects: set<object>)
    reads objects
  {
    && (forall k :: k in store ==> store[k] in objects && store[k].Repr <= objects && store[k].key == k && store[k].Valid())
    && (forall j, k :: j in store && k in store && j != k ==> store[j].Repr !! store[k].Repr)
  }

  /** The entries of the store hold exactly `entries`. */
  ghost predicate Holds(store: map<string, RateLimitEntry>, entries: map<string, Entry>, objects: set<object>)
    reads objects
  {
    && (forall k :: k in entries ==> k in store)
    && (forall k :: k in store ==> k in entries && store[k] in objects && store[k].Value == entries[k])
  }

  lemma EntryOf(store: map<string, RateLimitEntry>, entries: map<string, Entry>, objects: set<object>, key: string)
    requires Separate(store, objects) && Holds(store, entries, objects) && key in store
    ensures key in entries && store[key].key == key && store[key].Repr <= objects
  {
  }

  lemma OldestObjects(store: map<string, RateLimitEntry>, objects: set<object>, key: string)
    requires Separate(store, objects) && key in store
    ensures store[key].requests in objects
  {
  }

  method AdmitIn(store: map<string, RateLimitEntry>, ghost objects: set<object>, key: string, maxRequests: int, now: nat)
    returns (allowed: bool)
    requires Separate(store, objects) && key in store
    modifies store[key].Repr
    ensures Separate(store, objects + store[key].Repr) && fresh(store[key].Repr - old(store[key].Repr))
    ensures forall k :: k in store && k != key ==> store[k].Value == old(store[k].Value)
    ensures allowed <==> |old(store[key].Value).requests| < maxRequests
    ensures store[key].Value == Admitted(old(store[key].Value), allowed, now)
  {
    allowed := store[key].Admit(maxRequests, now);
  }

  method AdmitHolding(store: map<string, RateLimitEntry>, ghost entries: map<string, Entry>, ghost objects: set<object>,
                      key: string, maxRequests: int, now: nat)
    returns (allowed: bool, ghost entries': map<string, Entry>)
    requires Separate(store, objects) && Holds(store, entries, objects) && key in store
    modifies store[key].Repr
    ensures Separate(store, objects + store[key].Repr) && fresh(store[key].Repr - old(store[key].Repr))
    ensures allowed <==> |entries[key].requests| < maxRequests
    ensures entries' == entries[key := Admitted(entries[key], allowed, now)]
    ensures Holds(store, entries', objects + store[key].Repr)
  {
    hide Separate;
    allowed := AdmitIn(store, objects, key, maxRequests, now);
    entries' := entries[key := store[key].Value];
  }

  method TouchIn(store: map<string, RateLimitEntry>, ghost objects: set<object>, key: string, duration: int, now: nat)
    requires Separate(store, objects) && key in store
    modifies store[key].Repr
    ensures Separate(store, objects)
    ensures forall k :: k in store && k != key ==> store[k].Value == old(store[k].Value)
    ensures store[key].Value == Touched(old(store[key].Value), duration, now)
  {
    store[key].Touch(duration, now);
  }

  method TouchHolding(store: map<string, RateLimitEntry>, ghost entries: map<string, Entry>, ghost objects: set<object>,
                      key: string, duration: int, now: nat)
    returns (ghost entries': map<string, Entry>)
    requires Separate(store, objects) && Holds(store, entries, objects) && key in store
    modifies store[key].Repr
    ensures Separate(store, objects)
    ensures entries' == entries[key := Touched(entries[key], duration, now)]
    ensures Holds(store, entries', objects)
  {
    hide Separate;
    TouchIn(store, objects, key, duration, now);
    entries' := entries[key := store[key].Value];
  }

  method AddTo(store: map<string, RateLimitEntry>, ghost entries: map<string, Entry>, ghost objects: set<object>,
               key: string, now: nat)
    returns (entry: RateLimitEntry)
    requires Separate(store, objects) && Holds(store, entries, objects) && key !in store
    ensures entry.key == key && fresh(entry.Repr)
    ensures Separate(store[key := entry], objects + entry.Repr)
    ensures Holds(store[key := entry], entries[key := Entry(now, [])], objects + entry.Repr)
  {
    entry := new RateLimitEntry(key, now);
  }

  /** An evicted entry leaves the store, and its queue is released. */
  method EvictFrom(store: map<string, RateLimitEntry>, ghost entries: map<string, Entry>, ghost objects: set<object>,
                   key: string)
    returns (rest: map<string, RateLimitEntry>)
    requires Separate(store, objects) && Holds(store, entries, objects) && key in store
    modifies store[key].requests
    ensures rest == store - {key} && store[key].requests.Valid() && store[key].requests.Contents == []
    ensures Separate(rest, objects) && Holds(rest, entries - {key}, objects)
  {
    rest := store - {key};
    store[key].requests.Clear();
  }

  // ----- The recency list -----

  /** The list holds entries of the store, under the keys in `order`. */
  ghost predicate Lists(store: map<string, RateLimitEntry>, lru: seq<RateLimitEntry>, order: seq<string>) {
    && |order| == |lru|
    && (forall i :: 0 <= i < |lru| ==> lru[i].key == order[i] && order[i] in store && store[order[i]] == lru[i])
  }

  function Unlisted(lru: seq<RateLimitEntry>, entry: RateLimitEntry): seq<RateLimitEntry> {
    if lru == [] then []
    else if lru[0] == entry then Unlisted(lru[1..], entry)
    else [lru[0]] + Unlisted(lru[1..], entry)
  }

  lemma {:induction false} ListsWithout(store: map<string, RateLimitEntry>, lru: seq<RateLimitEntry>, order: seq<string>,
                                        key: string)
    requires Lists(store, lru, order) && key in store && store[key].key == key
    ensures Lists(store, Unlisted(lru, store[key]), Without(order, key))
  {
    if lru != [] {
      ListsWithout(store, lru[1..], order[1..], key);
    }
  }

  lemma ListsFront(store: map<string, RateLimitEntry>, lru: seq<RateLimitEntry>, order: seq<string>, entry: RateLimitEntry)
    requires Lists(store, lru, order) && (entry.key in store ==> store[entry.key] == entry)
    ensures Lists(store[entry.key := entry], [entry] + lru, [entry.key] + order)
  {
  }

  lemma MovedToFront(store: map<string, RateLimitEntry>, lru: seq<RateLimitEntry>, order: seq<string>,
                     objects: set<object>, key: string)
    requires Separate(store, objects) && Lists(store, lru, order) && key in store
    ensures Lists(store, [store[key]] + Unlisted(lru, store[key]), [key] + Without(order, key))
  {
    ListsWithout(store, lru, order, key);
    ListsFront(store, Unlisted(lru, store[key]), Without(order, key), store[key]);
    assert store[key := store[key]] == store;
  }

  lemma ListsBack(store: map<string, RateLimitEntry>, lru: seq<RateLimitEntry>, order: seq<string>)
    requires Lists(store, lru, order) && order != [] && NoDuplicates(order)
    ensures |lru| == |order| && lru[|lru| - 1].key == order[|order| - 1] && order[|order| - 1] in store
    ensures Lists(store - {order[|order| - 1]}, lru[..|lru| - 1], order[..|order| - 1])
  {
  }

  // ----- Values between the steps of an operation -----

  lemma ListedKey(l: RateLimiter.Limiter, key: string)
    requires Consistent(l)
    ensures key in l.lru ==> key in l.store
  {
  }

  /** A new key: nothing to forget. */
  lemma AfterNewRequest(l: RateLimiter.Limiter, key: string, maxRequests: int, duration: int, now: nat)
    requires key !in l.store && key !in l.lru
    ensures var e, allowed := Entry(now, []), Admits(l, key, maxRequests, duration, now);
            && (allowed <==> |e.requests| < maxRequests)
            && AfterRequest(l, key, maxRequests, duration, now)
               == RateLimiter.Limiter(l.store[key := e][key := Admitted(e, allowed, now)], [key] + l.lru)
  {
    WithoutAbsent(l.lru, key);
  }

  lemma AfterKnownRequest(l: RateLimiter.Limiter, key: string, maxRequests: int, duration: int, now: nat)
    requires key in l.store
    ensures var e, allowed := Touched(l.store[key], duration, now), Admits(l, key, maxRequests, duration, now);
            && (allowed <==> |e.requests| < maxRequests)
            && AfterRequest(l, key, maxRequests, duration, now)
               == RateLimiter.Limiter(l.store[key := e][key := Admitted(e, allowed, now)], [key] + Without(l.lru, key))
  {
  }

  /** The end of the list is listed in the store and has been idle for too long. */
  predicate OldestExpired(l: RateLimiter.Limiter, expiration: int, now: nat) {
    && l.lru != [] && l.lru[|l.lru| - 1] in l.store
    && now - l.store[l.lru[|l.lru| - 1]].lastActive >= expiration
  }

  function Evicted(l: RateLimiter.Limiter): RateLimiter.Limiter
    requires l.lru != []
  {
    RateLimiter.Limiter(l.store - {l.lru[|l.lru| - 1]}, l.lru[..|l.lru| - 1])
  }

  lemma WalkGoesOn(l: RateLimiter.Limiter, expiration: int, now: nat)
    requires Linked(l) && OldestExpired(l, expiration, now) && expiration > 0
    ensures l.lru != [] && NoDuplicates(l.lru) && Linked(Evicted(l))
    ensures AfterTick(Evicted(l), expiration, now) == AfterTick(l, expiration, now) && |Evicted(l).lru| < |l.lru|
  {
    DropOldest(l);
  }

  lemma WalkEnds(l: RateLimiter.Limiter, expiration: int, now: nat)
    requires Linked(l) && !OldestExpired(l, expiration, now)
    ensures AfterTick(l, expiration, now) == l
  {
  }

  /** The limiter itself. The ghosts `entries` and `order` are what the objects of the store and the list hold. */
  class Limiter {
    var ready: bool
    var store: map<string, RateLimitEntry>
    var lru: seq<RateLimitEntry>
    var expiration: int
    ghost var entries: map<string, Entry>
    ghost var order: seq<string>
    ghost var objects: set<object>

    ghost predicate Valid()
      reads this, objects
    {
      this !in objects && Separate(store, objects) && Holds(store, entries, objects) && Lists(store, lru, order)
    }

    ghost function Value(): RateLimiter.Limiter
      reads this
    {
      RateLimiter.Limiter(entries, order)
    }

    constructor ()
      ensures Valid() && objects == {} && !ready && Value() == EMPTY_LIMITER
    {
      ready, store, lru, expiration := false, map[], [], 0;
      entries, order, objects := map[], [], {};
    }

    /** Only the first call configures the limiter. */
    method Init(expirationDuration: int)
      requires Valid() && (!ready ==> Value() == EMPTY_LIMITER)
      modifies this
      ensures Valid() && objects == old(objects) && ready && Value() == old(Value())
      ensures expiration == (if old(ready) then old(expiration) else expirationDuration)
    {
      if ready {
        return;
      }
      store, lru, expiration, ready := map[], [], expirationDuration, true;
    }

    method HasEntry(key: string) returns (known: bool)
      requires Valid()
      ensures known <==> key in store
      ensures known <==> key in Value().store
    {
      known := key in store;
    }

    method MoveToFront(key: string)
      requires Valid() && key in store
      modifies this`lru, this`order
      ensures Valid()
      ensures Value() == RateLimiter.Limiter(old(Value()).store, [key] + Without(old(Value()).lru, key))
    {
      hide Separate;
      hide Holds;
      hide Lists;
      MovedToFront(store, lru, order, objects, key);
      lru, order := [store[key]] + Unlisted(lru, store[key]), [key] + Without(order, key);
    }

    /** A new key enters the store and the front of the list. */
    method AddEntry(key: string, now: nat)
      requires Valid() && key !in store
      modifies this`store, this`lru, this`entries, this`order, this`objects
      ensures Valid() && fresh(objects - old(objects)) && key in store
      ensures Value() == RateLimiter.Limiter(old(Value()).store[key := Entry(now, [])], [key] + old(Value()).lru)
    {
      hide Separate;
      hide Holds;
      hide Lists;
      var entry := AddTo(store, entries, objects, key, now);
      ListsFront(store, lru, order, entry);
      store, lru := store[key := entry], [entry] + lru;
      entries, order, objects := entries[key := Entry(now, [])], [key] + order, objects + entry.Repr;
    }

    /** A known key forgets what left its window. */
    method TouchEntry(key: string, duration: int, now: nat)
      requires Valid() && key in store
      modifies this`entries, objects
      ensures Valid() && key in old(Value()).store && store == old(store) && objects == old(objects)
      ensures Value() == old(Value()).(store := old(Value()).store[key := Touched(old(Value()).store[key], duration, now)])
    {
      hide Separate;
      hide Holds;
      hide Lists;
      EntryOf(store, entries, objects, key);
      entries := TouchHolding(store, entries, objects, key, duration, now);
    }

    method AdmitEntry(key: string, maxRequests: int, now: nat) returns (allowed: bool)
      requires Valid() && key in store
      modifies this`entries, this`objects, objects
      ensures Valid() && fresh(objects - old(objects)) && key in old(Value()).store
      ensures allowed <==> |old(Value()).store[key].requests| < maxRequests
      ensures Value() == old(Value()).(store := old(Value()).store[key := Admitted(old(Value()).store[key], allowed, now)])
    {
      hide Separate;
      hide Holds;
      hide Lists;
      EntryOf(store, entries, objects, key);
      allowed, entries := AdmitHolding(store, entries, objects, key, maxRequests, now);
      objects := objects + store[key].Repr;
    }

    method RequestNew(key: string, maxRequests: int, duration: int, now: nat) returns (allowed: bool)
      requires Valid() && key !in store && key !in Value().store && key !in Value().lru
      modifies this`store, this`lru, this`entries, this`order, this`objects, objects
      ensures Valid() && fresh(objects - old(objects))
      ensures allowed <==> Admits(old(Value()), key, maxRequests, duration, now)
      ensures Value() == AfterRequest(old(Value()), key, maxRequests, duration, now)
    {
      hide *;
      AfterNewRequest(Value(), key, maxRequests, duration, now);
      AddEntry(key, now);
      allowed := AdmitEntry(key, maxRequests, now);
    }

    method RequestKnown(key: string, maxRequests: int, duration: int, now: nat) returns (allowed: bool)
      requires Valid() && key in store && key in Value().store
      modifies this`store, this`lru, this`entries, this`order, this`objects, objects
      ensures Valid() && fresh(objects - old(objects))
      ensures allowed <==> Admits(old(Value()), key, maxRequests, duration, now)
      ensures Value() == AfterRequest(old(Value()), key, maxRequests, duration, now)
    {
      hide *;
      AfterKnownRequest(Value(), key, maxRequests, duration, now);
      TouchEntry(key, duration, now);
      MoveToFront(key);
      allowed := AdmitEntry(key, maxRequests, now);
    }

    method Record(key: string, maxRequests: int, duration: int, now: nat) returns (allowed: bool)
      requires Valid() && (key in Value().lru ==> key in Value().store)
      modifies this`store, this`lru, this`entries, this`order, this`objects, objects
      ensures Valid() && fresh(objects - old(objects))
      ensures allowed <==> Admits(old(Value()), key, maxRequests, duration, now)
      ensures Value() == AfterRequest(old(Value()), key, maxRequests, duration, now)
    {
      hide *;
      var known := HasEntry(key);
      if known {
        allowed := RequestKnown(key, maxRequests, duration, now);
      } else {
        allowed := RequestNew(key, maxRequests, duration, now);
      }
    }

    method Request(key: string, maxRequests: int, duration: int, now: nat) returns (allowed: bool)
      requires Valid() && ready && Consistent(Value()) && NotAfter(Value(), now)
      modifies this, objects
      ensures Valid() && fresh(objects - old(objects)) && ready && expiration == old(expiration)
      ensures allowed <==> Admits(old(Value()), key, maxRequests, duration, now)
      ensures Value() == AfterRequest(old(Value()), key, maxRequests, duration, now)
      ensures Consistent(Value()) && NotAfter(Value(), now)
    {
      AfterRequestConsistent(Value(), key, maxRequests, duration, now);
      ListedKey(Value(), key);
      hide *;
      allowed := Record(key, maxRequests, duration, now);
    }

    method EvictOldest()
      requires Valid() && Value().lru != [] && NoDuplicates(Value().lru)
      modifies this`store, this`lru, this`entries, this`order, objects
      ensures Valid() && objects == old(objects) && expiration == old(expiration) && Value() == Evicted(old(Value()))
    {
      hide Separate;
      hide Holds;
      hide Lists;
      ListsBack(store, lru, order);
      var key := lru[|lru| - 1].key;
      OldestObjects(store, objects, key);
      store := EvictFrom(store, entries, objects, key);
      lru, order, entries := lru[..|lru| - 1], order[..|order| - 1], entries - {key};
    }

    method OldestIsIdle(now: nat) returns (idle: bool)
      requires Valid()
      ensures idle <==> OldestExpired(Value(), expiration, now)
    {
      idle := lru != [] && now - lru[|lru| - 1].lastActive >= expiration;
    }

    /** Walks from the end of the list and stops at the first active key. */
    method EvictIdle(now: nat)
      requires Valid() && expiration > 0 && Linked(Value())
      modifies this`store, this`lru, this`entries, this`order, objects
      ensures Valid() && objects == old(objects) && expiration == old(expiration)
      ensures Value() == AfterTick(old(Value()), expiration, now)
    {
      hide *;
      var idle := OldestIsIdle(now);
      while idle
        invariant Valid() && expiration == old(expiration) > 0 && objects == old(objects) && Linked(Value())
        invariant AfterTick(Value(), expiration, now) == AfterTick(old(Value()), expiration, now)
        invariant idle <==> OldestExpired(Value(), expiration, now)
        decreases |Value().lru|
      {
        WalkGoesOn(Value(), expiration, now);
        EvictOldest();
        idle := OldestIsIdle(now);
      }
      WalkEnds(Value(), expiration, now);
    }

    method DeleteExpiredEntries(now: nat)
      requires Valid() && ready && Linked(Value())
      modifies this, objects
      ensures Valid() && objects == old(objects) && ready && expiration == old(expiration)
      ensures Value() == AfterTick(old(Value()), expiration, now)
      ensures Linked(Value())
      ensures expiration > 0 ==> Value().store == Active(old(Value()).store, expiration, now)
    {
      TickDeletesExactlyTheExpired(Value(), expiration, now);
      hide *;
      if expiration > 0 {
        EvictIdle(now);
      }
    }
  }

  // ----- Whole runs -----

  /** One operation of a run, on the objects. */
  method Serve(limiter: Limiter, cfg: Config, ghost s: State, op: Op) returns (allowed: bool)
    requires limiter.Valid() && limiter.ready && limiter.expiration == cfg.expiration && limiter.Value() == s.limiter
    requires Inv(cfg, s) && Possible(cfg, s, op)
    modifies limiter, limiter.objects
    ensures limiter.Valid() && fresh(limiter.objects - old(limiter.objects)) && limiter.ready
    ensures limiter.expiration == cfg.expiration && limiter.Value() == Apply(cfg, s, op).limiter
    ensures op.Request? ==> (allowed <==> Admits(s.limiter, op.key, op.maxRequests, cfg.duration[op.key], op.at))
    ensures op.Tick? ==> !allowed
  {
    InvIsEnough(cfg, s, op);
    hide Limiter.Valid;
    hide Inv;
    hide Consistent;
    hide AfterRequest;
    hide AfterTick;
    allowed := false;
    match op
    case Request(key, maxRequests, at) => allowed := limiter.Request(key, maxRequests, cfg.duration[key], at);
    case Tick(at) => limiter.DeleteExpiredEntries(at);
  }

  lemma InvIsEnough(cfg: Config, s: State, op: Op)
    requires Inv(cfg, s) && Possible(cfg, s, op)
    ensures Consistent(s.limiter) && Linked(s.limiter) && (op.Request? ==> NotAfter(s.limiter, op.at))
  {
  }

  lemma {:induction false} RunsOfPrefixes(cfg: Config, ops: seq<Op>, n: nat)
    requires Exec(cfg, ops).Some? && n < |ops|
    ensures Exec(cfg, ops[..n]).Some? && Possible(cfg, Exec(cfg, ops[..n]).value, ops[n])
    ensures Exec(cfg, ops[..n + 1]) == Some(Apply(cfg, Exec(cfg, ops[..n]).value, ops[n]))
  {
    if n == |ops| - 1 {
      assert ops[..n + 1] == ops;
    } else {
      RunsOfPrefixes(cfg, ops[..|ops| - 1], n);
      assert ops[..|ops| - 1][..n] == ops[..n] && ops[..|ops| - 1][..n + 1] == ops[..n + 1];
    }
  }

  /** Operation `i` of a run, on a limiter that has done the first `i`. */
  method ServeNext(limiter: Limiter, cfg: Config, ops: seq<Op>, i: nat) returns (allowed: bool)
    requires Exec(cfg, ops).Some? && i < |ops| && Exec(cfg, ops[..i]).Some?
    requires limiter.Valid() && limiter.ready && limiter.expiration == cfg.expiration
    requires limiter.Value() == Exec(cfg, ops[..i]).value.limiter
    modifies limiter, limiter.objects
    ensures limiter.Valid() && fresh(limiter.objects - old(limiter.objects)) && limiter.ready
    ensures limiter.expiration == cfg.expiration
    ensures Exec(cfg, ops[..i + 1]).Some? && limiter.Value() == Exec(cfg, ops[..i + 1]).value.limiter
    ensures allowed ==> ops[i].Request?
    ensures Exec(cfg, ops[..i + 1]).value.accepted
            == Exec(cfg, ops[..i]).value.accepted + if allowed then [Accepted(ops[i].key, ops[i].at)] else []
  {
    hide Limiter.Valid;
    hide Inv;
    hide Exec;
    RunsOfPrefixes(cfg, ops, i);
    InvAlways(cfg, ops[..i]);
    allowed := Serve(limiter, cfg, Exec(cfg, ops[..i]).value, ops[i]);
  }

  lemma EmptyRun(cfg: Config, ops: seq<Op>)
    ensures Exec(cfg, ops[..0]) == Some(START) && ops[..|ops|] == ops
  {
  }

  /** Every run of the value model is a run of the objects: all queues, the store and the list stay intact
      throughout, and the requests that are let through are the accepted ones of the model. */
  method Play(cfg: Config, ops: seq<Op>) returns (limiter: Limiter, accepted: seq<Accepted>)
    requires Exec(cfg, ops).Some?
    ensures limiter.Valid() && limiter.Value() == Exec(cfg, ops).value.limiter
    ensures accepted == Exec(cfg, ops).value.accepted
  {
    hide Limiter.Valid;
    hide Exec;
    limiter := new Limiter();
    limiter.Init(cfg.expiration);
    accepted := [];
    EmptyRun(cfg, ops);
    for i := 0 to |ops|
      invariant limiter.Valid() && fresh(limiter) && fresh(limiter.objects)
      invariant limiter.ready && limiter.expiration == cfg.expiration
      invariant Exec(cfg, ops[..i]).Some? && limiter.Value() == Exec(cfg, ops[..i]).value.limiter
      invariant accepted == Exec(cfg, ops[..i]).value.accepted
    {
      var allowed := ServeNext(limiter, cfg, ops, i);
      if allowed {
        accepted := accepted + [Accepted(ops[i].key, ops[i].at)];
      }
    }
  }
}
