/**
 Admission of plugin-protocol observations under four nested limits: global, per plugin, per user, per token.

 `acquire` raises the four counters one after the other and takes back what it raised when a later limit is
 exhausted; the release function it returns works once. The flag that each release function captures is kept
 here in the table of leases, and the function itself is the lease's index.
 */
module ObservationLimiter {
  import opened Wrappers
  import opened Strings

  datatype Limits = Limits(global: int, perPlugin: int, perUser: int, perToken: int)

  datatype Identity = Identity(plugin: string, user: int, token: int)

  datatype Scope = Global | Plugin(plugin: string) | User(user: int) | Token(token: int)

  datatype AcquireError = PluginKeyRequired | UserIdNotPositive | TokenIdNotPositive | LimitExceeded(scope: Scope, limit: int)

  datatype Lease = Lease(id: Identity, released: bool)

  datatype Counters = Counters(global: int, plugin: map<string, int>, user: map<int, int>, token: map<int, int>)

  const NO_COUNTERS := Counters(0, map[], map[], map[])

  datatype State = State(counters: Counters, leases: seq<Lease>)

  // ----- Counters in a Go map: absent means zero -----

  function Get<K>(m: map<K, int>, k: K): int {
    if k in m then m[k] else 0
  }

  function Raise<K>(m: map<K, int>, k: K): map<K, int> {
    m[k := Get(m, k) + 1]
  }

  function Lower<K>(m: map<K, int>, k: K): map<K, int> {
    if Get(m, k) - 1 == 0 then m - {k} else m[k := Get(m, k) - 1]
  }

  predicate NoIdleEntries<K(!new)>(m: map<K, int>) {
    forall k :: k in m ==> m[k] > 0
  }

  /** Taking back what was just raised restores the map itself, not just the numbers in it. */
  lemma LowerUndoesRaise<K(!new)>(m: map<K, int>, k: K)
    requires NoIdleEntries(m)
    ensures Lower(Raise(m, k), k) == m
  {
    if k !in m {
      assert Raise(m, k) - {k} == m;
    }
  }

  // ----- Live leases -----

  predicate Within(id: Identity, scope: Scope) {
    match scope
    case Global => true
    case Plugin(p) => id.plugin == p
    case User(u) => id.user == u
    case Token(t) => id.token == t
  }

  function Live(leases: seq<Lease>, scope: Scope): nat {
    if leases == [] then 0
    else
      var last := leases[|leases| - 1];
      Live(leases[..|leases| - 1], scope) + if !last.released && Within(last.id, scope) then 1 else 0
  }

  function Count(c: Counters, scope: Scope): int {
    match scope
    case Global => c.global
    case Plugin(p) => Get(c.plugin, p)
    case User(u) => Get(c.user, u)
    case Token(t) => Get(c.token, t)
  }

  function Limit(limits: Limits, scope: Scope): int {
    match scope
    case Global => limits.global
    case Plugin(_) => limits.perPlugin
    case User(_) => limits.perUser
    case Token(_) => limits.perToken
  }

  /** At every scope the counter is the number of live leases and within the limit; idle keys are absent. */
  ghost predicate Valid(limits: Limits, s: State) {
    && (forall scope :: Count(s.counters, scope) == Live(s.leases, scope))
    && (forall scope :: Count(s.counters, scope) > 0 ==> Count(s.counters, scope) <= Limit(limits, scope))
    && NoIdleEntries(s.counters.plugin) && NoIdleEntries(s.counters.user) && NoIdleEntries(s.counters.token)
  }

  // ----- Operations -----

  /** The first scope, from the widest, that has no room for the identity. */
  function Exhausted(limits: Limits, c: Counters, id: Identity): Option<Scope> {
    if c.global >= limits.global then Some(Global)
    else if Get(c.plugin, id.plugin) >= limits.perPlugin then Some(Plugin(id.plugin))
    else if Get(c.user, id.user) >= limits.perUser then Some(User(id.user))
    else if Get(c.token, id.token) >= limits.perToken then Some(Token(id.token))
    else None
  }

  function Malformed(id: Identity): Option<AcquireError> {
    if id.plugin == "" then Some(PluginKeyRequired)
    else if id.user <= 0 then Some(UserIdNotPositive)
    else if id.token <= 0 then Some(TokenIdNotPositive)
    else None
  }

  function Raised(c: Counters, id: Identity): Counters {
    Counters(c.global + 1, Raise(c.plugin, id.plugin), Raise(c.user, id.user), Raise(c.token, id.token))
  }

  function Lowered(c: Counters, id: Identity): Counters {
    Counters(c.global - 1, Lower(c.plugin, id.plugin), Lower(c.user, id.user), Lower(c.token, id.token))
  }

  function Refusal(limits: Limits, s: State, id: Identity): Option<AcquireError> {
    if Malformed(id).Some? then Malformed(id)
    else
      match Exhausted(limits, s.counters, id)
      case Some(scope) => Some(LimitExceeded(scope, Limit(limits, scope)))
      case None => None
  }

  function Canonical(id: Identity): Identity {
    id.(plugin := TrimSpace(id.plugin))
  }

  function AfterAcquire(limits: Limits, s: State, rawId: Identity): State {
    var id := Canonical(rawId);
    if Refusal(limits, s, id).Some? then s
    else State(Raised(s.counters, id), s.leases + [Lease(id, false)])
  }

  function AfterRelease(s: State, lease: nat): State {
    if lease >= |s.leases| || s.leases[lease].released then s
    else State(Lowered(s.counters, s.leases[lease].id), s.leases[lease := s.leases[lease].(released := true)])
  }

  datatype Op = Acquire(id: Identity) | Release(lease: nat)

  function Run(limits: Limits, ops: seq<Op>): State {
    if ops == [] then State(NO_COUNTERS, [])
    else
      var s := Run(limits, ops[..|ops| - 1]);
      match ops[|ops| - 1]
      case Acquire(id) => AfterAcquire(limits, s, id)
      case Release(lease) => AfterRelease(s, lease)
  }

  // ----- Every run -----

  lemma LiveAppend(leases: seq<Lease>, lease: Lease)
    ensures forall scope :: Live(leases + [lease], scope)
                            == Live(leases, scope) + if !lease.released && Within(lease.id, scope) then 1 else 0
  {
    assert (leases + [lease])[..|leases|] == leases;
  }

  lemma {:induction false} LiveRelease(leases: seq<Lease>, i: nat, scope: Scope)
    requires i < |leases| && !leases[i].released
    ensures Live(leases[i := leases[i].(released := true)], scope)
            == Live(leases, scope) - if Within(leases[i].id, scope) then 1 else 0
  {
    var last := |leases| - 1;
    var after := leases[i := leases[i].(released := true)];
    if i == last {
      assert after[..last] == leases[..last];
    } else {
      assert after[..last] == leases[..last][i := leases[i].(released := true)];
      LiveRelease(leases[..last], i, scope);
    }
  }

  lemma RaisedCounts(c: Counters, id: Identity)
    ensures forall scope :: Count(Raised(c, id), scope) == Count(c, scope) + if Within(id, scope) then 1 else 0
  {
  }

  lemma LoweredCounts(c: Counters, id: Identity)
    ensures forall scope :: Count(Lowered(c, id), scope) == Count(c, scope) - if Within(id, scope) then 1 else 0
  {
  }

  lemma AcquireKeepsValid(limits: Limits, s: State, rawId: Identity)
    requires Valid(limits, s)
    ensures Valid(limits, AfterAcquire(limits, s, rawId))
  {
    var id := Canonical(rawId);
    var t := AfterAcquire(limits, s, rawId);
    if Refusal(limits, s, id).None? {
      LiveAppend(s.leases, Lease(id, false));
      RaisedCounts(s.counters, id);
      forall scope | Count(t.counters, scope) > 0 ensures Count(t.counters, scope) <= Limit(limits, scope) {
        if !Within(id, scope) {
          assert Count(s.counters, scope) == Count(t.counters, scope);
        }
      }
      assert NoIdleEntries(t.counters.plugin) && NoIdleEntries(t.counters.user) && NoIdleEntries(t.counters.token) by {
        assert Count(s.counters, Plugin(id.plugin)) >= 0;
        assert Count(s.counters, User(id.user)) >= 0;
        assert Count(s.counters, Token(id.token)) >= 0;
      }
    }
  }

  lemma {:induction false} LiveAtLeastOne(leases: seq<Lease>, i: nat, scope: Scope)
    requires i < |leases| && !leases[i].released && Within(leases[i].id, scope)
    ensures Live(leases, scope) >= 1
  {
    if i < |leases| - 1 {
      LiveAtLeastOne(leases[..|leases| - 1], i, scope);
    }
  }

  lemma ReleaseKeepsValid(limits: Limits, s: State, lease: nat)
    requires Valid(limits, s)
    ensures Valid(limits, AfterRelease(s, lease))
  {
    if lease < |s.leases| && !s.leases[lease].released {
      var id, t := s.leases[lease].id, AfterRelease(s, lease);
      LoweredCounts(s.counters, id);
      forall scope ensures Count(t.counters, scope) == Live(t.leases, scope) {
        LiveRelease(s.leases, lease, scope);
      }
      forall scope | Count(t.counters, scope) > 0 ensures Count(t.counters, scope) <= Limit(limits, scope) {
        assert Count(s.counters, scope) >= Count(t.counters, scope);
      }
      LiveAtLeastOne(s.leases, lease, Plugin(id.plugin));
      LiveAtLeastOne(s.leases, lease, User(id.user));
      LiveAtLeastOne(s.leases, lease, Token(id.token));
      assert Count(s.counters, Plugin(id.plugin)) >= 1;
      assert Count(s.counters, User(id.user)) >= 1;
      assert Count(s.counters, Token(id.token)) >= 1;
    }
  }

  lemma {:induction false} ValidAlways(limits: Limits, ops: seq<Op>)
    ensures Valid(limits, Run(limits, ops))
  {
    if ops != [] {
      var before := ops[..|ops| - 1];
      ValidAlways(limits, before);
      match ops[|ops| - 1]
      case Acquire(id) => AcquireKeepsValid(limits, Run(limits, before), id);
      case Release(lease) => ReleaseKeepsValid(limits, Run(limits, before), lease);
    }
  }

  // ----- Main results -----

  lemma RefusalOfValid(limits: Limits, s: State, id: Identity)
    requires Valid(limits, s)
    ensures var scopes := [Global, Plugin(id.plugin), User(id.user), Token(id.token)];
            && (Refusal(limits, s, id).None? <==>
                  && id.plugin != "" && id.user > 0 && id.token > 0
                  && forall i :: 0 <= i < 4 ==> Live(s.leases, scopes[i]) < Limit(limits, scopes[i]))
            && (Refusal(limits, s, id).Some? && Refusal(limits, s, id).value.LimitExceeded? ==>
                  exists i :: 0 <= i < 4
                    && Refusal(limits, s, id).value == LimitExceeded(scopes[i], Limit(limits, scopes[i]))
                    && Live(s.leases, scopes[i]) >= Limit(limits, scopes[i])
                    && forall j :: 0 <= j < i ==> Live(s.leases, scopes[j]) < Limit(limits, scopes[j]))
  {
    hide Live;
    var scopes := [Global, Plugin(id.plugin), User(id.user), Token(id.token)];
    assert Count(s.counters, scopes[0]) == Live(s.leases, scopes[0]);
    assert Count(s.counters, scopes[1]) == Live(s.leases, scopes[1]);
    assert Count(s.counters, scopes[2]) == Live(s.leases, scopes[2]);
    assert Count(s.counters, scopes[3]) == Live(s.leases, scopes[3]);
  }

  /** After any run, an identity is admitted exactly when it is well formed and every scope it belongs to still
      has fewer live leases than its limit; the refusal names the widest scope that does not. */
  lemma AdmissionIff(limits: Limits, ops: seq<Op>, rawId: Identity)
    ensures var s, id := Run(limits, ops), Canonical(rawId);
            var scopes := [Global, Plugin(id.plugin), User(id.user), Token(id.token)];
            && (Refusal(limits, s, id).None? <==>
                  && id.plugin != "" && id.user > 0 && id.token > 0
                  && forall i :: 0 <= i < 4 ==> Live(s.leases, scopes[i]) < Limit(limits, scopes[i]))
            && (Refusal(limits, s, id).Some? && Refusal(limits, s, id).value.LimitExceeded? ==>
                  exists i :: 0 <= i < 4
                    && Refusal(limits, s, id).value == LimitExceeded(scopes[i], Limit(limits, scopes[i]))
                    && Live(s.leases, scopes[i]) >= Limit(limits, scopes[i])
                    && forall j :: 0 <= j < i ==> Live(s.leases, scopes[j]) < Limit(limits, scopes[j]))
  {
    hide Live;
    hide Run;
    ValidAlways(limits, ops);
    RefusalOfValid(limits, Run(limits, ops), Canonical(rawId));
  }

  /** At every moment of every run no more leases are live than each of the four limits allows. */
  lemma LimitsRespected(limits: Limits, ops: seq<Op>, id: Identity)
    ensures var leases := Run(limits, ops).leases;
            && (Live(leases, Global) > 0 ==> Live(leases, Global) <= limits.global)
            && (Live(leases, Plugin(id.plugin)) > 0 ==> Live(leases, Plugin(id.plugin)) <= limits.perPlugin)
            && (Live(leases, User(id.user)) > 0 ==> Live(leases, User(id.user)) <= limits.perUser)
            && (Live(leases, Token(id.token)) > 0 ==> Live(leases, Token(id.token)) <= limits.perToken)
  {
    hide Live;
    hide Run;
    ValidAlways(limits, ops);
    var s := Run(limits, ops);
    assert Count(s.counters, Global) == Live(s.leases, Global);
    assert Count(s.counters, Plugin(id.plugin)) == Live(s.leases, Plugin(id.plugin));
    assert Count(s.counters, User(id.user)) == Live(s.leases, User(id.user));
    assert Count(s.counters, Token(id.token)) == Live(s.leases, Token(id.token));
  }

  /** What an acquisition adds: one live lease of the trimmed plugin key, the user and the token, counted at exactly the
      scopes of these; a refused one adds nothing. Which ids are malformed, in the order they are reported. */
  lemma AcquisitionMeans(limits: Limits, s: State, plugin: string, user: int, token: int, scope: Scope)
    ensures var id := Identity(TrimSpace(plugin), user, token);
            var after, refusal := AfterAcquire(limits, s, Identity(plugin, user, token)), Refusal(limits, s, id);
            && after.leases == s.leases + (if refusal.None? then [Lease(id, false)] else [])
            && (refusal.None? ==>
                  Live(after.leases, scope) - Live(s.leases, scope)
                  == if scope in {Global, Plugin(TrimSpace(plugin)), User(user), Token(token)} then 1 else 0)
            && (refusal == Some(PluginKeyRequired) <==> TrimSpace(plugin) == "")
            && (refusal == Some(UserIdNotPositive) <==> TrimSpace(plugin) != "" && user <= 0)
            && (refusal == Some(TokenIdNotPositive) <==> TrimSpace(plugin) != "" && user > 0 && token <= 0)
  {
    LiveAppend(s.leases, Lease(Identity(TrimSpace(plugin), user, token), false));
  }

  /** Releasing a lease again changes nothing. */
  lemma ReleaseIsIdempotent(s: State, lease: nat)
    ensures AfterRelease(AfterRelease(s, lease), lease) == AfterRelease(s, lease)
  {
  }

  predicate AllReleased(leases: seq<Lease>) {
    forall i :: 0 <= i < |leases| ==> leases[i].released
  }

  lemma {:induction false} NothingLive(leases: seq<Lease>, scope: Scope)
    requires AllReleased(leases)
    ensures Live(leases, scope) == 0
  {
    if leases != [] {
      NothingLive(leases[..|leases| - 1], scope);
    }
  }

  /** Once every lease of a run is released, in whatever order, the limiter is empty: no counter and no key. */
  lemma AllReleasedMeansEmpty(limits: Limits, ops: seq<Op>)
    requires AllReleased(Run(limits, ops).leases)
    ensures Run(limits, ops).counters == NO_COUNTERS
  {
    ValidAlways(limits, ops);
    var s := Run(limits, ops);
    forall scope ensures Count(s.counters, scope) == 0 {
      NothingLive(s.leases, scope);
    }
    assert Count(s.counters, Global) == 0;
    forall k ensures Get(s.counters.plugin, k) == 0 {
      assert Count(s.counters, Plugin(k)) == 0;
    }
    forall k ensures Get(s.counters.user, k) == 0 {
      assert Count(s.counters, User(k)) == 0;
    }
    forall k ensures Get(s.counters.token, k) == 0 {
      assert Count(s.counters, Token(k)) == 0;
    }
    EmptyWhenIdle(s.counters.plugin);
    EmptyWhenIdle(s.counters.user);
    EmptyWhenIdle(s.counters.token);
  }

  lemma EmptyWhenIdle<K(!new)>(m: map<K, int>)
    requires NoIdleEntries(m) && forall k :: Get(m, k) == 0
    ensures m == map[]
  {
    forall k ensures k !in m {
      assert Get(m, k) == 0;
    }
  }

  // ----- The limiter object -----

  class Limiter {
    const limits: Limits
    var global: int
    var plugin: map<string, int>
    var user: map<int, int>
    var token: map<int, int>
    var leases: seq<Lease>

    ghost function Value(): State
      reads this
    {
      State(Counters(global, plugin, user, token), leases)
    }

    constructor (limits: Limits)
      ensures this.limits == limits && Value() == State(NO_COUNTERS, [])
    {
      this.limits := limits;
      global, plugin, user, token, leases := 0, map[], map[], map[], [];
    }

    /** Raises the counters one by one; a refusal undoes them by hand and leaves everything as it was. */
    method TryAcquire(pluginKey: string, userId: int, tokenId: int) returns (r: Result<nat, AcquireError>)
      requires NoIdleEntries(plugin) && NoIdleEntries(user)
      modifies this
      ensures Value() == AfterAcquire(limits, old(Value()), Identity(pluginKey, userId, tokenId))
      ensures r == var refusal := Refusal(limits, old(Value()), Canonical(Identity(pluginKey, userId, tokenId)));
                   if refusal.Some? then Err(refusal.value) else Ok(|old(leases)|)
    {
      hide NoIdleEntries;
      hide Canonical;
      var id := Canonical(Identity(pluginKey, userId, tokenId));
      if Malformed(id).Some? {
        return Err(Malformed(id).value);
      }
      if global >= limits.global {
        return Err(LimitExceeded(Global, limits.global));
      }
      global := global + 1;

      if Get(plugin, id.plugin) >= limits.perPlugin {
        global := global - 1;
        return Err(LimitExceeded(Plugin(id.plugin), limits.perPlugin));
      }
      LowerUndoesRaise(plugin, id.plugin);
      plugin := Raise(plugin, id.plugin);

      if Get(user, id.user) >= limits.perUser {
        global := global - 1;
        plugin := Lower(plugin, id.plugin);
        return Err(LimitExceeded(User(id.user), limits.perUser));
      }
      LowerUndoesRaise(user, id.user);
      user := Raise(user, id.user);

      if Get(token, id.token) >= limits.perToken {
        global := global - 1;
        plugin := Lower(plugin, id.plugin);
        user := Lower(user, id.user);
        return Err(LimitExceeded(Token(id.token), limits.perToken));
      }
      token := Raise(token, id.token);
      leases := leases + [Lease(id, false)];
      return Ok(|leases| - 1);
    }

    /** A refusal leaves everything as it was and names the reason; success adds one live lease. */
    method Acquire(pluginKey: string, userId: int, tokenId: int) returns (r: Result<nat, AcquireError>)
      requires Valid(limits, Value())
      modifies this
      ensures Valid(limits, Value())
      ensures Value() == AfterAcquire(limits, old(Value()), Identity(pluginKey, userId, tokenId))
      ensures r.Err? <==> Refusal(limits, old(Value()), Canonical(Identity(pluginKey, userId, tokenId))).Some?
      ensures r.Err? ==>
                && Value() == old(Value())
                && Some(r.error) == Refusal(limits, old(Value()), Canonical(Identity(pluginKey, userId, tokenId)))
      ensures r.Ok? ==>
                && r.value == |old(leases)|
                && leases == old(leases) + [Lease(Canonical(Identity(pluginKey, userId, tokenId)), false)]
    {
      AcquireKeepsValid(limits, Value(), Identity(pluginKey, userId, tokenId));
      r := TryAcquire(pluginKey, userId, tokenId);
    }

    /** The release function of a lease: runs once. */
    method Release(lease: nat)
      requires Valid(limits, Value()) && lease < |leases|
      modifies this
      ensures Valid(limits, Value())
      ensures Value() == AfterRelease(old(Value()), lease)
      ensures leases[lease].released
    {
      ReleaseKeepsValid(limits, Value(), lease);
      if leases[lease].released {
        return;
      }
      var id := leases[lease].id;
      global := global - 1;
      plugin := Lower(plugin, id.plugin);
      user := Lower(user, id.user);
      token := Lower(token, id.token);
      leases := leases[lease := Lease(id, true)];
    }
  }
}
