/**
 Concurrent first logins with a Google identity.

 Any number of callbacks race through owner lookup, account preparation, one
 transaction that inserts the user and claims the subject, an owner re-read after
 a failed transaction, and a bounded retry that is taken only for deadlocks.
 Other requests may meanwhile soft-delete, hard-delete, bind or unbind accounts.

 `external_identity_claims` is a map because of its unique index on the subject;
 its second unique index makes the map injective.
 */
module GoogleRegistration {
  import opened Wrappers
  import opened Strings

  const REGISTRATION_ATTEMPTS := 3

  datatype DatabaseError =
    | MySQL(number: int)
    | Postgres(code: string)
    | AlreadyClaimed
    | OtherError

  predicate IsDatabaseDeadlock(e: DatabaseError) {
    match e
    case MySQL(number) => number == 1213
    case Postgres(code) => code == "40P01"
    case _ => false
  }

  datatype LoginError =
    | SubjectEmpty
    | LookupFailed
    | UserDeleted
    | RegistrationDisabled
    | EmailAlreadyTaken
    | EmailCheckFailed
    | RegistrationFailed(cause: DatabaseError)

  datatype Phase =
    | LookingUp
    | Preparing
    | Registering
    | Rereading(cause: DatabaseError)
    | Finalizing(user: nat)
    | Attributing(user: nat)
    | Returned(user: nat)
    | Failed(error: LoginError)

  datatype Callback = Callback(
    subject: string,
    phase: Phase,
    attempt: nat,
    transactions: nat,
    created: Option<nat>,
    finalizations: nat,
    attributions: nat)

  datatype User = User(deleted: bool)

  /** History of the claim table. `creator` is the callback that created the account, `None` for a bind. */
  datatype Entry =
    | Claimed(subject: string, user: nat, creator: Option<nat>)
    | Released(subject: string)

  datatype State = State(
    users: map<nat, User>,
    nextId: nat,
    claims: map<string, nat>,
    callbacks: seq<Callback>,
    log: seq<Entry>)

  datatype Preparation = RegistrationOff | EmailTaken | EmailError | Ready

  datatype Commit = Committed | RolledBack(cause: DatabaseError)

  datatype Step =
    | LookUp(c: nat, readable: bool)
    | Prepare(c: nat, preparation: Preparation)
    | Register(c: nat, commit: Commit)
    | Reread(c: nat, readable: bool)
    | Finalize(c: nat)
    | Attribute(c: nat)
    | SoftDelete(user: nat)
    | HardDelete(user: nat)
    | Bind(subject: string, user: nat)
    | Release(subject: string)

  function Arrive(rawSubject: string): Callback {
    var subject := TrimSpace(rawSubject);
    Callback(subject, if subject == "" then Failed(SubjectEmpty) else LookingUp, 0, 0, None, 0, 0)
  }

  function Init(users: map<nat, User>, nextId: nat, rawSubjects: seq<string>): State {
    State(users, nextId, map[], seq(|rawSubjects|, i requires 0 <= i < |rawSubjects| => Arrive(rawSubjects[i])), [])
  }

  function FindOwner(s: State, subject: string): Option<nat> {
    if subject in s.claims && s.claims[subject] in s.users then Some(s.claims[subject]) else None
  }

  predicate Enabled(s: State, step: Step) {
    match step
    case LookUp(c, _) => c < |s.callbacks| && s.callbacks[c].phase.LookingUp?
    case Prepare(c, _) => c < |s.callbacks| && s.callbacks[c].phase.Preparing?
    case Register(c, commit) =>
      && c < |s.callbacks| && s.callbacks[c].phase.Registering?
      && (commit.Committed? ==> s.callbacks[c].subject !in s.claims)
    case Reread(c, _) => c < |s.callbacks| && s.callbacks[c].phase.Rereading?
    case Finalize(c) => c < |s.callbacks| && s.callbacks[c].phase.Finalizing?
    case Attribute(c) => c < |s.callbacks| && s.callbacks[c].phase.Attributing?
    case SoftDelete(user) => user in s.users
    case HardDelete(user) => user in s.users
    case Bind(subject, user) => subject !in s.claims && user in s.users && user !in s.claims.Values
    case Release(subject) => subject in s.claims
  }

  function With(s: State, c: nat, callback: Callback): State
    requires c < |s.callbacks|
  {
    s.(callbacks := s.callbacks[c := callback])
  }

  function LogInto(s: State, user: nat): Phase
    requires user in s.users
  {
    if s.users[user].deleted then Failed(UserDeleted) else Returned(user)
  }

  function AfterLookUp(s: State, cb: Callback, readable: bool): Phase {
    if !readable then Failed(LookupFailed)
    else
      match FindOwner(s, cb.subject)
      case Some(owner) => LogInto(s, owner)
      case None => Preparing
  }

  function AfterPrepare(preparation: Preparation): Phase {
    match preparation
    case RegistrationOff => Failed(RegistrationDisabled)
    case EmailTaken => Failed(EmailAlreadyTaken)
    case EmailError => Failed(EmailCheckFailed)
    case Ready => Registering
  }

  function AfterReread(s: State, cb: Callback, readable: bool): Callback
    requires cb.phase.Rereading?
  {
    var owner := FindOwner(s, cb.subject);
    if readable && owner.Some? then cb.(phase := LogInto(s, owner.value))
    else if IsDatabaseDeadlock(cb.phase.cause) && cb.attempt + 1 < REGISTRATION_ATTEMPTS then
      cb.(phase := LookingUp, attempt := cb.attempt + 1)
    else cb.(phase := Failed(RegistrationFailed(cb.phase.cause)))
  }

  function Apply(s: State, step: Step): State
    requires Enabled(s, step)
  {
    match step
    case LookUp(c, readable) =>
      var cb := s.callbacks[c];
      With(s, c, cb.(phase := AfterLookUp(s, cb, readable)))
    case Prepare(c, preparation) =>
      With(s, c, s.callbacks[c].(phase := AfterPrepare(preparation)))
    case Register(c, commit) =>
      var cb := s.callbacks[c].(transactions := s.callbacks[c].transactions + 1);
      (match commit
       case RolledBack(cause) => With(s, c, cb.(phase := Rereading(cause)))
       case Committed =>
         With(s, c, cb.(phase := Finalizing(s.nextId), created := Some(s.nextId)))
         .(users := s.users[s.nextId := User(false)],
         nextId := s.nextId + 1,
         claims := s.claims[cb.subject := s.nextId],
         log := s.log + [Claimed(cb.subject, s.nextId, Some(c))]))
    case Reread(c, readable) => With(s, c, AfterReread(s, s.callbacks[c], readable))
    case Finalize(c) =>
      var cb := s.callbacks[c];
      With(s, c, cb.(phase := Attributing(cb.phase.user), finalizations := cb.finalizations + 1))
    case Attribute(c) =>
      var cb := s.callbacks[c];
      With(s, c, cb.(phase := Returned(cb.phase.user), attributions := cb.attributions + 1))
    case SoftDelete(user) => s.(users := s.users[user := User(true)])
    case HardDelete(user) => s.(users := s.users - {user})
    case Bind(subject, user) =>
      s.(claims := s.claims[subject := user], log := s.log + [Claimed(subject, user, None)])
    case Release(subject) =>
      s.(claims := s.claims - {subject}, log := s.log + [Released(subject)])
  }

  function Exec(start: State, steps: seq<Step>): Option<State> {
    if steps == [] then Some(start)
    else
      match Exec(start, steps[..|steps| - 1])
      case None => None
      case Some(s) =>
        var last := steps[|steps| - 1];
        if Enabled(s, last) then Some(Apply(s, last)) else None
  }

  /** A start state: any accounts with ids below the next one, no Google claim yet, callbacks arriving.
      Claims that predate the callbacks are `Bind` steps taken first. */
  predicate Initial(s: State) {
    && (forall u :: u in s.users ==> u < s.nextId)
    && s.claims == map[] && s.log == []
    && (forall c :: 0 <= c < |s.callbacks| ==>
                      var cb := s.callbacks[c];
                      (cb.phase.LookingUp? || cb.phase.Failed?) && cb.attempt == 0 && cb.transactions == 0
                      && cb.created.None? && cb.finalizations == 0 && cb.attributions == 0)
  }

  // ----- Invariants -----

  ghost predicate ReleasedAfter(log: seq<Entry>, from: nat, subject: string) {
    exists k :: from < k < |log| && log[k] == Released(subject)
  }

  /** Each claim in the history is either still in force or was released later; a subject is never
      claimed twice without a release in between. */
  ghost predicate ClaimHistory(s: State) {
    && (forall i :: 0 <= i < |s.log| && s.log[i].Claimed? ==>
                      || (s.log[i].subject in s.claims && s.claims[s.log[i].subject] == s.log[i].user)
                      || ReleasedAfter(s.log, i, s.log[i].subject))
    && (forall i, j :: 0 <= i < j < |s.log| && s.log[i].Claimed? && s.log[j].Claimed?
                       && s.log[i].subject == s.log[j].subject
                       ==> ReleasedAfter(s.log[..j], i, s.log[i].subject))
    && (forall subject :: subject in s.claims ==> WasClaimed(s.log, subject, s.claims[subject]))
  }

  ghost predicate WasClaimed(log: seq<Entry>, subject: string, user: nat) {
    exists i :: 0 <= i < |log| && log[i].Claimed? && log[i].subject == subject && log[i].user == user
  }

  /** What one callback may have done so far. */
  predicate CallbackOK(cb: Callback) {
    && cb.transactions <= REGISTRATION_ATTEMPTS
    && cb.attempt < REGISTRATION_ATTEMPTS
    && (cb.phase.LookingUp? || cb.phase.Preparing? || cb.phase.Registering? ==> cb.transactions <= cb.attempt)
    && cb.transactions <= cb.attempt + 1
    && cb.finalizations <= 1 && cb.attributions <= cb.finalizations
    && (cb.created.Some? <==> cb.phase.Finalizing? || cb.phase.Attributing? || (cb.phase.Returned? && cb.finalizations == 1))
    && (cb.created.Some? ==> cb.phase.user == cb.created.value)
    && (cb.phase.Finalizing? ==> cb.finalizations == 0)
    && (cb.phase.Attributing? ==> cb.finalizations == 1 && cb.attributions == 0)
    && (cb.phase.Returned? ==> cb.attributions == cb.finalizations)
    && (cb.created.None? ==> cb.finalizations == 0)
  }

  /** A callback that holds an account created it by a logged claim, and every user a callback returned
      was at some time the claimed owner of the callback's subject. */
  ghost predicate CallbackHistory(s: State, c: nat)
    requires c < |s.callbacks|
  {
    var cb := s.callbacks[c];
    && CallbackOK(cb)
    && (cb.phase.Returned? ==> WasClaimed(s.log, cb.subject, cb.phase.user))
    && (cb.created.Some? ==> exists i :: 0 <= i < |s.log| && s.log[i] == Claimed(cb.subject, cb.created.value, Some(c)))
  }

  /** Accounts in the history made by this path name the callback that made them. */
  predicate CreationsAttributed(s: State) {
    && (forall u :: u in s.users ==> u < s.nextId)
    && (forall i :: 0 <= i < |s.log| && s.log[i].Claimed? ==> s.log[i].user < s.nextId)
    && (forall i :: 0 <= i < |s.log| && s.log[i].Claimed? && s.log[i].creator.Some? ==>
                      var c := s.log[i].creator.value;
                      && c < |s.callbacks|
                      && s.callbacks[c].subject == s.log[i].subject
                      && s.callbacks[c].created == Some(s.log[i].user))
    && (forall i, j :: 0 <= i < j < |s.log| && s.log[i].Claimed? && s.log[j].Claimed? && s.log[j].creator.Some?
                       ==> s.log[i].user != s.log[j].user)
  }

  ghost predicate Inv(s: State) {
    && ClaimHistory(s)
    && CreationsAttributed(s)
    && (forall c: nat :: c < |s.callbacks| ==> CallbackHistory(s, c))
  }

  lemma ReleasedAfterAppend(log: seq<Entry>, e: Entry)
    ensures forall i: nat, subject :: ReleasedAfter(log, i, subject) ==> ReleasedAfter(log + [e], i, subject)
    ensures forall i: nat, subject :: i < |log| && e == Released(subject) ==> ReleasedAfter(log + [e], i, subject)
    ensures forall subject, user :: WasClaimed(log, subject, user) ==> WasClaimed(log + [e], subject, user)
    ensures e.Claimed? ==> WasClaimed(log + [e], e.subject, e.user)
  {
    var longer := log + [e];
    forall i: nat, subject | ReleasedAfter(log, i, subject) ensures ReleasedAfter(longer, i, subject) {
      var k :| i < k < |log| && log[k] == Released(subject);
      assert longer[k] == Released(subject);
    }
    assert longer[|log|] == e;
    forall subject, user | WasClaimed(log, subject, user) ensures WasClaimed(longer, subject, user) {
      var i :| 0 <= i < |log| && log[i].Claimed? && log[i].subject == subject && log[i].user == user;
      assert longer[i] == log[i];
    }
  }

  /** The unique index: a new claim is possible only when every earlier one was released. */
  lemma ClaimHistoryGrows(s: State, t: State, e: Entry)
    requires ClaimHistory(s) && t.log == s.log + [e]
    requires e.Claimed? ==> e.subject !in s.claims && t.claims == s.claims[e.subject := e.user]
    requires e.Released? ==> t.claims == s.claims - {e.subject}
    ensures ClaimHistory(t)
  {
    ReleasedAfterAppend(s.log, e);
    forall i, j | 0 <= i < j < |t.log| && t.log[i].Claimed? && t.log[j].Claimed? && t.log[i].subject == t.log[j].subject
      ensures ReleasedAfter(t.log[..j], i, t.log[i].subject)
    {
      if j == |s.log| {
        assert t.log[..j] == s.log;
      } else {
        assert t.log[..j] == s.log[..j];
      }
    }
  }

  lemma ClaimHistoryKept(s: State, step: Step)
    requires ClaimHistory(s) && Enabled(s, step)
    ensures ClaimHistory(Apply(s, step))
  {
    var t := Apply(s, step);
    if |t.log| > |s.log| {
      ClaimHistoryGrows(s, t, t.log[|s.log|]);
    }
  }

  /** Callbacks keep what they created and their subjects. */
  predicate CallbacksGrow(s: State, t: State) {
    && |t.callbacks| == |s.callbacks|
    && (forall c :: 0 <= c < |s.callbacks| ==> t.callbacks[c].subject == s.callbacks[c].subject)
    && (forall c :: 0 <= c < |s.callbacks| && s.callbacks[c].created.Some? ==>
                      t.callbacks[c].created == s.callbacks[c].created)
  }

  lemma CallbacksGrowAlways(s: State, step: Step)
    requires Enabled(s, step) && forall c: nat :: c < |s.callbacks| ==> CallbackOK(s.callbacks[c])
    ensures CallbacksGrow(s, Apply(s, step))
  {
  }

  lemma CreationsAttributedKept(s: State, step: Step)
    requires CreationsAttributed(s) && Enabled(s, step)
    requires forall c: nat :: c < |s.callbacks| ==> CallbackOK(s.callbacks[c])
    ensures CreationsAttributed(Apply(s, step))
  {
    CallbacksGrowAlways(s, step);
    hide CallbackOK;
    hide AfterReread;
    hide AfterLookUp;
    hide AfterPrepare;
    var t := Apply(s, step);
    assert forall i :: 0 <= i < |s.log| ==> t.log[i] == s.log[i];
  }

  lemma CallbackOKKept(s: State, step: Step, c: nat)
    requires Enabled(s, step) && c < |s.callbacks| && CallbackOK(s.callbacks[c])
    ensures c < |Apply(s, step).callbacks| && CallbackOK(Apply(s, step).callbacks[c])
  {
  }

  lemma CallbackHistoryKept(s: State, step: Step, c: nat)
    requires Enabled(s, step) && ClaimHistory(s)
    requires c < |s.callbacks| && CallbackHistory(s, c)
    ensures c < |Apply(s, step).callbacks| && CallbackHistory(Apply(s, step), c)
  {
    var t := Apply(s, step);
    if |t.log| > |s.log| {
      ReleasedAfterAppend(s.log, t.log[|s.log|]);
    }
    var was, cb := s.callbacks[c], t.callbacks[c];
    CallbackOKKept(s, step, c);
    if was.created.Some? {
      var i :| 0 <= i < |s.log| && s.log[i] == Claimed(was.subject, was.created.value, Some(c));
      assert t.log[i] == s.log[i];
    } else if cb.created.Some? {
      assert t.log[|s.log|] == Claimed(cb.subject, cb.created.value, Some(c));
    }
  }

  lemma {:induction false} InvAlways(start: State, steps: seq<Step>)
    requires Initial(start)
    ensures Exec(start, steps).Some? ==> Inv(Exec(start, steps).value)
  {
    if steps != [] && Exec(start, steps).Some? {
      var before := steps[..|steps| - 1];
      InvAlways(start, before);
      var s, step := Exec(start, before).value, steps[|steps| - 1];
      ClaimHistoryKept(s, step);
      forall c: nat | c < |s.callbacks| ensures CallbackOK(s.callbacks[c]) {
        assert CallbackHistory(s, c);
      }
      CreationsAttributedKept(s, step);
      forall c: nat | c < |Apply(s, step).callbacks| ensures CallbackHistory(Apply(s, step), c) {
        CallbackHistoryKept(s, step, c);
      }
    }
  }

  /** Arriving callbacks over a table without Google claims form a start state. */
  lemma ArrivalIsInitial(users: map<nat, User>, nextId: nat, rawSubjects: seq<string>)
    requires forall u :: u in users ==> u < nextId
    ensures Initial(Init(users, nextId, rawSubjects))
  {
  }

  // ----- Main results -----

  predicate NeverReleased(s: State, subject: string) {
    forall k :: 0 <= k < |s.log| ==> s.log[k] != Released(subject)
  }

  /** The account a callback created, if any, stands in the history under the callback's name, and its claim is in
      force unless it was released after that very entry. */
  ghost predicate ClaimedUntilReleased(s: State, c: nat)
    requires c < |s.callbacks| && s.callbacks[c].created.Some?
  {
    var cb := s.callbacks[c];
    exists i :: && 0 <= i < |s.log| && s.log[i] == Claimed(cb.subject, cb.created.value, Some(c))
                && ((cb.subject in s.claims && s.claims[cb.subject] == cb.created.value)
                    || ReleasedAfter(s.log, i, cb.subject))
  }

  /** However the callbacks interleave, a second account for a subject requires that the first claim was
      released in between, and every account created here keeps its claim until that claim is released. */
  lemma AtMostOneAccountPerClaim(start: State, steps: seq<Step>)
    requires Initial(start) && Exec(start, steps).Some?
    ensures var s := Exec(start, steps).value;
            && (forall i, j :: 0 <= i < j < |s.log| && s.log[i].Claimed? && s.log[j].Claimed?
                               && s.log[i].subject == s.log[j].subject
                               ==> ReleasedAfter(s.log[..j], i, s.log[i].subject))
            && (forall c: nat :: c < |s.callbacks| && s.callbacks[c].created.Some? ==> ClaimedUntilReleased(s, c))
  {
    InvAlways(start, steps);
    var s := Exec(start, steps).value;
    forall c: nat | c < |s.callbacks| && s.callbacks[c].created.Some? ensures ClaimedUntilReleased(s, c) {
      assert CallbackHistory(s, c);
      var cb := s.callbacks[c];
      var i :| 0 <= i < |s.log| && s.log[i] == Claimed(cb.subject, cb.created.value, Some(c));
    }
  }

  lemma SoleClaim(s: State, subject: string, user: nat)
    requires ClaimHistory(s) && NeverReleased(s, subject) && WasClaimed(s.log, subject, user)
    ensures subject in s.claims && s.claims[subject] == user
  {
  }

  lemma ClaimedTwice(s: State, i: nat, j: nat)
    requires ClaimHistory(s) && i < j < |s.log| && s.log[i].Claimed? && s.log[j].Claimed?
    requires s.log[i].subject == s.log[j].subject
    ensures !NeverReleased(s, s.log[i].subject)
  {
    var k :| i < k < j && s.log[..j][k] == Released(s.log[i].subject);
    assert s.log[k] == Released(s.log[i].subject);
  }

  /** All callbacks of one subject that succeed, and the one that creates the account, agree on the user,
      as long as the subject's claim is not released. */
  lemma SuccessfulCallbacksAgree(start: State, steps: seq<Step>, b: nat, c: nat)
    requires Initial(start) && Exec(start, steps).Some?
    requires var s := Exec(start, steps).value;
             && b < |s.callbacks| && c < |s.callbacks|
             && s.callbacks[b].subject == s.callbacks[c].subject
             && NeverReleased(s, s.callbacks[b].subject)
             && s.callbacks[b].phase.Returned?
             && (s.callbacks[c].phase.Returned? || s.callbacks[c].created.Some?)
    ensures var s := Exec(start, steps).value;
            && (s.callbacks[c].phase.Returned? ==> s.callbacks[c].phase.user == s.callbacks[b].phase.user)
            && (s.callbacks[c].created.Some? ==> s.callbacks[c].created.value == s.callbacks[b].phase.user)
            && s.callbacks[b].subject in s.claims
            && s.claims[s.callbacks[b].subject] == s.callbacks[b].phase.user
  {
    InvAlways(start, steps);
    var s := Exec(start, steps).value;
    assert CallbackHistory(s, b) && CallbackHistory(s, c);
    SoleClaim(s, s.callbacks[b].subject, s.callbacks[b].phase.user);
    SoleClaim(s, s.callbacks[c].subject, s.callbacks[c].phase.user);
  }

  /** Two callbacks of one subject never both create, finalize or attribute an account. */
  lemma OneCreatorPerSubject(start: State, steps: seq<Step>, b: nat, c: nat)
    requires Initial(start) && Exec(start, steps).Some?
    requires var s := Exec(start, steps).value;
             && b < |s.callbacks| && c < |s.callbacks| && b != c
             && s.callbacks[b].subject == s.callbacks[c].subject
             && NeverReleased(s, s.callbacks[b].subject)
    ensures var s := Exec(start, steps).value;
            && (s.callbacks[b].created.None? || s.callbacks[c].created.None?)
            && s.callbacks[b].finalizations + s.callbacks[c].finalizations <= 1
            && s.callbacks[b].attributions + s.callbacks[c].attributions <= 1
  {
    InvAlways(start, steps);
    var s := Exec(start, steps).value;
    assert CallbackHistory(s, b) && CallbackHistory(s, c);
    if s.callbacks[b].created.Some? && s.callbacks[c].created.Some? {
      var i :| 0 <= i < |s.log| && s.log[i] == Claimed(s.callbacks[b].subject, s.callbacks[b].created.value, Some(b));
      var j :| 0 <= j < |s.log| && s.log[j] == Claimed(s.callbacks[c].subject, s.callbacks[c].created.value, Some(c));
      if i < j {
        ClaimedTwice(s, i, j);
      } else if j < i {
        ClaimedTwice(s, j, i);
      }
    }
  }

  // ----- Once somebody owns the subject -----

  function Actor(step: Step): Option<nat> {
    if step.LookUp? || step.Prepare? || step.Register? || step.Reread? || step.Finalize? || step.Attribute?
    then Some(step.c) else None
  }

  /** The subject is claimed by an existing account, `deleted` or not. */
  predicate OwnedBy(s: State, subject: string, owner: nat, deleted: bool) {
    subject in s.claims && s.claims[subject] == owner && owner in s.users && s.users[owner].deleted == deleted
  }

  predicate Unowned(s: State, subject: string) {
    subject !in s.claims || s.claims[subject] !in s.users
  }

  /** Nobody releases the subject or deletes its owner, and no read of the owner fails. */
  predicate Undisturbed(step: Step, subject: string, owner: nat) {
    && step != Release(subject) && step != SoftDelete(owner) && step != HardDelete(owner)
    && (step.LookUp? || step.Reread? ==> step.readable)
  }

  /** How many steps a callback that has not created anything still takes when the subject has an owner. */
  function StepsLeft(phase: Phase): nat {
    match phase
    case LookingUp => 1
    case Preparing => 3
    case Registering => 2
    case Rereading(_) => 1
    case _ => 0
  }

  predicate PreparationFailed(phase: Phase) {
    && phase.Failed?
    && (phase.error.RegistrationDisabled? || phase.error.EmailAlreadyTaken? || phase.error.EmailCheckFailed?)
  }

  /** How the owner is answered: logged in, or refused if deleted. */
  function Landing(owner: nat, deleted: bool): Phase {
    if deleted then Failed(UserDeleted) else Returned(owner)
  }

  /** On the way to the owner, or there; only the preparation of an account may still end it otherwise. */
  predicate BoundFor(phase: Phase, owner: nat, deleted: bool) {
    StepsLeft(phase) > 0 || phase == Landing(owner, deleted) || PreparationFailed(phase)
  }

  /** New accounts get new ids. */
  predicate IdsBelow(s: State) {
    forall u :: u in s.users ==> u < s.nextId
  }

  lemma OwnedKept(s: State, step: Step, subject: string, owner: nat, deleted: bool)
    requires IdsBelow(s) && OwnedBy(s, subject, owner, deleted) && Enabled(s, step) && Undisturbed(step, subject, owner)
    ensures IdsBelow(Apply(s, step)) && OwnedBy(Apply(s, step), subject, owner, deleted)
  {
  }

  lemma BoundForOwner(s: State, step: Step, owner: nat, deleted: bool, c: nat)
    requires c < |s.callbacks| && OwnedBy(s, s.callbacks[c].subject, owner, deleted)
    requires Enabled(s, step) && Undisturbed(step, s.callbacks[c].subject, owner)
    requires s.callbacks[c].created.None? && BoundFor(s.callbacks[c].phase, owner, deleted)
    ensures var was, cb := s.callbacks[c], Apply(s, step).callbacks[c];
            && cb.subject == was.subject && cb.created.None? && BoundFor(cb.phase, owner, deleted)
            && (!PreparationFailed(cb.phase) ==>
                  StepsLeft(cb.phase) == StepsLeft(was.phase) - if Actor(step) == Some(c) then 1 else 0)
            && (PreparationFailed(cb.phase) ==> PreparationFailed(was.phase) || was.phase.Preparing?)
            && (cb.phase.Preparing? ==> was.phase.Preparing?)
  {
  }

  /** The steps of callback `c` in a schedule. */
  function OwnSteps(steps: seq<Step>, c: nat): nat {
    if steps == [] then 0
    else OwnSteps(steps[..|steps| - 1], c) + if Actor(steps[|steps| - 1]) == Some(c) then 1 else 0
  }

  /** As soon as the subject has an owner, every attempt lands on it: while the owner stays as it is, a callback that is
      looking up, registering or re-reading creates nothing, needs at most two more steps of its own, and ends by
      returning that owner, or by refusing it if it is deleted, whatever the others do. Only one that was preparing an
      account may instead fail in the preparation, for instance because the owner now holds the email. */
  lemma {:induction false} LaterAttemptsLandOnTheOwner(s: State, steps: seq<Step>, owner: nat, deleted: bool, c: nat)
    requires IdsBelow(s) && c < |s.callbacks| && OwnedBy(s, s.callbacks[c].subject, owner, deleted)
    requires s.callbacks[c].created.None? && StepsLeft(s.callbacks[c].phase) > 0
    requires Exec(s, steps).Some?
    requires forall i :: 0 <= i < |steps| ==> Undisturbed(steps[i], s.callbacks[c].subject, owner)
    ensures var end := Exec(s, steps).value;
            && IdsBelow(end) && c < |end.callbacks| && OwnedBy(end, s.callbacks[c].subject, owner, deleted)
            && var was, cb := s.callbacks[c], end.callbacks[c];
               && cb.subject == was.subject && cb.created.None? && BoundFor(cb.phase, owner, deleted)
               && (!PreparationFailed(cb.phase) ==> StepsLeft(cb.phase) == StepsLeft(was.phase) - OwnSteps(steps, c))
               && (was.phase.Preparing? || (!PreparationFailed(cb.phase) && !cb.phase.Preparing?))
  {
    if steps != [] {
      var before, step := steps[..|steps| - 1], steps[|steps| - 1];
      LaterAttemptsLandOnTheOwner(s, before, owner, deleted, c);
      var mid := Exec(s, before).value;
      OwnedKept(mid, step, s.callbacks[c].subject, owner, deleted);
      BoundForOwner(mid, step, owner, deleted, c);
    }
  }

  /** A commit makes the new account such an owner. */
  lemma CommitGivesOwner(start: State, steps: seq<Step>, c: nat)
    requires Initial(start) && Exec(start, steps).Some?
    requires Enabled(Exec(start, steps).value, Register(c, Committed))
    ensures var s := Exec(start, steps).value;
            var t := Apply(s, Register(c, Committed));
            && t.callbacks[c].created.Some? && t.callbacks[c].created.value !in s.users
            && OwnedBy(t, s.callbacks[c].subject, t.callbacks[c].created.value, false)
            && (forall u :: u in s.users ==> u in t.users && t.users[u] == s.users[u])
  {
    InvAlways(start, steps);
  }

  // ----- Why a callback ends as it does -----

  predicate Ended(phase: Phase) {
    phase.Returned? || phase.Failed?
  }

  predicate ReadsOwner(step: Step, c: nat) {
    step == LookUp(c, true) || step == Reread(c, true)
  }

  /** The state and the step that end callback `c` in the given phase. */
  predicate Ends(s: State, step: Step, c: nat, phase: Phase)
    requires c < |s.callbacks|
  {
    var cb := s.callbacks[c];
    match phase
    case Returned(u) =>
      || (ReadsOwner(step, c) && OwnedBy(s, cb.subject, u, false))
      || (step == Attribute(c) && cb.phase == Attributing(u))
    case Failed(UserDeleted) =>
      ReadsOwner(step, c) && cb.subject in s.claims && OwnedBy(s, cb.subject, s.claims[cb.subject], true)
    case Failed(LookupFailed) => step == LookUp(c, false)
    case Failed(RegistrationDisabled) => step == Prepare(c, RegistrationOff)
    case Failed(EmailAlreadyTaken) => step == Prepare(c, EmailTaken)
    case Failed(EmailCheckFailed) => step == Prepare(c, EmailError)
    case Failed(RegistrationFailed(cause)) =>
      && (step == Reread(c, false) || (step == Reread(c, true) && Unowned(s, cb.subject)))
      && cb.phase == Rereading(cause)
      && !((cause == MySQL(1213) || cause == Postgres("40P01")) && cb.attempt + 1 < 3)
    case _ => false
  }

  /** One step ends a callback in a phase exactly when the state and the step are the ones named. */
  lemma EndsIff(s: State, step: Step, c: nat, phase: Phase)
    requires Enabled(s, step) && c < |s.callbacks| && Actor(step) == Some(c) && Ended(phase)
    ensures Apply(s, step).callbacks[c].phase == phase <==> Ends(s, step, c, phase)
  {
  }

  /** A failed registration is tried again exactly when it was a deadlock, no owner was found and attempts are left. */
  lemma RetryIff(s: State, c: nat, readable: bool)
    requires Enabled(s, Reread(c, readable))
    ensures var was, cb := s.callbacks[c], Apply(s, Reread(c, readable)).callbacks[c];
            && (cb.phase == LookingUp <==>
                  && (was.phase == Rereading(MySQL(1213)) || was.phase == Rereading(Postgres("40P01")))
                  && (!readable || Unowned(s, was.subject)) && was.attempt < 2)
            && cb.attempt == was.attempt + if cb.phase == LookingUp then 1 else 0
  {
  }

  ghost predicate EndedAt(start: State, steps: seq<Step>, n: nat, c: nat, phase: Phase) {
    && n < |steps| && Exec(start, steps[..n]).Some? && c < |Exec(start, steps[..n]).value.callbacks|
    && Ends(Exec(start, steps[..n]).value, steps[n], c, phase)
  }

  /** In every run an answer has its cause: a user that is returned without having been created by the callback owned
      the subject and was not deleted when it was read, a refusal as deleted met a deleted owner, and every other
      failure the outcome it names. */
  lemma {:induction false} EveryAnswerHasItsCause(start: State, steps: seq<Step>, c: nat)
    requires Exec(start, steps).Some? && c < |start.callbacks| == |Exec(start, steps).value.callbacks|
    requires !Ended(start.callbacks[c].phase) && Ended(Exec(start, steps).value.callbacks[c].phase)
    ensures exists n: nat :: EndedAt(start, steps, n, c, Exec(start, steps).value.callbacks[c].phase)
  {
    var before, last := steps[..|steps| - 1], |steps| - 1;
    CallbackCount(start, before);
    var mid, phase := Exec(start, before).value, Exec(start, steps).value.callbacks[c].phase;
    if Ended(mid.callbacks[c].phase) {
      EndedStays(mid, steps[last], c);
      EveryAnswerHasItsCause(start, before, c);
      var n: nat :| EndedAt(start, before, n, c, phase);
      assert before[..n] == steps[..n] && before[n] == steps[n];
      assert EndedAt(start, steps, n, c, phase);
    } else {
      if Actor(steps[last]) != Some(c) {
        OthersLeaveCallback(mid, steps[last], c);
      }
      EndsIff(mid, steps[last], c, phase);
      assert EndedAt(start, steps, last, c, phase);
    }
  }

  lemma EndedStays(s: State, step: Step, c: nat)
    requires Enabled(s, step) && c < |s.callbacks| && Ended(s.callbacks[c].phase)
    ensures c < |Apply(s, step).callbacks| && Apply(s, step).callbacks[c] == s.callbacks[c]
  {
  }

  lemma {:induction false} CallbackCount(start: State, steps: seq<Step>)
    requires Exec(start, steps).Some?
    ensures |Exec(start, steps).value.callbacks| == |start.callbacks|
  {
    if steps != [] {
      CallbackCount(start, steps[..|steps| - 1]);
    }
  }

  lemma OthersLeaveCallback(s: State, step: Step, c: nat)
    requires Enabled(s, step) && c < |s.callbacks| && Actor(step) != Some(c)
    ensures |Apply(s, step).callbacks| == |s.callbacks| && Apply(s, step).callbacks[c] == s.callbacks[c]
  {
  }

  /** Whatever happens, a callback without a subject fails at once and opens no transaction. */
  lemma {:induction false} BlankSubjectFails(users: map<nat, User>, nextId: nat, rawSubjects: seq<string>, steps: seq<Step>,
                                             c: nat)
    requires c < |rawSubjects| && TrimSpace(rawSubjects[c]) == "" && Exec(Init(users, nextId, rawSubjects), steps).Some?
    ensures var s := Exec(Init(users, nextId, rawSubjects), steps).value;
            && c < |s.callbacks| && s.callbacks[c].phase == Failed(SubjectEmpty)
            && s.callbacks[c].transactions == 0 && s.callbacks[c].created.None?
  {
    if steps != [] {
      BlankSubjectFails(users, nextId, rawSubjects, steps[..|steps| - 1], c);
      EndedStays(Exec(Init(users, nextId, rawSubjects), steps[..|steps| - 1]).value, steps[|steps| - 1], c);
    }
  }

  /** The transactions of callback `c` in a schedule, and those among them that deadlocked. */
  function Registrations(steps: seq<Step>, c: nat): nat {
    if steps == [] then 0
    else
      var last := steps[|steps| - 1];
      Registrations(steps[..|steps| - 1], c) + if last.Register? && last.c == c then 1 else 0
  }

  predicate Deadlocked(step: Step, c: nat) {
    step == Register(c, RolledBack(MySQL(1213))) || step == Register(c, RolledBack(Postgres("40P01")))
  }

  function Deadlocks(steps: seq<Step>, c: nat): nat {
    if steps == [] then 0
    else Deadlocks(steps[..|steps| - 1], c) + if Deadlocked(steps[|steps| - 1], c) then 1 else 0
  }

  predicate DeadlockRead(phase: Phase) {
    phase == Rereading(MySQL(1213)) || phase == Rereading(Postgres("40P01"))
  }

  /** In every run a callback opens one transaction for each attempt, and a further attempt only after a deadlock. */
  lemma {:induction false} AttemptsFollowDeadlocks(start: State, steps: seq<Step>, c: nat)
    requires Exec(start, steps).Some? && c < |start.callbacks| == |Exec(start, steps).value.callbacks|
    requires start.callbacks[c].attempt == start.callbacks[c].transactions == 0 && !start.callbacks[c].phase.Rereading?
    ensures var cb := Exec(start, steps).value.callbacks[c];
            && cb.transactions == Registrations(steps, c)
            && cb.attempt + (if DeadlockRead(cb.phase) then 1 else 0) <= Deadlocks(steps, c)
  {
    if steps != [] {
      CallbackCount(start, steps[..|steps| - 1]);
      AttemptsFollowDeadlocks(start, steps[..|steps| - 1], c);
      AttemptStep(Exec(start, steps[..|steps| - 1]).value, steps[|steps| - 1], c);
      hide Enabled;
      hide Apply;
    }
  }

  lemma AttemptStep(s: State, step: Step, c: nat)
    requires Enabled(s, step) && c < |s.callbacks|
    ensures var was, cb := s.callbacks[c], Apply(s, step).callbacks[c];
            && cb.transactions == was.transactions + (if step.Register? && step.c == c then 1 else 0)
            && cb.attempt + (if DeadlockRead(cb.phase) then 1 else 0)
               <= was.attempt + (if DeadlockRead(was.phase) then 1 else 0) + (if Deadlocked(step, c) then 1 else 0)
  {
  }

  /** Each callback opens at most three transactions, a failed callback leaves no account behind, and an
      account is finalized and attributed at most once, only by the callback that created it. */
  lemma EachCallbackIsBounded(start: State, steps: seq<Step>, c: nat)
    requires Initial(start) && Exec(start, steps).Some?
    requires c < |Exec(start, steps).value.callbacks|
    ensures var s := Exec(start, steps).value;
            var cb := s.callbacks[c];
            && cb.transactions <= REGISTRATION_ATTEMPTS
            && (cb.phase.Failed? ==>
                  && cb.created.None?
                  && forall i :: 0 <= i < |s.log| && s.log[i].Claimed? ==> s.log[i].creator != Some(c))
            && cb.finalizations <= 1 && cb.attributions <= cb.finalizations
            && (cb.finalizations == 1 ==> cb.created.Some?)
            && (cb.phase.Returned? && cb.created.Some? ==>
                  cb.phase == Returned(cb.created.value) && cb.finalizations == 1 && cb.attributions == 1)
  {
    InvAlways(start, steps);
    assert CallbackHistory(Exec(start, steps).value, c);
  }

  // ----- The retry loop of one callback -----

  /** What the world does around one database access of a callback: steps of others that come first, and the
      answers the access gets. */
  datatype Turn = Turn(others: seq<Step>, readable: bool, preparation: Preparation, commit: Commit)

  /** The shared tables with every callback's progress, and the run that led to them. */
  class Database {
    var state: State
    ghost var trace: seq<Step>
    ghost const start: State

    ghost predicate Valid()
      reads this
    {
      Exec(start, trace) == Some(state)
    }

    constructor (state: State)
      ensures Valid() && this.state == start == state && trace == []
    {
      this.state, trace, start := state, [], state;
    }

    method Perform(step: Step)
      requires Valid() && Enabled(state, step)
      modifies this
      ensures Valid() && state == Apply(old(state), step) && trace == old(trace) + [step]
    {
      state := Apply(state, step);
      trace := trace + [step];
      assert trace[..|trace| - 1] == old(trace);
    }

    /** Others run; steps that are not possible are skipped. */
    method Interfere(others: seq<Step>, c: nat)
      requires Valid() && c < |state.callbacks|
      modifies this
      ensures Valid() && old(trace) <= trace
      ensures c < |state.callbacks| && state.callbacks[c] == old(state.callbacks[c])
    {
      for i := 0 to |others|
        invariant Valid() && old(trace) <= trace
        invariant c < |state.callbacks| && state.callbacks[c] == old(state.callbacks[c])
      {
        if Enabled(state, others[i]) && Actor(others[i]) != Some(c) {
          OthersLeaveCallback(state, others[i], c);
          Perform(others[i]);
        }
      }
    }
  }

  /** One callback from arrival to its answer, whatever the others do: its accesses form a run of the machine
      above, and its answer is the one the machine records, so all results about runs hold of it. */
  method FindOrCreateGoogleUser(db: Database, c: nat, rawSubject: string, world: nat -> Turn)
    returns (r: Result<nat, LoginError>)
    requires db.Valid() && c < |db.state.callbacks| && db.state.callbacks[c] == Arrive(rawSubject)
    modifies db
    ensures db.Valid() && old(db.trace) <= db.trace
    ensures c < |db.state.callbacks| && db.state.callbacks[c].subject == TrimSpace(rawSubject)
    ensures db.state.callbacks[c].phase == match r case Ok(user) => Returned(user) case Err(error) => Failed(error)
  {
    hide Database.Valid;
    var subject := TrimSpace(rawSubject);
    if subject == "" {
      return Err(SubjectEmpty);
    }
    var lastErr := OtherError;
    var attempt := 0;
    while attempt < REGISTRATION_ATTEMPTS
      invariant 0 <= attempt <= REGISTRATION_ATTEMPTS
      invariant db.Valid() && old(db.trace) <= db.trace
      invariant c < |db.state.callbacks| && db.state.callbacks[c].subject == subject
      invariant attempt < REGISTRATION_ATTEMPTS ==>
                  db.state.callbacks[c].phase.LookingUp? && db.state.callbacks[c].attempt == attempt
      invariant attempt == REGISTRATION_ATTEMPTS ==>
                  db.state.callbacks[c].phase == Failed(RegistrationFailed(lastErr))
    {
      var answered;
      answered, r := OwnerLogin(db, c, world(4 * attempt));
      if answered {
        return;
      }
      answered, r := PrepareAccount(db, c, world(4 * attempt + 1));
      if answered {
        return;
      }
      var cause;
      cause, r := RegisterAccount(db, c, world(4 * attempt + 2));
      if cause.None? {
        return;
      }
      var turn := world(4 * attempt + 3);
      db.Interfere(turn.others, c);
      var owner := if turn.readable then FindOwner(db.state, subject) else None;
      r := Err(UserDeleted);
      if owner.Some? && !db.state.users[owner.value].deleted {
        r := Ok(owner.value);
      }
      db.Perform(Reread(c, turn.readable));
      if owner.Some? {
        return;
      }
      if !IsDatabaseDeadlock(cause.value) {
        return Err(RegistrationFailed(cause.value));
      }
      lastErr := cause.value;
      attempt := attempt + 1;
    }
    return Err(RegistrationFailed(lastErr));
  }

  /** The owner lookup at the head of the loop; `answered` when it ends the callback. */
  method OwnerLogin(db: Database, c: nat, turn: Turn) returns (answered: bool, r: Result<nat, LoginError>)
    requires db.Valid() && c < |db.state.callbacks| && db.state.callbacks[c].phase.LookingUp?
    modifies db
    ensures db.Valid() && old(db.trace) <= db.trace && c < |db.state.callbacks|
    ensures db.state.callbacks[c] == old(db.state.callbacks[c]).(phase := db.state.callbacks[c].phase)
    ensures db.state.callbacks[c].phase ==
            if !answered then Preparing else match r case Ok(user) => Returned(user) case Err(error) => Failed(error)
  {
    db.Interfere(turn.others, c);
    var owner := FindOwner(db.state, db.state.callbacks[c].subject);
    answered, r := true, Err(LookupFailed);
    if turn.readable {
      if owner.None? {
        answered := false;
      } else if db.state.users[owner.value].deleted {
        r := Err(UserDeleted);
      } else {
        r := Ok(owner.value);
      }
    }
    db.Perform(LookUp(c, turn.readable));
  }

  /** The registration switch and the email check. */
  method PrepareAccount(db: Database, c: nat, turn: Turn) returns (answered: bool, r: Result<nat, LoginError>)
    requires db.Valid() && c < |db.state.callbacks| && db.state.callbacks[c].phase.Preparing?
    modifies db
    ensures db.Valid() && old(db.trace) <= db.trace && c < |db.state.callbacks|
    ensures db.state.callbacks[c] == old(db.state.callbacks[c]).(phase := db.state.callbacks[c].phase)
    ensures r.Err?
    ensures db.state.callbacks[c].phase == if !answered then Registering else Failed(r.error)
  {
    db.Interfere(turn.others, c);
    answered, r := true, Err(RegistrationDisabled);
    match turn.preparation {
      case RegistrationOff =>
      case EmailTaken => r := Err(EmailAlreadyTaken);
      case EmailError => r := Err(EmailCheckFailed);
      case Ready => answered := false;
    }
    db.Perform(Prepare(c, turn.preparation));
  }

  /** The transaction, and on success the finalization and attribution of the new account. A committed answer is
      possible only while the subject is free. */
  method RegisterAccount(db: Database, c: nat, turn: Turn)
    returns (cause: Option<DatabaseError>, r: Result<nat, LoginError>)
    requires db.Valid() && c < |db.state.callbacks| && db.state.callbacks[c].phase.Registering?
    modifies db
    ensures db.Valid() && old(db.trace) <= db.trace && c < |db.state.callbacks|
    ensures db.state.callbacks[c].subject == old(db.state.callbacks[c]).subject
    ensures db.state.callbacks[c].attempt == old(db.state.callbacks[c]).attempt
    ensures cause.Some? ==> db.state.callbacks[c].phase == Rereading(cause.value)
    ensures cause.None? ==> r.Ok? && db.state.callbacks[c].phase == Returned(r.value)
  {
    db.Interfere(turn.others, c);
    var commit := turn.commit;
    if commit.Committed? && db.state.callbacks[c].subject in db.state.claims {
      commit := RolledBack(AlreadyClaimed);
    }
    var user := db.state.nextId;
    db.Perform(Register(c, commit));
    if commit.RolledBack? {
      return Some(commit.cause), Err(RegistrationFailed(commit.cause));
    }
    db.Perform(Finalize(c));
    db.Perform(Attribute(c));
    return None, Ok(user);
  }
}
