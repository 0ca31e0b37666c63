/**
 The bounded worker pool that runs channel health checks.

 A dispatcher hands channels to workers over an unbuffered `jobs` channel, the
 workers send one summary per channel over an unbuffered `results` channel, a
 closer closes `results` once every worker has returned, and the collector folds
 the summaries and reports progress. The context may be cancelled at any point.

 Every goroutine is a program counter and every interleaving is a sequence of
 `Step`s. A rendezvous on an unbuffered channel is one step of both parties.
 */
module WorkerPool {
  import opened Wrappers

  // ----- Summaries -----

  datatype Summary = Summary(tested: nat, succeeded: nat, failed: nat, disabled: nat, enabled: nat)

  const EMPTY_SUMMARY := Summary(0, 0, 0, 0, 0)

  function Add(a: Summary, b: Summary): Summary {
    Summary(a.tested + b.tested, a.succeeded + b.succeeded, a.failed + b.failed,
            a.disabled + b.disabled, a.enabled + b.enabled)
  }

  /** What a reader of the task history may rely on for any summary. */
  predicate WellCounted(x: Summary) {
    && x.tested == x.succeeded + x.failed
    && x.disabled <= x.failed
    && x.enabled <= x.succeeded
    && x.disabled + x.enabled <= x.tested
  }

  datatype ChannelStatus = Unknown | Enabled | ManuallyDisabled | AutoDisabled

  /** What one upstream test of a channel and the current settings look like. */
  datatype TestObservation = TestObservation(
    cancelled: bool,          // the context was cancelled when the test returned
    localError: bool,         // the test failed before reaching the upstream
    apiError: bool,           // the upstream answered with an error
    errorWarrantsBan: bool,   // that error is one of the disabling kinds
    milliseconds: int)

  datatype HealthSettings = HealthSettings(
    allowDisable: bool,
    automaticDisable: bool,
    automaticEnable: bool,
    disableThreshold: int)

  /** The upstream error, or the response-time error that replaces a missing one. */
  predicate CountsAsFailure(o: TestObservation, settings: HealthSettings) {
    o.apiError || (settings.automaticDisable && o.milliseconds > settings.disableThreshold)
  }

  predicate WarrantsBan(o: TestObservation, settings: HealthSettings) {
    settings.automaticDisable && ((o.apiError && o.errorWarrantsBan) || o.milliseconds > settings.disableThreshold)
  }

  /** The tallies of one test. */
  function HealthSummary(status: ChannelStatus, autoBan: bool, o: TestObservation, settings: HealthSettings): Summary {
    if o.cancelled then EMPTY_SUMMARY
    else
      var failed := CountsAsFailure(o, settings);
      Summary(1, if failed then 0 else 1, if failed then 1 else 0,
              if settings.allowDisable && status.Enabled? && autoBan && WarrantsBan(o, settings) then 1 else 0,
              if settings.automaticEnable && status.AutoDisabled? && !o.localError && !failed then 1 else 0)
  }

  method TestChannelForHealthCheck(status: ChannelStatus, autoBan: bool, o: TestObservation, settings: HealthSettings)
    returns (summary: Summary)
    ensures summary == HealthSummary(status, autoBan, o, settings)
    ensures WellCounted(summary)
  {
    summary := EMPTY_SUMMARY;
    if o.cancelled {
      return;
    }
    summary := summary.(tested := summary.tested + 1);

    var failed := o.apiError;
    var shouldBan := false;
    if failed {
      shouldBan := settings.automaticDisable && o.errorWarrantsBan;
    }
    if settings.automaticDisable && !shouldBan {
      if o.milliseconds > settings.disableThreshold {
        failed := true;
        shouldBan := true;
      }
    }

    if !failed {
      summary := summary.(succeeded := summary.succeeded + 1);
    } else {
      summary := summary.(failed := summary.failed + 1);
    }
    if settings.allowDisable && status.Enabled? && shouldBan && autoBan {
      summary := summary.(disabled := summary.disabled + 1);
    }
    if !o.localError && !status.Enabled? && settings.automaticEnable && !failed && status.AutoDisabled? {
      summary := summary.(enabled := summary.enabled + 1);
    }
  }

  /** What the tallies of one test mean: which tests fail, and when a channel is disabled or enabled. */
  lemma HealthSummaryMeans(status: ChannelStatus, autoBan: bool, o: TestObservation, settings: HealthSettings)
    requires !o.cancelled
    ensures var x, slow := HealthSummary(status, autoBan, o, settings), o.milliseconds > settings.disableThreshold;
            && x.tested == 1 && x.succeeded + x.failed == 1
            && (x.failed == 1 <==> o.apiError || (settings.automaticDisable && slow))
            && (x.disabled == 1 <==> && status == ChannelStatus.Enabled && autoBan && settings.allowDisable
                                     && settings.automaticDisable && ((o.apiError && o.errorWarrantsBan) || slow))
            && (x.enabled == 1 <==> && status == AutoDisabled && settings.automaticEnable && x.succeeded == 1
                                    && !o.localError)
            && x.disabled <= 1 && x.enabled <= 1
  {
  }

  // ----- The machine -----

  /** `outcomes[i]` is what an undisturbed run of channel `i` returns, `None` when the channel
      is nil or manually disabled and therefore never run. */
  datatype Config = Config(
    outcomes: seq<Option<Summary>>,
    concurrency: int,
    pauses: bool,        // a positive request interval is configured
    reporting: bool)     // a progress callback is supplied

  const DEFAULT_CONCURRENCY := 1
  const MAX_CONCURRENCY := 32

  function NormalizeConcurrency(concurrency: int): (n: nat)
    ensures 1 <= n <= MAX_CONCURRENCY
    ensures 1 <= concurrency <= MAX_CONCURRENCY ==> n == concurrency
    ensures concurrency > MAX_CONCURRENCY ==> n == MAX_CONCURRENCY
    ensures concurrency < 1 ==> n == 1
  {
    if concurrency < 1 then DEFAULT_CONCURRENCY
    else if concurrency > MAX_CONCURRENCY then MAX_CONCURRENCY
    else concurrency
  }

  function WorkerCount(c: Config): nat {
    var n := NormalizeConcurrency(c.concurrency);
    if n < |c.outcomes| then n else |c.outcomes|
  }

  function Expected(c: Config, job: nat): Summary
    requires job < |c.outcomes|
  {
    match c.outcomes[job]
    case None => EMPTY_SUMMARY
    case Some(x) => x
  }

  predicate WellFormed(c: Config) {
    forall i :: 0 <= i < |c.outcomes| ==> WellCounted(Expected(c, i))
  }

  datatype TestedChannel = TestedChannel(status: ChannelStatus, autoBan: bool, observation: TestObservation)

  /** The outcome of each channel when nobody cancels; `None` in the list stands for a nil channel. */
  function Outcomes(channels: seq<Option<TestedChannel>>, settings: HealthSettings): (r: seq<Option<Summary>>)
    ensures |r| == |channels|
    ensures forall i :: 0 <= i < |r| ==> (r[i].None? <==> channels[i].None? || channels[i].value.status.ManuallyDisabled?)
  {
    seq(|channels|, i requires 0 <= i < |channels| =>
      if channels[i].None? || channels[i].value.status.ManuallyDisabled? then None
      else Some(HealthSummary(channels[i].value.status, channels[i].value.autoBan,
                              channels[i].value.observation.(cancelled := false), settings)))
  }

  /** Health checks of any channels form a pool whose outcomes are well counted. */
  lemma HealthChecksAreWellFormed(channels: seq<Option<TestedChannel>>, settings: HealthSettings, c: Config)
    requires c.outcomes == Outcomes(channels, settings)
    ensures WellFormed(c)
  {
  }

  datatype Worker =
    | Waiting                             // in the select on ctx.Done() and jobs
    | Received(job: nat)                  // holds a job, has not checked the context
    | Testing(job: nat)                   // inside run
    | Sending(job: nat, result: Summary)  // blocked on results
    | Pausing                             // waiting for the request interval
    | Exited
  {
    predicate Busy() { Received? || Testing? || Sending? }
  }

  datatype Collector = Receiving | Reporting | Returned

  datatype Delivery = Delivery(job: nat, result: Summary)

  /** The last four are history: the order in which results reached the collector, the jobs a worker threw away
      because the context was already cancelled, the jobs whose test was started, and those whose test returned
      because it saw the cancellation. */
  datatype State = State(
    cancelled: bool,
    next: nat,
    jobsClosed: bool,
    workers: seq<Worker>,
    resultsClosed: bool,
    collector: Collector,
    summary: Summary,
    processed: nat,
    reports: seq<nat>,
    delivered: seq<Delivery>,
    dropped: set<nat>,
    started: set<nat>,
    interrupted: set<nat>)

  datatype Step =
    | Cancel
    | HandOff(w: nat)                       // dispatcher and an idle worker meet on jobs
    | StopDispatching                       // every job sent, or ctx.Done(): close(jobs)
    | LeaveWaiting(w: nat)                  // ctx.Done() or a closed jobs channel
    | CheckContext(w: nat)
    | FinishTest(w: nat, sawCancel: bool)   // run returns
    | Deliver(w: nat)                       // a worker and the collector meet on results
    | Report
    | EndPause(w: nat)
    | LeavePause(w: nat)
    | CloseResults
    | CollectorReturn

  function Init(c: Config): State {
    var idle := |c.outcomes| == 0;
    State(false, 0, idle, seq(WorkerCount(c), _ => Waiting), idle,
          if idle then Returned else Receiving,
          EMPTY_SUMMARY, 0, if c.reporting then [0] else [], [], {}, {}, {})
  }

  predicate AllExited(s: State) {
    forall w :: 0 <= w < |s.workers| ==> s.workers[w].Exited?
  }

  predicate Enabled(c: Config, s: State, step: Step) {
    match step
    case Cancel => !s.cancelled
    case HandOff(w) => !s.jobsClosed && s.next < |c.outcomes| && w < |s.workers| && s.workers[w].Waiting?
    case StopDispatching => !s.jobsClosed && (s.next >= |c.outcomes| || s.cancelled)
    case LeaveWaiting(w) => w < |s.workers| && s.workers[w].Waiting? && (s.cancelled || s.jobsClosed)
    case CheckContext(w) => w < |s.workers| && s.workers[w].Received? && s.workers[w].job < |c.outcomes|
    case FinishTest(w, sawCancel) =>
      w < |s.workers| && s.workers[w].Testing? && s.workers[w].job < |c.outcomes| && (sawCancel ==> s.cancelled)
    case Deliver(w) => w < |s.workers| && s.workers[w].Sending? && s.collector.Receiving? && !s.resultsClosed
    case Report => s.collector.Reporting?
    case EndPause(w) => w < |s.workers| && s.workers[w].Pausing?
    case LeavePause(w) => w < |s.workers| && s.workers[w].Pausing? && s.cancelled
    case CloseResults => !s.resultsClosed && AllExited(s)
    case CollectorReturn => s.collector.Receiving? && s.resultsClosed
  }

  function Move(s: State, w: nat, worker: Worker): State
    requires w < |s.workers|
  {
    s.(workers := s.workers[w := worker])
  }

  function Apply(c: Config, s: State, step: Step): State
    requires Enabled(c, s, step)
  {
    match step
    case Cancel => s.(cancelled := true)
    case HandOff(w) => Move(s, w, Received(s.next)).(next := s.next + 1)
    case StopDispatching => s.(jobsClosed := true)
    case LeaveWaiting(w) => Move(s, w, Exited)
    case CheckContext(w) =>
      var job := s.workers[w].job;
      if s.cancelled then Move(s, w, Exited).(dropped := s.dropped + {job})
      else if c.outcomes[job].None? then Move(s, w, Sending(job, EMPTY_SUMMARY))
      else Move(s, w, Testing(job)).(started := s.started + {job})
    case FinishTest(w, sawCancel) =>
      var job := s.workers[w].job;
      Move(s, w, Sending(job, if sawCancel then EMPTY_SUMMARY else Expected(c, job)))
      .(interrupted := if sawCancel then s.interrupted + {job} else s.interrupted)
    case Deliver(w) =>
      var worker := s.workers[w];
      Move(s, w, if c.pauses then Pausing else Waiting)
      .(collector := Reporting,
      summary := Add(s.summary, worker.result),
      processed := s.processed + 1,
      delivered := s.delivered + [Delivery(worker.job, worker.result)])
    case Report =>
      s.(collector := Receiving,
      reports := if c.reporting && !s.cancelled then s.reports + [s.processed] else s.reports)
    case EndPause(w) => Move(s, w, Waiting)
    case LeavePause(w) => Move(s, w, Exited)
    case CloseResults => s.(resultsClosed := true)
    case CollectorReturn => s.(collector := Returned)
  }

  /** The state a schedule leads to, `None` when some step was not enabled. */
  function Exec(c: Config, steps: seq<Step>): Option<State> {
    if steps == [] then Some(Init(c))
    else
      match Exec(c, steps[..|steps| - 1])
      case None => None
      case Some(s) =>
        var last := steps[|steps| - 1];
        if Enabled(c, s, last) then Some(Apply(c, s, last)) else None
  }

  // ----- Invariants -----

  ghost predicate Held(s: State, job: nat) {
    exists w :: 0 <= w < |s.workers| && s.workers[w].Busy() && s.workers[w].job == job
  }

  ghost predicate Includes(ds: seq<Delivery>, job: nat) {
    exists k :: 0 <= k < |ds| && ds[k].job == job
  }

  ghost predicate Delivered(s: State, job: nat) {
    Includes(s.delivered, job)
  }

  function Total(ds: seq<Delivery>): Summary {
    if ds == [] then EMPTY_SUMMARY else Add(Total(ds[..|ds| - 1]), ds[|ds| - 1].result)
  }

  /** Who may still be alive: in particular nobody can be about to send on a closed channel. */
  predicate Lifecycle(c: Config, s: State) {
    && |s.workers| == WorkerCount(c)
    && s.next <= |c.outcomes|
    && (s.resultsClosed ==> AllExited(s))
    && (s.collector.Returned? ==> s.resultsClosed)
    && (s.jobsClosed && !s.cancelled ==> s.next == |c.outcomes|)
    && (forall w :: 0 <= w < |s.workers| && s.workers[w].Exited? ==> s.cancelled || s.jobsClosed)
    && (|c.outcomes| == 0 ==> s.jobsClosed && s.resultsClosed && s.collector.Returned?)
  }

  /** No job is held by two workers, delivered twice, or both held and delivered. */
  predicate Exclusive(s: State) {
    && (forall w :: 0 <= w < |s.workers| && s.workers[w].Busy() ==> s.workers[w].job < s.next)
    && (forall v, w :: 0 <= v < w < |s.workers| && s.workers[v].Busy() && s.workers[w].Busy()
          ==> s.workers[v].job != s.workers[w].job)
    && (forall k :: 0 <= k < |s.delivered| ==> s.delivered[k].job < s.next)
    && (forall j, k :: 0 <= j < k < |s.delivered| ==> s.delivered[j].job != s.delivered[k].job)
    && (forall k, w :: 0 <= k < |s.delivered| && 0 <= w < |s.workers| && s.workers[w].Busy()
          ==> s.delivered[k].job != s.workers[w].job)
  }

  /** Every dispatched job is held, delivered or dropped, and nothing is dropped before cancellation. */
  ghost predicate Covered(s: State) {
    && (forall j: nat :: j < s.next ==> j in s.dropped || Held(s, j) || Delivered(s, j))
    && (forall j :: j in s.dropped ==> j < s.next && !Held(s, j) && !Delivered(s, j))
    && (s.dropped != {} ==> s.cancelled)
  }

  predicate Genuine(c: Config, s: State, job: nat, result: Summary)
  {
    job < |c.outcomes| && (result == Expected(c, job) || (s.cancelled && result == EMPTY_SUMMARY))
  }

  /** The collector holds the sum of genuine results and has counted them. */
  predicate Accounting(c: Config, s: State) {
    && (forall w :: 0 <= w < |s.workers| && s.workers[w].Sending?
          ==> Genuine(c, s, s.workers[w].job, s.workers[w].result))
    && (forall k :: 0 <= k < |s.delivered| ==> Genuine(c, s, s.delivered[k].job, s.delivered[k].result))
    && s.summary == Total(s.delivered)
    && s.processed == |s.delivered|
  }

  predicate Progress(c: Config, s: State) {
    && (forall i :: 0 <= i < |s.reports| ==> s.reports[i] == i)
    && (!c.reporting ==> s.reports == [])
    && (c.reporting ==> 1 <= |s.reports| <= s.processed + 1)
    && (c.reporting && s.collector.Reporting? ==> |s.reports| <= s.processed)
    && (c.reporting && !s.cancelled ==> |s.reports| == if s.collector.Reporting? then s.processed else s.processed + 1)
  }

  /** What a worker sends for a job: nothing if its test was interrupted. */
  function ResultOf(c: Config, s: State, job: nat): Summary
    requires job < |c.outcomes|
  {
    if job in s.interrupted then EMPTY_SUMMARY else Expected(c, job)
  }

  /** The history of a job that was answered: tested if it is testable, with the result of that test. */
  predicate Answered(c: Config, s: State, job: nat, result: Summary) {
    && job < |c.outcomes| && result == ResultOf(c, s, job)
    && (c.outcomes[job].Some? ==> job in s.started)
  }

  /** Tests are started once, for testable jobs only, and never for a job that was dropped or not yet looked at. */
  predicate Tests(c: Config, s: State) {
    && (forall j :: j in s.started ==> j < |c.outcomes| && c.outcomes[j].Some?)
    && s.interrupted <= s.started && (s.interrupted != {} ==> s.cancelled)
    && (forall w :: 0 <= w < |s.workers| && s.workers[w].Received? ==> s.workers[w].job !in s.started)
    && (forall w :: 0 <= w < |s.workers| && s.workers[w].Testing? ==>
                      s.workers[w].job in s.started && s.workers[w].job !in s.interrupted)
    && (forall w :: 0 <= w < |s.workers| && s.workers[w].Sending? ==>
                      Answered(c, s, s.workers[w].job, s.workers[w].result))
    && (forall k :: 0 <= k < |s.delivered| ==> Answered(c, s, s.delivered[k].job, s.delivered[k].result))
    && (forall j :: j in s.started ==> j < s.next && j !in s.dropped)
  }

  ghost predicate Inv(c: Config, s: State) {
    && Tests(c, s)
    && Lifecycle(c, s)
    && Exclusive(s)
    && Covered(s)
    && Accounting(c, s)
    && Progress(c, s)
  }

  lemma LifecycleKept(c: Config, s: State, step: Step)
    requires Lifecycle(c, s) && Enabled(c, s, step)
    ensures Lifecycle(c, Apply(c, s, step))
  {
  }

  lemma ProgressKept(c: Config, s: State, step: Step)
    requires Progress(c, s) && Enabled(c, s, step) && s.processed == |s.delivered|
    ensures Progress(c, Apply(c, s, step))
  {
    if !step.Report? && !step.Deliver? && !step.Cancel? && !step.CollectorReturn? {
      ProgressSame(c, s, Apply(c, s, step));
      hide Progress;
    }
  }

  lemma ProgressSame(c: Config, s: State, t: State)
    requires Progress(c, s) && t.reports == s.reports && t.processed == s.processed
    requires t.collector == s.collector && t.cancelled == s.cancelled
    ensures Progress(c, t)
  {
  }

  lemma AccountingOfDelivery(c: Config, s: State, w: nat)
    requires Accounting(c, s) && Enabled(c, s, Deliver(w))
    ensures Accounting(c, Apply(c, s, Deliver(w)))
  {
    var t := Apply(c, s, Deliver(w));
    assert t.delivered[..|t.delivered| - 1] == s.delivered;
  }

  lemma AccountingKept(c: Config, s: State, step: Step)
    requires Accounting(c, s) && Enabled(c, s, step)
    ensures Accounting(c, Apply(c, s, step))
  {
    if step.Deliver? {
      AccountingOfDelivery(c, s, step.w);
    } else {
      hide Accounting;
      AccountingSame(c, s, Apply(c, s, step));
    }
  }

  lemma AccountingSame(c: Config, s: State, t: State)
    requires Accounting(c, s) && |t.workers| == |s.workers|
    requires t.delivered == s.delivered && t.summary == s.summary && t.processed == s.processed
    requires s.cancelled ==> t.cancelled
    requires forall w :: 0 <= w < |t.workers| && t.workers[w].Sending? ==>
                           t.workers[w] == s.workers[w] || Genuine(c, t, t.workers[w].job, t.workers[w].result)
    ensures Accounting(c, t)
  {
  }

  /** Moving a worker between states that hold the same job, or no job, keeps who holds what. */
  lemma SameHolders(s: State, t: State)
    requires |s.workers| == |t.workers|
    requires forall w :: 0 <= w < |s.workers| ==>
      s.workers[w].Busy() == t.workers[w].Busy() && (s.workers[w].Busy() ==> s.workers[w].job == t.workers[w].job)
    ensures forall j: nat :: Held(s, j) == Held(t, j)
  {
    forall j: nat ensures Held(s, j) == Held(t, j) {
      if Held(s, j) {
        var w :| 0 <= w < |s.workers| && s.workers[w].Busy() && s.workers[w].job == j;
        assert t.workers[w].Busy() && t.workers[w].job == j;
      }
      if Held(t, j) {
        var w :| 0 <= w < |t.workers| && t.workers[w].Busy() && t.workers[w].job == j;
        assert s.workers[w].Busy() && s.workers[w].job == j;
      }
    }
  }

  /** Workers that keep their job or give it up cannot create a second holder. */
  lemma ExclusiveShrinks(s: State, t: State)
    requires Exclusive(s)
    requires t.next == s.next && t.delivered == s.delivered && |t.workers| == |s.workers|
    requires forall w :: 0 <= w < |t.workers| && t.workers[w].Busy() ==>
                           s.workers[w].Busy() && s.workers[w].job == t.workers[w].job
    ensures Exclusive(t)
  {
  }

  lemma ExclusiveOfDelivery(s: State, t: State, w: nat)
    requires Exclusive(s)
    requires w < |s.workers| && s.workers[w].Busy()
    requires t.next == s.next && |t.workers| == |s.workers| && !t.workers[w].Busy()
    requires forall v :: 0 <= v < |s.workers| && v != w ==> t.workers[v] == s.workers[v]
    requires |t.delivered| == |s.delivered| + 1 && t.delivered[|s.delivered|].job == s.workers[w].job
    requires forall k :: 0 <= k < |s.delivered| ==> t.delivered[k] == s.delivered[k]
    ensures Exclusive(t)
  {
  }

  lemma ExclusiveOfHandOff(s: State, t: State, w: nat)
    requires Exclusive(s)
    requires w < |s.workers| && t.workers == s.workers[w := Received(s.next)]
    requires t.next == s.next + 1 && t.delivered == s.delivered
    ensures Exclusive(t)
  {
  }

  lemma ExclusiveKept(c: Config, s: State, step: Step)
    requires Exclusive(s) && Enabled(c, s, step)
    ensures Exclusive(Apply(c, s, step))
  {
    hide Exclusive;
    var t := Apply(c, s, step);
    match step
    case HandOff(w) => ExclusiveOfHandOff(s, t, w);
    case Deliver(w) => ExclusiveOfDelivery(s, t, w);
    case _ => ExclusiveShrinks(s, t);
  }

  lemma HeldAfterHandOff(c: Config, s: State, w: nat)
    requires Enabled(c, s, HandOff(w))
    ensures forall j: nat :: Held(Apply(c, s, HandOff(w)), j) <==> Held(s, j) || j == s.next
  {
    var t := Apply(c, s, HandOff(w));
    forall j: nat ensures Held(t, j) <==> Held(s, j) || j == s.next {
      if j == s.next { assert t.workers[w].Busy() && t.workers[w].job == j; }
      if Held(s, j) {
        var v :| 0 <= v < |s.workers| && s.workers[v].Busy() && s.workers[v].job == j;
        assert t.workers[v].Busy() && t.workers[v].job == j;
      }
      if Held(t, j) && j != s.next {
        var v :| 0 <= v < |t.workers| && t.workers[v].Busy() && t.workers[v].job == j;
        assert s.workers[v].Busy() && s.workers[v].job == j;
      }
    }
  }

  /** A worker that gives up its job is the only one that held it. */
  lemma HeldAfterRelease(s: State, t: State, w: nat)
    requires Exclusive(s) && w < |s.workers| && s.workers[w].Busy()
    requires |t.workers| == |s.workers| && !t.workers[w].Busy()
    requires forall v :: 0 <= v < |s.workers| && v != w ==> t.workers[v] == s.workers[v]
    ensures forall j: nat :: Held(t, j) <==> Held(s, j) && j != s.workers[w].job
    ensures Held(s, s.workers[w].job) && !Delivered(s, s.workers[w].job)
  {
    var job := s.workers[w].job;
    forall j: nat ensures Held(t, j) <==> Held(s, j) && j != job {
      if Held(t, j) {
        var v :| 0 <= v < |t.workers| && t.workers[v].Busy() && t.workers[v].job == j;
        assert s.workers[v].Busy() && s.workers[v].job == j;
      }
      if Held(s, j) && j != job {
        var v :| 0 <= v < |s.workers| && s.workers[v].Busy() && s.workers[v].job == j;
        assert t.workers[v].Busy() && t.workers[v].job == j;
      }
    }
  }

  lemma DeliveredAppend(s: State, t: State, d: Delivery)
    requires t.delivered == s.delivered + [d]
    ensures forall j: nat :: Delivered(t, j) <==> Delivered(s, j) || j == d.job
  {
    forall j: nat ensures Delivered(t, j) <==> Delivered(s, j) || j == d.job {
      if Delivered(s, j) {
        var k :| 0 <= k < |s.delivered| && s.delivered[k].job == j;
        assert t.delivered[k].job == j;
      }
      if j == d.job { assert t.delivered[|s.delivered|].job == j; }
    }
  }

  lemma DeliveredSame(s: State, t: State)
    requires t.delivered == s.delivered
    ensures forall j: nat :: Delivered(t, j) == Delivered(s, j)
  {
  }

  lemma CoveredKept(c: Config, s: State, step: Step)
    requires Exclusive(s) && Covered(s) && Enabled(c, s, step)
    ensures Covered(Apply(c, s, step))
  {
    hide Exclusive;
    hide Covered;
    var t := Apply(c, s, step);
    match step
    case HandOff(w) => CoveredOfHandOff(c, s, w);
    case Deliver(w) => CoveredOfDelivery(c, s, w);
    case CheckContext(w) => CoveredOfCheck(c, s, w);
    case _ => CoveredSame(s, t);
  }

  lemma CoveredSame(s: State, t: State)
    requires Covered(s) && |s.workers| == |t.workers|
    requires forall w :: 0 <= w < |s.workers| ==>
                           s.workers[w].Busy() == t.workers[w].Busy() && (s.workers[w].Busy() ==> s.workers[w].job == t.workers[w].job)
    requires t.delivered == s.delivered && t.next == s.next && t.dropped == s.dropped && (s.cancelled ==> t.cancelled)
    ensures Covered(t)
  {
    DeliveredSame(s, t);
    SameHolders(s, t);
  }

  lemma CoveredOfDelivery(c: Config, s: State, w: nat)
    requires Exclusive(s) && Covered(s) && Enabled(c, s, Deliver(w))
    ensures Covered(Apply(c, s, Deliver(w)))
  {
    var t := Apply(c, s, Deliver(w));
    HeldAfterRelease(s, t, w);
    DeliveredAppend(s, t, Delivery(s.workers[w].job, s.workers[w].result));
  }

  lemma CoveredOfHandOff(c: Config, s: State, w: nat)
    requires Exclusive(s) && Covered(s) && Enabled(c, s, HandOff(w))
    ensures Covered(Apply(c, s, HandOff(w)))
  {
    HeldAfterHandOff(c, s, w);
    DeliveredSame(s, Apply(c, s, HandOff(w)));
    assert !Delivered(s, s.next);
  }

  lemma CoveredOfCheck(c: Config, s: State, w: nat)
    requires Exclusive(s) && Covered(s) && Enabled(c, s, CheckContext(w))
    ensures Covered(Apply(c, s, CheckContext(w)))
  {
    var t := Apply(c, s, CheckContext(w));
    DeliveredSame(s, t);
    if s.cancelled {
      HeldAfterRelease(s, t, w);
    } else {
      SameHolders(s, t);
    }
  }

  /** A job whose history is settled for everyone else: another worker's step does not change its answer. */
  lemma TestsOfFinish(c: Config, s: State, w: nat, sawCancel: bool)
    requires Tests(c, s) && Exclusive(s) && Enabled(c, s, FinishTest(w, sawCancel))
    ensures Tests(c, Apply(c, s, FinishTest(w, sawCancel)))
  {
    var t, job := Apply(c, s, FinishTest(w, sawCancel)), s.workers[w].job;
    forall v | 0 <= v < |t.workers| && v != w && t.workers[v].Busy() ensures t.workers[v].job != job {
      assert t.workers[v] == s.workers[v];
    }
    forall k | 0 <= k < |t.delivered| ensures t.delivered[k].job != job {
    }
  }

  /** Nobody else holds or delivered the job of a worker that has just received it. */
  predicate OnlyHolder(s: State, w: nat)
    requires w < |s.workers| && s.workers[w].Busy()
  {
    && (forall v :: 0 <= v < |s.workers| && v != w && s.workers[v].Busy() ==> s.workers[v].job != s.workers[w].job)
    && (forall k :: 0 <= k < |s.delivered| ==> s.delivered[k].job != s.workers[w].job)
  }

  lemma ExclusiveHolder(s: State, w: nat)
    requires Exclusive(s) && w < |s.workers| && s.workers[w].Busy()
    ensures OnlyHolder(s, w)
  {
  }

  lemma TestsOfStart(c: Config, s: State, w: nat)
    requires Tests(c, s) && w < |s.workers| && s.workers[w].Received? && OnlyHolder(s, w)
    requires s.workers[w].job < |c.outcomes| && c.outcomes[s.workers[w].job].Some?
    requires s.workers[w].job < s.next && s.workers[w].job !in s.dropped
    ensures Tests(c, Move(s, w, Testing(s.workers[w].job)).(started := s.started + {s.workers[w].job}))
  {
  }

  lemma TestsOfDrop(c: Config, s: State, w: nat)
    requires Tests(c, s) && w < |s.workers| && s.workers[w].Received?
    ensures Tests(c, Move(s, w, Exited).(dropped := s.dropped + {s.workers[w].job}))
  {
  }

  lemma TestsOfSkip(c: Config, s: State, w: nat)
    requires Tests(c, s) && w < |s.workers| && s.workers[w].Received?
    requires s.workers[w].job < |c.outcomes| && c.outcomes[s.workers[w].job].None?
    ensures Tests(c, Move(s, w, Sending(s.workers[w].job, EMPTY_SUMMARY)))
  {
  }

  lemma TestsOfCheck(c: Config, s: State, w: nat)
    requires Tests(c, s) && Exclusive(s) && Covered(s) && Enabled(c, s, CheckContext(w))
    ensures Tests(c, Apply(c, s, CheckContext(w)))
  {
    assert Held(s, s.workers[w].job);
    assert s.workers[w].job < s.next && s.workers[w].job !in s.dropped;
    ExclusiveHolder(s, w);
    hide Tests;
    hide Exclusive;
    hide Covered;
    if s.cancelled {
      TestsOfDrop(c, s, w);
    } else if c.outcomes[s.workers[w].job].None? {
      TestsOfSkip(c, s, w);
    } else {
      TestsOfStart(c, s, w);
    }
  }

  lemma TestsOfDelivery(c: Config, s: State, w: nat)
    requires Tests(c, s) && Enabled(c, s, Deliver(w))
    ensures Tests(c, Apply(c, s, Deliver(w)))
  {
  }

  /** Steps that start, finish and deliver nothing. */
  lemma TestsSame(c: Config, s: State, t: State)
    requires Tests(c, s) && s.next <= t.next && |t.workers| == |s.workers|
    requires t.started == s.started && t.interrupted == s.interrupted && t.dropped == s.dropped && t.delivered == s.delivered
    requires s.cancelled ==> t.cancelled
    requires forall w :: 0 <= w < |t.workers| && t.workers[w].Busy() ==>
                           t.workers[w] == s.workers[w] || (t.workers[w].Received? && t.workers[w].job >= s.next)
    ensures Tests(c, t)
  {
  }

  lemma TestsKept(c: Config, s: State, step: Step)
    requires Tests(c, s) && Exclusive(s) && Covered(s) && Enabled(c, s, step)
    ensures Tests(c, Apply(c, s, step))
  {
    hide Tests;
    hide Exclusive;
    hide Covered;
    match step
    case CheckContext(w) => TestsOfCheck(c, s, w);
    case FinishTest(w, sawCancel) => TestsOfFinish(c, s, w, sawCancel);
    case Deliver(w) => TestsOfDelivery(c, s, w);
    case _ => TestsSame(c, s, Apply(c, s, step));
  }

  lemma {:induction false} InvAlways(c: Config, steps: seq<Step>)
    ensures Exec(c, steps).Some? ==> Inv(c, Exec(c, steps).value)
  {
    if steps != [] && Exec(c, steps).Some? {
      var before := steps[..|steps| - 1];
      InvAlways(c, before);
      var s, step := Exec(c, before).value, steps[|steps| - 1];
      TestsKept(c, s, step);
      LifecycleKept(c, s, step);
      ExclusiveKept(c, s, step);
      CoveredKept(c, s, step);
      AccountingKept(c, s, step);
      ProgressKept(c, s, step);
    }
  }

  // ----- Safety: no send on a closed channel, no shared job, bounded parallelism -----

  /** Once `results` is closed nobody can send on it, now or later in the run. */
  lemma NoSendOnClosedResults(c: Config, steps: seq<Step>)
    requires Exec(c, steps).Some? && Exec(c, steps).value.resultsClosed
    ensures AllExited(Exec(c, steps).value)
    ensures forall step: Step :: step.HandOff? || step.FinishTest? || step.Deliver? || step.CloseResults?
                                 ==> !Enabled(c, Exec(c, steps).value, step)
  {
    InvAlways(c, steps);
  }

  function HeldJobs(workers: seq<Worker>): set<nat> {
    if workers == [] then {}
    else
      var last := workers[|workers| - 1];
      HeldJobs(workers[..|workers| - 1]) + if last.Busy() then {last.job} else {}
  }

  lemma {:induction false} HeldJobsBound(workers: seq<Worker>)
    ensures |HeldJobs(workers)| <= |workers|
    ensures forall w :: 0 <= w < |workers| && workers[w].Busy() ==> workers[w].job in HeldJobs(workers)
  {
    if workers != [] {
      HeldJobsBound(workers[..|workers| - 1]);
    }
  }

  /** At most `min(normalized concurrency, total)` distinct channels are in flight, each in one worker. */
  lemma BoundedParallelism(c: Config, steps: seq<Step>)
    requires Exec(c, steps).Some?
    ensures var s := Exec(c, steps).value;
            && |HeldJobs(s.workers)| <= WorkerCount(c) <= MAX_CONCURRENCY
            && (forall v, w :: 0 <= v < w < |s.workers| && s.workers[v].Busy() && s.workers[w].Busy()
                               ==> s.workers[v].job != s.workers[w].job)
            && (forall w :: 0 <= w < |s.workers| && s.workers[w].Busy() ==> s.workers[w].job in HeldJobs(s.workers))
  {
    InvAlways(c, steps);
    HeldJobsBound(Exec(c, steps).value.workers);
  }

  // ----- Deadlock freedom and termination -----

  /** Every goroutine of the pool has returned. */
  predicate Quiescent(s: State) {
    s.jobsClosed && AllExited(s) && s.resultsClosed && s.collector.Returned?
  }

  lemma SomeStepEnabled(c: Config, s: State) returns (step: Step)
    requires Inv(c, s) && !Quiescent(s)
    ensures Enabled(c, s, step) && !step.Cancel?
  {
    if s.collector.Reporting? {
      return Report;
    }
    if AllExited(s) {
      if !s.resultsClosed {
        return CloseResults;
      }
      if s.collector.Receiving? {
        return CollectorReturn;
      }
      assert s.workers[0].Exited?;
      return StopDispatching;
    }
    var w :| 0 <= w < |s.workers| && !s.workers[w].Exited?;
    match s.workers[w]
    case Waiting =>
      if s.cancelled || s.jobsClosed {
        return LeaveWaiting(w);
      } else if s.next < |c.outcomes| {
        return HandOff(w);
      } else {
        return StopDispatching;
      }
    case Received(_) => return CheckContext(w);
    case Testing(_) => return FinishTest(w, false);
    case Sending(_, _) => return Deliver(w);
    case Pausing => return EndPause(w);
  }

  /** In every reachable state either all goroutines have returned or some goroutine can move. */
  lemma DeadlockFree(c: Config, steps: seq<Step>)
    requires Exec(c, steps).Some?
    ensures Quiescent(Exec(c, steps).value)
            || exists step: Step :: !step.Cancel? && Enabled(c, Exec(c, steps).value, step)
  {
    InvAlways(c, steps);
    if !Quiescent(Exec(c, steps).value) {
      var step := SomeStepEnabled(c, Exec(c, steps).value);
    }
  }

  function Weight(w: Worker): nat {
    match w
    case Exited => 0
    case Waiting => 1
    case Pausing => 2
    case Sending(_, _) => 4
    case Testing(_) => 5
    case Received(_) => 6
  }

  function Weights(ws: seq<Worker>): nat {
    if ws == [] then 0 else Weights(ws[..|ws| - 1]) + Weight(ws[|ws| - 1])
  }

  lemma {:induction false} WeightsUpdate(ws: seq<Worker>, w: nat, x: Worker)
    requires w < |ws|
    ensures Weights(ws[w := x]) == Weights(ws) - Weight(ws[w]) + Weight(x)
  {
    var last := |ws| - 1;
    if w == last {
      assert ws[w := x][..last] == ws[..last];
    } else {
      assert ws[w := x][..last] == ws[..last][w := x];
      WeightsUpdate(ws[..last], w, x);
    }
  }

  /** What is left to do besides the jobs. */
  function Flags(s: State): int {
    (if s.cancelled then 0 else 1) + (if s.jobsClosed then 0 else 1) + (if s.resultsClosed then 0 else 1)
    + (match s.collector case Returned => 0 case Receiving => 1 case Reporting => 2)
  }

  /** An upper bound on the number of steps that can still happen. */
  function Measure(c: Config, s: State): int {
    6 * (|c.outcomes| - s.next) + Weights(s.workers) + Flags(s)
  }

  lemma MeasureOfMove(c: Config, s: State, t: State, w: nat)
    requires w < |s.workers| && |t.workers| == |s.workers| && t.workers == s.workers[w := t.workers[w]]
    ensures Measure(c, t) - Measure(c, s)
            == 6 * (s.next - t.next) + Weight(t.workers[w]) - Weight(s.workers[w]) + Flags(t) - Flags(s)
  {
    WeightsUpdate(s.workers, w, t.workers[w]);
  }

  lemma MeasureDecreases(c: Config, s: State, step: Step)
    requires Enabled(c, s, step)
    ensures Measure(c, Apply(c, s, step)) < Measure(c, s)
  {
    hide *;
    if step.Cancel? || step.StopDispatching? || step.Report? || step.CloseResults? || step.CollectorReturn? {
      MeasureOfFlags(c, s, step);
    } else {
      MeasureOfWorker(c, s, step);
    }
  }

  lemma MeasureOfFlags(c: Config, s: State, step: Step)
    requires Enabled(c, s, step)
    requires step.Cancel? || step.StopDispatching? || step.Report? || step.CloseResults? || step.CollectorReturn?
    ensures Measure(c, Apply(c, s, step)) < Measure(c, s)
  {
    hide Weights;
    assert Apply(c, s, step).workers == s.workers;
  }

  lemma MeasureOfWorker(c: Config, s: State, step: Step)
    requires Enabled(c, s, step)
    requires !(step.Cancel? || step.StopDispatching? || step.Report? || step.CloseResults? || step.CollectorReturn?)
    ensures Measure(c, Apply(c, s, step)) < Measure(c, s)
  {
    hide Measure;
    MeasureOfMove(c, s, Apply(c, s, step), step.w);
  }

  lemma {:induction false} WeightsOfWaiting(n: nat)
    ensures Weights(seq(n, _ => Waiting)) == n
  {
    if n > 0 {
      var ws := seq(n, _ => Waiting);
      assert ws[..n - 1] == seq(n - 1, _ => Waiting);
      WeightsOfWaiting(n - 1);
    }
  }

  lemma {:induction false} MeasureAfter(c: Config, steps: seq<Step>)
    requires Exec(c, steps).Some?
    ensures |steps| + Measure(c, Exec(c, steps).value) <= Measure(c, Init(c))
  {
    if steps != [] {
      var before := steps[..|steps| - 1];
      MeasureAfter(c, before);
      MeasureDecreases(c, Exec(c, before).value, steps[|steps| - 1]);
    }
  }

  /** No schedule is longer than a bound linear in the number of channels and workers. Together with
      `DeadlockFree`, every schedule that is run to the end leaves every goroutine returned. */
  lemma EveryRunIsFinite(c: Config, steps: seq<Step>)
    requires Exec(c, steps).Some?
    ensures |steps| <= 6 * |c.outcomes| + WorkerCount(c) + 4
  {
    InvAlways(c, steps);
    MeasureAfter(c, steps);
    WeightsOfWaiting(WorkerCount(c));
  }

  // ----- The result does not depend on the schedule -----

  function SumOfExpected(c: Config, n: nat): Summary
    requires n <= |c.outcomes|
  {
    if n == 0 then EMPTY_SUMMARY else Add(SumOfExpected(c, n - 1), Expected(c, n - 1))
  }

  lemma {:induction false} TotalWithout(ds: seq<Delivery>, k: nat)
    requires k < |ds|
    ensures Total(ds) == Add(Total(ds[..k] + ds[k + 1..]), ds[k].result)
  {
    var last := |ds| - 1;
    var rest := ds[..k] + ds[k + 1..];
    if k == last {
      assert rest == ds[..last];
    } else {
      TotalWithout(ds[..last], k);
      assert rest[..|rest| - 1] == ds[..last][..k] + ds[..last][k + 1..];
    }
  }

  ghost predicate AllDelivered(c: Config, ds: seq<Delivery>, n: nat)
  {
    && n <= |c.outcomes|
    && (forall k :: 0 <= k < |ds| ==> ds[k].job < n && ds[k].result == Expected(c, ds[k].job))
    && (forall j, k :: 0 <= j < k < |ds| ==> ds[j].job != ds[k].job)
    && (forall j: nat :: j < n ==> Includes(ds, j))
  }

  lemma WithoutLastChannel(c: Config, ds: seq<Delivery>, n: nat, k: nat)
    requires n > 0 && AllDelivered(c, ds, n) && k < |ds| && ds[k].job == n - 1
    ensures AllDelivered(c, ds[..k] + ds[k + 1..], n - 1)
  {
    var rest := ds[..k] + ds[k + 1..];
    forall i | 0 <= i < |rest| ensures rest[i] == ds[if i < k then i else i + 1] {
    }
    forall j: nat | j < n - 1 ensures Includes(rest, j) {
      assert Includes(ds, j);
      var i :| 0 <= i < |ds| && ds[i].job == j;
      assert rest[if i < k then i else i - 1] == ds[i];
    }
  }

  /** Deliveries of the channels `0..n` in any order add up to the same summary. */
  lemma {:induction false} TotalOfPermutation(c: Config, ds: seq<Delivery>, n: nat)
    requires AllDelivered(c, ds, n)
    ensures |ds| == n && Total(ds) == SumOfExpected(c, n)
  {
    if n > 0 {
      assert Includes(ds, n - 1);
      var k :| 0 <= k < |ds| && ds[k].job == n - 1;
      var rest := ds[..k] + ds[k + 1..];
      WithoutLastChannel(c, ds, n, k);
      TotalWithout(ds, k);
      TotalOfPermutation(c, rest, n - 1);
      assert |ds| == |rest| + 1 && ds[k].result == Expected(c, n - 1);
    }
  }

  /** A pool that finishes without being cancelled tested every channel once, in whatever order,
      returns the per-channel sum and reported 0, 1, ..., total. */
  lemma UncancelledRun(c: Config, steps: seq<Step>)
    requires Exec(c, steps).Some?
    requires !Exec(c, steps).value.cancelled && Exec(c, steps).value.collector.Returned?
    ensures var s := Exec(c, steps).value;
            && Quiescent(s)
            && s.processed == |c.outcomes|
            && AllDelivered(c, s.delivered, |c.outcomes|)
            && s.summary == SumOfExpected(c, |c.outcomes|)
            && (c.reporting ==> s.reports == seq(|c.outcomes| + 1, i => i))
            && (forall j: nat :: j in s.started <==> j < |c.outcomes| && c.outcomes[j].Some?)
  {
    InvAlways(c, steps);
    var s := Exec(c, steps).value;
    if |c.outcomes| > 0 {
      assert s.workers[0].Exited?;
    }
    forall j: nat | j < |c.outcomes|
      ensures Includes(s.delivered, j)
    {
      assert !Held(s, j);
      assert Delivered(s, j);
    }
    TotalOfPermutation(c, s.delivered, |c.outcomes|);
  }

  lemma ScheduleIndependent(c: Config, steps: seq<Step>, others: seq<Step>)
    requires Exec(c, steps).Some? && Exec(c, others).Some?
    requires !Exec(c, steps).value.cancelled && Exec(c, steps).value.collector.Returned?
    requires !Exec(c, others).value.cancelled && Exec(c, others).value.collector.Returned?
    ensures Exec(c, steps).value.summary == Exec(c, others).value.summary
    ensures Exec(c, steps).value.reports == Exec(c, others).value.reports
    ensures multiset(Exec(c, steps).value.delivered) == multiset(Exec(c, others).value.delivered)
  {
    UncancelledRun(c, steps);
    UncancelledRun(c, others);
    InvAlways(c, steps);
    InvAlways(c, others);
    SameMultiset(c, Exec(c, steps).value.delivered, Exec(c, others).value.delivered, |c.outcomes|);
  }

  lemma {:induction false} SameMultiset(c: Config, ds: seq<Delivery>, es: seq<Delivery>, n: nat)
    requires AllDelivered(c, ds, n) && AllDelivered(c, es, n)
    ensures multiset(ds) == multiset(es)
  {
    forall d: Delivery ensures multiset(ds)[d] == multiset(es)[d] {
      Multiplicity(c, ds, n, d);
      Multiplicity(c, es, n, d);
    }
  }

  lemma {:induction false} Multiplicity(c: Config, ds: seq<Delivery>, n: nat, d: Delivery)
    requires AllDelivered(c, ds, n)
    ensures multiset(ds)[d] == if d.job < n && d.result == Expected(c, d.job) then 1 else 0
  {
    if d.job < n && d.result == Expected(c, d.job) {
      assert Includes(ds, d.job);
      var k :| 0 <= k < |ds| && ds[k].job == d.job;
      OccursOnce(ds, k);
      assert ds[k] == d;
    } else {
      assert d !in ds;
    }
  }

  lemma OccursOnce(ds: seq<Delivery>, k: nat)
    requires k < |ds| && forall i, j :: 0 <= i < j < |ds| ==> ds[i].job != ds[j].job
    ensures multiset(ds)[ds[k]] == 1
  {
    var before, after := ds[..k], ds[k + 1..];
    assert ds[k] !in before && ds[k] !in after;
    assert ds == before + [ds[k]] + after;
  }

  // ----- After a cancellation -----

  /** No worker has looked at the job yet. */
  ghost predicate Untouched(s: State, job: nat) {
    job >= s.next || exists w :: 0 <= w < |s.workers| && s.workers[w] == Received(job)
  }

  lemma CancelledStep(c: Config, s: State, step: Step)
    requires s.cancelled && Enabled(c, s, step)
    ensures var t := Apply(c, s, step);
            t.cancelled && t.started == s.started && t.reports == s.reports && s.dropped <= t.dropped && s.next <= t.next
  {
  }

  lemma UntouchedStep(c: Config, s: State, step: Step, job: nat)
    requires s.cancelled && Enabled(c, s, step) && Inv(c, s) && Untouched(s, job) && !Delivered(s, job)
    ensures var t := Apply(c, s, step); (Untouched(t, job) || job in t.dropped) && !Delivered(t, job)
  {
    var t := Apply(c, s, step);
    if job < s.next {
      var w :| 0 <= w < |s.workers| && s.workers[w] == Received(job);
      if t.workers[w] == Received(job) {
        assert Untouched(t, job);
      }
    } else if job == s.next && step.HandOff? {
      assert t.workers[step.w] == Received(job);
    }
    if step.Deliver? {
      DeliveredAppend(s, t, t.delivered[|s.delivered|]);
    } else {
      DeliveredSame(s, t);
    }
  }

  /** A cancelled pool starts no further test and reports no further progress, however it goes on. A job that no worker
      had looked at by then is never tested or delivered: it is dropped as soon as a worker looks at it, and in any
      case once everybody has returned, unless it was never handed out. */
  lemma {:induction false} NothingStartsAfterCancel(c: Config, steps: seq<Step>, more: seq<Step>, job: nat)
    requires Exec(c, steps).Some? && Exec(c, steps).value.cancelled && Exec(c, steps + more).Some?
    ensures var s, t := Exec(c, steps).value, Exec(c, steps + more).value;
            && t.cancelled && t.started == s.started && t.reports == s.reports
            && (Untouched(s, job) ==>
                  && job !in t.started && !Delivered(t, job)
                  && (Untouched(t, job) || job in t.dropped)
                  && (Quiescent(t) ==> job >= t.next || job in t.dropped))
  {
    var s := Exec(c, steps).value;
    if more == [] {
      assert steps + more == steps;
      InvAlways(c, steps);
      if Untouched(s, job) {
        UntouchedIsNew(c, s, job);
      }
    } else {
      var before := steps + more[..|more| - 1];
      assert (steps + more)[..|steps + more| - 1] == before;
      NothingStartsAfterCancel(c, steps, more[..|more| - 1], job);
      var mid, step := Exec(c, before).value, (steps + more)[|steps + more| - 1];
      var t := Apply(c, mid, step);
      InvAlways(c, before);
      CancelledStep(c, mid, step);
      InvAlways(c, steps + more);
      if Untouched(s, job) {
        if Untouched(mid, job) {
          UntouchedStep(c, mid, step, job);
        } else {
          DroppedIsFinal(c, t, job);
        }
      }
    }
  }

  lemma UntouchedIsNew(c: Config, s: State, job: nat)
    requires Inv(c, s) && Untouched(s, job)
    ensures job !in s.started && !Delivered(s, job)
    ensures Quiescent(s) ==> job >= s.next
  {
  }

  lemma DroppedIsFinal(c: Config, s: State, job: nat)
    requires Inv(c, s) && job in s.dropped
    ensures job !in s.started && !Delivered(s, job)
  {
  }

  // ----- Every run, cancelled or not -----

  lemma {:induction false} TotalWellCounted(ds: seq<Delivery>)
    requires forall k :: 0 <= k < |ds| ==> WellCounted(ds[k].result)
    ensures WellCounted(Total(ds))
  {
    if ds != [] {
      TotalWellCounted(ds[..|ds| - 1]);
    }
  }

  /** The tallies stay consistent at every moment of every run; a cancelled run still reports a
      prefix of 0, 1, ..., total and loses only jobs it recorded as dropped. */
  lemma TalliesAlways(c: Config, steps: seq<Step>)
    requires WellFormed(c) && Exec(c, steps).Some?
    ensures var s := Exec(c, steps).value;
            && WellCounted(s.summary)
            && s.processed <= s.next <= |c.outcomes|
            && (forall i :: 0 <= i < |s.reports| ==> s.reports[i] == i)
            && |s.reports| <= s.processed + 1
            && (Quiescent(s) ==> s.processed + |s.dropped| == s.next)
  {
    InvAlways(c, steps);
    var s := Exec(c, steps).value;
    TotalWellCounted(s.delivered);
    DeliveredAtMost(s.delivered, s.next);
    if Quiescent(s) {
      assert forall j: nat :: !Held(s, j);
      DeliveredOrDropped(s.delivered, s.dropped, s.next);
    }
  }

  /** So a pool of health checks, whatever the channels, settings and schedule, always shows consistent tallies. */
  lemma HealthCheckTallies(channels: seq<Option<TestedChannel>>, settings: HealthSettings, c: Config, steps: seq<Step>)
    requires c.outcomes == Outcomes(channels, settings) && Exec(c, steps).Some?
    ensures WellCounted(Exec(c, steps).value.summary)
  {
    HealthChecksAreWellFormed(channels, settings, c);
    TalliesAlways(c, steps);
  }

  // ----- Each tally by itself -----

  datatype Tally = Tested | Succeeded | Failed | Disabled | Enabling

  function Of(x: Summary, tally: Tally): nat {
    match tally
    case Tested => x.tested
    case Succeeded => x.succeeded
    case Failed => x.failed
    case Disabled => x.disabled
    case Enabling => x.enabled
  }

  /** The sum of one tally over the results that reached the collector. */
  function Sum(ds: seq<Delivery>, tally: Tally): nat {
    if ds == [] then 0 else Sum(ds[..|ds| - 1], tally) + Of(ds[|ds| - 1].result, tally)
  }

  lemma {:induction false} TotalByTally(ds: seq<Delivery>, tally: Tally)
    ensures Of(Total(ds), tally) == Sum(ds, tally)
  {
    if ds != [] {
      TotalByTally(ds[..|ds| - 1], tally);
    }
  }

  /** At any moment of any run each tally of the collector is the sum over the delivered results, and a delivered result
      is the outcome of its channel, or empty if its test saw the cancellation. */
  lemma TalliesAreSums(c: Config, steps: seq<Step>, tally: Tally)
    requires Exec(c, steps).Some?
    ensures var s := Exec(c, steps).value;
            && Of(s.summary, tally) == Sum(s.delivered, tally)
            && (forall k :: 0 <= k < |s.delivered| ==>
                              && s.delivered[k].job < |c.outcomes|
                              && s.delivered[k].result == if s.delivered[k].job in s.interrupted then EMPTY_SUMMARY
                                                          else Expected(c, s.delivered[k].job))
  {
    InvAlways(c, steps);
    TotalByTally(Exec(c, steps).value.delivered, tally);
  }

  /** How many channels are neither nil nor manually disabled. */
  function Testable(channels: seq<Option<TestedChannel>>): nat {
    if channels == [] then 0
    else
      var last := channels[|channels| - 1];
      Testable(channels[..|channels| - 1]) + if last.Some? && last.value.status != ManuallyDisabled then 1 else 0
  }

  lemma TestedOutcome(channels: seq<Option<TestedChannel>>, settings: HealthSettings, c: Config, i: nat)
    requires c.outcomes == Outcomes(channels, settings) && i < |channels|
    ensures Expected(c, i).tested == if channels[i].Some? && channels[i].value.status != ManuallyDisabled then 1 else 0
  {
  }

  lemma {:induction false} TestedOutcomes(channels: seq<Option<TestedChannel>>, settings: HealthSettings, c: Config, n: nat)
    requires c.outcomes == Outcomes(channels, settings) && n <= |channels|
    ensures SumOfExpected(c, n).tested == Testable(channels[..n])
  {
    if n > 0 {
      hide Outcomes;
      hide Expected;
      TestedOutcomes(channels, settings, c, n - 1);
      TestedOutcome(channels, settings, c, n - 1);
      assert channels[..n][..n - 1] == channels[..n - 1];
    }
  }

  /** A pool of health checks that finishes without being cancelled has tested every channel that may be tested. */
  lemma EveryTestableChannelIsTested(channels: seq<Option<TestedChannel>>, settings: HealthSettings, c: Config,
                                     steps: seq<Step>)
    requires c.outcomes == Outcomes(channels, settings) && Exec(c, steps).Some?
    requires !Exec(c, steps).value.cancelled && Exec(c, steps).value.collector.Returned?
    ensures Exec(c, steps).value.summary.tested == Testable(channels)
  {
    UncancelledRun(c, steps);
    TestedOutcomes(channels, settings, c, |channels|);
    assert channels[..|channels|] == channels;
  }

  // ----- Workers in use -----

  function HandOffs(n: nat): seq<Step> {
    seq(n, i requires 0 <= i => HandOff(i))
  }

  lemma {:induction false} WorkersFill(c: Config, n: nat)
    requires n <= WorkerCount(c)
    ensures Exec(c, HandOffs(n)).Some?
    ensures var s := Exec(c, HandOffs(n)).value;
            && s.next == n && (|c.outcomes| > 0 ==> !s.jobsClosed) && |s.workers| == WorkerCount(c)
            && (forall w :: 0 <= w < n ==> s.workers[w] == Received(w))
            && (forall w :: n <= w < |s.workers| ==> s.workers[w] == Waiting)
  {
    if n > 0 {
      WorkersFill(c, n - 1);
      assert HandOffs(n)[..n - 1] == HandOffs(n - 1);
    }
  }

  lemma {:induction false} HeldByAll(workers: seq<Worker>)
    requires forall w :: 0 <= w < |workers| ==> workers[w] == Received(w)
    ensures HeldJobs(workers) == Below(|workers|)
  {
    forall j: nat ensures j in HeldJobs(workers) <==> j < |workers| {
      HeldJobsBound(workers);
      HeldAreHeld(workers, j);
      if j < |workers| {
        assert workers[j].Busy() && workers[j].job == j;
      }
    }
  }

  lemma {:induction false} HeldAreHeld(workers: seq<Worker>, j: nat)
    ensures j in HeldJobs(workers) ==> exists w :: 0 <= w < |workers| && workers[w].Busy() && workers[w].job == j
  {
    if workers != [] && j in HeldJobs(workers) {
      var last := |workers| - 1;
      if !(workers[last].Busy() && workers[last].job == j) {
        HeldAreHeld(workers[..last], j);
        var w :| 0 <= w < last && workers[..last][w].Busy() && workers[..last][w].job == j;
        assert workers[w].Busy() && workers[w].job == j;
      }
    }
  }

  /** The bound on parallelism is reached: as many channels as the concurrency allows, or all of them, can be in flight
      at once. */
  lemma ParallelismIsUsed(c: Config)
    ensures Exec(c, HandOffs(WorkerCount(c))).Some?
    ensures var inFlight := |HeldJobs(Exec(c, HandOffs(WorkerCount(c))).value.workers)|;
            && (1 <= c.concurrency <= 32 && c.concurrency <= |c.outcomes| ==> inFlight == c.concurrency)
            && (|c.outcomes| <= c.concurrency && |c.outcomes| <= 32 ==> inFlight == |c.outcomes|)
            && (c.concurrency < 1 && |c.outcomes| > 0 ==> inFlight == 1)
  {
    WorkersFill(c, WorkerCount(c));
    HeldByAll(Exec(c, HandOffs(WorkerCount(c))).value.workers);
  }

  function Deliveries(steps: seq<Step>, w: nat): nat {
    if steps == [] then 0
    else Deliveries(steps[..|steps| - 1], w) + if steps[|steps| - 1] == Deliver(w) then 1 else 0
  }

  function Pauses(steps: seq<Step>, w: nat): nat {
    if steps == [] then 0
    else
      Pauses(steps[..|steps| - 1], w)
      + if steps[|steps| - 1] == EndPause(w) || steps[|steps| - 1] == LeavePause(w) then 1 else 0
  }

  lemma PauseStep(c: Config, s: State, step: Step, w: nat)
    requires Enabled(c, s, step) && w < |s.workers|
    ensures var t := Apply(c, s, step);
            && w < |t.workers|
            && (step == EndPause(w) || step == LeavePause(w) ==> s.workers[w].Pausing? && !t.workers[w].Pausing?)
            && (step == Deliver(w) ==> !s.workers[w].Pausing? && (t.workers[w].Pausing? <==> c.pauses))
            && (step != EndPause(w) && step != LeavePause(w) && step != Deliver(w) ==>
                  (t.workers[w].Pausing? <==> s.workers[w].Pausing?))
  {
  }

  /** With a request interval a worker pauses once after each result it delivered, before it takes another job; without
      one it never pauses. */
  lemma {:induction false} PausesFollowDeliveries(c: Config, steps: seq<Step>, w: nat)
    requires Exec(c, steps).Some? && w < WorkerCount(c)
    ensures var s := Exec(c, steps).value;
            && w < |s.workers|
            && (c.pauses ==> Deliveries(steps, w) == Pauses(steps, w) + if s.workers[w].Pausing? then 1 else 0)
            && (!c.pauses ==> Pauses(steps, w) == 0 && !s.workers[w].Pausing?)
  {
    if steps != [] {
      PausesFollowDeliveries(c, steps[..|steps| - 1], w);
      PauseStep(c, Exec(c, steps[..|steps| - 1]).value, steps[|steps| - 1], w);
      hide Enabled;
      hide Apply;
    }
  }

  predicate DistinctJobs(ds: seq<Delivery>, n: nat) {
    && (forall k :: 0 <= k < |ds| ==> ds[k].job < n)
    && (forall j, k :: 0 <= j < k < |ds| ==> ds[j].job != ds[k].job)
  }

  lemma DeliveredAtMost(ds: seq<Delivery>, n: nat)
    requires DistinctJobs(ds, n)
    ensures |ds| <= n
  {
    DeliveredJobsSize(ds);
    assert DeliveredJobs(ds) <= Below(n);
    SubsetSize(DeliveredJobs(ds), Below(n));
  }

  lemma DeliveredOrDropped(ds: seq<Delivery>, dropped: set<nat>, n: nat)
    requires DistinctJobs(ds, n)
    requires forall j :: j in dropped ==> j < n && !Includes(ds, j)
    requires forall j: nat :: j < n ==> j in dropped || Includes(ds, j)
    ensures |ds| + |dropped| == n
  {
    DeliveredJobsSize(ds);
    assert DeliveredJobs(ds) + dropped == Below(n);
  }

  function DeliveredJobs(ds: seq<Delivery>): set<nat> {
    if ds == [] then {} else DeliveredJobs(ds[..|ds| - 1]) + {ds[|ds| - 1].job}
  }

  lemma {:induction false} DeliveredJobsSize(ds: seq<Delivery>)
    requires forall j, k :: 0 <= j < k < |ds| ==> ds[j].job != ds[k].job
    ensures forall j :: j in DeliveredJobs(ds) <==> Includes(ds, j)
    ensures |DeliveredJobs(ds)| == |ds|
  {
    if ds != [] {
      var front, last := ds[..|ds| - 1], ds[|ds| - 1];
      DeliveredJobsSize(front);
      forall j ensures Includes(ds, j) <==> Includes(front, j) || j == last.job {
        if Includes(front, j) {
          var k :| 0 <= k < |front| && front[k].job == j;
          assert ds[k].job == j;
        }
        if Includes(ds, j) {
          var k :| 0 <= k < |ds| && ds[k].job == j;
          assert k == |front| || front[k].job == j;
        }
        if j == last.job { assert ds[|front|].job == j; }
      }
      assert !Includes(front, last.job);
    }
  }

  function Below(n: nat): (r: set<nat>)
    ensures forall j: nat :: j in r <==> j < n
    ensures |r| == n
  {
    if n == 0 then {} else Below(n - 1) + {n - 1}
  }

  lemma SubsetSize(a: set<nat>, b: set<nat>)
    requires a <= b
    ensures |a| <= |b|
  {
    assert b == a + (b - a);
  }
}
