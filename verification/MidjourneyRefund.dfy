/**
 Polling Midjourney tasks and refunding failed ones.

 Any number of polling passes, in one process or several, work on copies of a task row that they loaded while
 its progress was below 100%. A pass writes its copy back with an update that is conditional on the status it
 started from, and the pass that wins the update refunds the quota if the task failed. The model follows one
 row; passes over different rows do not touch each other.
 */
module MidjourneyRefund {
  import opened Wrappers

  const FAILURE := "FAILURE"
  const COMPLETE := "100%"
  const TIMEOUT_REASON := "上游任务超时（超过1小时）"

  /** `details` stands for the other fields that are copied from a response and compared for changes, `extras` for
      those that are copied when present and never compared. */
  datatype Task = Task(code: int, status: string, progress: string, failReason: string, details: string,
                       extras: string, quota: int)

  datatype Response = Response(status: string, progress: string, failReason: string, details: string,
                               extras: Option<string>)

  predicate NeedsUpdate(task: Task, r: Response) {
    || task.code != 1
    || task.progress != r.progress
    || task.details != r.details
    || task.status != r.status
    || task.failReason != r.failReason
    || (task.progress != COMPLETE && r.failReason != "")
  }

  /** An unfinished task older than an hour counts as failed whatever the upstream says. */
  function Effective(r: Response, timedOut: bool): Response {
    if timedOut then r.(status := FAILURE, failReason := TIMEOUT_REASON) else r
  }

  function Merged(task: Task, r: Response): Task {
    Task(1, r.status, r.progress, r.failReason, r.details, if r.extras.Some? then r.extras.value else task.extras,
         task.quota)
  }

  predicate BuildFailed(task: Task) {
    || (task.progress != COMPLETE && task.failReason != "")
    || (task.progress == COMPLETE && task.status == FAILURE)
  }

  /** The copy as it is written: a failed task is complete. */
  function Written(task: Task, r: Response): Task {
    var merged := Merged(task, r);
    if BuildFailed(merged) then merged.(progress := COMPLETE) else merged
  }

  predicate RefundIsDue(task: Task, r: Response) {
    BuildFailed(Merged(task, r)) && task.quota != 0
  }

  /** The row and the copy after one item, and whether a refund follows. An item that changes nothing is skipped;
      `reachable` says whether the database carried out the conditional update. The update is won when it affected
      a row, and databases differ in whether a row that matched but did not change counts. */
  datatype Outcome = Outcome(row: Task, copy: Task, refundDue: bool)

  function AfterItem(row: Task, task: Task, r: Response, reachable: bool, countsMatched: bool): Outcome {
    if !NeedsUpdate(task, r) then Outcome(row, task, false)
    else
      var matched := reachable && row.status == task.status;
      var won := matched && (countsMatched || Written(task, r) != row);
      Outcome(if matched then Written(task, r) else row, Written(task, r), won && RefundIsDue(task, r))
  }

  /** The stored row. */
  class TaskRow {
    var task: Task
    const countsMatched: bool

    constructor (task: Task, countsMatched: bool)
      ensures this.task == task && this.countsMatched == countsMatched
    {
      this.task, this.countsMatched := task, countsMatched;
    }

    /** A compare-and-set on the status that replaces every column. */
    method UpdateWithStatus(copy: Task, fromStatus: string, reachable: bool) returns (won: bool)
      modifies this
      ensures task == if reachable && old(task).status == fromStatus then copy else old(task)
      ensures won <==> reachable && old(task).status == fromStatus && (countsMatched || copy != old(task))
    {
      won := false;
      if reachable && task.status == fromStatus {
        won := countsMatched || task != copy;
        task := copy;
      }
    }
  }

  /** A task object of a polling pass, updated in place from one response item. */
  class TaskCopy {
    var code: int
    var status: string
    var progress: string
    var failReason: string
    var details: string
    var extras: string
    var quota: int

    constructor (task: Task)
      ensures Value() == task
    {
      code, status, progress := task.code, task.status, task.progress;
      failReason, details, extras, quota := task.failReason, task.details, task.extras, task.quota;
    }

    function Value(): Task
      reads this
    {
      Task(code, status, progress, failReason, details, extras, quota)
    }

    method Update(r: Response) returns (shouldReturnQuota: bool)
      modifies this
      ensures Value() == Written(old(Value()), r)
      ensures shouldReturnQuota == RefundIsDue(old(Value()), r)
    {
      code := 1;
      progress := r.progress;
      status := r.status;
      failReason := r.failReason;
      details := r.details;
      if r.extras.Some? {
        extras := r.extras.value;
      }
      shouldReturnQuota := false;
      if (progress != COMPLETE && r.failReason != "") || (progress == COMPLETE && status == FAILURE) {
        progress := COMPLETE;
        if quota != 0 {
          shouldReturnQuota := true;
        }
      }
    }
  }

  /** One iteration of a polling pass over the response items. */
  method HandleItem(row: TaskRow, copy: TaskCopy, response: Response, useTime: int, reachable: bool)
    returns (refundDue: bool)
    modifies row, copy
    ensures var timedOut := useTime > 3600000 && old(copy.Value()).progress != COMPLETE;
            Outcome(row.task, copy.Value(), refundDue)
            == AfterItem(old(row.task), old(copy.Value()), Effective(response, timedOut), reachable, row.countsMatched)
  {
    var item := response;
    refundDue := false;
    if useTime > 3600000 && copy.progress != COMPLETE {
      item := item.(failReason := TIMEOUT_REASON);
      item := item.(status := FAILURE);
    }
    if NeedsUpdate(copy.Value(), item) {
      var preStatus := copy.status;
      var shouldReturnQuota := copy.Update(item);
      var won := row.UpdateWithStatus(copy.Value(), preStatus, reachable);
      refundDue := won && shouldReturnQuota;
    }
  }

  // ----- Passes over one row -----

  datatype Pass = Pass(copy: Option<Task>, handled: nat, refundDue: bool)

  /** `refunds` counts the refunds that reached the user, `credited` sums them. */
  datatype State = State(row: Task, passes: seq<Pass>, refunds: nat, credited: int, countsMatched: bool)

  datatype Step =
    | Load(p: nat)
    | Handle(p: nat, response: Response, timedOut: bool, reachable: bool)   // one response item
    | Refund(p: nat, credits: bool, saves: bool)
    | BulkFail(reason: Option<string>)                                      // no channel, or no upstream id

  function Init(row: Task, passes: nat, countsMatched: bool): State {
    State(row, seq(passes, _ => Pass(None, 0, false)), 0, 0, countsMatched)
  }

  predicate Enabled(s: State, step: Step) {
    match step
    case Load(p) => p < |s.passes| && s.passes[p].copy.None? && s.row.progress != COMPLETE
    case Handle(p, _, timedOut, _) =>
      && p < |s.passes| && s.passes[p].copy.Some? && !s.passes[p].refundDue
      && (timedOut ==> s.passes[p].copy.value.progress != COMPLETE)
    case Refund(p, _, _) => p < |s.passes| && s.passes[p].copy.Some? && s.passes[p].refundDue
    case BulkFail(_) => true
  }

  function Apply(s: State, step: Step): State
    requires Enabled(s, step)
  {
    match step
    case Load(p) => s.(passes := s.passes[p := Pass(Some(s.row), 0, false)])
    case Handle(p, response, timedOut, reachable) =>
      var pass := s.passes[p];
      var after := AfterItem(s.row, pass.copy.value, Effective(response, timedOut), reachable, s.countsMatched);
      s.(row := after.row, passes := s.passes[p := Pass(Some(after.copy), pass.handled + 1, after.refundDue)])
    case Refund(p, credits, saves) =>
      var pass := s.passes[p];
      if !credits then s.(passes := s.passes[p := pass.(refundDue := false)])
      else
        State(if saves then s.row.(quota := 0) else s.row,
              s.passes[p := Pass(Some(pass.copy.value.(quota := 0)), pass.handled, false)],
              s.refunds + 1, s.credited + pass.copy.value.quota, s.countsMatched)
    case BulkFail(reason) =>
      s.(row := s.row.(status := FAILURE, progress := COMPLETE,
                       failReason := if reason.Some? then reason.value else s.row.failReason))
  }

  function Exec(start: State, steps: seq<Step>): Option<State> {
    if steps == [] then Some(start)
    else
      match Exec(start, steps[..|steps| - 1])
      case None => None
      case Some(s) =>
        var last := steps[|steps| - 1];
        if Enabled(s, last) then Some(Apply(s, last)) else None
  }

  // ----- Conditions -----

  /** While a task is unfinished, a fail reason and the FAILURE status come together. */
  predicate Honest(r: Response) {
    r.progress != COMPLETE ==> (r.status == FAILURE <==> r.failReason != "")
  }

  /** The row does not start as a failed task that is still polled. */
  predicate GoodRow(row: Task) {
    row.status == FAILURE ==> row.progress == COMPLETE
  }

  /** No pass is given two items for the task it loaded. */
  predicate OneItemEach(steps: seq<Step>) {
    forall i, j :: 0 <= i < j < |steps| && steps[i].Handle? && steps[j].Handle? ==> steps[i].p != steps[j].p
  }

  predicate HonestResponses(steps: seq<Step>) {
    forall i :: 0 <= i < |steps| && steps[i].Handle? ==> Honest(steps[i].response)
  }

  /** A failed row is complete, no pass starts from a failed row, and a refund, due or done, belongs to the
      one transition of the row into FAILURE. */
  predicate Inv(s: State, quota: int) {
    && GoodRow(s.row)
    && (s.refunds == 0 ==> s.row.quota == quota)
    && (forall p :: 0 <= p < |s.passes| && s.passes[p].copy.Some? && s.passes[p].handled == 0 ==>
                      s.passes[p].copy.value.status != FAILURE && s.passes[p].copy.value.quota == quota)
    && (forall p :: 0 <= p < |s.passes| && s.passes[p].refundDue ==>
                      s.row.status == FAILURE && s.refunds == 0 && s.passes[p].copy.Some? && s.passes[p].handled > 0
                      && s.passes[p].copy.value.quota == quota)
    && (forall p, q :: 0 <= p < q < |s.passes| ==> !(s.passes[p].refundDue && s.passes[q].refundDue))
    && s.refunds <= 1 && (s.refunds == 1 ==> s.row.status == FAILURE)
    && s.credited == s.refunds * quota
  }

  lemma HonestFailure(task: Task, r: Response, timedOut: bool)
    requires Honest(r)
    ensures BuildFailed(Merged(task, Effective(r, timedOut))) <==> Written(task, Effective(r, timedOut)).status == FAILURE
    ensures GoodRow(Written(task, Effective(r, timedOut)))
  {
  }

  lemma InvKept(s: State, step: Step, quota: int)
    requires Inv(s, quota) && Enabled(s, step)
    requires step.Handle? ==> Honest(step.response) && s.passes[step.p].handled == 0
    ensures Inv(Apply(s, step), quota)
  {
    if step.Handle? {
      HonestFailure(s.passes[step.p].copy.value, step.response, step.timedOut);
    }
  }

  lemma {:induction false} HandledCount(start: State, steps: seq<Step>, p: nat)
    requires Exec(start, steps).Some? && p < |start.passes| == |Exec(start, steps).value.passes|
    requires start.passes[p] == Pass(None, 0, false)
    requires forall i :: 0 <= i < |steps| && steps[i].Handle? ==> steps[i].p != p
    ensures Exec(start, steps).value.passes[p].handled == 0
  {
    if steps != [] {
      var before := Exec(start, steps[..|steps| - 1]).value;
      PassCount(start, steps[..|steps| - 1]);
      HandledCount(start, steps[..|steps| - 1], p);
    }
  }

  lemma {:induction false} PassCount(start: State, steps: seq<Step>)
    requires Exec(start, steps).Some?
    ensures |Exec(start, steps).value.passes| == |start.passes|
  {
    if steps != [] {
      PassCount(start, steps[..|steps| - 1]);
    }
  }

  lemma {:induction false} InvAlways(row: Task, passes: nat, countsMatched: bool, steps: seq<Step>)
    requires GoodRow(row) && HonestResponses(steps) && OneItemEach(steps)
    requires Exec(Init(row, passes, countsMatched), steps).Some?
    ensures Inv(Exec(Init(row, passes, countsMatched), steps).value, row.quota)
  {
    if steps != [] {
      var before, step := steps[..|steps| - 1], steps[|steps| - 1];
      InvAlways(row, passes, countsMatched, before);
      var s := Exec(Init(row, passes, countsMatched), before).value;
      if step.Handle? {
        PassCount(Init(row, passes, countsMatched), before);
        HandledCount(Init(row, passes, countsMatched), before, step.p);
      }
      InvKept(s, step, row.quota);
    }
  }

  // ----- Main results -----

  /** However many passes race, a task is refunded at most once and by exactly its quota. */
  lemma RefundedAtMostOnce(row: Task, passes: nat, countsMatched: bool, steps: seq<Step>)
    requires GoodRow(row) && HonestResponses(steps) && OneItemEach(steps)
    requires Exec(Init(row, passes, countsMatched), steps).Some?
    ensures var s := Exec(Init(row, passes, countsMatched), steps).value;
            s.refunds <= 1 && s.credited == (if s.refunds == 1 then row.quota else 0)
  {
    InvAlways(row, passes, countsMatched, steps);
  }

  /** A stored FAILURE is final: no later response item changes the row. */
  lemma FailureIsNeverOverwritten(row: Task, passes: nat, countsMatched: bool, steps: seq<Step>, p: nat,
                                  response: Response, timedOut: bool, reachable: bool)
    requires var step := Handle(p, response, timedOut, reachable);
             && GoodRow(row) && HonestResponses(steps) && OneItemEach(steps + [step])
             && Exec(Init(row, passes, countsMatched), steps).Some? && Enabled(Exec(Init(row, passes, countsMatched), steps).value, step)
    requires Exec(Init(row, passes, countsMatched), steps).value.row.status == FAILURE
    ensures Apply(Exec(Init(row, passes, countsMatched), steps).value, Handle(p, response, timedOut, reachable)).row
            == Exec(Init(row, passes, countsMatched), steps).value.row
  {
    var step := Handle(p, response, timedOut, reachable);
    var all := steps + [step];
    assert all[|steps|] == step && forall i :: 0 <= i < |steps| ==> all[i] == steps[i];
    InvAlways(row, passes, countsMatched, steps);
    PassCount(Init(row, passes, countsMatched), steps);
    HandledCount(Init(row, passes, countsMatched), steps, p);
  }

  // ----- What one item does -----

  /** After an item the copy shows what was reported, except that a failed task counts as complete; the quota is kept, and
      so are the extra columns the report leaves out. An item that changes nothing is one the copy already shows. */
  lemma CopyFollowsReport(row: Task, task: Task, r: Response, reachable: bool, countsMatched: bool)
    ensures var copy := AfterItem(row, task, r, reachable, countsMatched).copy;
            && copy.status == r.status && copy.failReason == r.failReason && copy.details == r.details
            && copy.code == 1 && copy.quota == task.quota
            && (copy.progress == r.progress
                || (copy.progress == COMPLETE && r.progress != COMPLETE && r.failReason != ""))
            && (r.progress != COMPLETE && r.failReason != "" ==> copy.progress == COMPLETE)
            && (copy != task ==> copy.extras == if r.extras.Some? then r.extras.value else task.extras)
  {
  }

  /** The stored row becomes that copy exactly when the pass reaches the database before anybody changed the status. */
  lemma RowFollowsCopy(row: Task, task: Task, r: Response, reachable: bool, countsMatched: bool)
    ensures var after := AfterItem(row, task, r, reachable, countsMatched);
            after.row == if reachable && row.status == task.status && NeedsUpdate(task, r) then after.copy else row
    ensures !NeedsUpdate(task, r) ==> AfterItem(row, task, r, reachable, countsMatched).copy == task
  {
  }

  /** After an hour an unfinished task has failed, whatever the upstream reports. */
  lemma TimeoutFails(row: Task, task: Task, r: Response, reachable: bool, countsMatched: bool)
    ensures var copy := AfterItem(row, task, Effective(r, true), reachable, countsMatched).copy;
            copy.status == "FAILURE" && copy.progress == "100%" && copy.failReason == TIMEOUT_REASON != ""
  {
  }

  /** The pass that moves the row into FAILURE owes a refund exactly when the task has quota, also when the upstream
      reports the failure as complete; a pass that does not, owes none. */
  lemma TransitionOwesRefund(row: Task, task: Task, r: Response, reachable: bool, countsMatched: bool)
    requires Honest(r) && row.status != FAILURE
    ensures var after := AfterItem(row, task, r, reachable, countsMatched);
            && (after.row.status == FAILURE ==> (after.refundDue <==> task.quota != 0))
            && (after.row.status != FAILURE ==> !after.refundDue)
            && (reachable && row.status == task.status && r.status == FAILURE ==> after.row.status == FAILURE)
  {
  }

  /** A refund credits the quota of the copy once and clears it, in the copy and, if the write succeeds, in the row. */
  lemma RefundMeans(s: State, p: nat, credits: bool, saves: bool)
    requires Enabled(s, Refund(p, credits, saves))
    ensures var t, was := Apply(s, Refund(p, credits, saves)), s.passes[p].copy.value;
            && !t.passes[p].refundDue
            && (credits ==> t.refunds == s.refunds + 1 && t.credited == s.credited + was.quota
                            && t.passes[p].copy == Some(was.(quota := 0)) && t.row == if saves then s.row.(quota := 0) else s.row)
            && (!credits ==> t.refunds == s.refunds && t.credited == s.credited && t.row == s.row)
  {
  }

  /** A bulk failure fails and completes the row whatever it was, keeps its quota and refunds nothing. */
  lemma BulkFailMeans(s: State, reason: Option<string>)
    ensures var t := Apply(s, BulkFail(reason));
            && t.row.status == "FAILURE" && t.row.progress == "100%" && t.row.quota == s.row.quota
            && t.row.failReason == (if reason.Some? then reason.value else s.row.failReason)
            && t.refunds == s.refunds && t.credited == s.credited && t.passes == s.passes
  {
  }

  /** A stored FAILURE is final in every run: it stays, it stays complete, and so no later pass loads the task again. */
  lemma {:induction false} FailureIsFinal(row: Task, passes: nat, countsMatched: bool, steps: seq<Step>, n: nat)
    requires GoodRow(row) && HonestResponses(steps) && OneItemEach(steps) && n <= |steps|
    requires Exec(Init(row, passes, countsMatched), steps).Some? && Exec(Init(row, passes, countsMatched), steps[..n]).Some?
    requires Exec(Init(row, passes, countsMatched), steps[..n]).value.row.status == FAILURE
    ensures var s := Exec(Init(row, passes, countsMatched), steps).value;
            && s.row.status == FAILURE && s.row.progress == COMPLETE
            && forall p :: !Enabled(s, Load(p))
  {
    InvAlways(row, passes, countsMatched, steps);
    if n < |steps| {
      var start, before, step := Init(row, passes, countsMatched), steps[..|steps| - 1], steps[|steps| - 1];
      assert before[..n] == steps[..n];
      FailureIsFinal(row, passes, countsMatched, before, n);
      InvAlways(row, passes, countsMatched, before);
      if step.Handle? {
        PassCount(start, before);
        HandledCount(start, before, step.p);
      }
    } else {
      assert steps[..n] == steps;
    }
  }

  /** Polling only: no bulk failure, and every refund reaches the user. */
  predicate PollingOnly(steps: seq<Step>) {
    forall i :: 0 <= i < |steps| ==> !steps[i].BulkFail? && (steps[i].Refund? ==> steps[i].credits)
  }

  ghost predicate RefundSettled(s: State) {
    s.refunds == 1 || exists p :: 0 <= p < |s.passes| && s.passes[p].refundDue
  }

  lemma SettledStep(s: State, step: Step, quota: int)
    requires Inv(s, quota) && Enabled(s, step) && quota != 0 && (s.row.status == FAILURE ==> RefundSettled(s))
    requires step.Handle? ==> Honest(step.response) && s.passes[step.p].handled == 0
    requires !step.BulkFail? && (step.Refund? ==> step.credits)
    ensures Apply(s, step).row.status == FAILURE ==> RefundSettled(Apply(s, step))
  {
    var t := Apply(s, step);
    if t.row.status == FAILURE && s.row.status == FAILURE && s.refunds != 1 {
      var p :| 0 <= p < |s.passes| && s.passes[p].refundDue;
      if !(step.Refund? && step.p == p) {
        assert t.passes[p].refundDue;
      }
    } else if t.row.status == FAILURE && s.row.status != FAILURE {
      assert step.Handle?;
      TransitionOwesRefund(s.row, s.passes[step.p].copy.value, Effective(step.response, step.timedOut), step.reachable,
                           s.countsMatched);
      assert t.passes[step.p].refundDue;
    }
  }

  /** Every task with quota that polling finds failed is refunded: the refund is done, or due by the pass that found it. */
  lemma {:induction false} FailedTasksAreRefunded(row: Task, passes: nat, countsMatched: bool, steps: seq<Step>)
    requires row.status != FAILURE && row.quota != 0
    requires HonestResponses(steps) && OneItemEach(steps) && PollingOnly(steps)
    requires Exec(Init(row, passes, countsMatched), steps).Some?
    ensures var s := Exec(Init(row, passes, countsMatched), steps).value; s.row.status == FAILURE ==> RefundSettled(s)
  {
    if steps != [] {
      var start, before, step := Init(row, passes, countsMatched), steps[..|steps| - 1], steps[|steps| - 1];
      FailedTasksAreRefunded(row, passes, countsMatched, before);
      InvAlways(row, passes, countsMatched, before);
      if step.Handle? {
        PassCount(start, before);
        HandledCount(start, before, step.p);
      }
      SettledStep(Exec(start, before).value, step, row.quota);
    }
  }

  // ----- The condition on responses is exact -----

  ghost predicate From(steps: seq<Step>, responses: iset<Response>) {
    forall i :: 0 <= i < |steps| && steps[i].Handle? ==> steps[i].response in responses
  }

  ghost predicate NeverRefundsTwice(responses: iset<Response>, countsMatched: bool) {
    forall row: Task, passes: nat, steps: seq<Step> ::
      GoodRow(row) && From(steps, responses) && OneItemEach(steps) && Exec(Init(row, passes, countsMatched), steps).Some? ==>
        Exec(Init(row, passes, countsMatched), steps).value.refunds <= 1
  }

  lemma Extend(start: State, steps: seq<Step>, s: State, step: Step)
    requires Exec(start, steps) == Some(s) && Enabled(s, step)
    ensures Exec(start, steps + [step]) == Some(Apply(s, step))
  {
    assert (steps + [step])[..|steps|] == steps;
  }

  lemma TwoLoads(row: Task, countsMatched: bool) returns (s: State)
    requires row.progress != COMPLETE
    ensures Exec(Init(row, 2, countsMatched), [Load(0), Load(1)]) == Some(s)
    ensures s.row == row && s.refunds == 0 && s.countsMatched == countsMatched
    ensures s.passes == [Pass(Some(row), 0, false), Pass(Some(row), 0, false)]
  {
    var start := Init(row, 2, countsMatched);
    Extend(start, [], start, Load(0));
    var loaded := Apply(start, Load(0));
    Extend(start, [Load(0)], loaded, Load(1));
    assert [Load(0)] + [Load(1)] == [Load(0), Load(1)];
    s := Apply(loaded, Load(1));
  }

  /** A reason without the FAILURE status: the conditional update does not separate two racing passes. */
  lemma ReasonWithoutFailure(r: Response, countsMatched: bool) returns (row: Task, steps: seq<Step>)
    requires r.progress != COMPLETE && r.failReason != "" && r.status != FAILURE
    ensures GoodRow(row) && From(steps, iset{r}) && OneItemEach(steps)
    ensures Exec(Init(row, 2, countsMatched), steps).Some? && Exec(Init(row, 2, countsMatched), steps).value.refunds == 2
  {
    hide Exec;
    row := Task(0, r.status, "", "", "", "", 1);
    var s := TwoLoads(row, countsMatched);
    var end;
    steps, end := RaceToRefund(Init(row, 2, countsMatched), [Load(0), Load(1)], s, 0, 1, r, false);
  }

  /** Two passes with equal unhandled copies of an unchanged row, told of a failure that keeps its status. The
      first refund clears the stored quota, so that the second update changes the row again. */
  lemma RaceToRefund(start: State, steps: seq<Step>, s: State, p: nat, q: nat, r: Response, timedOut: bool)
    returns (more: seq<Step>, end: State)
    requires Exec(start, steps) == Some(s) && p < q < |s.passes|
    requires s.passes[p] == s.passes[q] == Pass(Some(s.row), 0, false)
    requires s.row.progress != COMPLETE && s.row.quota != 0
    requires var e := Effective(r, timedOut); e.progress != COMPLETE && e.failReason != "" && e.status == s.row.status
    ensures more == steps + [Handle(p, r, timedOut, true), Refund(p, true, true), Handle(q, r, timedOut, true),
                             Refund(q, true, true)]
    ensures Exec(start, more) == Some(end) && end.refunds == s.refunds + 2
  {
    var a, b := Handle(p, r, timedOut, true), Handle(q, r, timedOut, true);
    Extend(start, steps, s, a);
    var s1 := Apply(s, a);
    Extend(start, steps + [a], s1, Refund(p, true, true));
    var s2 := Apply(s1, Refund(p, true, true));
    Extend(start, steps + [a] + [Refund(p, true, true)], s2, b);
    var s3 := Apply(s2, b);
    Extend(start, steps + [a] + [Refund(p, true, true)] + [b], s3, Refund(q, true, true));
    end := Apply(s3, Refund(q, true, true));
    more := steps + [a] + [Refund(p, true, true)] + [b] + [Refund(q, true, true)];
    assert more == steps + [a, Refund(p, true, true), b, Refund(q, true, true)];
  }

  /** The FAILURE status without a reason leaves a failed row that is still polled, here by two passes. */
  lemma PolledFailure(row: Task, r: Response, countsMatched: bool) returns (s: State)
    requires row == Task(0, "", "", "", "", "", 1) && r.progress != COMPLETE && r.failReason == "" && r.status == FAILURE
    ensures Exec(Init(row, 3, countsMatched), [Load(0), Handle(0, r, false, true), Load(1), Load(2)]) == Some(s)
    ensures s.row.status == FAILURE && s.row.progress != COMPLETE && s.row.quota == 1 && s.refunds == 0
    ensures |s.passes| == 3 && s.passes[1] == s.passes[2] == Pass(Some(s.row), 0, false)
  {
    var start, a := Init(row, 3, countsMatched), Handle(0, r, false, true);
    Extend(start, [], start, Load(0));
    var s1 := Apply(start, Load(0));
    Extend(start, [Load(0)], s1, a);
    var s2 := Apply(s1, a);
    Extend(start, [Load(0)] + [a], s2, Load(1));
    var s3 := Apply(s2, Load(1));
    Extend(start, [Load(0)] + [a] + [Load(1)], s3, Load(2));
    s := Apply(s3, Load(2));
    assert [Load(0)] + [a] + [Load(1)] + [Load(2)] == [Load(0), a, Load(1), Load(2)];
  }

  /** Both passes then run into the timeout. */
  lemma FailureWithoutReason(r: Response, countsMatched: bool) returns (row: Task, steps: seq<Step>)
    requires r.progress != COMPLETE && r.failReason == "" && r.status == FAILURE
    ensures GoodRow(row) && From(steps, iset{r}) && OneItemEach(steps)
    ensures Exec(Init(row, 3, countsMatched), steps).Some? && Exec(Init(row, 3, countsMatched), steps).value.refunds == 2
  {
    hide Exec;
    row := Task(0, "", "", "", "", "", 1);
    var s := PolledFailure(row, r, countsMatched);
    var end;
    steps, end := RaceToRefund(Init(row, 3, countsMatched), [Load(0), Handle(0, r, false, true), Load(1), Load(2)], s,
                               1, 2, r, true);
  }

  /** Exact condition on an upstream, for either kind of database: no schedule refunds a task twice if and only if
      every response it may give reports a failed unfinished task with both the status and a reason, or with
      neither. */
  lemma NeverRefundsTwiceIff(responses: iset<Response>, countsMatched: bool)
    ensures NeverRefundsTwice(responses, countsMatched) <==> forall r :: r in responses ==> Honest(r)
  {
    if forall r :: r in responses ==> Honest(r) {
      forall row: Task, passes: nat, steps: seq<Step> |
        GoodRow(row) && From(steps, responses) && OneItemEach(steps) && Exec(Init(row, passes, countsMatched), steps).Some?
        ensures Exec(Init(row, passes, countsMatched), steps).value.refunds <= 1
      {
        RefundedAtMostOnce(row, passes, countsMatched, steps);
      }
    } else {
      var r :| r in responses && !Honest(r);
      if r.status == FAILURE {
        var row, steps := FailureWithoutReason(r, countsMatched);
        assert From(steps, responses);
      } else {
        var row, steps := ReasonWithoutFailure(r, countsMatched);
        assert From(steps, responses);
      }
    }
  }

  /** One item for each pass is needed as well: every honest report of an unfinished failure, listed twice in one
      response, lets a pass that lost the update win the next one. */
  lemma RepeatedItemRefundsTwice(r: Response, countsMatched: bool) returns (row: Task, steps: seq<Step>)
    requires Honest(r) && r.progress != COMPLETE && r.failReason != ""
    ensures GoodRow(row) && HonestResponses(steps) && !OneItemEach(steps)
    ensures Exec(Init(row, 2, countsMatched), steps).Some? && Exec(Init(row, 2, countsMatched), steps).value.refunds == 2
  {
    hide Exec;
    row := Task(0, "", "", "", "", "", 1);
    var start := Init(row, 2, countsMatched);
    var a, b := Handle(0, r, false, true), Handle(1, r, false, true);
    var s2 := TwoLoads(row, countsMatched);
    var loads := [Load(0), Load(1)];
    Extend(start, loads, s2, a);
    var s3 := Apply(s2, a);
    Extend(start, loads + [a], s3, Refund(0, true, true));
    var s4 := Apply(s3, Refund(0, true, true));
    Extend(start, loads + [a] + [Refund(0, true, true)], s4, b);
    var s5 := Apply(s4, b);
    steps := loads + [a] + [Refund(0, true, true)] + [b];
    Extend(start, steps, s5, b);
    var s6 := Apply(s5, b);
    Extend(start, steps + [b], s6, Refund(1, true, true));
    steps := steps + [b] + [Refund(1, true, true)];
    assert steps[4] == steps[5] == b;
  }
}
