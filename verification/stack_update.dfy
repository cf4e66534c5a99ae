/**
  `Stack.update_task` (update, rollback, restore) and `Stack.restore`.

  An update copies the stack as it was (`oldstack`), takes the new
  template's files and environment, `disable_rollback` and `timeout_mins`
  from `newstack` before running, and on success flips the template to
  `newstack`'s and deletes the backup stack. An UPDATE that is cancelled,
  or hit by a resource failure while rollback is enabled, re-runs itself as
  ROLLBACK against `oldstack`; a ROLLBACK or RESTORE never does. The run
  rewrites the live template's definitions as it goes, so a pass that does
  not complete leaves whatever its run left (`Pass.leftover`).
 */
module StackUpdate {
  import opened Wrappers
  import opened StackTypes
  import opened StackName
  import opened StackInit

  /**
    The resource definitions a `StackUpdate` run leaves in the live
    template. The run edits the template in place as it adds and removes
    resources (`add_resource`, `remove_resource`), so a run that does not
    complete leaves it partly rewritten.
   */
  datatype Residue = Residue(body: string, order: seq<string>)

  /**
    What the collaborators of one pass of `update_task` do: pre-ops, the
    `StackUpdate` run and the definitions it leaves in the live template,
    and what `backup_stack.delete(backup=True)` raises after a successful
    run, if anything (that deletion is `StackDelete.Delete` on the backup
    stack, whose own outcome is taken as given here).
   */
  datatype Pass = Pass(preOps: PreOps, run: RunOutcome, leftover: Residue, backupDeletion: Option<Error>)

  /** The live template `t` once a run has rewritten its definitions to `res`: files and environment are kept. */
  function Leftover(t: Template, res: Residue): Template {
    t.(body := res.body, order := res.order)
  }

  /** The stack once its `StackUpdate` run is over, before the template is flipped to the new one. */
  function AfterRun(s2: Stack, pass: Pass): Stack {
    s2.(template := Leftover(s2.template, pass.leftover))
  }

  /** The outcomes of the first pass and, should it roll back, of the rollback pass. */
  datatype UpdateEnv = UpdateEnv(pass: Pass, rollbackPass: Pass)

  /** The environment the rollback pass sees: its own outcomes, and no further rollback. */
  function RollbackEnv(env: UpdateEnv): UpdateEnv {
    UpdateEnv(env.rollbackPass, env.rollbackPass)
  }

  /** The actions `update_task` accepts. */
  predicate UpdateAction(a: Action) {
    a == UPDATE || a == ROLLBACK || a == RESTORE
  }

  /** The reason recorded on success, per action. */
  function SuccessReason(a: Action): string {
    if a == UPDATE then "Stack successfully updated"
    else if a == RESTORE then "Stack successfully restored"
    else "Stack rollback completed"
  }

  /**
    `oldstack`: the pre-update copy built from `get_kwargs_for_cloning()`
    and the stack's current template. Construction validates the name of a
    stack without an owner and raises if it is invalid.
   */
  function OldStack(s: Stack): (r: Result<Stack, Error>)
    ensures r.Success? <==> s.ownerId.Some? || ValidStackName(s.name)
    ensures r.Success? ==>
      && r.value.template == s.template && r.value.ownerId == s.ownerId
      && r.value.disableRollback == s.disableRollback && r.value.timeoutMins == s.timeoutMins
  {
    Init(s.context, s.name, s.template, ArgsFromKwargs(GetKwargsForCloning(s, false, false)))
  }

  /** The fields taken from `newstack` before the run: template files and environment, `disable_rollback`, `timeout_mins`. */
  function TakeNewSettings(s: Stack, newstack: Stack): (r: Stack)
    ensures r.template.body == s.template.body && r.template.order == s.template.order
    ensures r.template.files == newstack.template.files && r.template.env == newstack.template.env
    ensures r.disableRollback == newstack.disableRollback && r.timeoutMins == newstack.timeoutMins
    ensures State(r) == State(s) && r.statusReason == s.statusReason && r.id == s.id
  {
    s.(template := s.template.(files := newstack.template.files, env := newstack.template.env),
       disableRollback := newstack.disableRollback,
       timeoutMins := newstack.timeoutMins)
  }

  /**
    The end of a pass that did not recurse or raise: the state is written
    directly and stored (not through `state_set`), then the post-ops hook
    runs.
   */
  function FinishPass(s: Stack, action: Action, status: Status, reason: string, t: seq<Event>): (r: Step)
    requires status != IN_PROGRESS
    ensures r.error.None? && State(r.stack) == (action, status) && r.stack.statusReason == reason
    ensures r.stack.template == s.template && r.stack.id == s.id
    ensures r.trace == t + [Stored(action, status, reason), PostOps(action, status == FAILED)]
  {
    Step(s.(action := action, status := status, statusReason := reason),
         t + [Stored(action, status, reason), PostOps(action, status == FAILED)], None)
  }

  /**
    `update_task(newstack, action)`. Rejects an action other than UPDATE,
    ROLLBACK and RESTORE; records a pre-ops failure; refuses a stack still
    IN_PROGRESS unless rolling back; otherwise records IN_PROGRESS and runs.
   */
  function UpdateTask(s: Stack, newstack: Stack, action: Action, env: UpdateEnv, cfg: Config): (r: Step)
    decreases if action == UPDATE then 1 else 0, 1
    ensures r.error.Some? <==> r.stack.status == IN_PROGRESS
    ensures |r.trace| > 0 && r.trace[0].StateSet? && r.trace[0].action == (if UpdateAction(action) then action else UPDATE)
  {
    if !UpdateAction(action) then Record(s, UPDATE, FAILED, "Invalid action " + ActionName(action))
    else if env.pass.preOps.PreOpsFailed? then Record(s, action, FAILED, PreOpsReason(env.pass.preOps))
    else if s.status == IN_PROGRESS && action != ROLLBACK then Record(s, action, FAILED, "State invalid for " + ActionName(action))
    else
      var s1 := SetState(s, action, IN_PROGRESS, StartedReason(action));
      var t1 := [StateSetOn(s, action, IN_PROGRESS, StartedReason(action))];
      if action == UPDATE then
        match OldStack(s1)
        case Failure(e) => Step(s1, t1, Some(e))
        case Success(oldstack) =>
          var u := UpdateRun(s1, newstack, action, Some(oldstack), env, cfg);
          Step(u.stack, t1 + u.trace, u.error)
      else
        var u := UpdateRun(s1, newstack, action, None, env, cfg);
        Step(u.stack, t1 + u.trace, u.error)
  }

  /**
    The checks of `update_task`, each recorded by one `state_set` call and
    nothing else: an unexpected action is recorded as (UPDATE, FAILED), a
    pre-ops failure with the hook's message, and a stack still IN_PROGRESS
    is refused for anything but ROLLBACK.
   */
  lemma UpdateGuards(s: Stack, newstack: Stack, action: Action, env: UpdateEnv, cfg: Config)
    ensures var r := UpdateTask(s, newstack, action, env, cfg);
      && (!UpdateAction(action) ==> r == Record(s, UPDATE, FAILED, "Invalid action " + ActionName(action)))
      && (UpdateAction(action) && env.pass.preOps.PreOpsFailed? ==> r == Record(s, action, FAILED, PreOpsReason(env.pass.preOps)))
      && (UpdateAction(action) && env.pass.preOps.PreOpsOk? && s.status == IN_PROGRESS && action != ROLLBACK ==>
            r == Record(s, action, FAILED, "State invalid for " + ActionName(action)))
  {
  }

  /**
    The run of one pass, from taking `newstack`'s settings to the stored
    outcome. Returns only its own effects: the `StackUpdate` run, then
    either the whole ROLLBACK task against `oldstack` (after cancelling the
    run's remaining work when it was cancelled) or the pass's own outcome.
   */
  function UpdateRun(s1: Stack, newstack: Stack, action: Action, oldstack: Option<Stack>, env: UpdateEnv, cfg: Config): (r: Step)
    requires UpdateAction(action) && s1.status == IN_PROGRESS
    requires oldstack.Some? <==> action == UPDATE
    decreases if action == UPDATE then 1 else 0, 0
    ensures r.error.Some? <==> r.stack.status == IN_PROGRESS
    ensures |r.trace| > 0 && r.trace[0] == RunUpdate(action, action == ROLLBACK, TimeoutSecs(TakeNewSettings(s1, newstack), cfg))
  {
    var s2 := TakeNewSettings(s1, newstack);
    var t2 := [RunUpdate(action, action == ROLLBACK, TimeoutSecs(s2, cfg))];
    if Recurses(action, env.pass.run, newstack) then
      var rb := UpdateTask(AfterRun(s2, env.pass), oldstack.value, ROLLBACK, RollbackEnv(env), cfg);
      Step(rb.stack, t2 + (CancelRemaining(env.pass.run) + rb.trace), rb.error)
    else
      var p := PassResult(s2, newstack.template, action, env.pass, cfg);
      Step(p.stack, t2 + p.trace, p.error)
  }

  /**
    The outcome of a pass that does not roll back, after its run: on
    success the backup stack is deleted and the template becomes the new
    one; a timeout, a cancellation or a resource failure is stored as
    FAILED with its message; any other exception propagates. The pass
    completes exactly when the run succeeded, deletes the backup exactly
    then, and otherwise leaves the template as the run rewrote it.
   */
  function PassResult(s2: Stack, newTemplate: Template, action: Action, pass: Pass, cfg: Config): (r: Step)
    requires s2.status == IN_PROGRESS
    ensures r.error.Some? <==> r.stack.status == IN_PROGRESS
    ensures r.error.None? ==> r.stack.action == action && (r.stack.status == COMPLETE <==> pass.run.Ok?)
    ensures r.error.None? ==> (BackupDeleted in r.trace <==> r.stack.status == COMPLETE)
    ensures r.stack.status == COMPLETE ==> r.stack.template == newTemplate && r.stack.statusReason == SuccessReason(action)
    ensures r.stack.status != COMPLETE ==> r.stack.template == Leftover(s2.template, pass.leftover)
    ensures r.stack.disableRollback == s2.disableRollback && r.stack.timeoutMins == s2.timeoutMins
    ensures forall e | e in r.trace :: !e.StateSet? && !e.CancelAll? && !e.RunUpdate?
    ensures forall e | e in r.trace && (e.Stored? || e.PostOps?) :: e.action == action
  {
    var s3 := AfterRun(s2, pass);
    match pass.run
    case Ok =>
      var e := pass.backupDeletion;
      if e.Some? then Step(s3, [], e)
      else FinishPass(s2.(template := newTemplate), action, COMPLETE, SuccessReason(action), [BackupDeleted])
    case Timeout => FinishPass(s3, action, FAILED, "Timed out", [])
    case ForcedCancel => FinishPass(s3, action, FAILED, CancelledMessage, [])
    case ResourceFailure(m) => FinishPass(s3, action, FAILED, m, [])
    case OtherError(m) => Step(s3, [], Some(Raised(m)))
  }

  /** A snapshot as `restore` reads it: the stack it belongs to and the template it holds. */
  datatype SnapshotData = SnapshotData(stackId: Option<nat>, templateBody: string, order: seq<string>)

  /** The message `restore` records for a snapshot of another stack. */
  const OtherStackSnapshot: string := "Can't restore snapshot from other stack"

  /**
    `restore(snapshot)`: a snapshot of another stack is refused with
    (RESTORE, FAILED). Otherwise a new stack is built from the snapshot's
    template with the stack's environment, timeout and `disable_rollback`,
    and `update_task` runs with RESTORE.
   */
  function Restore(s: Stack, snap: SnapshotData, env: UpdateEnv, cfg: Config): (r: Step)
    ensures snap.stackId != s.id ==> r == Record(s, RESTORE, FAILED, OtherStackSnapshot)
    ensures snap.stackId == s.id && !ValidStackName(s.name) ==> r == Step(s, [], Some(ValidationFailed(InvalidNameMessage(s.name))))
    ensures r.error.None? ==> r.stack.status != IN_PROGRESS
  {
    if snap.stackId != s.id then Record(s, RESTORE, FAILED, OtherStackSnapshot)
    else
      var t := Template(snap.templateBody, "", s.template.env, snap.order);
      match Init(s.context, s.name, t, DefaultArgs.(timeoutMins := s.timeoutMins, disableRollback := s.disableRollback))
      case Failure(e) => Step(s, [], Some(e))
      case Success(newstack) => UpdateTask(s, newstack, RESTORE, env, cfg)
  }

  /** Whether a pass with this action and run outcome re-runs as ROLLBACK against `oldstack`. */
  predicate Recurses(action: Action, run: RunOutcome, newstack: Stack) {
    action == UPDATE && (run.ForcedCancel? || (run.ResourceFailure? && !newstack.disableRollback))
  }

  /**
    A ROLLBACK or RESTORE never recurses: its trace holds at most one
    `StackUpdate` run, right after the IN_PROGRESS record, no cancellation
    of a previous run, and every recorded state under its own action.
   */
  lemma RollbackAndRestoreRunOnce(s: Stack, newstack: Stack, action: Action, env: UpdateEnv, cfg: Config)
    requires action == ROLLBACK || action == RESTORE
    ensures var r := UpdateTask(s, newstack, action, env, cfg);
      && (forall i | 0 <= i < |r.trace| && r.trace[i].RunUpdate? :: i == 1)
      && (forall e | e in r.trace && (e.StateSet? || e.Stored? || e.RunUpdate? || e.PostOps?) :: e.action == action)
      && CancelAll !in r.trace
  {
    if Refused(s, action, env) {
      RefusedKeepsStack(s, newstack, action, env, cfg);
    } else {
      SinglePassTrace(s, newstack, action, env, cfg);
    }
  }

  /** `RollbackAndRestoreRunOnce` for a pass past its checks. */
  lemma SinglePassTrace(s: Stack, newstack: Stack, action: Action, env: UpdateEnv, cfg: Config)
    requires action == ROLLBACK || action == RESTORE
    requires env.pass.preOps.PreOpsOk? && !(s.status == IN_PROGRESS && action != ROLLBACK)
    ensures var r := UpdateTask(s, newstack, action, env, cfg);
      && (forall i | 0 <= i < |r.trace| && r.trace[i].RunUpdate? :: i == 1)
      && (forall e | e in r.trace && (e.StateSet? || e.Stored? || e.RunUpdate? || e.PostOps?) :: e.action == action)
      && CancelAll !in r.trace
  {
    SinglePass(s, newstack, action, env, cfg);
  }

  /**
    What a ROLLBACK or RESTORE leaves: its own action when nothing was
    raised, the backup stack deleted exactly when it completed, `newstack`'s
    template and the success reason when it completed. When it does not
    complete, the template is the stack's own if it stopped before its run,
    and otherwise what the run left of it, with `newstack`'s files and
    environment.
   */
  lemma RollbackAndRestoreOutcome(s: Stack, newstack: Stack, action: Action, env: UpdateEnv, cfg: Config)
    requires action == ROLLBACK || action == RESTORE
    ensures var r := UpdateTask(s, newstack, action, env, cfg);
      && (r.error.None? ==> r.stack.action == action)
      && (r.error.None? ==> (BackupDeleted in r.trace <==> r.stack.status == COMPLETE))
      && (r.stack.status == COMPLETE ==> r.stack.template == newstack.template && r.stack.statusReason == SuccessReason(action))
      && (Refused(s, action, env) ==> r.stack.template == s.template)
      && (!Refused(s, action, env) && r.stack.status != COMPLETE ==> r.stack.template == Leftover(newstack.template, env.pass.leftover))
  {
    if Refused(s, action, env) {
      RefusedKeepsStack(s, newstack, action, env, cfg);
    } else {
      SinglePassOutcome(s, newstack, action, env, cfg);
    }
  }

  /** `RollbackAndRestoreOutcome` for a pass past its checks. */
  lemma SinglePassOutcome(s: Stack, newstack: Stack, action: Action, env: UpdateEnv, cfg: Config)
    requires action == ROLLBACK || action == RESTORE
    requires env.pass.preOps.PreOpsOk? && !(s.status == IN_PROGRESS && action != ROLLBACK)
    ensures var r := UpdateTask(s, newstack, action, env, cfg);
      && (r.error.None? ==> r.stack.action == action)
      && (r.error.None? ==> (BackupDeleted in r.trace <==> r.stack.status == COMPLETE))
      && (r.stack.status == COMPLETE ==> r.stack.template == newstack.template && r.stack.statusReason == SuccessReason(action))
      && (r.stack.status != COMPLETE ==> r.stack.template == Leftover(newstack.template, env.pass.leftover))
  {
    SinglePass(s, newstack, action, env, cfg);
    assert BackupDeleted !in PassHead(s, newstack, action, cfg);
  }

  /** `CancelAll` when the run was cancelled: the remaining work of the run is cancelled before rolling back. */
  function CancelRemaining(run: RunOutcome): seq<Event> {
    if run.ForcedCancel? then [CancelAll] else []
  }

  lemma ConsTwo(a: Event, b: Event, t: seq<Event>)
    ensures [a] + ([b] + t) == [a, b] + t
  {
  }

  /** The stack a pass past its checks runs on: IN_PROGRESS under its action, with `newstack`'s settings taken. */
  function PassingStack(s: Stack, newstack: Stack, action: Action): Stack {
    TakeNewSettings(SetState(s, action, IN_PROGRESS, StartedReason(action)), newstack)
  }

  /** The first two effects of a pass past its checks: the IN_PROGRESS record and the `StackUpdate` run. */
  function PassHead(s: Stack, newstack: Stack, action: Action, cfg: Config): seq<Event> {
    [StateSetOn(s, action, IN_PROGRESS, StartedReason(action)),
     RunUpdate(action, action == ROLLBACK, TimeoutSecs(PassingStack(s, newstack, action), cfg))]
  }

  /** A ROLLBACK or RESTORE past its checks records IN_PROGRESS, then runs one pass. */
  lemma SinglePassStart(s: Stack, newstack: Stack, action: Action, env: UpdateEnv, cfg: Config)
    requires action == ROLLBACK || action == RESTORE
    requires env.pass.preOps.PreOpsOk? && !(s.status == IN_PROGRESS && action != ROLLBACK)
    ensures var u := UpdateRun(SetState(s, action, IN_PROGRESS, StartedReason(action)), newstack, action, None, env, cfg);
      UpdateTask(s, newstack, action, env, cfg) == Step(u.stack, [PassHead(s, newstack, action, cfg)[0]] + u.trace, u.error)
  {
  }

  /** An UPDATE past its checks records IN_PROGRESS, copies the stack, then runs one pass. */
  lemma UpdateStart(s: Stack, newstack: Stack, env: UpdateEnv, cfg: Config)
    requires env.pass.preOps.PreOpsOk? && s.status != IN_PROGRESS
    requires s.ownerId.Some? || ValidStackName(s.name)
    ensures var s1 := SetState(s, UPDATE, IN_PROGRESS, StartedReason(UPDATE));
      var u := UpdateRun(s1, newstack, UPDATE, Some(OldStack(s1).value), env, cfg);
      UpdateTask(s, newstack, UPDATE, env, cfg) == Step(u.stack, [PassHead(s, newstack, UPDATE, cfg)[0]] + u.trace, u.error)
  {
  }

  /** A pass that does not roll back is its `StackUpdate` run followed by its own outcome. */
  lemma RunWithoutRollback(s1: Stack, newstack: Stack, action: Action, oldstack: Option<Stack>, env: UpdateEnv, cfg: Config)
    requires UpdateAction(action) && s1.status == IN_PROGRESS
    requires oldstack.Some? <==> action == UPDATE
    requires !Recurses(action, env.pass.run, newstack)
    ensures var s2 := TakeNewSettings(s1, newstack);
      var p := PassResult(s2, newstack.template, action, env.pass, cfg);
      UpdateRun(s1, newstack, action, oldstack, env, cfg) ==
        Step(p.stack, [RunUpdate(action, action == ROLLBACK, TimeoutSecs(s2, cfg))] + p.trace, p.error)
  {
  }

  /** A pass that rolls back is its `StackUpdate` run, a cancellation if it was cancelled, then the ROLLBACK task. */
  lemma RunWithRollback(s1: Stack, newstack: Stack, oldstack: Stack, env: UpdateEnv, cfg: Config)
    requires s1.status == IN_PROGRESS
    requires Recurses(UPDATE, env.pass.run, newstack)
    ensures var s2 := TakeNewSettings(s1, newstack);
      var rb := UpdateTask(AfterRun(s2, env.pass), oldstack, ROLLBACK, RollbackEnv(env), cfg);
      UpdateRun(s1, newstack, UPDATE, Some(oldstack), env, cfg) ==
        Step(rb.stack, [RunUpdate(UPDATE, false, TimeoutSecs(s2, cfg))] + (CancelRemaining(env.pass.run) + rb.trace), rb.error)
  {
  }

  /** A ROLLBACK or RESTORE past its checks is its head followed by the pass's own outcome. */
  lemma SinglePass(s: Stack, newstack: Stack, action: Action, env: UpdateEnv, cfg: Config)
    requires action == ROLLBACK || action == RESTORE
    requires env.pass.preOps.PreOpsOk? && !(s.status == IN_PROGRESS && action != ROLLBACK)
    ensures var p := PassResult(PassingStack(s, newstack, action), newstack.template, action, env.pass, cfg);
      UpdateTask(s, newstack, action, env, cfg) == Step(p.stack, PassHead(s, newstack, action, cfg) + p.trace, p.error)
  {
    var head := PassHead(s, newstack, action, cfg);
    SinglePassStart(s, newstack, action, env, cfg);
    RunWithoutRollback(SetState(s, action, IN_PROGRESS, StartedReason(action)), newstack, action, None, env, cfg);
    var p := PassResult(PassingStack(s, newstack, action), newstack.template, action, env.pass, cfg);
    ConsTwo(head[0], head[1], p.trace);
  }

  /** An UPDATE past its checks that does not roll back is its head followed by the pass's own outcome. */
  lemma UpdateWithoutRollback(s: Stack, newstack: Stack, env: UpdateEnv, cfg: Config)
    requires env.pass.preOps.PreOpsOk? && s.status != IN_PROGRESS
    requires s.ownerId.Some? || ValidStackName(s.name)
    requires !Recurses(UPDATE, env.pass.run, newstack)
    ensures var p := PassResult(PassingStack(s, newstack, UPDATE), newstack.template, UPDATE, env.pass, cfg);
      UpdateTask(s, newstack, UPDATE, env, cfg) == Step(p.stack, PassHead(s, newstack, UPDATE, cfg) + p.trace, p.error)
  {
    var head := PassHead(s, newstack, UPDATE, cfg);
    var s1 := SetState(s, UPDATE, IN_PROGRESS, StartedReason(UPDATE));
    var oldstack := OldStack(s1).value;
    UpdateStart(s, newstack, env, cfg);
    RunWithoutRollback(s1, newstack, UPDATE, Some(oldstack), env, cfg);
    var p := PassResult(PassingStack(s, newstack, UPDATE), newstack.template, UPDATE, env.pass, cfg);
    ConsTwo(head[0], head[1], p.trace);
  }

  /**
    An UPDATE past its checks that rolls back is its head, a cancellation
    if it was cancelled, then the whole ROLLBACK task against the copy of
    the stack taken before the update.
   */
  lemma UpdateWithRollback(s: Stack, newstack: Stack, env: UpdateEnv, cfg: Config)
    requires env.pass.preOps.PreOpsOk? && s.status != IN_PROGRESS
    requires s.ownerId.Some? || ValidStackName(s.name)
    requires Recurses(UPDATE, env.pass.run, newstack)
    ensures var oldstack := OldStack(SetState(s, UPDATE, IN_PROGRESS, StartedReason(UPDATE))).value;
      var rb := UpdateTask(AfterRun(PassingStack(s, newstack, UPDATE), env.pass), oldstack, ROLLBACK, RollbackEnv(env), cfg);
      UpdateTask(s, newstack, UPDATE, env, cfg) ==
        Step(rb.stack, PassHead(s, newstack, UPDATE, cfg) + (CancelRemaining(env.pass.run) + rb.trace), rb.error)
  {
    var head := PassHead(s, newstack, UPDATE, cfg);
    var s1 := SetState(s, UPDATE, IN_PROGRESS, StartedReason(UPDATE));
    var oldstack := OldStack(s1).value;
    UpdateStart(s, newstack, env, cfg);
    RunWithRollback(s1, newstack, oldstack, env, cfg);
    var rb := UpdateTask(AfterRun(PassingStack(s, newstack, UPDATE), env.pass), oldstack, ROLLBACK, RollbackEnv(env), cfg);
    ConsTwo(head[0], head[1], CancelRemaining(env.pass.run) + rb.trace);
  }

  /**
    An UPDATE that gets past its checks rolls back (some state is recorded
    under ROLLBACK) exactly when its run was cancelled, or hit a resource
    failure while the new stack leaves rollback enabled.
   */
  lemma UpdateRollsBackIff(s: Stack, newstack: Stack, env: UpdateEnv, cfg: Config)
    requires env.pass.preOps.PreOpsOk? && s.status != IN_PROGRESS
    requires s.ownerId.Some? || ValidStackName(s.name)
    ensures RolledBack(UpdateTask(s, newstack, UPDATE, env, cfg).trace) <==>
      env.pass.run.ForcedCancel? || (env.pass.run.ResourceFailure? && !newstack.disableRollback)
  {
    var r := UpdateTask(s, newstack, UPDATE, env, cfg);
    var head := PassHead(s, newstack, UPDATE, cfg);
    if Recurses(UPDATE, env.pass.run, newstack) {
      UpdateWithRollback(s, newstack, env, cfg);
      var oldstack := OldStack(SetState(s, UPDATE, IN_PROGRESS, StartedReason(UPDATE))).value;
      var rb := UpdateTask(AfterRun(PassingStack(s, newstack, UPDATE), env.pass), oldstack, ROLLBACK, RollbackEnv(env), cfg);
      assert rb.trace[0] in r.trace;
    } else {
      UpdateWithoutRollback(s, newstack, env, cfg);
      var p := PassResult(PassingStack(s, newstack, UPDATE), newstack.template, UPDATE, env.pass, cfg);
      forall e | e in r.trace
        ensures !(e.StateSet? && e.action == ROLLBACK)
      {
        if e !in head {
          assert e in p.trace;
        }
      }
    }
  }


  /**
    When an UPDATE rolls back and the rollback gets past its pre-operation
    checks, the rollback runs under the original stack's timeout and puts
    the original `disable_rollback` and `timeout_mins` back, under the
    action ROLLBACK; it completes, with "Stack rollback completed", exactly
    when its own run succeeded. A completed rollback restores the original
    template; one that does not complete leaves what its own run left of
    the original template.
   */
  lemma UpdateRollbackRestores(s: Stack, newstack: Stack, env: UpdateEnv, cfg: Config)
    requires env.pass.preOps.PreOpsOk? && s.status != IN_PROGRESS
    requires s.ownerId.Some? || ValidStackName(s.name)
    requires env.pass.run.ForcedCancel? || (env.pass.run.ResourceFailure? && !newstack.disableRollback)
    requires env.rollbackPass.preOps.PreOpsOk?
    ensures var r := UpdateTask(s, newstack, UPDATE, env, cfg);
      && RunUpdate(ROLLBACK, true, TimeoutSecs(s, cfg)) in r.trace
      && (r.error.None? ==> r.stack.action == ROLLBACK)
      && (r.stack.status == COMPLETE ==> r.stack.template == s.template)
      && (r.stack.status != COMPLETE ==> r.stack.template == Leftover(s.template, env.rollbackPass.leftover))
      && (r.error.None? ==> r.stack.disableRollback == s.disableRollback && r.stack.timeoutMins == s.timeoutMins)
      && (r.error.None? ==> (r.stack.status == COMPLETE <==> env.rollbackPass.run.Ok?))
      && (r.stack.status == COMPLETE ==> r.stack.statusReason == SuccessReason(ROLLBACK))
  {
    UpdateWithRollback(s, newstack, env, cfg);
    var oldstack := OldStack(SetState(s, UPDATE, IN_PROGRESS, StartedReason(UPDATE))).value;
    var s3 := AfterRun(PassingStack(s, newstack, UPDATE), env.pass);
    RollbackPassOutcome(s3, oldstack, env, cfg);
    assert TimeoutSecs(PassingStack(s3, oldstack, ROLLBACK), cfg) == TimeoutSecs(s, cfg);
  }

  /** `UpdateRollbackRestores` for the ROLLBACK task itself, on any stack `t`, back to `o`. */
  lemma RollbackPassOutcome(t: Stack, o: Stack, env: UpdateEnv, cfg: Config)
    requires env.rollbackPass.preOps.PreOpsOk?
    ensures var rb := UpdateTask(t, o, ROLLBACK, RollbackEnv(env), cfg);
      && RunUpdate(ROLLBACK, true, TimeoutSecs(PassingStack(t, o, ROLLBACK), cfg)) in rb.trace
      && (rb.error.None? ==> rb.stack.action == ROLLBACK)
      && (rb.stack.status == COMPLETE ==> rb.stack.template == o.template && rb.stack.statusReason == SuccessReason(ROLLBACK))
      && (rb.stack.status != COMPLETE ==> rb.stack.template == Leftover(o.template, env.rollbackPass.leftover))
      && (rb.error.None? ==> rb.stack.disableRollback == o.disableRollback && rb.stack.timeoutMins == o.timeoutMins)
      && (rb.error.None? ==> (rb.stack.status == COMPLETE <==> env.rollbackPass.run.Ok?))
  {
    SinglePass(t, o, ROLLBACK, RollbackEnv(env), cfg);
    assert PassHead(t, o, ROLLBACK, cfg)[1] in UpdateTask(t, o, ROLLBACK, RollbackEnv(env), cfg).trace;
  }


  /**
    The template becomes the new one only with success. A completed task
    carries the new template, or after an UPDATE that rolled back the
    stack's own; one that does not complete carries what `LeftBehind` says
    its runs left. The backup stack is deleted exactly when the task
    completed.
   */
  lemma UpdateTemplateOnlyOnSuccess(s: Stack, newstack: Stack, action: Action, env: UpdateEnv, cfg: Config)
    ensures var r := UpdateTask(s, newstack, action, env, cfg);
      && (r.error.None? ==> (BackupDeleted in r.trace <==> r.stack.status == COMPLETE))
      && (r.stack.status != COMPLETE ==> r.stack.template == LeftBehind(s, newstack, action, env))
      && (r.stack.status == COMPLETE ==>
            r.stack.template == (if action == UPDATE && r.stack.action == ROLLBACK then s.template else newstack.template))
  {
    if action == ROLLBACK || action == RESTORE {
      RollbackAndRestoreOutcome(s, newstack, action, env, cfg);
    } else if !Refused(s, action, env) {
      UpdatePassTemplate(s, newstack, env, cfg);
    } else {
      RefusedKeepsStack(s, newstack, action, env, cfg);
    }
  }

  /**
    Whether `update_task` stops before its run: an unexpected action, a
    pre-ops failure, a stack still IN_PROGRESS when not rolling back, or
    an UPDATE whose copy of the stack cannot be built.
   */
  predicate Refused(s: Stack, action: Action, env: UpdateEnv) {
    || !UpdateAction(action)
    || env.pass.preOps.PreOpsFailed?
    || (s.status == IN_PROGRESS && action != ROLLBACK)
    || (action == UPDATE && s.ownerId.None? && !ValidStackName(s.name))
  }

  /**
    The template a task that does not complete leaves: the stack's own if
    it stopped before its run; after an UPDATE that rolled back past the
    rollback's checks, what the rollback run left of the stack's own
    template; otherwise what the task's run left, with `newstack`'s files
    and environment.
   */
  function LeftBehind(s: Stack, newstack: Stack, action: Action, env: UpdateEnv): Template {
    if Refused(s, action, env) then s.template
    else if action == UPDATE && Recurses(UPDATE, env.pass.run, newstack) && env.rollbackPass.preOps.PreOpsOk? then
      Leftover(s.template, env.rollbackPass.leftover)
    else Leftover(newstack.template, env.pass.leftover)
  }

  /** A task that stops before its run neither completes, nor deletes the backup stack, nor touches the template. */
  lemma RefusedKeepsStack(s: Stack, newstack: Stack, action: Action, env: UpdateEnv, cfg: Config)
    requires Refused(s, action, env)
    ensures var r := UpdateTask(s, newstack, action, env, cfg);
      && r.stack.template == s.template && r.stack.status != COMPLETE && BackupDeleted !in r.trace
      && (UpdateAction(action) && r.error.None? ==> r.stack.action == action)
      && CancelAll !in r.trace && (forall e | e in r.trace :: e.StateSet? && e.action == (if UpdateAction(action) then action else UPDATE))
  {
    UpdateGuards(s, newstack, action, env, cfg);
  }

  /** `UpdateTemplateOnlyOnSuccess` for an UPDATE that got past its checks and copied the stack. */
  lemma UpdatePassTemplate(s: Stack, newstack: Stack, env: UpdateEnv, cfg: Config)
    requires env.pass.preOps.PreOpsOk? && s.status != IN_PROGRESS
    requires s.ownerId.Some? || ValidStackName(s.name)
    ensures var r := UpdateTask(s, newstack, UPDATE, env, cfg);
      && (r.error.None? ==> (BackupDeleted in r.trace <==> r.stack.status == COMPLETE))
      && (r.stack.status != COMPLETE ==>
            r.stack.template ==
              if Recurses(UPDATE, env.pass.run, newstack) && env.rollbackPass.preOps.PreOpsOk? then Leftover(s.template, env.rollbackPass.leftover)
              else Leftover(newstack.template, env.pass.leftover))
      && (r.stack.status == COMPLETE ==>
            r.stack.template == (if r.stack.action == ROLLBACK then s.template else newstack.template))
  {
    if Recurses(UPDATE, env.pass.run, newstack) {
      UpdateRollbackTemplate(s, newstack, env, cfg);
    } else {
      UpdateWithoutRollback(s, newstack, env, cfg);
      assert BackupDeleted !in PassHead(s, newstack, UPDATE, cfg);
    }
  }

  /**
    `UpdatePassTemplate` for an UPDATE that rolls back: a completed
    rollback restores the stack's own template; otherwise the template is
    what the rollback run left of it, or what the UPDATE run left when the
    rollback stopped at its pre-operation checks.
   */
  lemma UpdateRollbackTemplate(s: Stack, newstack: Stack, env: UpdateEnv, cfg: Config)
    requires env.pass.preOps.PreOpsOk? && s.status != IN_PROGRESS
    requires s.ownerId.Some? || ValidStackName(s.name)
    requires Recurses(UPDATE, env.pass.run, newstack)
    ensures var r := UpdateTask(s, newstack, UPDATE, env, cfg);
      && (r.error.None? ==> (BackupDeleted in r.trace <==> r.stack.status == COMPLETE))
      && (r.stack.status != COMPLETE ==>
            r.stack.template ==
              if env.rollbackPass.preOps.PreOpsOk? then Leftover(s.template, env.rollbackPass.leftover)
              else Leftover(newstack.template, env.pass.leftover))
      && (r.stack.status == COMPLETE ==> r.stack.action == ROLLBACK && r.stack.template == s.template)
  {
    UpdateWithRollback(s, newstack, env, cfg);
    var oldstack := OldStack(SetState(s, UPDATE, IN_PROGRESS, StartedReason(UPDATE))).value;
    RollbackAndRestoreOutcome(AfterRun(PassingStack(s, newstack, UPDATE), env.pass), oldstack, ROLLBACK, RollbackEnv(env), cfg);
    assert BackupDeleted !in PassHead(s, newstack, UPDATE, cfg) && BackupDeleted !in CancelRemaining(env.pass.run);
  }


  /**
    Restoring a snapshot of the stack itself runs a single RESTORE pass
    under the stack's own timeout, records every state under RESTORE, and
    completes exactly when the run succeeded, leaving the snapshot's
    template body and resources with the stack's environment and no files.
   */
  lemma RestoreFromSnapshot(s: Stack, snap: SnapshotData, env: UpdateEnv, cfg: Config)
    requires snap.stackId == s.id && ValidStackName(s.name)
    ensures var r := Restore(s, snap, env, cfg);
      && (forall e | e in r.trace && (e.StateSet? || e.Stored? || e.RunUpdate? || e.PostOps?) :: e.action == RESTORE)
      && (r.stack.status == COMPLETE ==>
            r.stack.template == Template(snap.templateBody, "", s.template.env, snap.order)
            && r.stack.statusReason == SuccessReason(RESTORE))
      && (env.pass.preOps.PreOpsOk? && s.status != IN_PROGRESS ==> RunUpdate(RESTORE, false, TimeoutSecs(s, cfg)) in r.trace)
      && (env.pass.preOps.PreOpsOk? && s.status != IN_PROGRESS && r.error.None? ==> (r.stack.status == COMPLETE <==> env.pass.run.Ok?))
  {
    var t := Template(snap.templateBody, "", s.template.env, snap.order);
    var newstack := Init(s.context, s.name, t, DefaultArgs.(timeoutMins := s.timeoutMins, disableRollback := s.disableRollback)).value;
    assert Restore(s, snap, env, cfg) == UpdateTask(s, newstack, RESTORE, env, cfg);
    RollbackAndRestoreRunOnce(s, newstack, RESTORE, env, cfg);
    RollbackAndRestoreOutcome(s, newstack, RESTORE, env, cfg);
    if env.pass.preOps.PreOpsOk? && s.status != IN_PROGRESS {
      SinglePass(s, newstack, RESTORE, env, cfg);
      assert PassHead(s, newstack, RESTORE, cfg)[1] in UpdateTask(s, newstack, RESTORE, env, cfg).trace;
    }
  }

}
