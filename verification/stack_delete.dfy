/**
  `Stack.delete` and `_delete_credentials`: tearing a stack down after its
  backup stack, then revoking what was stored on its behalf.
 */
module StackDelete {
  import opened Wrappers
  import opened StackTypes
  import opened StackInit

  /** The stored credentials as `_try_get_user_creds` reads them. */
  datatype UserCreds = UserCreds(trustId: Option<string>)

  /** What the Keystone and credential-store calls of `_delete_credentials` do. */
  datatype CredsEnv = CredsEnv(
    lookup: Option<UserCreds>,
    trustDeletion: CallResult,
    projectDeletion: CallResult)

  /**
    The outcomes the collaborators of one `delete` call report: the backup
    stack found (if any, with the outcomes of its own deletion), the
    deletion of the stack's snapshots, the pre-ops hook, the reverse-order
    destroy run, and the credential cleanup.
   */
  datatype DeleteEnv = DeleteEnv(
    backup: Option<BackupStack>,
    snapshots: CallResult,
    preOps: PreOps,
    run: RunOutcome,
    creds: CredsEnv)

  /** The backup stack of a stack, and what its own deletion meets. */
  datatype BackupStack = BackupStack(stack: Stack, env: DeleteEnv)

  /** A trust is revoked when there are credentials, they could be read, and they name a trust. */
  predicate TrustAttempted(s: Stack, env: CredsEnv) {
    TruthyId(s.userCredsId) && env.lookup.Some? && TruthyStr(env.lookup.value.trustId)
  }

  /** The stack domain project is removed when there is one and the delete is not an abandon. */
  predicate ProjectAttempted(s: Stack, abandon: bool) {
    TruthyStr(s.stackUserProjectId) && !abandon
  }

  predicate TrustFails(s: Stack, env: CredsEnv) {
    TrustAttempted(s, env) && env.trustDeletion.CallRaised?
  }

  predicate ProjectFails(s: Stack, abandon: bool, env: CredsEnv) {
    ProjectAttempted(s, abandon) && env.projectDeletion.CallRaised?
  }

  /** What `_delete_credentials` hands back: the stack, the possibly rewritten status and reason, and its effects. */
  datatype CredsResult = CredsResult(stack: Stack, status: Status, reason: string, trace: seq<Event>)

  /**
    `_delete_credentials`: revoke the trust and delete the stored credentials
    (clearing `user_creds_id`), then delete the stack domain project unless
    abandoning. A failure of either Keystone call turns the status to FAILED
    with its own reason; a project failure's reason wins over a trust
    failure's.
   */
  function DeleteCredentials(s: Stack, status: Status, reason: string, abandon: bool, env: CredsEnv): (r: CredsResult)
    ensures r.stack == s.(userCredsId := if TruthyId(s.userCredsId) then None else s.userCredsId)
    ensures r.status == (if TrustFails(s, env) || ProjectFails(s, abandon, env) then FAILED else status)
    ensures ProjectFails(s, abandon, env) ==> r.reason == "Error deleting project: " + env.projectDeletion.msg
    ensures TrustFails(s, env) && !ProjectFails(s, abandon, env) ==> r.reason == "Error deleting trust: " + env.trustDeletion.msg
    ensures !TrustFails(s, env) && !ProjectFails(s, abandon, env) ==> r.reason == reason
    ensures forall e | e in r.trace :: IsCredsEvent(e)
    ensures abandon ==> forall e | e in r.trace :: !e.ProjectDeletion?
  {
    var trustTrace := if TrustAttempted(s, env) then [TrustDeletion(env.lookup.value.trustId.value)] else [];
    var status1 := if TrustFails(s, env) then FAILED else status;
    var reason1 := if TrustFails(s, env) then "Error deleting trust: " + env.trustDeletion.msg else reason;
    var credsTrace := if TruthyId(s.userCredsId) then trustTrace + [UserCredsDeleted] else [];
    var s1 := if TruthyId(s.userCredsId) then s.(userCredsId := None) else s;
    var projectTrace := if ProjectAttempted(s, abandon) then [ProjectDeletion(s.stackUserProjectId.value)] else [];
    var status2 := if ProjectFails(s, abandon, env) then FAILED else status1;
    var reason2 := if ProjectFails(s, abandon, env) then "Error deleting project: " + env.projectDeletion.msg else reason1;
    CredsResult(s1, status2, reason2, credsTrace + projectTrace)
  }

  /** Each Keystone call is made exactly when its condition holds; the credentials are deleted exactly when there are some. */
  lemma DeleteCredentialsCalls(s: Stack, status: Status, reason: string, abandon: bool, env: CredsEnv)
    ensures var r := DeleteCredentials(s, status, reason, abandon, env);
      && (UserCredsDeleted in r.trace <==> TruthyId(s.userCredsId))
      && ((exists e | e in r.trace :: e.TrustDeletion?) <==> TrustAttempted(s, env))
      && ((exists e | e in r.trace :: e.ProjectDeletion?) <==> ProjectAttempted(s, abandon))
  {
    var r := DeleteCredentials(s, status, reason, abandon, env);
    if TrustAttempted(s, env) {
      assert r.trace[0].TrustDeletion?;
    }
    if ProjectAttempted(s, abandon) {
      assert r.trace[|r.trace| - 1].ProjectDeletion?;
    }
  }

  /** The reason recorded when the backup stack did not end COMPLETE. */
  function BackupFailedReason(a: Action, backupReason: string): string {
    "Failed to " + ActionName(a) + " : " + "Error deleting backup resources: " + backupReason
  }

  /** An effect of `_delete_credentials`. */
  predicate IsCredsEvent(e: Event) {
    e.TrustDeletion? || e.UserCredsDeleted? || e.ProjectDeletion?
  }

  /** Whether any credential cleanup effect appears in a trace. */
  predicate CleansCredentials(t: seq<Event>) {
    exists e | e in t :: IsCredsEvent(e)
  }

  /**
    `delete(action, backup, abandon)`. Only DELETE and ROLLBACK are accepted.
    The backup stack is deleted first; the resources are destroyed in reverse
    dependency order; the stored credentials are cleaned up; the record is
    deleted and the id cleared when nothing failed.
   */
  function Delete(s: Stack, action: Action, backup: bool, abandon: bool, env: DeleteEnv, cfg: Config): (r: Step)
    decreases env, 1
    ensures r.error.Some? ==> State(r.stack) == (action, IN_PROGRESS) && r.stack.id == s.id
    ensures r.error.None? ==> r.stack.status != IN_PROGRESS
    ensures action != DELETE && action != ROLLBACK ==>
      && r.error.None? && r.stack.id == s.id
      && State(r.stack) == (DELETE, FAILED) && r.stack.statusReason == "Invalid action " + ActionName(action)
      && r.trace == [StateSet(DELETE, FAILED, "Invalid action " + ActionName(action), s.id.Some?)]
  {
    if action != DELETE && action != ROLLBACK then
      Record(s, DELETE, FAILED, "Invalid action " + ActionName(action))
    else
      DeleteAfterBackup(s, action, backup, abandon, env, cfg, BackupOutcome(env, cfg))
  }

  /**
    `_delete_backup_stack`, when the backup stack `_backup_stack(False)`
    found is true as a mapping, i.e. has resources: its own delete with
    `backup=True`. A backup stack without resources is skipped.
   */
  function BackupOutcome(env: DeleteEnv, cfg: Config): (r: Option<Step>)
    decreases env, 0
    ensures r.Some? <==> env.backup.Some? && HasResources(env.backup.value.stack)
  {
    match env.backup
    case None => None
    case Some(b) =>
      if HasResources(b.stack) then Some(Delete(b.stack, DELETE, true, false, b.env, cfg)) else None
  }

  /**
    `delete` with a valid action, given what deleting its backup stack
    (if there was one) produced: the backup's exception propagates, a backup
    that did not end COMPLETE fails the delete, otherwise the resources go.
   */
  function DeleteAfterBackup(s: Stack, action: Action, backup: bool, abandon: bool, env: DeleteEnv, cfg: Config, bs: Option<Step>): (r: Step)
    requires action == DELETE || action == ROLLBACK
    ensures r.error.Some? ==> State(r.stack) == (action, IN_PROGRESS) && r.stack.id == s.id
    ensures r.error.None? ==> r.stack.status != IN_PROGRESS
  {
    var s1 := SetState(s, action, IN_PROGRESS, StartedReason(action));
    var t1 := [StateSetOn(s, action, IN_PROGRESS, StartedReason(action))];
    match bs
    case None =>
      var d := DeleteResources(s1, action, backup, abandon, env, cfg);
      Step(d.stack, t1 + d.trace, d.error)
    case Some(b) =>
      if b.error.Some? then Step(s1, t1, b.error)
      else
        var t2 := t1 + [BackupStackDeleted(b.stack.status)];
        if b.stack.status != COMPLETE then
          var reason := BackupFailedReason(action, b.stack.statusReason);
          Step(SetState(s1, action, FAILED, reason), t2 + [StateSetOn(s1, action, FAILED, reason)], None)
        else
          var d := DeleteResources(s1, action, backup, abandon, env, cfg);
          Step(d.stack, t2 + d.trace, d.error)
  }

  /**
    The rest of `delete` once the backup stack is out of the way: snapshots,
    pre-ops, then the reverse-order destroy run. A snapshot deletion runs
    outside any `try`, so whatever it raises escapes. Only its own effects
    are returned.
   */
  function DeleteResources(s1: Stack, action: Action, backup: bool, abandon: bool, env: DeleteEnv, cfg: Config): (r: Step)
    requires s1.status == IN_PROGRESS && s1.action == action
    ensures r.error.Some? ==> r.stack == s1
    ensures r.error.None? ==> r.stack.status != IN_PROGRESS && r.stack.action == action
  {
    if env.snapshots.CallRaised? then Step(s1, [], Some(Raised(env.snapshots.msg)))
    else if !backup && env.preOps.PreOpsFailed? then
      var reason := PreOpsReason(env.preOps);
      Step(SetState(s1, action, FAILED, reason), [SnapshotsDeleted, StateSetOn(s1, action, FAILED, reason)], None)
    else
      var t4 := [SnapshotsDeleted, DestroyGroup(s1, cfg)];
      match env.run
      case OtherError(m) => Step(s1, t4, Some(Raised(m)))
      case ForcedCancel => Step(s1, t4, Some(Cancelled))
      case _ =>
        var (status, reason) := RunVerdict(action, env.run);
        var f := FinishDelete(s1, action, backup, abandon, status, reason, env.creds);
        Step(f.stack, t4 + f.trace, None)
  }

  /** The destroy run: `Resource.destroy` on every resource in reverse dependency order, under the stack's timeout. */
  function DestroyGroup(s: Stack, cfg: Config): Event {
    RunGroup("destroy", Reverse(s.template.order), Some(TimeoutSecs(s, cfg)))
  }

  /**
    After a destroy run that did not raise: the credentials are cleaned up
    for a top-level stack that is not failing and not a backup, the final
    state is recorded, post-ops run for a non-backup, and a delete that did
    not fail removes the record and clears the id.
   */
  function FinishDelete(s1: Stack, action: Action, backup: bool, abandon: bool, status: Status, reason: string, creds: CredsEnv): (r: Step)
    requires status != IN_PROGRESS
    ensures r.error.None? && r.stack.action == action && r.stack.status != IN_PROGRESS
    ensures r.stack.status == COMPLETE ==> status == COMPLETE
    ensures r.stack.status != FAILED ==> r.stack.id.None? && RecordDeleted in r.trace
    ensures r.stack.status == FAILED ==> r.stack.id == s1.id && RecordDeleted !in r.trace
  {
    var c := FinishCreds(s1, backup, abandon, status, reason, creds);
    var s5 := SetState(c.stack, action, c.status, c.reason);
    var t5 := c.trace + FinishTail(c, action, backup);
    if c.status != FAILED then Step(s5.(id := None), t5, None)
    else Step(s5, t5, None)
  }

  /** The credential cleanup `delete` asks for: only when not failing, not a backup, and without an owner. */
  function FinishCreds(s1: Stack, backup: bool, abandon: bool, status: Status, reason: string, creds: CredsEnv): (c: CredsResult)
    ensures c.stack.id == s1.id
    ensures c.status == COMPLETE ==> status == COMPLETE
    ensures c.status != IN_PROGRESS || status == IN_PROGRESS
    ensures forall e | e in c.trace :: IsCredsEvent(e)
    ensures c.trace != [] ==> status != FAILED && !backup && !TruthyId(s1.ownerId)
    ensures abandon ==> forall e | e in c.trace :: !e.ProjectDeletion?
  {
    if status != FAILED && !backup && !TruthyId(s1.ownerId) then DeleteCredentials(s1, status, reason, abandon, creds)
    else CredsResult(s1, status, reason, [])
  }

  /** What follows the credential cleanup: the final `state_set`, post-ops unless a backup, the record deletion unless failed. */
  function FinishTail(c: CredsResult, action: Action, backup: bool): (t: seq<Event>)
    ensures forall e | e in t :: !IsCredsEvent(e) && !e.RunGroup? && ((e.StateSet? || e.PostOps?) ==> e.action == action)
    ensures RecordDeleted in t <==> c.status != FAILED
  {
    [StateSetOn(c.stack, action, c.status, c.reason)]
    + (if !backup then [PostOps(action, c.status == FAILED)] else [])
    + (if c.status != FAILED then [RecordDeleted] else [])
  }

  /** The states and post-ops the tail of a delete records are for its own action; it runs nothing. */
  lemma FinishDeleteTrace(s1: Stack, action: Action, backup: bool, abandon: bool, status: Status, reason: string, creds: CredsEnv)
    requires status != IN_PROGRESS
    ensures var f := FinishDelete(s1, action, backup, abandon, status, reason, creds);
      && (forall e | e in f.trace && (e.StateSet? || e.PostOps?) :: e.action == action)
      && (forall e | e in f.trace :: !e.RunGroup?)
  {
    var c := FinishCreds(s1, backup, abandon, status, reason, creds);
    var f := FinishDelete(s1, action, backup, abandon, status, reason, creds);
    var tail := FinishTail(c, action, backup);
    assert f.trace == c.trace + tail;
    assert forall e | e in c.trace :: IsCredsEvent(e);
  }

  /** The tail of a delete touches credentials only for a top-level, non-backup stack not failing, and an abandon spares the project. */
  lemma FinishDeleteCreds(s1: Stack, action: Action, backup: bool, abandon: bool, status: Status, reason: string, creds: CredsEnv)
    requires status != IN_PROGRESS
    ensures var f := FinishDelete(s1, action, backup, abandon, status, reason, creds);
      && (CleansCredentials(f.trace) ==> status != FAILED && !backup && !TruthyId(s1.ownerId))
      && (abandon ==> forall e | e in f.trace :: !e.ProjectDeletion?)
  {
    var c := FinishCreds(s1, backup, abandon, status, reason, creds);
    var f := FinishDelete(s1, action, backup, abandon, status, reason, creds);
    var tail := FinishTail(c, action, backup);
    assert f.trace == c.trace + tail;
    assert !CleansCredentials(tail);
  }

  /** Whether the destroy run of a delete goes on to `FinishDelete`: the snapshots went, pre-ops passed (or were skipped) and the run raised nothing it lets escape. */
  predicate RunFinishes(backup: bool, env: DeleteEnv) {
    env.snapshots.Succeeded? && !(!backup && env.preOps.PreOpsFailed?) && (env.run.Ok? || env.run.ResourceFailure? || env.run.Timeout?)
  }

  /** A destroy run that finishes: the snapshots and the run, then `FinishDelete` on its verdict. */
  lemma FinishedRunShape(s1: Stack, action: Action, backup: bool, abandon: bool, env: DeleteEnv, cfg: Config)
    requires s1.status == IN_PROGRESS && s1.action == action
    requires RunFinishes(backup, env)
    ensures var v := RunVerdict(action, env.run);
      var f := FinishDelete(s1, action, backup, abandon, v.0, v.1, env.creds);
      DeleteResources(s1, action, backup, abandon, env, cfg) == Step(f.stack, [SnapshotsDeleted, DestroyGroup(s1, cfg)] + f.trace, None)
  {
  }

  /** The states and post-ops the resource part of a delete records are for its own action; its only run is the destroy run. */
  lemma DeleteResourcesTrace(s1: Stack, action: Action, backup: bool, abandon: bool, env: DeleteEnv, cfg: Config)
    requires s1.status == IN_PROGRESS && s1.action == action
    ensures var d := DeleteResources(s1, action, backup, abandon, env, cfg);
      && (forall e | e in d.trace && (e.StateSet? || e.PostOps?) :: e.action == action)
      && (forall e | e in d.trace && e.RunGroup? :: e == DestroyGroup(s1, cfg))
  {
    if RunFinishes(backup, env) {
      var v := RunVerdict(action, env.run);
      FinishedRunShape(s1, action, backup, abandon, env, cfg);
      FinishDeleteTrace(s1, action, backup, abandon, v.0, v.1, env.creds);
    }
  }

  /** The resource part of a delete touches credentials only after a successful run of a top-level, non-backup stack. */
  lemma DeleteResourcesCreds(s1: Stack, action: Action, backup: bool, abandon: bool, env: DeleteEnv, cfg: Config)
    requires s1.status == IN_PROGRESS && s1.action == action
    ensures var d := DeleteResources(s1, action, backup, abandon, env, cfg);
      && (CleansCredentials(d.trace) ==> env.run.Ok? && !backup && !TruthyId(s1.ownerId))
      && (abandon ==> forall e | e in d.trace :: !e.ProjectDeletion?)
  {
    if RunFinishes(backup, env) {
      var v := RunVerdict(action, env.run);
      FinishedRunShape(s1, action, backup, abandon, env, cfg);
      FinishDeleteCreds(s1, action, backup, abandon, v.0, v.1, env.creds);
      assert !CleansCredentials([SnapshotsDeleted, DestroyGroup(s1, cfg)]);
    }
  }

  /** The outcome of the resource part of a delete. */
  lemma DeleteResourcesOutcome(s1: Stack, action: Action, backup: bool, abandon: bool, env: DeleteEnv, cfg: Config)
    requires s1.status == IN_PROGRESS && s1.action == action
    ensures var d := DeleteResources(s1, action, backup, abandon, env, cfg);
      && (d.error.None? && d.stack.status != FAILED ==> d.stack.id.None? && RecordDeleted in d.trace)
      && (d.stack.status == FAILED ==> d.stack.id == s1.id && RecordDeleted !in d.trace)
      && (d.stack.status == COMPLETE ==> env.run.Ok?)
  {
    if RunFinishes(backup, env) {
      FinishedRunShape(s1, action, backup, abandon, env, cfg);
      assert RecordDeleted !in [SnapshotsDeleted, DestroyGroup(s1, cfg)];
    }
  }

  /** The states, post-ops and runs the delete of a stack records once its backup stack is dealt with. */
  lemma AfterBackupTrace(s: Stack, action: Action, backup: bool, abandon: bool, env: DeleteEnv, cfg: Config, bs: Option<Step>)
    requires action == DELETE || action == ROLLBACK
    ensures var r := DeleteAfterBackup(s, action, backup, abandon, env, cfg, bs);
      && |r.trace| > 0 && r.trace[0] == StateSet(action, IN_PROGRESS, StartedReason(action), s.id.Some?)
      && (forall e | e in r.trace && (e.StateSet? || e.PostOps?) :: e.action == action)
      && (forall e | e in r.trace && e.RunGroup? :: e == DestroyGroup(s, cfg))
  {
    var s1 := SetState(s, action, IN_PROGRESS, StartedReason(action));
    DeleteResourcesTrace(s1, action, backup, abandon, env, cfg);
    assert DestroyGroup(s1, cfg) == DestroyGroup(s, cfg);
    var r := DeleteAfterBackup(s, action, backup, abandon, env, cfg, bs);
    var d := DeleteResources(s1, action, backup, abandon, env, cfg);
    var t1 := [StateSetOn(s, action, IN_PROGRESS, StartedReason(action))];
    if bs.None? {
      assert r.trace == t1 + d.trace;
    } else if bs.value.error.None? && bs.value.stack.status == COMPLETE {
      assert r.trace == t1 + [BackupStackDeleted(bs.value.stack.status)] + d.trace;
    }
  }

  /** The credential effects of the delete of a stack once its backup stack is dealt with. */
  lemma AfterBackupCreds(s: Stack, action: Action, backup: bool, abandon: bool, env: DeleteEnv, cfg: Config, bs: Option<Step>)
    requires action == DELETE || action == ROLLBACK
    ensures var r := DeleteAfterBackup(s, action, backup, abandon, env, cfg, bs);
      && (CleansCredentials(r.trace) ==> env.run.Ok? && !backup && !TruthyId(s.ownerId))
      && (abandon ==> forall e | e in r.trace :: !e.ProjectDeletion?)
  {
    var s1 := SetState(s, action, IN_PROGRESS, StartedReason(action));
    DeleteResourcesCreds(s1, action, backup, abandon, env, cfg);
    var r := DeleteAfterBackup(s, action, backup, abandon, env, cfg, bs);
    var d := DeleteResources(s1, action, backup, abandon, env, cfg);
    var t1 := [StateSetOn(s, action, IN_PROGRESS, StartedReason(action))];
    if bs.None? {
      assert r.trace == t1 + d.trace;
    } else if bs.value.error.None? {
      var t2 := t1 + [BackupStackDeleted(bs.value.stack.status)];
      if bs.value.stack.status == COMPLETE {
        assert r.trace == t2 + d.trace;
      }
      assert !CleansCredentials(t2);
    }
  }

  /**
    A delete with a valid action first records (action, IN_PROGRESS); every
    state and post-ops call it records is for that action; its only run is
    the destroy run, in reverse dependency order; credentials are only
    touched after a successful run of a top-level, non-backup stack; an
    abandon never deletes the stack domain project.
   */
  lemma DeleteTrace(s: Stack, action: Action, backup: bool, abandon: bool, env: DeleteEnv, cfg: Config)
    requires action == DELETE || action == ROLLBACK
    ensures var r := Delete(s, action, backup, abandon, env, cfg);
      && |r.trace| > 0 && r.trace[0] == StateSet(action, IN_PROGRESS, StartedReason(action), s.id.Some?)
      && (forall e | e in r.trace && (e.StateSet? || e.PostOps?) :: e.action == action)
      && (forall e | e in r.trace && e.RunGroup? :: e.handler == "destroy" && e.order == Reverse(s.template.order))
      && (CleansCredentials(r.trace) ==> env.run.Ok? && !backup && !TruthyId(s.ownerId))
      && (abandon ==> forall e | e in r.trace :: !e.ProjectDeletion?)
  {
    var bs := BackupOutcome(env, cfg);
    AfterBackupTrace(s, action, backup, abandon, env, cfg, bs);
    AfterBackupCreds(s, action, backup, abandon, env, cfg, bs);
  }

  /** A backup whose deletion ended other than COMPLETE stops the delete with FAILED. */
  lemma AfterBackupFailure(s: Stack, action: Action, backup: bool, abandon: bool, env: DeleteEnv, cfg: Config, b: Step)
    requires action == DELETE || action == ROLLBACK
    requires b.error.None? && b.stack.status != COMPLETE
    ensures var r := DeleteAfterBackup(s, action, backup, abandon, env, cfg, Some(b));
      && r.error.None? && State(r.stack) == (action, FAILED) && r.stack.id == s.id
      && r.stack.statusReason == BackupFailedReason(action, b.stack.statusReason)
      && (forall e | e in r.trace :: !e.RunGroup? && !IsCredsEvent(e) && e != RecordDeleted)
  {
    var r := DeleteAfterBackup(s, action, backup, abandon, env, cfg, Some(b));
    var s1 := SetState(s, action, IN_PROGRESS, StartedReason(action));
    var reason := BackupFailedReason(action, b.stack.statusReason);
    assert r.trace == [StateSetOn(s, action, IN_PROGRESS, StartedReason(action)), BackupStackDeleted(b.stack.status),
                       StateSetOn(s1, action, FAILED, reason)];
  }

  /**
    A backup stack whose own deletion ends other than COMPLETE fails the
    delete before any resource is touched: no destroy run, no credential
    cleanup, the record kept.
   */
  lemma DeleteStopsOnBackupFailure(s: Stack, action: Action, backup: bool, abandon: bool, env: DeleteEnv, cfg: Config)
    requires action == DELETE || action == ROLLBACK
    requires env.backup.Some? && HasResources(env.backup.value.stack)
    requires var bs := Delete(env.backup.value.stack, DELETE, true, false, env.backup.value.env, cfg);
      bs.error.None? && bs.stack.status != COMPLETE
    ensures var r := Delete(s, action, backup, abandon, env, cfg);
      var bs := Delete(env.backup.value.stack, DELETE, true, false, env.backup.value.env, cfg);
      && r.error.None? && State(r.stack) == (action, FAILED) && r.stack.id == s.id
      && r.stack.statusReason == BackupFailedReason(action, bs.stack.statusReason)
      && (forall e | e in r.trace :: !e.RunGroup? && !IsCredsEvent(e) && e != RecordDeleted)
  {
    var b := env.backup.value;
    var bs := Delete(b.stack, DELETE, true, false, b.env, cfg);
    assert BackupOutcome(env, cfg) == Some(bs);
    AfterBackupFailure(s, action, backup, abandon, env, cfg, bs);
  }

  /**
    A snapshot deletion that raises, once the backup stack is out of the way,
    escapes from `delete`: the stack is left (action, IN_PROGRESS) with its
    id, and neither the destroy run, post-ops, the credential cleanup nor the
    record deletion happens.
   */
  lemma DeleteEscapesOnSnapshotFailure(s: Stack, action: Action, backup: bool, abandon: bool, env: DeleteEnv, cfg: Config)
    requires action == DELETE || action == ROLLBACK
    requires env.snapshots.CallRaised?
    requires var bs := BackupOutcome(env, cfg); bs.None? || (bs.value.error.None? && bs.value.stack.status == COMPLETE)
    ensures var r := Delete(s, action, backup, abandon, env, cfg);
      && r.error == Some(Raised(env.snapshots.msg)) && State(r.stack) == (action, IN_PROGRESS) && r.stack.id == s.id
      && (forall e | e in r.trace :: !e.RunGroup? && !e.PostOps? && !IsCredsEvent(e) && e != RecordDeleted && e != SnapshotsDeleted)
  {
    var bs := BackupOutcome(env, cfg);
    var s1 := SetState(s, action, IN_PROGRESS, StartedReason(action));
    var t1 := [StateSetOn(s, action, IN_PROGRESS, StartedReason(action))];
    assert DeleteResources(s1, action, backup, abandon, env, cfg) == Step(s1, [], Some(Raised(env.snapshots.msg)));
    var r := Delete(s, action, backup, abandon, env, cfg);
    if bs.None? {
      assert r.trace == t1 + [];
    } else {
      assert r.trace == t1 + [BackupStackDeleted(COMPLETE)] + [];
    }
  }

  /** The outcome of the delete of a stack once its backup stack is dealt with. */
  lemma AfterBackupOutcome(s: Stack, action: Action, backup: bool, abandon: bool, env: DeleteEnv, cfg: Config, bs: Option<Step>)
    requires action == DELETE || action == ROLLBACK
    ensures var r := DeleteAfterBackup(s, action, backup, abandon, env, cfg, bs);
      && (r.error.None? && r.stack.status != FAILED ==> r.stack.id.None? && RecordDeleted in r.trace)
      && (r.stack.status == FAILED ==> r.stack.id == s.id && RecordDeleted !in r.trace)
      && (r.stack.status == COMPLETE ==> env.run.Ok?)
  {
    var s1 := SetState(s, action, IN_PROGRESS, StartedReason(action));
    DeleteResourcesOutcome(s1, action, backup, abandon, env, cfg);
    var r := DeleteAfterBackup(s, action, backup, abandon, env, cfg, bs);
    var d := DeleteResources(s1, action, backup, abandon, env, cfg);
    var t1 := [StateSetOn(s, action, IN_PROGRESS, StartedReason(action))];
    if bs.None? {
      assert r.trace == t1 + d.trace;
    } else if bs.value.error.None? {
      var t2 := t1 + [BackupStackDeleted(bs.value.stack.status)];
      if bs.value.stack.status == COMPLETE {
        assert r.trace == t2 + d.trace;
      }
      assert RecordDeleted !in t2;
    }
  }

  /**
    The outcome of a delete that did not raise: the record goes and the id is
    cleared exactly when it did not fail; it only completes after a
    successful destroy run.
   */
  lemma DeleteOutcome(s: Stack, action: Action, backup: bool, abandon: bool, env: DeleteEnv, cfg: Config)
    requires action == DELETE || action == ROLLBACK
    ensures var r := Delete(s, action, backup, abandon, env, cfg);
      && (r.error.None? && r.stack.status != FAILED ==> r.stack.id.None? && RecordDeleted in r.trace)
      && (r.stack.status == FAILED ==> r.stack.id == s.id && RecordDeleted !in r.trace)
      && (r.stack.status == COMPLETE ==> env.run.Ok?)
  {
    var bs := BackupOutcome(env, cfg);
    AfterBackupOutcome(s, action, backup, abandon, env, cfg, bs);
  }

  /**
    A backup stack without resources is false as a mapping, so `delete`
    passes it over: the outcome is the same as if there were no backup stack.
   */
  lemma EmptyBackupIgnored(s: Stack, action: Action, backup: bool, abandon: bool, env: DeleteEnv, cfg: Config)
    requires env.backup.Some? && !HasResources(env.backup.value.stack)
    ensures Delete(s, action, backup, abandon, env, cfg) == Delete(s, action, backup, abandon, env.(backup := None), cfg)
  {
    var env' := env.(backup := None);
    assert BackupOutcome(env, cfg) == None == BackupOutcome(env', cfg);
    if action == DELETE || action == ROLLBACK {
      var s1 := SetState(s, action, IN_PROGRESS, StartedReason(action));
      assert DeleteResources(s1, action, backup, abandon, env, cfg) == DeleteResources(s1, action, backup, abandon, env', cfg);
    }
  }

  /**
    The plain delete of a top-level stack with no backup, whose collaborators
    all succeed, ends (DELETE, COMPLETE) with its record deleted.
   */
  lemma DeleteSucceeds(s: Stack, creds: CredsEnv, cfg: Config)
    requires !TruthyId(s.ownerId)
    requires creds.trustDeletion.Succeeded? && creds.projectDeletion.Succeeded?
    ensures var r := Delete(s, DELETE, false, false, DeleteEnv(None, Succeeded, PreOpsOk, Ok, creds), cfg);
      && r.error.None?
      && State(r.stack) == (DELETE, COMPLETE)
      && r.stack.statusReason == CompletedReason(DELETE)
      && r.stack.id.None?
      && RecordDeleted in r.trace
  {
    var env := DeleteEnv(None, Succeeded, PreOpsOk, Ok, creds);
    var s1 := SetState(s, DELETE, IN_PROGRESS, StartedReason(DELETE));
    var c := DeleteCredentials(s1, COMPLETE, CompletedReason(DELETE), false, creds);
    assert c.status == COMPLETE && c.reason == CompletedReason(DELETE);
    var f := FinishDelete(s1, DELETE, false, false, COMPLETE, CompletedReason(DELETE), creds);
    assert f.stack.status == COMPLETE && f.stack.statusReason == CompletedReason(DELETE);
    var d := DeleteResources(s1, DELETE, false, false, env, cfg);
    assert d.stack == f.stack && d.error.None?;
    var r := Delete(s, DELETE, false, false, env, cfg);
    assert r == DeleteAfterBackup(s, DELETE, false, false, env, cfg, None);
    assert r.stack == d.stack;
    DeleteOutcome(s, DELETE, false, false, env, cfg);
  }
}
