/**
  `Stack.stack_task` and the operations built on it: `create`, `adopt`,
  `check` (with `supports_check_action`), `suspend`, `resume` and
  `snapshot`.

  `stack_task` runs the pre-ops hook, records (action, IN_PROGRESS), runs the
  action's handler on every resource in dependency order, records the
  verdict, calls its `post_func` and finally the post-ops hook. Only
  `Exception` is caught around the run; a `BaseException` such as
  `ForcedCancel` escapes with the stack left IN_PROGRESS and neither
  `post_func` nor the post-ops hook called.
 */
module StackTask {
  import opened Wrappers
  import opened StackTypes
  import opened StackInit
  import opened StackDelete

  /** What the pre-ops hook and the dependency task group of one `stack_task` call do. */
  datatype TaskEnv = TaskEnv(preOps: PreOps, run: RunOutcome)

  /**
    A resource as `supports_check_action` sees it: a plain resource, which
    does or does not define `handle_check`, or a nested-stack resource,
    represented by the resources of its nested stack.
   */
  datatype Support = Plain(handlesCheck: bool) | Nested(children: seq<Support>)

  /** `is_supported`: a plain resource handles CHECK; a nested stack supports it throughout. */
  predicate Supported(r: Support)
    decreases r
  {
    match r
    case Plain(h) => h
    case Nested(c) => forall i | 0 <= i < |c| :: Supported(c[i])
  }

  /** A resource that does not support CHECK, at any depth of nesting. */
  predicate HasUnsupported(r: Support)
    decreases r
  {
    match r
    case Plain(h) => !h
    case Nested(c) => exists i | 0 <= i < |c| :: HasUnsupported(c[i])
  }

  /** Support fails exactly where some resource, at any depth, lacks `handle_check`. */
  lemma {:induction false} SupportedIffNoUnsupported(r: Support)
    ensures Supported(r) <==> !HasUnsupported(r)
    decreases r
  {
    match r
    case Plain(_) =>
    case Nested(c) =>
      forall i | 0 <= i < |c| ensures Supported(c[i]) <==> !HasUnsupported(c[i]) {
        SupportedIffNoUnsupported(c[i]);
      }
  }

  /** The text `supports_check_action` appends to the status reason. */
  const CheckNotSupported: string := ". 'CHECK' not fully supported (see resources)"

  /**
    `supports_check_action` on a stack with the given resources: when some
    resource does not support CHECK, the reason gets a note appended, under
    the action CHECK and the unchanged status. Returns the step and the
    boolean the source returns.
   */
  function SupportsCheckAction(s: Stack, resources: seq<Support>): (r: (Step, bool))
    ensures r.1 <==> forall i | 0 <= i < |resources| :: Supported(resources[i])
    ensures r.0.error.None? && r.0.stack.status == s.status && r.0.stack.id == s.id
    ensures r.1 ==> r.0.stack == s && r.0.trace == []
    ensures !r.1 ==> r.0.stack.action == CHECK && r.0.stack.statusReason == s.statusReason + CheckNotSupported
  {
    var ok := forall i | 0 <= i < |resources| :: Supported(resources[i]);
    if ok then (Step(s, [], None), true)
    else (Record(s, CHECK, s.status, s.statusReason + CheckNotSupported), false)
  }

  /** The `post_func` handed to `stack_task`, with what its collaborators do. */
  datatype PostFunc =
    | NoPost
      /** `create`'s rollback, with what the rollback delete would meet. */
    | CreateRollback(denv: DeleteEnv)
      /** `adopt`'s rollback, with what the rollback delete would meet. */
    | AdoptRollback(adenv: DeleteEnv)
      /** `check`'s `supports_check_action`, over the stack's resources. */
    | CheckSupport(resources: seq<Support>)

  /** Whether `create`'s (or `adopt`'s) rollback deletes the stack in this state. */
  predicate RollbackWanted(s: Stack, a: Action) {
    !s.disableRollback && State(s) == (a, FAILED)
  }

  /** Calling the `post_func`, if any: a `PostFuncCalled` marker followed by what it did. */
  function ApplyPost(s: Stack, post: PostFunc, cfg: Config): (r: Step)
    ensures post.NoPost? ==> r == Step(s, [], None)
    ensures !post.NoPost? ==> |r.trace| > 0 && r.trace[0] == PostFuncCalled
    ensures s.status != IN_PROGRESS ==> (r.error.Some? <==> r.stack.status == IN_PROGRESS)
    ensures r.error.Some? ==> post.CreateRollback? || post.AdoptRollback?
    ensures (post.CreateRollback? || post.AdoptRollback?) && s.status != FAILED ==> r == Step(s, [PostFuncCalled], None)
  {
    match post
    case NoPost => Step(s, [], None)
    case CreateRollback(denv) =>
      if RollbackWanted(s, CREATE) then
        var d := Delete(s, ROLLBACK, false, false, denv, cfg);
        Step(d.stack, [PostFuncCalled] + d.trace, d.error)
      else Step(s, [PostFuncCalled], None)
    case AdoptRollback(denv) =>
      if RollbackWanted(s, ADOPT) then
        var d := Delete(s, ROLLBACK, false, true, denv, cfg);
        Step(d.stack, [PostFuncCalled] + d.trace, d.error)
      else Step(s, [PostFuncCalled], None)
    case CheckSupport(rs) =>
      var c := SupportsCheckAction(s, rs).0;
      Step(c.stack, [PostFuncCalled] + c.trace, None)
  }

  /** The handler name a task group calls on each resource: `action.lower()`. */
  function Handler(action: Action): (h: string)
    ensures |h| == |ActionName(action)|
    ensures forall i | 0 <= i < |h| :: h[i] == LowerChar(ActionName(action)[i])
  {
    Lower(ActionName(action))
  }

  /**
    `stack_task(action, reverse, post_func)` run under `timeout` seconds (if
    any). A pre-ops failure records FAILED, calls `post_func` and stops.
    Otherwise the run is bracketed by IN_PROGRESS and its verdict, then
    `post_func` and the post-ops hook, whose `failed` flag reads the status
    as `post_func` left it.
   */
  function StackTask(s: Stack, action: Action, reverse: bool, timeout: Option<int>, post: PostFunc, env: TaskEnv, cfg: Config): (r: Step)
    ensures r.error.Some? <==> r.stack.status == IN_PROGRESS
    ensures post.NoPost? ==> State(r.stack) == Verdict(action, env) && r.stack.template == s.template && r.stack.id == s.id
    ensures env.preOps.PreOpsFailed? ==> |r.trace| > 0 && r.trace[0] == StateSet(action, FAILED, PreOpsReason(env.preOps), s.id.Some?)
    ensures env.preOps.PreOpsFailed? && post.NoPost? ==>
      r.trace == [StateSet(action, FAILED, PreOpsReason(env.preOps), s.id.Some?)] && r.stack.statusReason == PreOpsReason(env.preOps)
    ensures env.preOps.PreOpsFailed? && !post.NoPost? ==> |r.trace| >= 2 && r.trace[1] == PostFuncCalled
    ensures env.preOps.PreOpsOk? ==>
      && |r.trace| >= 2 && r.trace[0] == StateSet(action, IN_PROGRESS, StartedReason(action), s.id.Some?)
      && r.trace[1] == RunGroup(Handler(action), Traversal(s.template.order, reverse), timeout)
    ensures env.preOps.PreOpsOk? && env.run.ForcedCancel? ==> |r.trace| == 2 && r.error == Some(Cancelled)
    ensures env.preOps.PreOpsOk? && !env.run.ForcedCancel? ==>
      |r.trace| >= 3 && r.trace[2] == StateSet(action, RunVerdict(action, env.run).0, RunVerdict(action, env.run).1, s.id.Some?)
    ensures post.NoPost? && env.preOps.PreOpsOk? && !env.run.ForcedCancel? ==> r.stack.statusReason == RunVerdict(action, env.run).1
    ensures env.preOps.PreOpsOk? && r.error.None? ==> r.trace[|r.trace| - 1] == PostOps(action, r.stack.status == FAILED)
  {
    if env.preOps.PreOpsFailed? then
      var reason := PreOpsReason(env.preOps);
      var p := ApplyPost(SetState(s, action, FAILED, reason), post, cfg);
      Step(p.stack, [StateSetOn(s, action, FAILED, reason)] + p.trace, p.error)
    else
      var s1 := SetState(s, action, IN_PROGRESS, StartedReason(action));
      var t1 := [StateSetOn(s, action, IN_PROGRESS, StartedReason(action)),
                 RunGroup(Handler(action), Traversal(s.template.order, reverse), timeout)];
      if env.run.ForcedCancel? then Step(s1, t1, Some(Cancelled))
      else
        var f := TaskAfterRun(s1, action, env.run, post, cfg);
        Step(f.stack, t1 + f.trace, f.error)
  }

  /**
    The part of `stack_task` after a run that raised nothing or an
    `Exception`: the verdict is recorded, `post_func` is called, and unless
    it raised, the post-ops hook is told whether the stack is now FAILED.
   */
  function TaskAfterRun(s1: Stack, action: Action, run: RunOutcome, post: PostFunc, cfg: Config): (r: Step)
    requires !run.ForcedCancel?
    ensures r.error.Some? <==> r.stack.status == IN_PROGRESS
    ensures |r.trace| > 0 && r.trace[0] == StateSetOn(s1, action, RunVerdict(action, run).0, RunVerdict(action, run).1)
    ensures r.error.None? ==> r.trace[|r.trace| - 1] == PostOps(action, r.stack.status == FAILED)
  {
    var (status, reason) := RunVerdict(action, run);
    var p := ApplyPost(SetState(s1, action, status, reason), post, cfg);
    var t := [StateSetOn(s1, action, status, reason)] + p.trace;
    if p.error.Some? then Step(p.stack, t, p.error)
    else Step(p.stack, t + [PostOps(action, p.stack.status == FAILED)], None)
  }

  /**
    The (action, status) a `stack_task` without `post_func` leaves, stated
    by outcome: a pre-ops failure or a failed run is FAILED, a clean run
    COMPLETE, and an escaping `BaseException` leaves the stack IN_PROGRESS.
   */
  function Verdict(action: Action, env: TaskEnv): (Action, Status) {
    if env.preOps.PreOpsFailed? then (action, FAILED)
    else match env.run
      case Ok => (action, COMPLETE)
      case ForcedCancel => (action, IN_PROGRESS)
      case _ => (action, FAILED)
  }

  // ---------------------------------------------------------------------
  // The entry points.

  /** `create`: forward order under the stack's timeout; a failed create is rolled back unless disabled. */
  function Create(s: Stack, env: TaskEnv, rollbackEnv: DeleteEnv, cfg: Config): (r: Step)
    ensures env.preOps.PreOpsOk? && env.run.Ok? ==>
      r.error.None? && State(r.stack) == (CREATE, COMPLETE) && r.stack.statusReason == CompletedReason(CREATE)
    ensures env.preOps.PreOpsOk? ==>
      |r.trace| >= 2 && r.trace[1] == RunGroup(Handler(CREATE), s.template.order, Some(TimeoutSecs(s, cfg)))
  {
    StackTask(s, CREATE, false, Some(TimeoutSecs(s, cfg)), CreateRollback(rollbackEnv), env, cfg)
  }

  /** `adopt`: like `create`, but the rollback is an abandon-style delete. */
  function Adopt(s: Stack, env: TaskEnv, rollbackEnv: DeleteEnv, cfg: Config): (r: Step)
    ensures env.preOps.PreOpsOk? && env.run.Ok? ==>
      r.error.None? && State(r.stack) == (ADOPT, COMPLETE) && r.stack.statusReason == CompletedReason(ADOPT)
    ensures env.preOps.PreOpsOk? ==>
      |r.trace| >= 2 && r.trace[1] == RunGroup(Handler(ADOPT), s.template.order, Some(TimeoutSecs(s, cfg)))
  {
    StackTask(s, ADOPT, false, Some(TimeoutSecs(s, cfg)), AdoptRollback(rollbackEnv), env, cfg)
  }

  /** `check`: forward order, no timeout, then `supports_check_action`. */
  function Check(s: Stack, resources: seq<Support>, env: TaskEnv, cfg: Config): (r: Step)
    ensures r.error.Some? <==> env.preOps.PreOpsOk? && env.run.ForcedCancel?
    ensures env.preOps.PreOpsOk? ==> |r.trace| >= 2 && r.trace[1] == RunGroup(Handler(CHECK), s.template.order, None)
  {
    StackTask(s, CHECK, false, None, CheckSupport(resources), env, cfg)
  }

  /** `suspend`: nothing to do when already (SUSPEND, COMPLETE); otherwise reverse order under the stack's timeout. */
  function Suspend(s: Stack, env: TaskEnv, cfg: Config): (r: Step)
    ensures State(s) == (SUSPEND, COMPLETE) ==> r == Step(s, [], None)
    ensures State(s) != (SUSPEND, COMPLETE) && env.preOps.PreOpsOk? ==>
      |r.trace| >= 2 && r.trace[1] == RunGroup(Handler(SUSPEND), Reverse(s.template.order), Some(TimeoutSecs(s, cfg)))
    ensures State(s) != (SUSPEND, COMPLETE) ==> State(r.stack) == Verdict(SUSPEND, env) && r.stack.template == s.template
  {
    if State(s) == (SUSPEND, COMPLETE) then Step(s, [], None)
    else StackTask(s, SUSPEND, true, Some(TimeoutSecs(s, cfg)), NoPost, env, cfg)
  }

  /** `resume`: nothing to do when already (RESUME, COMPLETE); otherwise forward order under the stack's timeout. */
  function Resume(s: Stack, env: TaskEnv, cfg: Config): (r: Step)
    ensures State(s) == (RESUME, COMPLETE) ==> r == Step(s, [], None)
    ensures State(s) != (RESUME, COMPLETE) && env.preOps.PreOpsOk? ==>
      |r.trace| >= 2 && r.trace[1] == RunGroup(Handler(RESUME), s.template.order, Some(TimeoutSecs(s, cfg)))
    ensures State(s) != (RESUME, COMPLETE) ==> State(r.stack) == Verdict(RESUME, env) && r.stack.template == s.template
  {
    if State(s) == (RESUME, COMPLETE) then Step(s, [], None)
    else StackTask(s, RESUME, false, Some(TimeoutSecs(s, cfg)), NoPost, env, cfg)
  }

  /** `snapshot`: forward order under the stack's timeout. */
  function Snapshot(s: Stack, env: TaskEnv, cfg: Config): (r: Step)
    ensures env.preOps.PreOpsOk? ==>
      |r.trace| >= 2 && r.trace[1] == RunGroup(Handler(SNAPSHOT), s.template.order, Some(TimeoutSecs(s, cfg)))
    ensures State(r.stack) == Verdict(SNAPSHOT, env) && r.stack.template == s.template && r.stack.id == s.id
    ensures env.preOps.PreOpsFailed? ==> r.stack.statusReason == PreOpsReason(env.preOps)
    ensures env.preOps.PreOpsOk? && !env.run.ForcedCancel? ==> r.stack.statusReason == RunVerdict(SNAPSHOT, env.run).1
  {
    StackTask(s, SNAPSHOT, false, Some(TimeoutSecs(s, cfg)), NoPost, env, cfg)
  }

  // ---------------------------------------------------------------------
  // Properties of the entry points.

  /**
    After a pre-ops failure `stack_task` never records its action
    IN_PROGRESS and never runs the action's task group: every state it or
    `post_func` records under the action is FAILED, and the only run that
    can follow is a rollback's destroy run.
   */
  lemma PreOpsFailureSkipsRun(s: Stack, action: Action, reverse: bool, timeout: Option<int>, post: PostFunc, env: TaskEnv, cfg: Config)
    requires env.preOps.PreOpsFailed? && action != ROLLBACK
    ensures var r := StackTask(s, action, reverse, timeout, post, env, cfg);
      && (forall e | e in r.trace && e.StateSet? && e.action == action :: e.status == FAILED)
      && (forall e | e in r.trace && e.RunGroup? :: e.handler == "destroy")
  {
    var reason := PreOpsReason(env.preOps);
    var sf := SetState(s, action, FAILED, reason);
    var p := ApplyPost(sf, post, cfg);
    assert StackTask(s, action, reverse, timeout, post, env, cfg).trace == [StateSetOn(s, action, FAILED, reason)] + p.trace;
    match post
    case NoPost =>
    case CreateRollback(denv) =>
      if RollbackWanted(sf, CREATE) {
        DeleteTrace(sf, ROLLBACK, false, false, denv, cfg);
      }
    case AdoptRollback(denv) =>
      if RollbackWanted(sf, ADOPT) {
        DeleteTrace(sf, ROLLBACK, false, true, denv, cfg);
      }
    case CheckSupport(rs) =>
  }

  /** The rollback condition of `create` and `adopt`, stated by outcome. */
  predicate RollbackExpected(s: Stack, env: TaskEnv) {
    !s.disableRollback && (env.preOps.PreOpsFailed? || (!env.run.Ok? && !env.run.ForcedCancel?))
  }

  /** Whether a trace contains a deletion of the stack domain project. */
  predicate DeletesProject(t: seq<Event>) {
    exists e | e in t :: e.ProjectDeletion?
  }

  /** A trace made of two parts deletes the project exactly when one of them does. */
  lemma DeletesProjectAppend(a: seq<Event>, b: seq<Event>)
    ensures DeletesProject(a + b) <==> DeletesProject(a) || DeletesProject(b)
  {
    if DeletesProject(a + b) {
      var e :| e in a + b && e.ProjectDeletion?;
      assert e in a || e in b;
    }
  }

  /** The rollback `post_func` deletes with ROLLBACK exactly when it is wanted; `adopt`'s never deletes the project. */
  lemma RollbackPost(s1: Stack, a: Action, post: PostFunc, cfg: Config)
    requires (a == CREATE && post.CreateRollback?) || (a == ADOPT && post.AdoptRollback?)
    ensures var p := ApplyPost(s1, post, cfg);
      && (RolledBack(p.trace) <==> RollbackWanted(s1, a))
      && (post.AdoptRollback? ==> !DeletesProject(p.trace))
  {
    var p := ApplyPost(s1, post, cfg);
    var abandon := post.AdoptRollback?;
    var denv := if post.CreateRollback? then post.denv else post.adenv;
    if RollbackWanted(s1, a) {
      var d := Delete(s1, ROLLBACK, false, abandon, denv, cfg);
      DeleteTrace(s1, ROLLBACK, false, abandon, denv, cfg);
      assert p.trace == [PostFuncCalled] + d.trace;
      assert d.trace[0] in p.trace;
    } else {
      assert p.trace == [PostFuncCalled];
    }
  }

  /** The rollback of `create` or `adopt` after a pre-ops failure. */
  lemma RollbackAfterPreOps(s: Stack, a: Action, post: PostFunc, env: TaskEnv, cfg: Config)
    requires (a == CREATE && post.CreateRollback?) || (a == ADOPT && post.AdoptRollback?)
    requires env.preOps.PreOpsFailed?
    ensures var r := StackTask(s, a, false, Some(TimeoutSecs(s, cfg)), post, env, cfg);
      && (RolledBack(r.trace) <==> RollbackExpected(s, env))
      && (post.AdoptRollback? ==> !DeletesProject(r.trace))
  {
    var r := StackTask(s, a, false, Some(TimeoutSecs(s, cfg)), post, env, cfg);
    var reason := PreOpsReason(env.preOps);
    var s1 := SetState(s, a, FAILED, reason);
    RollbackPost(s1, a, post, cfg);
    var p := ApplyPost(s1, post, cfg);
    assert r.trace == [StateSetOn(s, a, FAILED, reason)] + p.trace;
  }

  /** After the run, the rollback `post_func` of `create` or `adopt` deletes exactly when the run failed and rollback is enabled. */
  lemma RollbackAfterRunTail(s1: Stack, a: Action, run: RunOutcome, post: PostFunc, cfg: Config)
    requires (a == CREATE && post.CreateRollback?) || (a == ADOPT && post.AdoptRollback?)
    requires !run.ForcedCancel?
    ensures var f := TaskAfterRun(s1, a, run, post, cfg);
      && (RolledBack(f.trace) <==> !s1.disableRollback && !run.Ok?)
      && (post.AdoptRollback? ==> !DeletesProject(f.trace))
  {
    var f := TaskAfterRun(s1, a, run, post, cfg);
    var v := RunVerdict(a, run);
    var s2 := SetState(s1, a, v.0, v.1);
    RollbackPost(s2, a, post, cfg);
    var p := ApplyPost(s2, post, cfg);
    var head := [StateSetOn(s1, a, v.0, v.1)];
    var tail := if p.error.Some? then [] else [PostOps(a, p.stack.status == FAILED)];
    assert f.trace == head + p.trace + tail;
    assert !RolledBack(head) && !DeletesProject(head) by {
      assert forall e | e in head :: e == head[0];
    }
    assert !RolledBack(tail) && !DeletesProject(tail) by {
      assert forall e | e in tail :: e.PostOps?;
    }
    CleanHead(head, p.trace);
    CleanTail(head + p.trace, tail);
  }

  /** A suffix that records no rollback and deletes no project leaves both questions to the start of the trace. */
  lemma CleanTail(start: seq<Event>, tail: seq<Event>)
    requires !RolledBack(tail) && !DeletesProject(tail)
    ensures RolledBack(start + tail) <==> RolledBack(start)
    ensures DeletesProject(start + tail) <==> DeletesProject(start)
  {
    RolledBackAppend(start, tail);
    DeletesProjectAppend(start, tail);
  }

  /** The first two effects of a `stack_task` past its pre-ops: the IN_PROGRESS record and the run. */
  function TaskHead(s: Stack, action: Action, reverse: bool, timeout: Option<int>): seq<Event> {
    [StateSetOn(s, action, IN_PROGRESS, StartedReason(action)),
     RunGroup(Handler(action), Traversal(s.template.order, reverse), timeout)]
  }

  /** A `stack_task` past its pre-ops whose run raised nothing or an `Exception`: its head, then what follows the run. */
  lemma TaskAfterRunShape(s: Stack, action: Action, reverse: bool, timeout: Option<int>, post: PostFunc, env: TaskEnv, cfg: Config)
    requires env.preOps.PreOpsOk? && !env.run.ForcedCancel?
    ensures var f := TaskAfterRun(SetState(s, action, IN_PROGRESS, StartedReason(action)), action, env.run, post, cfg);
      StackTask(s, action, reverse, timeout, post, env, cfg) == Step(f.stack, TaskHead(s, action, reverse, timeout) + f.trace, f.error)
  {
  }

  /** The rollback of `create` or `adopt` after the run. */
  lemma RollbackAfterRun(s: Stack, a: Action, post: PostFunc, env: TaskEnv, cfg: Config)
    requires (a == CREATE && post.CreateRollback?) || (a == ADOPT && post.AdoptRollback?)
    requires env.preOps.PreOpsOk? && !env.run.ForcedCancel?
    ensures var r := StackTask(s, a, false, Some(TimeoutSecs(s, cfg)), post, env, cfg);
      && (RolledBack(r.trace) <==> RollbackExpected(s, env))
      && (post.AdoptRollback? ==> !DeletesProject(r.trace))
  {
    var sp := SetState(s, a, IN_PROGRESS, StartedReason(a));
    var head := TaskHead(s, a, false, Some(TimeoutSecs(s, cfg)));
    var f := TaskAfterRun(sp, a, env.run, post, cfg);
    TaskAfterRunShape(s, a, false, Some(TimeoutSecs(s, cfg)), post, env, cfg);
    RollbackAfterRunTail(sp, a, env.run, post, cfg);
    TaskHeadClean(s, a, false, Some(TimeoutSecs(s, cfg)));
    CleanHead(head, f.trace);
  }

  /** The head of a `stack_task` records no rollback and deletes no project. */
  lemma TaskHeadClean(s: Stack, action: Action, reverse: bool, timeout: Option<int>)
    requires action != ROLLBACK
    ensures !RolledBack(TaskHead(s, action, reverse, timeout)) && !DeletesProject(TaskHead(s, action, reverse, timeout))
  {
    var head := TaskHead(s, action, reverse, timeout);
    forall e | e in head ensures !(e.StateSet? && e.action == ROLLBACK) && !e.ProjectDeletion? {
      assert e == head[0] || e == head[1];
    }
  }

  /** A prefix that records no rollback and deletes no project leaves both questions to the rest of the trace. */
  lemma CleanHead(head: seq<Event>, rest: seq<Event>)
    requires !RolledBack(head) && !DeletesProject(head)
    ensures RolledBack(head + rest) <==> RolledBack(rest)
    ensures DeletesProject(head + rest) <==> DeletesProject(rest)
  {
    RolledBackAppend(head, rest);
    DeletesProjectAppend(head, rest);
  }

  /** The rollback of `create` or `adopt` runs exactly under the rollback condition; `adopt`'s never deletes the project. */
  lemma RollbackRuns(s: Stack, a: Action, post: PostFunc, env: TaskEnv, cfg: Config)
    requires (a == CREATE && post.CreateRollback?) || (a == ADOPT && post.AdoptRollback?)
    ensures var r := StackTask(s, a, false, Some(TimeoutSecs(s, cfg)), post, env, cfg);
      && (RolledBack(r.trace) <==> RollbackExpected(s, env))
      && (post.AdoptRollback? ==> !DeletesProject(r.trace))
  {
    if env.preOps.PreOpsFailed? {
      RollbackAfterPreOps(s, a, post, env, cfg);
    } else if !env.run.ForcedCancel? {
      RollbackAfterRun(s, a, post, env, cfg);
    } else {
      RollbackAfterCancel(s, a, post, env, cfg);
    }
  }

  /** A `create` or `adopt` whose run is cancelled stops before `post_func`, so it is never rolled back. */
  lemma RollbackAfterCancel(s: Stack, a: Action, post: PostFunc, env: TaskEnv, cfg: Config)
    requires (a == CREATE && post.CreateRollback?) || (a == ADOPT && post.AdoptRollback?)
    requires env.preOps.PreOpsOk? && env.run.ForcedCancel?
    ensures var r := StackTask(s, a, false, Some(TimeoutSecs(s, cfg)), post, env, cfg);
      && !RolledBack(r.trace) && !DeletesProject(r.trace)
  {
    var r := StackTask(s, a, false, Some(TimeoutSecs(s, cfg)), post, env, cfg);
    assert r.trace == TaskHead(s, a, false, Some(TimeoutSecs(s, cfg)));
    TaskHeadClean(s, a, false, Some(TimeoutSecs(s, cfg)));
  }

  /**
    A failed `create` (pre-ops or run, but not an escaping `BaseException`)
    is rolled back by deleting the stack with ROLLBACK, unless rollback is
    disabled; a successful or interrupted one never is.
   */
  lemma CreateRollsBackIff(s: Stack, env: TaskEnv, rollbackEnv: DeleteEnv, cfg: Config)
    ensures RolledBack(Create(s, env, rollbackEnv, cfg).trace) <==> RollbackExpected(s, env)
  {
    RollbackRuns(s, CREATE, CreateRollback(rollbackEnv), env, cfg);
  }

  /**
    `adopt` rolls back under the same condition as `create`, and its
    rollback is an abandon: the stack domain project is never deleted.
   */
  lemma AdoptRollsBackIff(s: Stack, env: TaskEnv, rollbackEnv: DeleteEnv, cfg: Config)
    ensures RolledBack(Adopt(s, env, rollbackEnv, cfg).trace) <==> RollbackExpected(s, env)
    ensures !DeletesProject(Adopt(s, env, rollbackEnv, cfg).trace)
  {
    RollbackRuns(s, ADOPT, AdoptRollback(rollbackEnv), env, cfg);
  }

  /**
    `check` records the verdict of the run; resources without CHECK support
    only append a note to the reason and never change the status.
   */
  lemma CheckOutcome(s: Stack, resources: seq<Support>, env: TaskEnv, cfg: Config)
    requires !(env.preOps.PreOpsOk? && env.run.ForcedCancel?)
    ensures var r := Check(s, resources, env, cfg);
      var note := if forall i | 0 <= i < |resources| :: Supported(resources[i]) then "" else CheckNotSupported;
      && r.error.None?
      && State(r.stack) == Verdict(CHECK, env)
      && (env.preOps.PreOpsFailed? ==> r.stack.statusReason == PreOpsReason(env.preOps) + note)
      && (env.preOps.PreOpsOk? ==> r.stack.statusReason == RunVerdict(CHECK, env.run).1 + note)
  {
    CheckShape(s, resources, env, cfg);
    CheckedReason(s, resources, env);
  }

  /** `supports_check_action` on the recorded verdict keeps the verdict and appends its note to the reason. */
  lemma CheckedReason(s: Stack, resources: seq<Support>, env: TaskEnv)
    requires !(env.preOps.PreOpsOk? && env.run.ForcedCancel?)
    ensures var c := SupportsCheckAction(CheckedStack(s, env), resources).0.stack;
      var note := if forall i | 0 <= i < |resources| :: Supported(resources[i]) then "" else CheckNotSupported;
      && State(c) == Verdict(CHECK, env)
      && (env.preOps.PreOpsFailed? ==> c.statusReason == PreOpsReason(env.preOps) + note)
      && (env.preOps.PreOpsOk? ==> c.statusReason == RunVerdict(CHECK, env.run).1 + note)
  {
    var s1 := CheckedStack(s, env);
    if forall i | 0 <= i < |resources| :: Supported(resources[i]) {
      assert s1.statusReason + "" == s1.statusReason;
    }
  }

  /** The stack `check` hands to `supports_check_action`: the verdict of the pre-ops or of the run recorded. */
  function CheckedStack(s: Stack, env: TaskEnv): Stack
    requires !(env.preOps.PreOpsOk? && env.run.ForcedCancel?)
  {
    if env.preOps.PreOpsFailed? then SetState(s, CHECK, FAILED, PreOpsReason(env.preOps))
    else SetState(s, CHECK, RunVerdict(CHECK, env.run).0, RunVerdict(CHECK, env.run).1)
  }

  /** A `check` that raises nothing leaves the stack `supports_check_action` made of the recorded verdict. */
  lemma CheckShape(s: Stack, resources: seq<Support>, env: TaskEnv, cfg: Config)
    requires !(env.preOps.PreOpsOk? && env.run.ForcedCancel?)
    ensures var r := Check(s, resources, env, cfg);
      r.error.None? && r.stack == SupportsCheckAction(CheckedStack(s, env), resources).0.stack
  {
    if env.preOps.PreOpsOk? {
      var s1 := SetState(s, CHECK, IN_PROGRESS, StartedReason(CHECK));
      var v := RunVerdict(CHECK, env.run);
      assert SetState(s1, CHECK, v.0, v.1) == CheckedStack(s, env);
      TaskAfterRunShape(s, CHECK, false, None, CheckSupport(resources), env, cfg);
    }
  }

  /**
    A `suspend` that completes makes the next one a no-op, and a `resume`
    after it visits the resources in exactly the opposite order.
   */
  lemma SuspendThenResume(s: Stack, env1: TaskEnv, env2: TaskEnv, env3: TaskEnv, cfg: Config)
    requires State(s) != (SUSPEND, COMPLETE)
    requires env1.preOps.PreOpsOk? && env1.run.Ok? && env2.preOps.PreOpsOk?
    ensures var r1 := Suspend(s, env1, cfg);
      && State(r1.stack) == (SUSPEND, COMPLETE)
      && Suspend(r1.stack, env3, cfg) == Step(r1.stack, [], None)
      && var r2 := Resume(r1.stack, env2, cfg);
      && r1.trace[1].RunGroup? && r2.trace[1].RunGroup?
      && r2.trace[1].order == Reverse(r1.trace[1].order)
  {
    ReverseReverse(s.template.order);
  }

  /**
    An adopt whose resources fail, on a stack with rollback disabled (the
    default), ends (ADOPT, FAILED) with the resource failure as its reason
    and is not rolled back.
   */
  lemma AdoptFailureRecorded(s: Stack, msg: string, rollbackEnv: DeleteEnv, cfg: Config)
    requires s.disableRollback
    ensures var r := Adopt(s, TaskEnv(PreOpsOk, ResourceFailure(msg)), rollbackEnv, cfg);
      && r.error.None? && State(r.stack) == (ADOPT, FAILED)
      && r.stack.statusReason == ResourceFailedReason(ADOPT, msg)
      && !RolledBack(r.trace)
  {
    var env := TaskEnv(PreOpsOk, ResourceFailure(msg));
    var s1 := SetState(s, ADOPT, IN_PROGRESS, StartedReason(ADOPT));
    var s2 := SetState(s1, ADOPT, FAILED, ResourceFailedReason(ADOPT, msg));
    var f := TaskAfterRun(s1, ADOPT, env.run, AdoptRollback(rollbackEnv), cfg);
    assert ApplyPost(s2, AdoptRollback(rollbackEnv), cfg) == Step(s2, [PostFuncCalled], None);
    assert f.stack == s2;
    RollbackRuns(s, ADOPT, AdoptRollback(rollbackEnv), env, cfg);
  }
}
