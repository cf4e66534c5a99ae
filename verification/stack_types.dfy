/**
  The data model of a Heat stack as the lifecycle operations see it: the
  (action, status, status_reason) triple, the stack record, the outcomes the
  collaborators (pre-ops hooks, the dependency task group, Keystone) can
  report, and the trace of observable effects an operation leaves behind.
 */
module StackTypes {
  import opened Wrappers

  /** The stack actions, in the order `Stack.ACTIONS` lists them. */
  datatype Action = CREATE | DELETE | UPDATE | ROLLBACK | SUSPEND | RESUME | ADOPT | SNAPSHOT | CHECK | RESTORE

  /** The stack statuses, in the order `Stack.STATUSES` lists them. */
  datatype Status = IN_PROGRESS | FAILED | COMPLETE

  /** The string the source uses for an action. */
  function ActionName(a: Action): string {
    match a
    case CREATE => "CREATE"
    case DELETE => "DELETE"
    case UPDATE => "UPDATE"
    case ROLLBACK => "ROLLBACK"
    case SUSPEND => "SUSPEND"
    case RESUME => "RESUME"
    case ADOPT => "ADOPT"
    case SNAPSHOT => "SNAPSHOT"
    case CHECK => "CHECK"
    case RESTORE => "RESTORE"
  }

  /** The string the source uses for a status. */
  function StatusName(s: Status): string {
    match s
    case IN_PROGRESS => "IN_PROGRESS"
    case FAILED => "FAILED"
    case COMPLETE => "COMPLETE"
  }

  /** Membership of a string in `Stack.ACTIONS`, returning the action it names. */
  function ParseAction(s: string): (r: Option<Action>)
    ensures r.Some? ==> ActionName(r.value) == s
    ensures r.None? ==> forall a :: ActionName(a) != s
  {
    if s == "CREATE" then Some(CREATE)
    else if s == "DELETE" then Some(DELETE)
    else if s == "UPDATE" then Some(UPDATE)
    else if s == "ROLLBACK" then Some(ROLLBACK)
    else if s == "SUSPEND" then Some(SUSPEND)
    else if s == "RESUME" then Some(RESUME)
    else if s == "ADOPT" then Some(ADOPT)
    else if s == "SNAPSHOT" then Some(SNAPSHOT)
    else if s == "CHECK" then Some(CHECK)
    else if s == "RESTORE" then Some(RESTORE)
    else None
  }

  /** Membership of a string in `Stack.STATUSES`, returning the status it names. */
  function ParseStatus(s: string): (r: Option<Status>)
    ensures r.Some? ==> StatusName(r.value) == s
    ensures r.None? ==> forall st :: StatusName(st) != s
  {
    if s == "IN_PROGRESS" then Some(IN_PROGRESS)
    else if s == "FAILED" then Some(FAILED)
    else if s == "COMPLETE" then Some(COMPLETE)
    else None
  }

  /** Every action's name parses back to that action. */
  lemma ParseActionName(a: Action)
    ensures ParseAction(ActionName(a)) == Some(a)
  {
    match a
    case CREATE =>
    case DELETE =>
    case UPDATE =>
    case ROLLBACK =>
    case SUSPEND =>
    case RESUME =>
    case ADOPT =>
    case SNAPSHOT =>
    case CHECK =>
    case RESTORE =>
  }

  /** Every status's name parses back to that status. */
  lemma ParseStatusName(st: Status)
    ensures ParseStatus(StatusName(st)) == Some(st)
  {
    match st
    case IN_PROGRESS =>
    case FAILED =>
    case COMPLETE =>
  }

  // ---------------------------------------------------------------------
  // ASCII case handling: `str.lower()` and `str.title()` on the names above.

  predicate IsUpper(c: char) { 'A' <= c <= 'Z' }
  predicate IsLower(c: char) { 'a' <= c <= 'z' }
  predicate IsAsciiLetter(c: char) { IsUpper(c) || IsLower(c) }

  function UpperChar(c: char): char {
    if IsLower(c) then (c as int - 32) as char else c
  }

  function LowerChar(c: char): char {
    if IsUpper(c) then (c as int + 32) as char else c
  }

  /** `str.lower()` restricted to ASCII. */
  function Lower(s: string): (r: string)
    ensures |r| == |s|
    ensures forall i | 0 <= i < |s| :: r[i] == LowerChar(s[i])
  {
    if s == [] then [] else [LowerChar(s[0])] + Lower(s[1..])
  }

  /** `str.title()` from a position whose predecessor is (or is not) a letter. */
  function TitleFrom(s: string, afterLetter: bool): (r: string)
    ensures |r| == |s|
  {
    if s == [] then []
    else
      var c := s[0];
      var c' := if !IsAsciiLetter(c) then c else if afterLetter then LowerChar(c) else UpperChar(c);
      [c'] + TitleFrom(s[1..], IsAsciiLetter(c))
  }

  /** `str.title()` restricted to ASCII: each run of letters starts upper-case, the rest is lower-case. */
  function Title(s: string): string {
    TitleFrom(s, false)
  }

  predicate AllLetters(s: string) {
    forall i | 0 <= i < |s| :: IsAsciiLetter(s[i])
  }

  /** After a letter, a run of letters is simply lower-cased. */
  lemma {:induction false} TitleAfterLetter(s: string)
    requires AllLetters(s)
    ensures TitleFrom(s, true) == Lower(s)
  {
    if s != [] {
      assert AllLetters(s[1..]) by {
        forall i | 0 <= i < |s[1..]| ensures IsAsciiLetter(s[1..][i]) {
          assert s[1..][i] == s[i + 1];
        }
      }
      TitleAfterLetter(s[1..]);
    }
  }

  /** A single word comes out capitalised: first letter upper, the rest lower. */
  lemma TitleOfWord(s: string)
    requires s != [] && AllLetters(s)
    ensures Title(s) == [UpperChar(s[0])] + Lower(s[1..])
  {
    assert AllLetters(s[1..]) by {
      forall i | 0 <= i < |s[1..]| ensures IsAsciiLetter(s[1..][i]) {
        assert s[1..][i] == s[i + 1];
      }
    }
    TitleAfterLetter(s[1..]);
  }

  /** The title-cased name of an action, as `'%s timed out' % action.title()` uses it. */
  lemma ActionTitle(a: Action)
    ensures Title(ActionName(a)) == [ActionName(a)[0]] + Lower(ActionName(a)[1..])
  {
    var n := ActionName(a);
    assert AllLetters(n) by {
      match a
      case CREATE =>
      case DELETE =>
      case UPDATE =>
      case ROLLBACK =>
      case SUSPEND =>
      case RESUME =>
      case ADOPT =>
      case SNAPSHOT =>
      case CHECK =>
      case RESTORE =>
    }
    assert IsUpper(n[0]) by {
      match a
      case CREATE =>
      case DELETE =>
      case UPDATE =>
      case ROLLBACK =>
      case SUSPEND =>
      case RESUME =>
      case ADOPT =>
      case SNAPSHOT =>
      case CHECK =>
      case RESTORE =>
    }
    TitleOfWord(n);
  }

  // ---------------------------------------------------------------------
  // The stack record.

  /**
    The parts of a template the lifecycle operations handle. The body, the
    attached files and the environment are opaque; `order` is the forward
    dependency order of the template's resources, as the dependency graph
    (not part of this model) yields it.
   */
  datatype Template = Template(body: string, files: string, env: string, order: seq<string>)

  /** The request context the stack was built from; only the fallbacks `__init__` reads. */
  datatype Context = Context(tenantId: string, username: string)

  /** Process-wide configuration the operations read. */
  datatype Config = Config(stackActionTimeout: int)

  /** The fields of `Stack` the lifecycle operations read or write. */
  datatype Stack = Stack(
    id: Option<nat>,
    name: string,
    ownerId: Option<nat>,
    context: Context,
    template: Template,
    action: Action,
    status: Status,
    statusReason: string,
    timeoutMins: Option<int>,
    disableRollback: bool,
    parentResourceName: Option<string>,
    stackUserProjectId: Option<string>,
    userCredsId: Option<nat>,
    tenantId: string,
    username: string,
    nestedDepth: nat,
    strictValidate: bool,
    convergence: bool,
    currentTraversal: Option<string>)

  /**
    Python truthiness of a stack: `Stack` is a mapping from resource names
    to resources, so a stack without resources is false.
   */
  predicate HasResources(s: Stack) {
    |s.template.order| > 0
  }

  /**
    The `state` property: the (action, status) pair. It is all of the state
    but the reason: writing it back with the stack's own reason changes
    nothing.
   */
  function State(s: Stack): (p: (Action, Status))
    ensures SetState(s, p.0, p.1, s.statusReason) == s
  {
    (s.action, s.status)
  }

  // ---------------------------------------------------------------------
  // Collaborator outcomes.

  /** What `lifecycle_plugin_utils.do_pre_ops` did: returned, or raised an exception with its args. */
  datatype PreOps = PreOpsOk | PreOpsFailed(firstArg: Option<string>, text: string)

  /** The reason recorded when pre-ops raise: the exception's first argument, else a generic message. */
  function PreOpsReason(p: PreOps): string
    requires p.PreOpsFailed?
  {
    match p.firstArg
    case Some(m) => m
    case None => "Failed stack pre-ops: " + p.text
  }

  /**
    How a scheduled run (a dependency task group, or a stack update) ended:
    normally, by `scheduler.Timeout`, by `exception.ResourceFailure`, by any
    other `Exception`, or by `ForcedCancel` (a `BaseException`).
   */
  datatype RunOutcome = Ok | Timeout | ResourceFailure(msg: string) | OtherError(msg: string) | ForcedCancel

  /** Whether a foreign call (Keystone, the backup stack's deletion) returned or raised. */
  datatype CallResult = Succeeded | CallRaised(msg: string)

  /** `'Stack %s started' % action`. */
  function StartedReason(a: Action): string {
    "Stack " + ActionName(a) + " started"
  }

  /** `'Stack %s completed successfully' % action`. */
  function CompletedReason(a: Action): string {
    "Stack " + ActionName(a) + " completed successfully"
  }

  /** `'%s timed out' % action.title()`. */
  function TimedOutReason(a: Action): string {
    Title(ActionName(a)) + " timed out"
  }

  /** `'Resource %s failed: %s' % (action, ex)`. */
  function ResourceFailedReason(a: Action, msg: string): string {
    "Resource " + ActionName(a) + " failed: " + msg
  }

  /**
    The (status, reason) a stack operation records after a run that did not
    escape with a `BaseException`: COMPLETE, or FAILED with the timeout or
    the exception's text.
   */
  function RunVerdict(action: Action, run: RunOutcome): (v: (Status, string))
    requires !run.ForcedCancel?
    ensures v.0 == COMPLETE <==> run.Ok?
    ensures v.0 != IN_PROGRESS
    ensures run.Ok? ==> v.1 == CompletedReason(action)
    ensures run.Timeout? ==> v.1 == TimedOutReason(action)
    ensures run.ResourceFailure? || run.OtherError? ==> v.1 == ResourceFailedReason(action, run.msg)
  {
    match run
    case Ok => (COMPLETE, CompletedReason(action))
    case Timeout => (FAILED, TimedOutReason(action))
    case ResourceFailure(m) => (FAILED, ResourceFailedReason(action, m))
    case OtherError(m) => (FAILED, ResourceFailedReason(action, m))
  }

  /** `str(ForcedCancel())`. */
  const CancelledMessage: string := "Operation cancelled"

  /** An exception an operation lets escape to its caller. */
  datatype Error =
    | ValueError(msg: string)
    | ValidationFailed(msg: string)
    | Cancelled
    | Raised(msg: string)
    | KeyMissing(key: string)

  // ---------------------------------------------------------------------
  // Observable effects.

  /** One observable effect of an operation, in the order it happens. */
  datatype Event =
      /** A `state_set` call; `persisted` says whether the stack had an id, so the row was written. */
    | StateSet(action: Action, status: Status, reason: string, persisted: bool)
      /** A dependency task group calling `handler` on each resource in `order`, under `timeout` seconds if any. */
    | RunGroup(handler: string, order: seq<string>, timeout: Option<int>)
      /** The `post_func` of `stack_task` was called. */
    | PostFuncCalled
      /** `do_post_ops` was called, with its `failed` flag. */
    | PostOps(action: Action, failed: bool)
      /** A `StackUpdate` was run with this timeout. */
    | RunUpdate(action: Action, rollback: bool, limit: int)
      /** `cancel_all` on the cancelled update. */
    | CancelAll
      /** The backup stack was deleted (with `backup=True`) after a successful update. */
    | BackupDeleted
      /** `delete` ran `_delete_backup_stack`; the backup stack ended in `status`. */
    | BackupStackDeleted(status: Status)
      /** The stack's snapshots were deleted. */
    | SnapshotsDeleted
      /** A Keystone trust deletion was attempted. */
    | TrustDeletion(trustId: string)
      /** The stored user credentials were deleted and `user_creds_id` cleared and stored. */
    | UserCredsDeleted
      /** A stack domain project deletion was attempted. */
    | ProjectDeletion(projectId: string)
      /** `update_task` wrote the final state directly and called `store()`. */
    | Stored(action: Action, status: Status, reason: string)
      /** The stack's database row was deleted. */
    | RecordDeleted

  /** The result of an operation: the new stack, the effects in order, and the exception it raised, if any. */
  datatype Step = Step(stack: Stack, trace: seq<Event>, error: Option<Error>)

  /** The stack after a `state_set` that passed its argument checks. */
  function SetState(s: Stack, a: Action, st: Status, reason: string): Stack {
    s.(action := a, status := st, statusReason := reason)
  }

  /** The event a `state_set` call on `s` leaves: the row is written only when `s` has an id. */
  function StateSetOn(s: Stack, a: Action, st: Status, reason: string): Event {
    StateSet(a, st, reason, s.id.Some?)
  }

  /** A step consisting of one `state_set` call. */
  function Record(s: Stack, a: Action, st: Status, reason: string): Step {
    Step(SetState(s, a, st, reason), [StateSetOn(s, a, st, reason)], None)
  }

  /**
    `state_set(action, status, reason)` on the names as given: a name that
    is not one of the stack's actions or statuses raises `ValueError`
    before anything changes; otherwise the state and reason are set, and
    the row is written only when the stack has an id.
   */
  function StateSetNamed(s: Stack, action: string, status: string, reason: string): (r: Step)
    ensures r.error.Some? <==> (forall a :: ActionName(a) != action) || (forall st :: StatusName(st) != status)
    ensures (forall a :: ActionName(a) != action) ==> r.error == Some(ValueError("Invalid action " + action))
    ensures r.error.Some? ==> r.stack == s && r.trace == []
    ensures r.error.None? ==>
      && ActionName(r.stack.action) == action && StatusName(r.stack.status) == status
      && r.stack == SetState(s, r.stack.action, r.stack.status, reason)
      && r.trace == [StateSet(r.stack.action, r.stack.status, reason, s.id.Some?)]
  {
    match ParseAction(action)
    case None => Step(s, [], Some(ValueError("Invalid action " + action)))
    case Some(a) =>
      match ParseStatus(status)
      case None => Step(s, [], Some(ValueError("Invalid status " + status)))
      case Some(st) => Record(s, a, st, reason)
  }

  /**
    Every typed state change is a `state_set` call with the action's and
    status's names, after which `state` reads back that pair.
   */
  lemma StateSetByName(s: Stack, a: Action, st: Status, reason: string)
    ensures StateSetNamed(s, ActionName(a), StatusName(st), reason) == Record(s, a, st, reason)
    ensures var r := StateSetNamed(s, ActionName(a), StatusName(st), reason);
      r.error.None? && State(r.stack) == (a, st) && r.stack.statusReason == reason
  {
    ParseActionName(a);
    ParseStatusName(st);
  }

  /** Whether a trace records any state under the action ROLLBACK: a rollback was started. */
  predicate RolledBack(t: seq<Event>) {
    exists e | e in t :: e.StateSet? && e.action == ROLLBACK
  }

  /** A trace made of two parts rolls back exactly when one of them does. */
  lemma RolledBackAppend(a: seq<Event>, b: seq<Event>)
    ensures RolledBack(a + b) <==> RolledBack(a) || RolledBack(b)
  {
    if RolledBack(a + b) {
      var e :| e in a + b && e.StateSet? && e.action == ROLLBACK;
      assert e in a || e in b;
    }
  }

  /** The resources in the order a task group visits them: forward, or reversed for teardown. */
  function Traversal(order: seq<string>, reverse: bool): (r: seq<string>)
    ensures |r| == |order|
    ensures forall i | 0 <= i < |order| :: r[i] == (if reverse then order[|order| - 1 - i] else order[i])
  {
    if reverse then Reverse(order) else order
  }

  function Reverse<T>(s: seq<T>): (r: seq<T>)
    ensures |r| == |s|
    ensures forall i | 0 <= i < |s| :: r[i] == s[|s| - 1 - i]
  {
    if s == [] then [] else Reverse(s[1..]) + [s[0]]
  }

  /** Reversing twice gives the original order back. */
  lemma {:induction false} ReverseReverse<T>(s: seq<T>)
    ensures Reverse(Reverse(s)) == s
  {
    var r := Reverse(Reverse(s));
    assert |r| == |s|;
    forall i | 0 <= i < |s| ensures r[i] == s[i] {
      assert r[i] == Reverse(s)[|s| - 1 - i];
    }
  }
}
