/**
  Building a stack (`Stack.__init__`), the keyword arguments a stack hands
  to a clone of itself (`get_kwargs_for_cloning`), and the action timeout
  (`timeout_secs`).
 */
module StackInit {
  import opened Wrappers
  import opened StackTypes
  import opened StackName

  /** The status part `keep_status=True` adds: keys `action`, `status`, `status_reason`. */
  datatype KeptStatus = KeptStatus(action: Action, status: Status, statusReason: string)

  /**
    The placement-dependent part: with `only_db=True` the database column
    names `parent_resource_name`, `tenant`, `timeout`; otherwise the
    `__init__` parameter names `parent_resource`, `tenant_id`,
    `timeout_mins`, `strict_validate`.
   */
  datatype Placement =
    | DbColumns(parentResourceName: Option<string>, tenant: string, timeout: Option<int>)
    | InitParams(parentResource: Option<string>, tenantId: string, timeoutMins: Option<int>, strictValidate: bool)

  /**
    The dictionary `get_kwargs_for_cloning` returns. The eight common keys are
    fields; `kept` is present iff the status was kept.
   */
  datatype CloneKwargs = CloneKwargs(
    ownerId: Option<nat>,
    username: string,
    disableRollback: bool,
    stackUserProjectId: Option<string>,
    userCredsId: Option<nat>,
    nestedDepth: nat,
    convergence: bool,
    currentTraversal: Option<string>,
    kept: Option<KeptStatus>,
    placement: Placement)

  /**
    The key names of the dictionary, as the source spells them: the common
    keys, the status keys exactly when the status is kept, and the database
    or the `__init__` spelling of the placement keys.
   */
  function KeyNames(kw: CloneKwargs): (r: set<string>)
    ensures "owner_id" in r && "disable_rollback" in r && "user_creds_id" in r
    ensures ("status" in r <==> kw.kept.Some?) && ("status_reason" in r <==> kw.kept.Some?)
    ensures ("tenant" in r <==> kw.placement.DbColumns?) && ("tenant_id" in r <==> kw.placement.InitParams?)
    ensures ("strict_validate" in r <==> kw.placement.InitParams?)
  {
    {"owner_id", "username", "disable_rollback", "stack_user_project_id",
     "user_creds_id", "nested_depth", "convergence", "current_traversal"}
    + (if kw.kept.Some? then {"action", "status", "status_reason"} else {})
    + (match kw.placement
       case DbColumns(_, _, _) => {"parent_resource_name", "tenant", "timeout"}
       case InitParams(_, _, _, _) => {"parent_resource", "tenant_id", "timeout_mins", "strict_validate"})
  }

  /** `get_kwargs_for_cloning(keep_status, only_db)`. */
  function GetKwargsForCloning(s: Stack, keepStatus: bool, onlyDb: bool): (kw: CloneKwargs)
    ensures kw.kept.Some? <==> keepStatus
    ensures kw.placement.DbColumns? <==> onlyDb
    ensures keepStatus ==> kw.kept.value == KeptStatus(s.action, s.status, s.statusReason)
    ensures kw.ownerId == s.ownerId && kw.disableRollback == s.disableRollback && kw.userCredsId == s.userCredsId
    ensures kw.username == s.username && kw.stackUserProjectId == s.stackUserProjectId && kw.nestedDepth == s.nestedDepth
    ensures kw.convergence == s.convergence && kw.currentTraversal == s.currentTraversal
    ensures onlyDb ==>
      kw.placement.parentResourceName == s.parentResourceName && kw.placement.tenant == s.tenantId && kw.placement.timeout == s.timeoutMins
    ensures !onlyDb ==>
      && kw.placement.parentResource == s.parentResourceName && kw.placement.tenantId == s.tenantId
      && kw.placement.timeoutMins == s.timeoutMins && kw.placement.strictValidate == s.strictValidate
  {
    CloneKwargs(
      ownerId := s.ownerId,
      username := s.username,
      disableRollback := s.disableRollback,
      stackUserProjectId := s.stackUserProjectId,
      userCredsId := s.userCredsId,
      nestedDepth := s.nestedDepth,
      convergence := s.convergence,
      currentTraversal := s.currentTraversal,
      kept := if keepStatus then Some(KeptStatus(s.action, s.status, s.statusReason)) else None,
      placement :=
        if onlyDb then DbColumns(s.parentResourceName, s.tenantId, s.timeoutMins)
        else InitParams(s.parentResourceName, s.tenantId, s.timeoutMins, s.strictValidate))
  }

  /** The keyword parameters of `Stack.__init__` this model keeps, with their Python defaults below. */
  datatype InitArgs = InitArgs(
    stackId: Option<nat>,
    action: Option<Action>,
    status: Option<Status>,
    statusReason: string,
    timeoutMins: Option<int>,
    disableRollback: bool,
    parentResource: Option<string>,
    ownerId: Option<nat>,
    adopt: bool,
    stackUserProjectId: Option<string>,
    userCredsId: Option<nat>,
    tenantId: string,
    username: string,
    nestedDepth: nat,
    strictValidate: bool,
    convergence: bool,
    currentTraversal: Option<string>)

  /** The defaults of `__init__`: no id, no action or status, empty reason, rollback disabled, and so on. */
  const DefaultArgs: InitArgs := InitArgs(
    None, None, None, "", None, true, None, None, false, None, None, "", "", 0, true, false, None)

  /** The message `StackValidationFailed` carries for a rejected name. */
  function InvalidNameMessage(name: string): string {
    "Invalid stack name " + name + " must contain only alphanumeric or \"_-.\" characters, must start with alpha"
  }

  /**
    `Stack.__init__`: a stack without an owner must have a valid name;
    owned (nested and backup) stacks are never checked. The action defaults
    to ADOPT when adopt data is given, else to CREATE; the status to
    IN_PROGRESS; an empty tenant or user name falls back to the context's.
   */
  function Init(ctx: Context, name: string, t: Template, args: InitArgs): (r: Result<Stack, Error>)
    ensures r.Failure? <==> args.ownerId.None? && !ValidStackName(name)
    ensures r.Failure? ==> r.error == ValidationFailed(InvalidNameMessage(name))
    ensures r.Success? ==>
      && r.value.name == name && r.value.template == t && r.value.id == args.stackId
      && r.value.ownerId == args.ownerId
      && r.value.action == (if args.adopt then ADOPT else if args.action.None? then CREATE else args.action.value)
      && r.value.status == (if args.status.None? then IN_PROGRESS else args.status.value)
      && r.value.statusReason == args.statusReason
      && r.value.tenantId == (if args.tenantId != "" then args.tenantId else ctx.tenantId)
      && r.value.username == (if args.username != "" then args.username else ctx.username)
      && r.value.disableRollback == args.disableRollback && r.value.timeoutMins == args.timeoutMins
  {
    if args.ownerId.None? && !ValidStackName(name) then
      Failure(ValidationFailed(InvalidNameMessage(name)))
    else
      Success(Stack(
        id := args.stackId,
        name := name,
        ownerId := args.ownerId,
        context := ctx,
        template := t,
        action := if args.adopt then ADOPT else if args.action.None? then CREATE else args.action.value,
        status := if args.status.None? then IN_PROGRESS else args.status.value,
        statusReason := args.statusReason,
        timeoutMins := args.timeoutMins,
        disableRollback := args.disableRollback,
        parentResourceName := args.parentResource,
        stackUserProjectId := args.stackUserProjectId,
        userCredsId := args.userCredsId,
        tenantId := if args.tenantId != "" then args.tenantId else ctx.tenantId,
        username := if args.username != "" then args.username else ctx.username,
        nestedDepth := args.nestedDepth,
        strictValidate := args.strictValidate,
        convergence := args.convergence,
        currentTraversal := args.currentTraversal))
  }

  /**
    Where construction departs from the name check as written: without an
    owner it fails exactly when the as-written check rejects the name, or
    the name is a valid one followed by a final newline, which the
    as-written check lets through.
   */
  lemma InitAgainstAsWritten(ctx: Context, name: string, t: Template, args: InitArgs)
    ensures Init(ctx, name, t, args).Failure? <==>
      args.ownerId.None? && (!MatchesAsWritten(name) || (|name| >= 2 && name[|name| - 1] == '\n' && ValidStackName(name[..|name| - 1])))
  {
    MatchesAsWrittenCharacterised(name);
  }

  /**
    Passing the non-database dictionary as `**kwargs` to `__init__`: each
    key present overrides its default.
   */
  function ArgsFromKwargs(kw: CloneKwargs): InitArgs
    requires kw.placement.InitParams?
  {
    var p := kw.placement;
    DefaultArgs.(
      action := if kw.kept.Some? then Some(kw.kept.value.action) else None,
      status := if kw.kept.Some? then Some(kw.kept.value.status) else None,
      statusReason := if kw.kept.Some? then kw.kept.value.statusReason else DefaultArgs.statusReason,
      timeoutMins := p.timeoutMins,
      disableRollback := kw.disableRollback,
      parentResource := p.parentResource,
      ownerId := kw.ownerId,
      stackUserProjectId := kw.stackUserProjectId,
      userCredsId := kw.userCredsId,
      tenantId := p.tenantId,
      username := kw.username,
      nestedDepth := kw.nestedDepth,
      strictValidate := p.strictValidate,
      convergence := kw.convergence,
      currentTraversal := kw.currentTraversal)
  }

  /**
    A clone built from `get_kwargs_for_cloning()` keeps everything the
    dictionary carries and starts afresh otherwise: no id, and unless the
    status is kept, the state (CREATE, IN_PROGRESS) with an empty reason.
   */
  lemma CloneRoundTrip(s: Stack, keepStatus: bool)
    requires s.ownerId.Some? || ValidStackName(s.name)
    ensures var r := Init(s.context, s.name, s.template, ArgsFromKwargs(GetKwargsForCloning(s, keepStatus, false)));
      && r.Success?
      && r.value.id.None?
      && r.value.ownerId == s.ownerId
      && r.value.disableRollback == s.disableRollback
      && r.value.timeoutMins == s.timeoutMins
      && r.value.userCredsId == s.userCredsId
      && r.value.stackUserProjectId == s.stackUserProjectId
      && r.value.parentResourceName == s.parentResourceName
      && r.value.nestedDepth == s.nestedDepth
      && r.value.convergence == s.convergence
      && r.value.strictValidate == s.strictValidate
      && r.value.currentTraversal == s.currentTraversal
      && (s.tenantId != "" ==> r.value.tenantId == s.tenantId)
      && (s.username != "" ==> r.value.username == s.username)
      && (keepStatus ==> State(r.value) == State(s) && r.value.statusReason == s.statusReason)
      && (!keepStatus ==> State(r.value) == (CREATE, IN_PROGRESS) && r.value.statusReason == "")
  {
  }

  /**
    `timeout_secs`: the stack's own timeout converted from minutes, or the
    configured `stack_action_timeout` when the stack has none.
   */
  function TimeoutSecs(s: Stack, cfg: Config): (r: int)
    ensures s.timeoutMins.None? ==> r == cfg.stackActionTimeout
    ensures s.timeoutMins.Some? ==> r % 60 == 0 && r / 60 == s.timeoutMins.value
  {
    match s.timeoutMins
    case None => cfg.stackActionTimeout
    case Some(m) => m * 60
  }
}
