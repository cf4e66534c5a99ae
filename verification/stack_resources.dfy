/**
  The two stack operations that work resource by resource: finding the
  resource a reference id names (`resource_by_refid`) and restarting a
  resource together with everything that depends on it
  (`restart_resource`).
 */
module StackResources {
  import opened Wrappers
  import opened StackTypes

  /** A resource's action: the stack's actions plus INIT, the state of a resource not yet acted on. */
  datatype ResourceAction = INIT | Acting(a: Action)

  /** What `resource_by_refid` reads of a resource: its name, state and `FnGetRefId()`. */
  datatype Resource = Resource(name: string, action: ResourceAction, status: Status, refId: string)

  /**
    The states in which a resource can be found by its reference id:
    (INIT, COMPLETE), and IN_PROGRESS or COMPLETE under CREATE, RESUME or
    UPDATE.
   */
  predicate Referenceable(r: Resource) {
    || (r.action == INIT && r.status == COMPLETE)
    || (r.action in {Acting(CREATE), Acting(RESUME), Acting(UPDATE)} && r.status in {IN_PROGRESS, COMPLETE})
  }

  /** Whether `r` is what `resource_by_refid(refid)` looks for. */
  predicate Answers(r: Resource, refid: string) {
    Referenceable(r) && r.refId == refid
  }

  /**
    `resource_by_refid(refid)`: the first resource, in the stack's order,
    that is in a referenceable state and has that reference id; None when
    there is none.
   */
  method ResourceByRefId(rs: seq<Resource>, refid: string) returns (r: Option<Resource>)
    ensures r.None? <==> forall i | 0 <= i < |rs| :: !Answers(rs[i], refid)
    ensures r.Some? ==> exists i | 0 <= i < |rs| :: rs[i] == r.value && Answers(rs[i], refid)
                                                   && forall k | 0 <= k < i :: !Answers(rs[k], refid)
  {
    var i := 0;
    while i < |rs|
      invariant 0 <= i <= |rs|
      invariant forall k | 0 <= k < i :: !Answers(rs[k], refid)
    {
      if Answers(rs[i], refid) {
        return Some(rs[i]);
      }
      i := i + 1;
    }
    return None;
  }

  /** What a restart does to one resource. */
  datatype RestartEvent =
      /** `destroy` ran; `ok` is false when it raised `ResourceFailure`. */
    | Destroyed(name: string, ok: bool)
      /** `state_reset` and `create` ran; `ok` is false when `create` raised `ResourceFailure`. */
    | Created(name: string, ok: bool)
      /** The resource was set to (CREATE, FAILED) with `AbortedReason` instead of being created. */
    | Aborted(name: string)

  /** The reason an aborted resource is left with. */
  const AbortedReason: string := "Resource restart aborted"

  /**
    Whether the restart still creates the `j`-th dependant: no destroy
    failed and none of the earlier creates did.
   */
  predicate CreateReached(deps: seq<string>, destroyFails: set<string>, createFails: set<string>, j: int)
    requires 0 <= j <= |deps|
  {
    && (forall k | 0 <= k < |deps| :: deps[k] !in destroyFails)
    && (forall k | 0 <= k < j :: deps[k] !in createFails)
  }

  /** The event of the `j`-th dependant in the create phase. */
  function CreateEvent(deps: seq<string>, destroyFails: set<string>, createFails: set<string>, j: int): RestartEvent
    requires 0 <= j < |deps|
  {
    if CreateReached(deps, destroyFails, createFails, j) then Created(deps[j], deps[j] !in createFails)
    else Aborted(deps[j])
  }

  /**
    `restart_resource(resource_name)`. A name the stack does not hold
    raises `KeyError`. Otherwise `deps`, the resource and everything that
    depends on it in dependency order, are destroyed in reverse order, a
    failing destroy not stopping the rest; then they are created in order
    as long as nothing has failed, and every one after the first failure
    is marked aborted instead. The resources whose destroy or create raises
    `ResourceFailure` are given as `destroyFails` and `createFails`.
   */
  method RestartResource(resources: set<string>, resourceName: string, deps: seq<string>,
                         destroyFails: set<string>, createFails: set<string>)
    returns (r: Result<seq<RestartEvent>, Error>)
    ensures r.Failure? <==> resourceName !in resources
    ensures r.Failure? ==> r.error == KeyMissing(resourceName)
    ensures r.Success? ==> |r.value| == 2 * |deps|
    ensures r.Success? ==> forall i | 0 <= i < |deps| ::
      r.value[i] == Destroyed(deps[|deps| - 1 - i], deps[|deps| - 1 - i] !in destroyFails)
    ensures r.Success? ==> forall j | 0 <= j < |deps| ::
      r.value[|deps| + j] == CreateEvent(deps, destroyFails, createFails, j)
  {
    if resourceName !in resources {
      return Failure(KeyMissing(resourceName));
    }
    var events: seq<RestartEvent> := [];
    var failed := false;
    var i := |deps|;
    while i > 0
      invariant 0 <= i <= |deps|
      invariant |events| == |deps| - i
      invariant forall k | 0 <= k < |events| ::
        events[k] == Destroyed(deps[|deps| - 1 - k], deps[|deps| - 1 - k] !in destroyFails)
      invariant failed <==> exists k | i <= k < |deps| :: deps[k] in destroyFails
    {
      i := i - 1;
      var ok := deps[i] !in destroyFails;
      events := events + [Destroyed(deps[i], ok)];
      if !ok {
        failed := true;
      }
    }
    var j := 0;
    while j < |deps|
      invariant 0 <= j <= |deps|
      invariant |events| == |deps| + j
      invariant forall k | 0 <= k < |deps| ::
        events[k] == Destroyed(deps[|deps| - 1 - k], deps[|deps| - 1 - k] !in destroyFails)
      invariant forall k | 0 <= k < j :: events[|deps| + k] == CreateEvent(deps, destroyFails, createFails, k)
      invariant failed <==> !CreateReached(deps, destroyFails, createFails, j)
    {
      if !failed {
        var ok := deps[j] !in createFails;
        events := events + [Created(deps[j], ok)];
        if !ok {
          failed := true;
        }
      } else {
        events := events + [Aborted(deps[j])];
      }
      j := j + 1;
    }
    return Success(events);
  }

  /**
    The create phase fails at most once: after the first failed create, or
    after any failed destroy, every later dependant is aborted, so no two
    creates fail.
   */
  lemma AtMostOneCreateFails(deps: seq<string>, destroyFails: set<string>, createFails: set<string>, j1: int, j2: int)
    requires 0 <= j1 < j2 < |deps|
    requires CreateEvent(deps, destroyFails, createFails, j1) == Created(deps[j1], false)
    ensures CreateEvent(deps, destroyFails, createFails, j2) == Aborted(deps[j2])
  {
    assert deps[j1] in createFails;
  }

  /**
    When no destroy and no create fails, every dependant is created again,
    in dependency order, and none is aborted.
   */
  lemma CleanRestartRecreatesAll(deps: seq<string>, destroyFails: set<string>, createFails: set<string>, j: int)
    requires forall k | 0 <= k < |deps| :: deps[k] !in destroyFails && deps[k] !in createFails
    requires 0 <= j < |deps|
    ensures CreateEvent(deps, destroyFails, createFails, j) == Created(deps[j], true)
  {
  }

  /**
    A failed destroy aborts the whole create phase: no dependant is created.
   */
  lemma FailedDestroyAbortsAll(deps: seq<string>, destroyFails: set<string>, createFails: set<string>, d: int, j: int)
    requires 0 <= d < |deps| && deps[d] in destroyFails
    requires 0 <= j < |deps|
    ensures CreateEvent(deps, destroyFails, createFails, j) == Aborted(deps[j])
  {
  }
}
