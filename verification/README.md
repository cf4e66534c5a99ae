# Heat stack lifecycle, modelled in Dafny

This project models the lifecycle state machine of a Heat orchestration
stack (`heat/engine/stack.py`, class `Stack`). A stack carries an
(action, status, status_reason) triple. Every lifecycle operation moves it
through `state_set` calls:

- `create`, `adopt`, `check`, `suspend`, `resume` and `snapshot` all go through `stack_task`;
- `update_task` covers update, rollback and restore;
- `delete` also cleans up the backup stack and the credentials.

The model is functional. An operation is a pure function from a `Stack`
record and the outcomes of its collaborators to a `Step`, which holds:

- the resulting stack;
- the trace of observable effects: `state_set` calls, task-group runs, post-ops calls, Keystone calls, record deletion;
- the exception that escapes, if any.

The collaborators' outcomes are parameters:

- `PreOps`: the lifecycle-plugin pre-operation hook succeeded or raised.
- `RunOutcome`: the dependency task group finished, timed out, raised `ResourceFailure`, raised another `Exception`, or was interrupted by `ForcedCancel`.
- `CredsEnv`: the Keystone calls.
- `DeleteEnv` / `UpdateEnv`: the backup stack and the rollback pass.
- `Pass`: one pass of `update_task`: its pre-ops, its run, the template body and resource order the run leaves behind (`Residue`), and what deleting the backup stack raised.

`ForcedCancel` derives from `BaseException`. The `except Exception` blocks
therefore do not catch it, and the model follows that:

- in `stack_task` the stack stays IN_PROGRESS and the error escapes;
- `delete` catches only `ResourceFailure` and `Timeout`;
- `update_task` catches `Timeout`, `ForcedCancel` and `ResourceFailure`.

Files:

- `wrappers.dfy`: `Option`, `Result`, and Python truthiness of optional ids and strings.
- `stack_types.dfy`: actions, statuses, the stack record, events, and `state_set` on names.
- `stack_name.dfy`: the stack-name check and `_backup_name`.
- `stack_init.dfy`: `__init__`, `get_kwargs_for_cloning` and `timeout_secs`.
- `stack_delete.dfy`: `delete` and `_delete_credentials`.
- `stack_task.dfy`: `stack_task` and the operations built on it.
- `stack_update.dfy`: `update_task` and `restore`.
- `stack_resources.dfy`: `resource_by_refid` and `restart_resource`.

A stack is a `collections.Mapping` over its resources, so an empty backup
stack is falsy. `delete` skips such a backup stack entirely, and the model
keeps that (`StackDelete.EmptyBackupIgnored`).

## Model

| member | source | states |
|---|---|---|
| StackTypes.ParseAction | heat/engine/stack.py:65-71 | a string names an action exactly when it is one of the ten `ACTIONS` spellings, and parsing gives that action back |
| StackTypes.ParseStatus | heat/engine/stack.py:73-74 | a string names a status exactly when it is one of the three `STATUSES` spellings |
| StackTypes.ParseActionName | heat/engine/stack.py:65-71 | every action's name parses back to the action |
| StackTypes.ParseStatusName | heat/engine/stack.py:73-74 | every status's name parses back to the status |
| StackTypes.StateSetNamed | heat/engine/stack.py:660-687 | `state_set` raises `ValueError("Invalid action …")` exactly when the action is not a stack action, or raises for a bad status; it then changes nothing; otherwise it sets exactly action, status and reason, and writes the row only when the stack has an id |
| StackTypes.StateSetByName | heat/engine/stack.py:660-692 | a typed state change is `state_set` called with the action's and status's names; it raises nothing, and `state` then reads back that pair with the given reason |
| StackTypes.State | heat/engine/stack.py:689-692 | the `state` property is the (action, status) pair, and together with the reason it is the whole recorded state: writing it back changes nothing |
| StackTypes.RunVerdict | heat/engine/stack.py:758-795 | after a run the status is COMPLETE exactly when the run succeeded, and never IN_PROGRESS; the reason is "Stack … completed successfully" on success, "… timed out" with the title-cased action on a timeout, and "Resource … failed: …" with the exception's text otherwise |
| StackTypes.ActionTitle | heat/engine/stack.py:785 | `action.title()` of an action name keeps its first letter and lower-cases the rest, as in the "timed out" reason |
| StackName.MatchesAsWritten | heat/engine/stack.py:94-99 | the name check as written, with Python's `$` matching before a final newline |
| StackName.MatchesAsWrittenCharacterised | heat/engine/stack.py:94-99 | the check as written accepts exactly the valid names and the valid names followed by one newline |
| StackName.TrailingNewlineAccepted | heat/engine/stack.py:95 | "a\n" passes the check as written although it is not a valid name |
| StackName.MatchesAnchoredIsValid | heat/engine/stack.py:94-99 | the end-anchored pattern accepts exactly the names that start with an ASCII letter followed only by letters, digits, `_`, `.`, `-` |
| StackName.BackupName | heat/engine/stack.py:477-478 | the backup name is the stack name followed by a single `*` |
| StackName.BackupNameNeverValid | heat/engine/stack.py:94-99 | a backup name is never accepted as a top-level name, by either form of the check |
| StackName.BackupNameInjective | heat/engine/stack.py:477-478 | distinct stack names give distinct backup names |
| StackInit.Init | heat/engine/stack.py:78-139 | with the end-anchored name check, construction fails with the "Invalid stack name" validation error exactly when there is no owner and the name is invalid; otherwise the action is ADOPT with adopt data, else the given one or CREATE; the status is the given one or IN_PROGRESS; an empty tenant or user name falls back to the context's |
| StackInit.InitAgainstAsWritten | heat/engine/stack.py:94-102 | compared with the check as written, construction without an owner also rejects exactly the valid names followed by one final newline, and nothing else |
| StackInit.GetKwargsForCloning | heat/engine/stack.py:396-437 | the status keys are present exactly when `keep_status`, with the stack's action, status and reason; the placement keys are the database column names exactly when `only_db`; owner, user name, rollback flag, stack user project, credentials id, nesting depth, convergence and traversal are copied, and so are parent resource, tenant and timeout under either spelling, plus `strict_validate` under the `__init__` one |
| StackInit.KeyNames | heat/engine/stack.py:411-435 | the keys `owner_id`, `disable_rollback` and `user_creds_id` are always there; `status` and `status_reason` exactly when the status is kept; `tenant` exactly for the database spelling; `tenant_id` and `strict_validate` exactly for the `__init__` spelling |
| StackInit.CloneRoundTrip | heat/engine/stack.py:396-437 | a stack rebuilt from its cloning kwargs has no id but keeps owner, rollback flag, timeout, credentials, project, parent, depth and traversal; it keeps its state when `keep_status`, and starts at (CREATE, IN_PROGRESS) with an empty reason otherwise |
| StackInit.TimeoutSecs | heat/engine/stack.py:694-701 | the configured `stack_action_timeout` when the stack has no timeout, else the timeout in minutes times 60; `create`, `adopt`, `suspend`, `resume`, `snapshot` and `delete` run their task group under it, `check` under none (see their rows) |
| StackDelete.DeleteCredentials | heat/engine/stack.py:1049-1109 | only `user_creds_id` changes, and it is cleared when set; the status turns FAILED exactly when the trust or project deletion raised; a project error's reason wins over a trust error's; an abandon never deletes the project |
| StackDelete.DeleteCredentialsCalls | heat/engine/stack.py:1054-1103 | the stored credentials are deleted exactly when there is a credentials id; the trust exactly when the credentials could be read and name one; the project exactly when there is one and the delete is not an abandon |
| StackDelete.Delete | heat/engine/stack.py:1112-1196 | an action other than DELETE or ROLLBACK records (DELETE, FAILED, "Invalid action …") and nothing else; an escaping error leaves (action, IN_PROGRESS) with the id kept; otherwise the stack ends FAILED or COMPLETE |
| StackDelete.BackupOutcome | heat/engine/stack.py:1135-1137 | the backup stack is deleted exactly when there is one and it holds resources |
| StackDelete.DeleteAfterBackup | heat/engine/stack.py:1130-1196 | an escaping error leaves (action, IN_PROGRESS) with the id kept; otherwise the stack is no longer IN_PROGRESS |
| StackDelete.DeleteResources | heat/engine/stack.py:1144-1196 | the part after the backup: an error leaves the stack untouched, and a raising snapshot deletion escapes before anything else happens; otherwise it ends FAILED or COMPLETE under the same action |
| StackDelete.FinishDelete | heat/engine/stack.py:1172-1196 | COMPLETE only if the run completed; when not FAILED the id is cleared and the record deleted; when FAILED the id is kept and the record stays |
| StackDelete.FinishCreds | heat/engine/stack.py:1172-1177 | credentials are cleaned only after a run that did not fail, of a non-backup stack without an owner; an abandon never deletes the project |
| StackDelete.FinishTail | heat/engine/stack.py:1179-1196 | the final state set and post-ops carry the action, and the record is deleted exactly when the status is not FAILED |
| StackDelete.FinishDeleteTrace | heat/engine/stack.py:1172-1196 | the end of a delete: the final state set, then post-ops unless deleting a backup, then record deletion unless FAILED |
| StackDelete.FinishDeleteCreds | heat/engine/stack.py:1172-1177 | the end of a delete calls Keystone only under the credential-cleanup condition |
| StackDelete.DeleteResourcesTrace | heat/engine/stack.py:1145-1170 | snapshots are deleted first; the destroy group runs in reverse dependency order under the stack's timeout; every state set carries the action |
| StackDelete.DeleteResourcesCreds | heat/engine/stack.py:1151-1177 | credential cleanup happens only after a run that succeeded, and only for a non-backup, unowned stack |
| StackDelete.DeleteResourcesOutcome | heat/engine/stack.py:1151-1196 | a pre-ops failure (not for a backup) records FAILED with the hook's message; a timeout or resource failure records FAILED; COMPLETE only after a clean run |
| StackDelete.AfterBackupTrace | heat/engine/stack.py:1130-1170 | the trace opens with (action, IN_PROGRESS, "Stack … started"), and every state set and post-ops call carries the action |
| StackDelete.AfterBackupCreds | heat/engine/stack.py:1135-1177 | credentials are cleaned only when the backup deletion completed and the run succeeded |
| StackDelete.DeleteTrace | heat/engine/stack.py:1124-1196 | for a valid action the first event records IN_PROGRESS; every state set and post-ops carries the action; the destroy group is "destroy" over the reverse order; credentials are cleaned only after a clean run of a non-backup unowned stack; an abandon never deletes the project |
| StackDelete.AfterBackupFailure | heat/engine/stack.py:1137-1143 | a backup deletion that did not complete stops the delete at (action, FAILED) with "Failed to … : Error deleting backup resources: …", before any snapshot or resource work |
| StackDelete.DeleteStopsOnBackupFailure | heat/engine/stack.py:1135-1143 | the same, stated on `delete` itself for a non-empty backup stack |
| StackDelete.DeleteEscapesOnSnapshotFailure | heat/engine/stack.py:1144-1148 | a snapshot deletion that raises, once the backup stack is dealt with, escapes from `delete` with the stack left (action, IN_PROGRESS) and its id kept, with no destroy run, post-ops, credential cleanup or record deletion |
| StackDelete.AfterBackupOutcome | heat/engine/stack.py:1138-1196 | not FAILED means the id is cleared and the record deleted; FAILED means the id is kept; COMPLETE only after a run that succeeded |
| StackDelete.DeleteOutcome | heat/engine/stack.py:1124-1196 | the same outcome facts for `delete` as a whole |
| StackDelete.EmptyBackupIgnored | heat/engine/stack.py:1135-1136 | a backup stack without resources is falsy and is ignored: the delete is the same as with no backup |
| StackDelete.DeleteSucceeds | heat/tests/test_engine_service.py:547-556 | a plain delete whose collaborators succeed ends (DELETE, COMPLETE) with "Stack DELETE completed successfully" and the record deleted |
| StackTask.SupportedIffNoUnsupported | heat/engine/stack.py:811-825 | the recursive support check holds exactly when no resource, at any nesting depth, lacks CHECK support |
| StackTask.SupportsCheckAction | heat/engine/stack.py:810-825 | the result is true exactly when every resource supports CHECK; then the stack is unchanged; otherwise the action becomes CHECK and the note is appended to the reason, with the status kept |
| StackTask.ApplyPost | heat/engine/stack.py:720-723 | without a `post_func` nothing happens; a rollback `post_func` can only raise through its delete |
| StackTask.Handler | heat/engine/stack.py:763-766 | the handler called on each resource is the action name lower-cased |
| StackTask.StackTask | heat/engine/stack.py:741-800 | an error escapes exactly when the stack is left IN_PROGRESS. A pre-ops failure records (action, FAILED) with the hook's message first; then only `post_func` runs, and without one nothing else happens. Otherwise IN_PROGRESS, then the group in the requested order under the given timeout. A `ForcedCancel` escapes right after the run. Any other outcome is recorded third with the run's verdict and reason, and the last event is post-ops with `failed` = status is FAILED. Without `post_func` the stack ends in the outcome's (action, status) and reason |
| StackTask.PreOpsFailureSkipsRun | heat/engine/stack.py:748-756 | after a pre-ops failure no state under the action is ever IN_PROGRESS, and the only task group that can run is a rollback's destroy run |
| StackTask.TaskAfterRun | heat/engine/stack.py:784-800 | the verdict is recorded first; post-ops runs last unless `post_func` raised |
| StackTask.Create | heat/engine/stack.py:715-731 | pre-ops and run succeed ⇒ (CREATE, COMPLETE) with "Stack CREATE completed successfully"; after pre-ops "create" runs in forward order under the stack's timeout |
| StackTask.Adopt | heat/engine/stack.py:851-869 | pre-ops and run succeed ⇒ (ADOPT, COMPLETE) with "Stack ADOPT completed successfully"; after pre-ops "adopt" runs in forward order under the stack's timeout |
| StackTask.Check | heat/engine/stack.py:802-808 | an error escapes exactly when the run is cancelled by `ForcedCancel` after pre-ops succeeded; "check" runs in forward order with no timeout |
| StackTask.Suspend | heat/engine/stack.py:1199-1217 | a stack already (SUSPEND, COMPLETE) is left alone; otherwise "suspend" runs over the reverse order under the stack's timeout, and the stack ends in the outcome's state with its template kept |
| StackTask.Resume | heat/engine/stack.py:1220-1238 | a stack already (RESUME, COMPLETE) is left alone; otherwise "resume" runs in forward order under the stack's timeout, and the stack ends in the outcome's state with its template kept |
| StackTask.Snapshot | heat/engine/stack.py:1241-1247 | "snapshot" runs in forward order under the stack's timeout; the stack ends in the outcome's (SNAPSHOT, status) with its template and id kept, and the reason is the hook's message or the run's verdict |
| StackTask.RollbackPost | heat/engine/stack.py:720-723 | the rollback `post_func` deletes with ROLLBACK exactly when rollback is enabled and the state is (action, FAILED); adopt's never deletes the project |
| StackTask.RollbackAfterPreOps | heat/engine/stack.py:748-756 | after a pre-ops failure, `post_func` sees (action, FAILED) |
| StackTask.RollbackAfterRunTail | heat/engine/stack.py:795-800 | after a run, `post_func` sees the verdict |
| StackTask.RollbackAfterCancel | heat/engine/stack.py:781-800 | a run interrupted by `ForcedCancel` never reaches `post_func`: no rollback and no project deletion |
| StackTask.RollbackAfterRun | heat/engine/stack.py:781-800 | a run that failed (not cancelled) leads to the rollback when it is enabled |
| StackTask.RollbackRuns | heat/engine/stack.py:741-800 | across `stack_task`, the rollback runs exactly when rollback is enabled and pre-ops failed or the run failed without `ForcedCancel` |
| StackTask.CreateRollsBackIff | heat/engine/stack.py:715-731 | a `create` is rolled back exactly when rollback is enabled and the create failed, not when it succeeded or was cancelled |
| StackTask.AdoptRollsBackIff | heat/engine/stack.py:851-869 | `adopt` rolls back under the same condition, as an abandon that never deletes the project |
| StackTask.AdoptFailureRecorded | heat/tests/test_engine_service.py:503-527 | an adopt whose resources fail, with rollback disabled, ends (ADOPT, FAILED) with "Resource ADOPT failed: …" and is not rolled back |
| StackTask.CheckedReason | heat/engine/stack.py:802-825 | the reason `check` leaves is the pre-ops message or the run's verdict reason, followed by the unsupported note exactly when some resource lacks CHECK support |
| StackTask.CheckOutcome | heat/engine/stack.py:802-825 | `check` records the run's verdict; missing CHECK support only appends the note to the reason |
| StackTask.SuspendThenResume | heat/engine/stack.py:1199-1238 | after a completed suspend a second suspend does nothing, and resume visits the resources in exactly the opposite order |
| StackUpdate.OldStack | heat/engine/stack.py:915-920 | the pre-update copy can be built exactly when the stack has an owner or a valid name, and it has the stack's template, owner, rollback flag and timeout |
| StackUpdate.TakeNewSettings | heat/engine/stack.py:930-934 | before the run the stack takes the new template's files and environment, rollback flag and timeout; template body, resources and state are kept |
| StackUpdate.FinishPass | heat/engine/stack.py:989-998 | the final state is written directly and stored, then post-ops runs with `failed` = status is FAILED |
| StackUpdate.UpdateTask | heat/engine/stack.py:889-1000 | an error escapes exactly when the stack is left IN_PROGRESS; the trace opens with a state set under the action, or under UPDATE for an action `update_task` does not take |
| StackUpdate.UpdateGuards | heat/engine/stack.py:891-910 | exact records for an invalid action (under UPDATE, "Invalid action …"), a pre-ops failure (the hook's message), and a stack IN_PROGRESS for anything but ROLLBACK ("State invalid for …") |
| StackUpdate.RefusedKeepsStack | heat/engine/stack.py:891-920 | a task stopped by those checks or by an invalid name keeps its template, never completes, deletes no backup, cancels nothing and only records states |
| StackUpdate.UpdateRun | heat/engine/stack.py:922-998 | the `StackUpdate` run comes first, with `rollback` set for ROLLBACK and the timeout of the new settings |
| StackUpdate.PassResult | heat/engine/stack.py:950-998 | without rollback, a pass that raises nothing completes exactly when the run succeeded, deletes the backup exactly then, and takes the new template only then; otherwise the template is what the run left of it (`Pass.leftover`); an error escapes exactly when the stack stays IN_PROGRESS; every stored state carries the action |
| StackUpdate.Restore | heat/engine/stack.py:1259-1286 | a snapshot of another stack records (RESTORE, FAILED, "Can't restore snapshot from other stack"); an invalid name raises the validation error with nothing changed; otherwise the stack is no longer IN_PROGRESS unless an error escaped |
| StackUpdate.RollbackAndRestoreRunOnce | heat/engine/stack.py:958-979 | ROLLBACK and RESTORE never recurse: at most one run, right after the IN_PROGRESS record, no cancellation, and every state, store, run and post-ops under their own action |
| StackUpdate.RollbackAndRestoreOutcome | heat/engine/stack.py:950-993 | for ROLLBACK and RESTORE the backup is deleted exactly when the task completed; a completed task has the new template and "Stack … completed" reason; one refused before its run keeps its template, and any other that does not complete has what its run left of it, with the new files and environment |
| StackUpdate.UpdateRollsBackIff | heat/engine/stack.py:961-979 | an UPDATE past its checks rolls back exactly when it was cancelled, or hit a resource failure with rollback enabled in the new stack |
| StackUpdate.UpdateRollbackRestores | heat/engine/stack.py:915-979 | a rollback runs under the original timeout and restores the original rollback flag and timeout; it completes with "Stack rollback completed" exactly when its run succeeded, and then has the original template; otherwise the template is what the rollback run left of the original one |
| StackUpdate.UpdateTemplateOnlyOnSuccess | heat/engine/stack.py:950-993 | the template becomes the new one only on success (or the original one after a completed rollback); a task that does not complete has the template it had if refused before its run, else what its last run left (`LeftBehind`); the backup is deleted exactly when the task completed |
| StackUpdate.UpdatePassTemplate | heat/engine/stack.py:915-993 | the same for an UPDATE that got past its checks: without completion the template is what the rollback run left of the original when a rollback got past its checks, else what the update run left |
| StackUpdate.UpdateRollbackTemplate | heat/engine/stack.py:915-993 | an UPDATE that rolls back completes only as a ROLLBACK with the original template; otherwise its template is what the rollback run left, or what the update run left when the rollback was refused at its pre-operation checks |
| StackUpdate.RollbackPassOutcome | heat/engine/stack.py:950-993 | a ROLLBACK task past its pre-operation checks runs with rollback semantics under the timeout of the stack it rolls back to, and, when nothing escapes, takes that stack's rollback flag and timeout and completes exactly when its run succeeded; completed, it has that stack's template, otherwise what its run left of it |
| StackUpdate.RestoreFromSnapshot | heat/engine/stack.py:1263-1286 | restoring the stack's own snapshot is a single RESTORE pass under the stack's timeout; it completes exactly when its run succeeded, leaving the snapshot's template and resources with the stack's environment |
| StackResources.ResourceByRefId | heat/engine/stack.py:546-560 | the first resource in a referenceable state (INIT/COMPLETE, or CREATE/RESUME/UPDATE in progress or complete) with that reference id; None exactly when there is none |
| StackResources.RestartResource | heat/engine/stack.py:1300-1327 | an unknown name raises `KeyError`; otherwise every dependant is destroyed in reverse order; then each is created in order while no destroy and no earlier create failed, and the rest are aborted |
| StackResources.AtMostOneCreateFails | heat/engine/stack.py:1316-1327 | after a failed create every later dependant is aborted |
| StackResources.CleanRestartRecreatesAll | heat/engine/stack.py:1316-1324 | with no failure every dependant is created again |
| StackResources.FailedDestroyAbortsAll | heat/engine/stack.py:1307-1327 | one failed destroy aborts every create |

## Left out

- Persistence: `store()` creating rows, ids and credentials is not modelled. The database row is the `persisted` flag of a state set, plus `Stored` and `RecordDeleted` events.
- The scheduler is not modelled: its timeouts, `error_wait_time`, `aggregate_exceptions` and the step-by-step `update` event loop. A run is one `RunOutcome`, and the task group is a `RunGroup` event with its handler, order and timeout.
- Not modelled: notifications, stack events (`_add_event`), logging, parameters, outputs, `updated_time` and `reset_dependencies`. None of them affects the state machine.
- `_store_resources`, `_backup_stack` (finding or creating the backup stack) and `delete_snapshot`'s per-resource work are not modelled. The backup stack and its deletion outcomes are inputs. Snapshot deletion is one event, or one raised exception (`DeleteEnv.snapshots`).
- The in-place edits a `StackUpdate` run makes to the live template (`add_resource` and `remove_resource`, heat/engine/stack.py:500-519) are not modelled resource by resource. What a run leaves in the template body and resource order is an input, `Pass.leftover`; it matters only when the pass does not complete, since a completed pass takes the new template.
- The deletion of the backup stack after a successful update (`backup_stack.delete(backup=True)`, heat/engine/stack.py:982) is an input: `Pass.backupDeletion` is the exception it raised, if any.
- `_delete_backup_stack` swapping resource ids and properties between the current and backup stacks is not modelled. Only the backup stack's own `delete(backup=True)` is.
- `restore`'s `handle_restore` rewriting of resource definitions is not modelled. The snapshot gives the template body and resource order directly.
- `supports_check_action` on nested stacks also sets the nested stack's state. The model keeps only the nested result, as a tree of support flags.
- Adopt's marking of each resource with `abandon_in_progress` is not modelled. Only the abandon flag of the rollback delete is.
- Exceptions raised by `do_post_ops` and by `state_set` itself (the `NotFound` that `delete` swallows) are not modelled.
- The resource actions INIT and `Acting(action)` are an assumption. `heat/engine/resource.py` is not part of this model, so its states are taken as the stack's actions plus INIT.
- `StackName.MatchesAsWritten` is kept only to show the finding below. Construction uses the end-anchored check.
- StackInit.Init: uses the corrected, end-anchored name check. The source also accepts an unowned stack whose name is a valid one followed by a final newline, and the model rejects it. `StackInit.InitAgainstAsWritten` states this difference exactly.
- StackUpdate.OldStack: builds its copy through `StackInit.Init`, so the same difference applies: a valid name followed by a final newline fails here and is accepted by the source.
- StackUpdate.Restore: builds the new stack through `StackInit.Init`, with the same difference for a valid name followed by a final newline.
- StackResources.RestartResource: models only `ResourceFailure` from `destroy` and `create`, the one exception the source catches. Any other exception escapes in the source partway through the loops, and the model has no input for it.
- StackTask.Create: the contract states the successful outcome only. Its rollback behaviour is stated by `StackTask.CreateRollsBackIff`.
- StackTask.Adopt: the same as Create. Rollback is stated by `StackTask.AdoptRollsBackIff`, and the failure reason by `StackTask.AdoptFailureRecorded`.

## Findings

| source | as written | input that shows it | evidently intended | confidence | as-written member | corrected member |
|---|---|---|---|---|---|---|
| heat/engine/stack.py:95 | `re.match("[a-zA-Z][a-zA-Z0-9_.-]*$", name)`; Python's `$` also matches just before a final newline | the name "a\n" is accepted | names made only of a letter followed by letters, digits, `_`, `.` or `-`, as the error message says | medium, not executed | StackName.TrailingNewlineAccepted | StackName.MatchesAnchoredIsValid |
