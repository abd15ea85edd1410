# Verification of the space server's protocols

A Dafny model of the protocols at the heart of a Prappser space, with proofs of what
they promise over every run: the event log and its executor, the `edit_app` compiler,
OAuth codes, consent requests and refresh tokens, invitations, reminders, accounts and
identity bindings, and the key of the space.

`dafny verify dfyconfig.toml` checks the whole project.

## How it is built

Each component has one file that says what its operations do, as functions on values,
and a class whose methods change their fields in place, with loops where the source has
loops. Every such method is proved to do what the function says. A `...Runs` file (or
the second half of a small one) then turns the operations into a state machine: one
action is one transaction, one SQL statement, or one section under a lock, so whatever
the source does in several steps can be interrupted between them. The theorems are
about every sequence of actions, hence about every interleaving of any number of
requests.

What an operation's function says is in turn tied down without naming it: by lemmas that
tell its outcome from the stored rows, and by theorems over runs that read the rows off
the requests alone (`Replay`, `AccountLog`, `Authority`).

| file | component |
|---|---|
| `Common.dfy`, `Numerals.dfy` | options, results, sequences without repeats; decimal numbers as text |
| `Structure.dfy` | groups and components of applications, and the changes the executor makes to them |
| `EditCompiler.dfy`, `EditTool.dfy` | the `edit_app` compiler, what its operations mean, and the tool that mutates its work records |
| `Events.dfy`, `EventStore.dfy` | one event: validation, authorization, `persistAndApply`; the service over its tables |
| `Registration.dfy` | registering an application with its groups and components |
| `EventRuns.dfy` | runs of the log with registration, pruning, deletion, revival and moves |
| `Replay.dfy` | the tables read off the log, the last word first |
| `EventPages.dfy`, `EventWalks.dfy` | the cursor and pages, also while the log runs on |
| `OwnerRuns.dfy` | events authorized on old snapshots, joins, and the owner's row |
| `Authority.dfy` | who may do what, told from the rows; who can change a member's row over runs |
| `OAuthStore.dfy` | the store of consent requests and codes |
| `OAuthCodes.dfy`, `OAuthTokens.dfy` | code exchange under all interleavings; the token endpoint over the store |
| `ConsentRuns.dfy`, `OAuthFlow.dfy` | consent requests over runs; from consent to tokens |
| `AgentTokens.dfy`, `RefreshRuns.dfy` | agent devices and refresh token rotation |
| `Invites.dfy`, `InviteRuns.dfy` | invitations and concurrent joins |
| `Offsets.dfy`, `Reminders.dfy`, `ReminderRuns.dfy` | reminder offsets, rows, rule updates raced by the scheduler |
| `Accounts.dfy`, `AccountRuns.dfy` | the users table: names, passwords, escrow, bindings |
| `AccountLog.dfy` | accounts read off the accepted requests |
| `SpaceKeys.dfy` | the key file shared by starting processes |

Taken as given, and written as parameters with stated properties where a proof needs
one: SHA-256 and the S256 challenge, the derivation of public keys, lower case in
PostgreSQL and in Go, trimming of names, the recurrence library (its `next` is the least
occurrence after a time), the catalog of component types. Random codes, tokens, ids and
keys are taken to be never drawn twice. Ordinals are taken to follow commit order, which
the row lock gives within an application but the database does not promise across
applications.

## Where the code falls short of what one might expect

The model follows the code. These are stated as lemmas with a concrete case, next to the
exact condition under which the property holds.

- `edit_app` accepts a position beyond 32 bits, a NUL in a name, or the removal of a
  group that holds a component with an empty id, and the executor then refuses the whole
  edit (`AcceptedThenRefused`, `EmptyIdBlocksRemoval`; exact: `EditIsCorrect`).
- Registering an application upserts groups and components by id alone: an id that is
  another application's renames that row and can put a component of one application into
  a group of another (exact: `RegistrationIsHarmlessIffOwn`). What is proved about the
  structure of one application takes it that this has not happened, which
  `ApplicationsAreIsolated` gives for every run of registrations with ids of their own.
- Moving an application whose mark is behind its newest row, which a deletion and a
  revival bring about, lets the number be handed out again (`MoveCanReuseANumber`; exact,
  and open to a check before the move: `MoveKeepsCountingIffMarked`).
- An owner whose membership expires can lose the owner row to a later join (exact:
  `OwnerStaysIffPermanent`).
- A code that is replayed and then swept before the winner records its device leaves the
  device unrevoked (`ReplayBeforeSweepGoesUnanswered`; exact: `DeviceRevokedIffReplayed`).
- A reused refresh token goes unnoticed if the device refreshes once more between the
  rotation attempt and the lookup (`ReuseCanBeMissed`; exact, from the presentation on:
  `ReuseIsAnsweredIff`).
- A rule moved to a later time after the scheduler selected its row fires at once for the
  new time, since the re-lock asks only whether the row is pending
  (`ReplacedRowCanFireEarly`; exact: `FiresEarlyIffMovedAhead`). The comment at
  internal/reminder/repository.go:30-31 speaks of the old schedule only. With two workers
  holding one key the second can fire the next occurrence early (exact:
  `SecondWorkerFiresEarlyIffAdvanced`).
- A name taken over untrimmed from a join may not be found by `GetSalt`, which then answers
  with another salt (exact: `JoinedNameGetsItsSaltIff`, and `SaltIsHandleIff` for any
  state; names that were trimmed are always found: `TrimmedNameIsFound`).
- A binding to this space and one to another commute except when the account key is in
  escrow and both are newer than the stored one, the one to this space last
  (`OwnBindingOrderMatters`; exact: `OwnBindingCommutesIff`).

## Model

| member | source | states |
|---|---|---|
| EditCompiler.EditIsCorrect | internal/mcp/edit_app.go:74-210 | compiler correctness for every application and operation list: refused exactly when the operations have no meaning, with the same error; accepted changes pass validation and execution exactly when every operation fits its columns, and then leave exactly the rows, and give exactly the ids, the operations mean |
| EditCompiler.SameVerdict | internal/mcp/edit_app.go:118-210 | from any linked state, compiler and interpretation refuse the same lists for the same reason and mint the same ids |
| EditCompiler.SameEffect | internal/event/event_service.go:898-970 | from any linked state, executing the emitted changes leaves the rows the operations mean, if and only if all operations fit |
| EditCompiler.OperationHasMeaningIff | internal/mcp/edit_app.go:114-210 | exactly when an operation is not refused, told from the rows |
| EditCompiler.GroupOperationsMean | internal/mcp/edit_app.go:118-160 | what each operation on a group leaves in the rows, and that every other row stays |
| EditCompiler.ComponentOperationsMean | internal/mcp/edit_app.go:160-205 | the same for operations on components |
| EditCompiler.AddedGoesLast | internal/mcp/edit_app.go:118-185 | what is added without a position goes last |
| EditCompiler.BackReference | internal/mcp/edit_app.go:89-104 | `$N` names the N-th id minted by the call and nothing when there are fewer, for every way to write N in decimal, and nothing when N is no number |
| EditCompiler.StaleRemovalsAreSkipped | internal/event/event_service.go:898-970 | the component removals emitted after a group removal find nothing and change nothing |
| EditCompiler.AcceptedThenRefused | internal/event/event_service.go:898-970 | an accepted call the executor refuses as a whole |
| EditCompiler.EmptyIdBlocksRemoval | internal/event/event_service.go:1000-1027 | an empty id can be stored, and its group can then not be removed by the tool |
| EditTool.CompileEdits | internal/mcp/edit_app.go:74-210 | the loop over shared mutable group records computes the compiler's function |
| Structure.ExecAllIsolated | internal/event/event_service.go:898-1078 | a list of changes to one application leaves the groups and components of all others, and keeps every component in a group of its own application |
| Structure.ChangeSucceedsIff | internal/event/event_service.go:898-1049 | for each type of valid change, told from the rows, exactly when it is carried out, and that what tolerates a missing or foreign row does nothing to it |
| Structure.ValidIffNeverMalformed | internal/event/event_validator.go:174-207 | validation lets through exactly the changes of a named entity that the executor never finds malformed, less those that lack a position or details |
| Structure.DataChangeSetsFields | internal/event/event_service.go:1052-1078 | a data change succeeds exactly on a component of the application; each field with a new value then has it, and nothing else differs |
| Structure.CascadeNeedsClosure | internal/application/memory_repository.go:315-334 | without that invariant a group removal deletes another application's row |
| Structure.StructureStore.DeleteComponentGroup | internal/application/memory_repository.go:315-334 | the loop deletes the group and exactly the components in it |
| Structure.StructureStore.ApplyDelta | internal/event/event_service.go:1052-1078 | the loop over the delta: every field named with a new value has that value, all other fields and all other rows are as before, or it fails and nothing changes |
| Structure.StructureStore.ExecuteChange | internal/event/event_service.go:898-1049 | each change type, with its stale and foreign cases, does what the specification says, or nothing |
| Structure.StructureStore.ExecuteEdit | internal/event/event_service.go:898-970 | the loop over a list of changes, stopping at the first error |
| Registration.RegistrationIsHarmlessIffOwn | internal/application/repository.go:241-306 | with given ids, a registration leaves the tables closed and other applications' rows alone whatever else it says, if and only if no id is another application's (or the ids get it refused) |
| Registration.OwnIdsIsolated | internal/application/repository.go:749-775 | a registration with ids of its own, however often an id repeats, touches no other application and keeps the tables closed |
| Registration.RequestIsTakenIff | internal/application/application_service.go:74-83 | a request is taken exactly if everything in it has an id and fits the columns |
| Registration.RegisterStructure | internal/application/repository.go:749-775 | the nested loops over groups and components, rolled back on an error |
| Events.ExecBodyIsolated | internal/event/event_service.go:627-877 | executing an event of one application leaves members, applications, groups and components of all others |
| Events.PersistIsolated | internal/event/event_service.go:325-416 | so does a whole `persistAndApply`, including the log, in closed tables; unique ids and closed tables are kept |
| Events.AllOrNothing | internal/event/event_service.go:325-416 | unless it is stored, an event leaves log and tables as they were; a stored one is new, and is the only new row |
| Events.PersistDecides | internal/event/event_service.go:321-416 | an event is stored exactly if its application is there (deleted only for a move), its id is new and its handler succeeds, with its number; it gets back the stored row of a retry; and is refused otherwise |
| Events.HandlerSucceedsIff | internal/event/event_service.go:717-877 | exactly when each handler succeeds |
| Events.EditSetsFields | internal/event/event_service.go:844-877 | a component's data event sets exactly the fields it names, or is refused |
| Events.TypesDiffer | internal/event/event.go:11-36 | types tell the kinds of data apart |
| EventStore.EventStore.PersistAndApply | internal/event/event_service.go:325-416 | insert, execute, raise the mark, with rollback: log, tables and outcome are those of the specification |
| EventStore.EventStore.ExecuteEvent | internal/event/event_service.go:627-877 | the handlers, by event type |
| EventStore.EventStore.GetNextSequence | internal/event/event_repository.go:42-55 | one above the stored mark and every number in the log |
| EventStore.EventStore.GetByID | internal/event/event_repository.go:111-152 | the row with the id, if there is one |
| EventStore.EventStore.UpdateAppVersion | internal/application/repository.go:133-147 | the mark only rises, and stays on a deleted application |
| EventStore.EventStore.DeleteOlderThan | internal/event/event_repository.go:307-334 | keeps young rows, newest rows and top template revisions, and counts what it removed |
| EventStore.PrunedExactly | internal/event/event_repository.go:307-322 | a row goes if and only if it is older than the cutoff, not the greatest ordinal of its application or creator, and not of its template's greatest rev |
| EventStore.EventStore.GetSince | internal/event/event_repository.go:154-245 | the page after the cursor, or nothing when the cursor's row is gone |
| EventRuns.RunConserves | internal/event/event_service.go:325-416 | over every run, each id was executed as often as its row was removed, plus once if it is there |
| EventRuns.ExecutedOnce | internal/event/event_service.go:96-104 | while its row stays, an event is executed once however often it is resubmitted |
| EventRuns.RetryReturnsStored | internal/event/event_service.go:96-104 | a retry gets the stored row, without being authorized again, and changes nothing |
| EventRuns.SequenceNumbers | internal/event/event_repository.go:42-55 | over every run whose moves are guarded an application hands out 1, 2, 3, … without gap or reuse, despite pruning, deletion and revival |
| EventRuns.ApplicationsAreIsolated | internal/application/repository.go:749-775 | over every run of events, pruning, moves, and registrations with ids of their own, tables stay closed, and an application no action names keeps its row, members, groups and components |
| EventRuns.MarkIsTopIffLast | internal/event/event_repository.go:42-55 | although rows were pruned, no logged row is above the mark if and only if the mark is the last number ever handed out |
| EventRuns.LiveApplicationIsMarked | internal/application/repository.go:133-147 | over every run, an application that was neither deleted nor moved has its mark at its newest row, so its move is guarded |
| EventRuns.MoveKeepsCountingIffMarked | internal/application/repository.go:949-975 | the number after a move is the next one if and only if no logged row of the application was above its mark |
| EventRuns.MoveCanReuseANumber | internal/application/repository.go:949-975 | a run in which two rows of an application get the same number |
| EventRuns.MoveIsFinal | internal/application/repository.go:949-975 | a move takes exactly the application's events and structure, and a deleted application is not moved |
| EventRuns.PruningPreservesMeaning | internal/event/event_repository.go:301-334 | over every run the top template revisions are those of the log never pruned, and the newest row of every application and user-scoped creator is there |
| Replay.ComponentsFollowLog | internal/event/event_service.go:844-1078 | over every run each field of a component has the value of the last stored change that names it since the component was last written whole; its group, name and position are the last it was given |
| Replay.GroupsFollowLog | internal/event/event_service.go:898-1049 | over every run a group's name and position are the last it was given |
| Replay.MembersFollowLog | internal/event/event_service.go:692-842 | over every run an application's members, roles and expiries are exactly what the stored events say |
| Replay.ApplicationsFollowLog | internal/event/event_service.go:778-812 | over every run, which applications there are, their names, and which are deleted |
| Replay.LoggedAreStored | internal/event/event_service.go:325-416 | the events these read are exactly the rows ever stored |
| EventPages.ListingIsExact | internal/event/event_repository.go:178-190 | the listing after a cursor is exactly the visible rows with larger ordinal, in order, each once |
| EventPages.ListingIsReadable | internal/event/event_repository.go:178-186 | told from the rows: a listed row is of an application in which the user has an unexpired member row, or the user's own user-scoped one, and all such are listed |
| EventPages.PageIsFull | internal/event/event_repository.go:154-157 | a page has as many rows as asked for, within 1 to 500 and else 100, or all there are, and says which |
| EventPages.WalkIsListing | internal/event/event_repository.go:154-245 | walking page by page terminates and delivers exactly the listing |
| EventPages.WalkIsOrdered | internal/event/event_repository.go:154-245 | however the log changes between pages, nothing is delivered twice or out of order |
| EventPages.WalkIsComplete | internal/event/event_repository.go:154-245 | a finished walk over an evolving log misses no row its last page's log still has |
| EventPages.DeliveredIsReadable | internal/event/event_repository.go:178-186 | every row of a walk was the user's to read when its page was |
| EventWalks.WalkThroughRun | internal/event/event_repository.go:154-245 | both, for pages read at any points of any run |
| EventWalks.GapCountsMissedRows | internal/event/event_service.go:549-574 | two consecutively delivered rows of an application differ in number by the rows missed, plus one |
| OwnerRuns.OwnerStays | internal/event/event_authorizer.go:35-139 | over every run of events authorized earlier and applied later, and of joins, any number of them with the same event or key at once, the owner keeps the only owner row |
| OwnerRuns.OwnerStaysIffPermanent | internal/application/repository.go:567-579 | that holds for all runs if and only if the owner's membership does not expire |
| Authority.RoleChangeProceedsIff | internal/event/event_authorizer.go:53-104 | a role change proceeds if and only if it is new and complete, its author's stored row is active and owner or admin, and it is aimed at another active member who is not the owner and has the old role |
| Authority.RemovalProceedsIff | internal/event/event_authorizer.go:61-82 | a removal proceeds if and only if it is of an active member but not the owner, by a manager or the member |
| Authority.DeletionAndRevocationProceedIff | internal/event/event_authorizer.go:56-59 | a deletion only by the owner, an invite's revocation only by managers |
| Authority.OtherEventsProceedIff | internal/event/event_authorizer.go:84-139 | every other event proceeds exactly if it is of a kind open to members and an active member submits it |
| Authority.UserScopedProceedsIff | internal/event/event_service.go:168-202 | when a user-scoped event is complete and new |
| Authority.RowChangesOnlyByManagers | internal/event/event_authorizer.go:53-104 | over every run of stale authorizations and joins, an active member's row changes or goes only if somebody who was owner or admin at that snapshot, or the leaving member, had an event about it authorized |
| OAuthStore.Store.Sweep | internal/oauth/oauth.go:107-118 | exactly the expired requests and codes go |
| OAuthStore.Store.EvictOldestOfClientIp | internal/oauth/oauth.go:120-144 | makes room by removing one unbound request of the client and address that expires first, or reports there is none |
| OAuthStore.OldestUnboundGoes | internal/oauth/oauth.go:120-144 | told from the rows: nothing goes below twenty; then exactly one unbound request that expires no later than the others, or there is no room |
| OAuthStore.LookupSays | internal/oauth/oauth.go:167-179 | told from the rows: when a lookup finds a request, and what it changes |
| OAuthStore.Store.AddPending | internal/oauth/oauth.go:146-165 | sweep, make room, refuse when full, store unbound |
| OAuthStore.Store.LookupPending | internal/oauth/oauth.go:167-179 | drops an expired request, binds an unbound one, refuses another account |
| OAuthStore.Store.TakePending | internal/oauth/oauth.go:191-200 | hands out a request once |
| OAuthStore.Store.ConsumeCode | internal/oauth/oauth.go:217-230 | marks a code used, and replayed if it was used |
| OAuthStore.Store.UnmarkCode | internal/oauth/oauth.go:232-238 | gives a code back unless it was replayed |
| OAuthStore.Store.SetCodeDevice | internal/oauth/oauth.go:240-248 | records the device and reports a replay, if the code is still there |
| OAuthCodes.RunKeeps | internal/oauth/oauth_service.go:276-320 | the invariant of code exchange, kept by every step of every interleaving |
| OAuthCodes.CodeYieldsTokensOnce | internal/oauth/oauth_service.go:276-320 | at most one exchange of a code returns tokens (section 4.1.2 of RFC 6749) |
| OAuthCodes.TokensMatchGrant | internal/oauth/oauth_service.go:276-304 | tokens go only to the approved client, redirect URI and verifier, before expiry, and act for the approving account |
| OAuthCodes.ProperExchangeSucceeds | internal/oauth/oauth_service.go:178-304 | a stored, unused, unexpired code, its client, redirect URI and resource, and 43 to 128 unreserved characters whose challenge matches are exactly what issuing takes; then, unreplayed, the tokens are returned |
| OAuthCodes.CodeLivesAMinute | internal/oauth/oauth.go:202-230 | through any run that does not present it, a code is good for a matching request until 60 seconds after its approval and not after |
| OAuthCodes.DeviceRevokedIffReplayed | internal/oauth/oauth_service.go:283-318 | once all exchanges of a code ended, its device is revoked if and only if it was revoked for another reason, or the code was replayed and was still stored when told its device |
| OAuthCodes.ReplayBeforeSweepGoesUnanswered | internal/oauth/oauth.go:240-248 | a run in which a replayed code's device lives on |
| OAuthTokens.TokenEndpoint.ExchangeCode | internal/oauth/oauth_service.go:276-320 | the endpoint over the store takes the steps of the state machine in their order |
| ConsentRuns.AddIsAdded | internal/oauth/oauth.go:146-165 | the state machine's step is what the store's method does |
| ConsentRuns.ConsentIsSafe | internal/oauth/oauth.go:146-200 | over every run at most 1000 requests wait and 20 of a client and address; each is decided at most once, as it was added |
| ConsentRuns.BoundRequestIsSafe | internal/oauth/oauth_service.go:213-249 | a bound request goes only by expiry or by its own account's decision |
| ConsentRuns.FirstToOpenDecides | internal/oauth/oauth.go:167-200 | over every run, only the first account to open a request in time can decide it |
| ConsentRuns.DecisionsWereMade | internal/oauth/oauth_service.go:213-249 | over every run, each decision was made in it, the same way, by the account it is bound to |
| ConsentRuns.AddedForTenMinutes | internal/oauth/oauth.go:146-165 | a request is stored as it came, unbound, for 600 seconds |
| OAuthFlow.TokensNeedConsent | internal/oauth/oauth_service.go:213-320 | over every run of requests, approvals and exchanges, tokens are returned only for an approved request, act for the account it was bound to, and go to the client, redirect URI and verifier it was made with |
| OAuthFlow.TokensWereApproved | internal/oauth/oauth_service.go:213-320 | over every run, tokens are returned only where the account they act for approved the request in the run |
| OAuthFlow.ConsentYieldsTokensOnce | internal/oauth/oauth_service.go:213-320 | two sets of tokens never stem from the same request |
| AgentTokens.AgentStore.RotateRefreshToken | internal/user/agent_repository.go:56-74 | a live current token is replaced and remembered as previous |
| AgentTokens.RotationSucceedsIff | internal/user/agent_repository.go:56-74 | told from the rows: it succeeds if and only if the device's row holds the token, has not run out, and the device is there and unrevoked; then that row alone changes |
| AgentTokens.RevivalLifts | internal/user/device_repository.go:24-38 | a revival lifts an earlier revocation of the account's own device and touches nothing else |
| AgentTokens.AgentStore.DeviceForPrevHash | internal/user/agent_repository.go:76-88 | the device whose previous token this was |
| AgentTokens.AgentStore.CountLiveAgents | internal/user/agent_repository.go:16-28 | counts exactly the account's live agents |
| AgentTokens.AgentStore.CreateAgent | internal/user/agent_repository.go:30-54 | both rows or none |
| AgentTokens.AgentStore.RevokeDevice | internal/user/device_repository.go:117-149 | marks the device and removes its token row |
| AgentTokens.AgentStore.ReviveDevice | internal/user/device_repository.go:24-38 | brings back a device revoked before a time, without its token row |
| AgentTokens.AgentStore.Refresh | internal/user/agent_service.go:112-142 | rotation, or revocation of the device whose previous token was presented |
| RefreshRuns.TokenRedeemedOnce | internal/user/agent_service.go:112-142 | over every run each refresh token is redeemed at most once, and only the newest of a device can be (section 4.14.2 of RFC 9700) |
| RefreshRuns.TokenRedeemsIff | internal/user/agent_repository.go:56-74 | in every reachable state a token refreshes a device if and only if it is the last the device was handed out, the time is before the expiry it was handed out with, and the device was never revoked |
| RefreshRuns.RedeemedInTime | internal/user/agent_repository.go:62-64 | over every run no token is redeemed at or after its expiry |
| RefreshRuns.RevokedStaysRevoked | internal/user/device_repository.go:24-38 | over every run a revoked device stays revoked unless its own account revives it from a later time |
| RefreshRuns.HashesStayUnique | files/migrations/000035_agent_devices.up.sql:3-9 | in every sound state current and previous token hashes are unique, as the columns and the repository's lookups need |
| RefreshRuns.ReuseIsAnsweredIff | internal/user/agent_service.go:112-142 | from the presentation of a last rotated-out token, through any run until the lookup: the device is doomed if and only if no refresh of it succeeded in between and it was not revoked; otherwise the call ends with nothing |
| RefreshRuns.PresentedReuseEndsDevice | internal/user/agent_service.go:112-142 | from presentation to the end: such a device is revoked by the call, whatever happens in between and after, and never refreshes again |
| RefreshRuns.ReuseKillsDevice | internal/user/agent_service.go:122-134 | in every reachable state, acting on a reuse the lookup found revokes the device, and no later refresh of it succeeds, revived or not |
| RefreshRuns.ReuseCanBeMissed | internal/user/agent_service.go:112-134 | a run in which the device refreshes in between and reuse is missed |
| Invites.PowersAreLimited | internal/invitation/invitation_service.go:141-282 | an invite that mints accounts or promotes guests has a limit; a preview does neither; a member-bound one has as many uses as keys |
| Invites.CreatedAsAsked | internal/invitation/invitation_service.go:165-262 | exactly when an invite is created, and its role, limit, duration, keys and grants against the options |
| Invites.ClaimsAndReleases | internal/invitation/invitation_repository.go:127-154 | a claim takes one use while one is left, a release puts one back and never goes below none |
| Invites.InviteRow.IncrementUseCount | internal/invitation/invitation_repository.go:127-149 | claims a use if and only if one is left |
| Invites.InviteRow.ReleaseUse | internal/invitation/invitation_repository.go:151-154 | gives one back, never below zero |
| Invites.InviteRow.Join | internal/invitation/invitation_service.go:729-1161 | a join alone spends one use when a member is added or promoted, or that was tried, and none otherwise; claims given back leave no trace |
| InviteRuns.JoinAlone | internal/invitation/invitation_service.go:897-1118 | the steps that interleave come to the same when a join is alone |
| InviteRuns.UsesAddUp | internal/invitation/invitation_service.go:897-931 | over every interleaving the counter is the uses held, spent and lost, within the limit; members added and guests promoted are at most the uses spent |
| InviteRuns.ReleaseGivesBackOne | internal/invitation/invitation_service.go:1007-1053 | a release is of a held claim, gives back exactly one, and is not repeated |
| InviteRuns.PowersAreSpentOnce | internal/invitation/invitation_service.go:1105-1118 | an invite created with powers adds and promotes no more than its limit |
| Offsets.ParserAcceptsWhatValidatorDoes | internal/event/event_validator.go:263-277 | the scheduler's parser accepts exactly the validator's offsets |
| Offsets.ScanOfRender | internal/reminder/recurrence.go:19-58 | parsing what was written gives back its parts |
| Numerals.DigitsReadTheirValue | internal/reminder/recurrence.go:35-50 | a run of digits reads exactly one number |
| Offsets.FireAtIsOff | internal/reminder/recurrence.go:60-68 | the fire time is as many seconds before or after the occurrence as the offset spells in days, hours, minutes and seconds, if and only if they fit 64 bits of nanoseconds |
| Offsets.HalfAnHourBeforeAndADayAfter | internal/reminder/recurrence.go:60-61 | "-PT30M" is half an hour before, "P1D" a day after |
| Reminders.ReminderStore.ApplyRuleChange | internal/reminder/repository.go:62-119 | a stale update changes nothing, a newer one replaces all rows of its rule, one that fails (on its offsets or its component) rolls back |
| Reminders.UpdateIsTakenIff | internal/reminder/repository.go:62-119 | exactly when a valid update is taken |
| Reminders.ReminderStore.ProcessRow | internal/reminder/scheduler.go:175-338 | skip, fire, retry later, advance or finish one row |
| Reminders.ReminderStore.SelectDueRowKeys | internal/reminder/scheduler.go:147-168 | the worklist is pending rows whose time has come, each once, earliest first, all of them or a hundred |
| Reminders.ReminderStore.Tick | internal/reminder/scheduler.go:127-142 | what becomes of a row in a tick does not depend on the other rows |
| ReminderRuns.Convergence | internal/reminder/repository.go:62-119 | over every run, in any order, with repeats, raced by the scheduler, a rule's rows are those of an update that landed, of greatest rev among those that did |
| ReminderRuns.RefusedChangesNothing | internal/reminder/repository.go:62-119 | an update that is invalid or that the table refuses changes nothing |
| ReminderRuns.OrderIsIrrelevant | internal/reminder/repository.go:62-119 | two runs in which the same updates land, of distinct revs, end with the same update in force |
| ReminderRuns.CancelIsFinal | internal/reminder/repository.go:94-104 | a cancelled rule stays cancelled and never fires unless a newer update arrives |
| ReminderRuns.RowsFireOnTheirOffset | internal/reminder/recurrence.go:60-68 | at every moment of every run each row spells a length, and its fire time is that many seconds before or after its due time, if and only if they fit |
| ReminderRuns.ProcessingIs | internal/reminder/scheduler.go:200-338 | in every reachable state: fires if pending, at most a day late and its event is stored; skipped if later or refused for good; kept if it fails for now; and goes on to the next occurrence at the same distance, or is done |
| ReminderRuns.RowsCarryUpdate | internal/reminder/repository.go:94-119 | over every run each row holds its update's columns |
| ReminderRuns.RowsAreValid | internal/reminder/repository.go:62-119 | over every run each row names an existing component, holds no NUL, and has what validation asks for |
| ReminderRuns.FiresAreSeries | internal/reminder/scheduler.go:247-338 | what a row fired and advanced past is the beginning of the series from its anchor; a row is done only at the end |
| ReminderRuns.SeriesIsExact | internal/reminder/recurrence.go:95-121 | a series is in order, without repeats, and misses no occurrence up to its end |
| ReminderRuns.LostFireIsNext | internal/reminder/scheduler.go:175-195 | a fire whose row transaction is lost is of the occurrence the row fires next |
| ReminderRuns.RestingRowsStay | internal/reminder/scheduler.go:200-224 | done and skipped rows stay and do not fire until the rule is replaced |
| ReminderRuns.FiresEarlyIffMovedAhead | internal/reminder/scheduler.go:147-224 | a row due when selected, and not processed since, fires before its time if and only if its rule was meanwhile replaced by an update that still has the offset and puts it ahead |
| ReminderRuns.SecondWorkerFiresEarlyIffAdvanced | internal/reminder/scheduler.go:175-338 | of two workers holding a due row the second fires early if and only if the first fired, committed, and the next occurrence is ahead |
| ReminderRuns.ReplacedRowCanFireEarly | internal/reminder/scheduler.go:200-224 | a run in which a rule moved from 10 to 1000 fires at 10 |
| Accounts.UserStore.SetPasswordCredentials | internal/user/user_repository.go:272-292 | verifier and both blobs together; the handle moves only while there is no verifier; refused without the account key on the identity space, or when the name is taken |
| Accounts.PasswordIsSet | internal/user/user_repository.go:272-292 | told from the row: after success the verifier and both blobs are the given ones, name and binding as before, no other account differs; refused exactly for a missing key on the identity space, or a taken name |
| Accounts.NameIsSet | internal/user/user_repository.go:106-126 | a rename changes the name alone, and exactly when it is refused |
| Accounts.StateIsSet | internal/user/user_repository.go:354-368 | a state update changes the state blob alone |
| Accounts.EscrowIsCleared | internal/user/user_repository.go:382-398 | a clear empties verifier and blobs and leaves the rest; refused on the identity space |
| AccountLog.AccountsFollowRequests | internal/user/user_repository.go:220-292 | over every run an account has the verifier and blobs of its last accepted registration, claim or password change, with later state updates, unless cleared or bound elsewhere since; its last name; and its last binding |
| Accounts.UserStore.UpdateUsername | internal/user/user_repository.go:106-126 | a password-enabled account cannot take a name another one holds |
| Accounts.UserStore.RegisterUser | internal/user/user_repository.go:518-566 | account and first device together; refused for an account or name that is there, else for a device key that is there, and then without trace |
| Accounts.UserStore.ClaimOwner | internal/user/user_repository.go:436-500 | account, first device and claim together; refused for the account or name, else for the device key, else because the space is claimed, and then without trace |
| Accounts.UserStore.GetPasswordHandle | internal/user/user_repository.go:318-331 | the handle of the one password-enabled account with the name |
| Accounts.UserStore.GetSalt | internal/user/password_endpoints.go:57-90 | the handle, or the lower-case name |
| Accounts.UserStore.ClearEscrow | internal/user/user_repository.go:382-398 | empties escrow and verifier, except on the identity space |
| Accounts.UserStore.AcceptBinding | internal/user/user_repository.go:220-244 | takes a newer binding; one to another space empties the escrow; one to this space needs the account key there |
| AccountRuns.AccountsAreSound | internal/user/user_repository.go:272-292 | in every reachable state at most one password-enabled account answers to a name, each has a handle, and a binding to this space has the account key with it |
| AccountRuns.RosterFollowsBinding | internal/user/binding.go:99-120 | in every reachable state all unrevoked devices of an account may act for it unless it is bound to another space, and then only the account key |
| AccountRuns.SaltIsFixedWhenPasswordIsSet | internal/user/password_endpoints.go:57-78 | through any run, while the account keeps a password, a name that finds it gets the salt fixed when it first had one, whether by registering, claiming the space or setting it: its name at that time in lower case |
| AccountRuns.SaltIsHandleIff | internal/user/password_endpoints.go:57-78 | in every sound state, exactly when a typed name gets the salt of an account |
| AccountRuns.JoinedNameGetsItsSaltIff | internal/user/password.go:79-95 | exactly when a name taken over unchecked from a join gets the salt of its own handle, and which one it gets otherwise |
| AccountRuns.TrimmedNameIsFound | internal/user/password.go:79-95 | over every run, an account that did not join under an untrimmed name is found by its current name |
| AccountRuns.BindingNeverDecreases | internal/user/user_repository.go:220-244 | over every run the stored (iat, sub) never decreases |
| Accounts.StringLessIff | internal/user/user_repository.go:220-231 | ties in time are broken in lexicographic order |
| AccountRuns.FoldEndsAtGreatest | internal/user/binding.go:87-97 | bindings to other spaces end at the greatest (iat, sub), and a new one leaves no escrow |
| AccountRuns.BindingOrderIsIrrelevant | internal/user/binding.go:137-144 | their order and repeats do not matter |
| AccountRuns.OwnBindingCommutesIff | internal/user/user_repository.go:220-244 | a binding to this space and one to another leave the same accounts in either order, except exactly when the account key is in escrow, the other is newer than the stored one, and the one to this space newer still |
| AccountRuns.OwnBindingOrderMatters | internal/user/user_repository.go:220-231 | in that case whichever comes first decides, and the other order empties the escrow |
| SpaceKeys.KeyService.Initialize | internal/keys/keys_service.go:71-223 | when a process comes up, with which key, and what it leaves in the file |
| SpaceKeys.KeyIsChosen | internal/keys/keys_service.go:71-152 | without a file: a new key exactly when there is no row, import or user; else the import's, or the row's as the password or the import gives it |
| SpaceKeys.KeyFile.Publish | internal/keys/key_file.go:62-123 | the link never replaces a file, and leaves it even if the sync fails |
| SpaceKeys.KeyAgreement | internal/keys/keys_service.go:71-152 | any number of processes, in any interleaving and with crashes, come up with one key: the file's, the row's and every import's |
| SpaceKeys.KeysHaveOrigins | internal/keys/keys_service.go:71-152 | over every run the key in the file was there, was supplied to a process, or was made by one that found no row, import or user |
| SpaceKeys.NewSpaceComesUp | internal/keys/keys_service.go:103-116 | a new space comes up with the key it makes |
| SpaceKeys.FileIsNeverReplaced | internal/keys/key_file.go:97-102 | a file that is there stays, and nobody comes up on a damaged one |
| SpaceKeys.RestartComesUpIffImportAgrees | internal/keys/keys_service.go:176-191 | once one process is up, a later one comes up if and only if its import agrees |

## Left out

- EventRuns.SequenceNumbers: speaks of runs in which no move finds a logged row above the mark; without that the statement is false, see `MoveCanReuseANumber` and, for the exact condition, `MoveKeepsCountingIffMarked`.
- EventWalks.WalkThroughRun: a walk over a log that grows forever need not end, so it speaks of walks that ended.
- OwnerRuns.OwnerStays: does not cover re-registration, account erasure and purging, which replace or remove the owner's row on purpose.
- OAuthCodes.DeviceRevokedIffReplayed: takes it that revoking a device succeeds and that the store is not lost in a restart, as one instance holds it in memory.
- RefreshRuns.ReuseKillsDevice: starts where the lookup found the device; `PresentedReuseEndsDevice` starts at the presentation.
- ReminderRuns.Convergence: does not model that deleting a component deletes its reminder rows and with them the stored rev, nor one rule id used in two applications at once.
- AccountRuns.SaltIsFixedWhenPasswordIsSet: is about names that find the account; `SaltIsHandleIff` says when another name gets the same salt.
- Offsets.Duration: an offset past 292 years wraps as in Go; the rounding of such a wrapped value through a 64-bit float is left out.
- Invites.InviteRow.Join: what account creation, admission and promotion do inside is a parameter each.
- The checks before authorization: move guard, agent access, staleness of the client's clock, and the payload check of user-scoped events.
- Reminder updates run in a transaction of their own, so they are outside the all-or-nothing and isolation claims.
- The members a registration brings along and the checks of its caller, hard purge, and account erasure.
- Devices of human accounts in the runs: enrolment, admission, and the device conflicts that roll a registration back. Where both the account key and the name collide, PostgreSQL may report either to an owner's claim; `ClaimOwner` reports the account.
- JSON schema validation and versioned readers of component data, which the catalog stands for.
- Failures of PostgreSQL itself: a failing statement or commit is a rollback, which leaves the state as it was.
- HTTP, websockets, push delivery, uploads, client metadata, configuration and logging.
- Cryptography, JWT parsing and with it the expiry of an invitation's link, time zones and RRULE expansion.
