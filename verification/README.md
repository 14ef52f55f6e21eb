# Verified model of the ordering, authentication and queue components

The Go packages modelled here keep their state in PostgreSQL tables and change it with short sequences of
row updates, most of them inside one transaction. The project models the tables as maps and sets, the
services as classes whose methods issue the same updates in the same order with the same branches, and
then proves what the sequences of updates achieve together.

| file | component |
|---|---|
| `Ordering.dfy` | rows of a doubly linked, indexed list; what it means that rows store a list; list edits and the same edits on rows |
| `NodeMover.dfy` | the repository's row updates and the six calls of the mover, each proved to refine a list edit |
| `OrderingRuns.dfy` | whole runs of calls: the order alone, growth of the indices, renumbering |
| `SecureOperation.dfy` | a protected operation: its confirmation chain, attempts and resends |
| `SecondFactor.dfy` | the second factor's row, the verifier, the conditional updates that spend a code |
| `OperationService.dfy` | the operations table and the use cases that open, confirm, resend and apply |
| `OperationRuns.dfy` | all interleavings of these, with the check of a code and its commit as two steps |
| `AuthTokens.dfy` | refresh token rotation with a grace window, reuse detection, logout |
| `SessionStore.dfy` | session rows, the cleaner of expired tokens, the cleanup queue, the orphan deleter |
| `SessionRuns.dfy` | all interleavings of logins, presented tokens, revocations, trimmer, cleaner and the drainer's three steps |
| `SessionTrimming.dfy` | which sessions are closed when a user has too many, and why no choice is better |
| `SessionLimits.dfy` | configured limits, thresholds, the excess queue, the gate of a login, trimming one user |
| `SessionAdmission.dfy` | all interleavings of logins under the limits, the excess queue and the trimmer's steps |
| `WorkQueue.dfy` | the work queue, and all interleavings of producers, competing consumers and background jobs |
| `ActivityStat.dfy` | folding batches of activity messages into last-visited times, and the tables they go to |
| `SettingsLists.dfy` | lists of strings and integers stored as one separated string |

Conventions. The body of a transaction is one step that either happens or leaves the tables as they were.
The time of a call is a parameter, constant within it. Generated tokens, ids and code hashes are
parameters; where the source relies on their being new, the run says so (`IsNew`, `NewId`,
`NeverAppended`). bcrypt and TOTP are arbitrary functions (`Oracle`). A stored 0 in `mrordering` stands for
NULL. An operation without an owner has user 0.

Results that differ from what one might expect of the code:

- `InsertToFirst`, `InsertToLast` and `MoveToFirst` fail on an empty list; only `MoveToLast` links the first
  element. `InsertTo*` on an element that is linked already, and `MoveAfterID` behind an element that is not
  linked, succeed and leave rows that store no list at all; these are the only ways a successful call can do so
  (`NodeMoving.Sound`, the contracts of the six calls; `OrderingRuns.InsertingLinked` and `MovingBehindUnlinked`
  give one input each).
- `InsertTo*` on a missing row, and any call that meets the end of the column's range, fail after rows were
  written. The mover opens no transaction, so it is the caller's that has to undo them (`NodeMoving.HalfDone`).
- The error branches of the mover that guard against rows vanishing between a read and an update, and those of
  `mrordering/service/node_mover.go:164-172` and `243-251`, cannot be reached from rows that store a list; they
  are proved unreachable where they would stand.
- A cleaning of expired tokens that falls between the drainer's deletion and its acknowledgement can leak session
  rows. It leaks exactly under the condition of `SessionRuns.LeakIff`, and `SessionRuns.RotatedIsReachable`,
  `SparedIsReachable` and `LeakIsReal` are a run that shows it. The scheduler
  (`wire/mrauth/scheduler/service.go:155-172`) runs the two one after the other, and then nothing leaks.
- The reuse of a rotated token is only noticed while its row is stored. After the grace period the cleaner may take it,
  and then presenting the token does nothing (`SessionRuns.ReplayCloses`, `ForgottenReplay`).
- Logins of one user that count at the same time pass the hard threshold together, by less than their number
  (`SessionAdmission.AlwaysWithin`, `BurstPasses`).
- A login that is rejected between the trim of its user and the acknowledgement of that trim leaves the excess queue
  with the acknowledgement; the next rejected login asks again (`SessionAdmission.StaysQueued`). With a hard
  deviation below one a user at the limit stays rejected right after a trim
  (`SessionAdmission.TrimmedIsAdmitted`).
- A batch of activity messages whose sessions are all gone is refused after the sessions were updated and before the
  statistics and the log are written, so how messages are split can matter for the statistics. It does exactly under
  the condition of `ActivityStat.RefusedBatchesMatter`; `ActivityStat.GoneSession` is one input. The session rows never
  depend on it (`ActivityStat.SplitsAgree`). The comment at `mrauth/repository/session_postgres.go:154-155` says that
  missing sessions are ignored; that holds only beside one that is there.
- Parsing a formatted string list does not always give the list back. `SettingsLists.ParseFormattedList` says
  exactly when it does; `SettingsLists.CommaInElement` is one that does not.

## Model

| member | source | states |
|---|---|---|
| Ordering.MirrorsUnique | mrordering/repository/node_postgres.go:48-173 | rows store at most one list: links and indices determine ids, order and indices |
| Ordering.NeighboursAgree | mrordering/service/node_mover.go:158-172 | in rows that store a list every link has its return link, and a row without an index has no neighbours |
| Ordering.OneWayLink | mrordering/service/node_mover.go:158-172 | a link without its return link belongs to no list whatever |
| Ordering.ApplyOrdered | mrordering/service/node_mover.go:55-411 | every edit keeps ids distinct and indices positive and strictly increasing |
| Ordering.Unlinked | mrordering/service/node_mover.go:372-411 | joining the neighbours and clearing the row stores the list without the element |
| Ordering.LinkedAt | mrordering/service/node_mover.go:326-366 | tying both neighbours and writing the row stores the list with the element at that position |
| Ordering.ShiftedRows | mrordering/repository/node_postgres.go:222-251 | one bulk update above a border stores the list with its tail pushed up, order kept |
| Ordering.PlacedRows | mrordering/service/node_mover.go:77-95 | with or without renumbering, the updates of a placement store the placed list |
| Ordering.MovedRows | mrordering/service/node_mover.go:285-369 | unlinking and placing anew stores the moved list |
| Ordering.UpdatesCommute | mrordering/service/node_mover.go:174-207 | tying the target's neighbours before untying the old ones gives the table of the other order, whichever rows coincide |
| Ordering.MoveRows | mrordering/service/node_mover.go:174-207 | the same with a renumbering that shifts the moved element's stale row too |
| Ordering.Tied | mrordering/service/node_mover.go:174-190 | the neighbour updates leave the moved row and every index alone and tie the target's neighbours |
| Ordering.PlaceAtGap | mrordering/service/node_mover.go:300-366 | what a call computes from the neighbouring rows alone is the placement at that position of the list |
| NodeMoving.NodeMover.UpdateNode | mrordering/repository/node_postgres.go:176-209 | writes one row; no row or a value out of range changes nothing |
| NodeMoving.NodeMover.UpdateNodePrevId | mrordering/repository/node_postgres.go:212-214 | changes prev of one row only |
| NodeMoving.NodeMover.UpdateNodeNextId | mrordering/repository/node_postgres.go:217-219 | changes next of one row only |
| NodeMoving.NodeMover.RecalcOrderIndex | mrordering/repository/node_postgres.go:222-251 | adds the step to every index above the border, NULL matching nothing, or fails when one leaves the range |
| NodeMoving.NodeMover.FetchFirstNode | mrordering/repository/node_postgres.go:90-128 | the linked row of least index; no record exactly if none is linked; inconsistent exactly if it has a predecessor |
| NodeMoving.NodeMover.FetchLastNode | mrordering/repository/node_postgres.go:131-173 | the row of greatest index; a zero node exactly if none is linked; inconsistent exactly if it has a successor |
| NodeMoving.NodeMover.JoinNeighbours | mrordering/service/node_mover.go:178-188 | the old neighbours point at each other; fails only on a missing row |
| NodeMoving.NodeMover.Relink | mrordering/service/node_mover.go:318-340 | the neighbour updates of a move never fail and leave the moved row and all indices as they were |
| NodeMoving.NodeMover.IndexInFront | mrordering/service/node_mover.go:77-86 | half of the first index, or a renumbering exactly if no positive integer is below it |
| NodeMoving.NodeMover.IndexBehind | mrordering/service/node_mover.go:350-360 | an index inside the gap, or a renumbering exactly if none is left; the uint64 sums do not wrap |
| NodeMoving.NodeMover.InsertToFirst | mrordering/service/node_mover.go:55-95 | every outcome; success on an unlinked element stores the list with it in front, on a linked one no list |
| NodeMoving.NodeMover.InsertToLast | mrordering/service/node_mover.go:99-131 | every outcome; success on an unlinked element stores the list with it at the end, on a linked one no list |
| NodeMoving.NodeMover.MoveToFirst | mrordering/service/node_mover.go:134-209 | every outcome; success stores the list with the element, linked before or not, in front |
| NodeMoving.NodeMover.MoveToLast | mrordering/service/node_mover.go:212-281 | every outcome; success stores the list with the element at the end, also from an empty list |
| NodeMoving.NodeMover.MoveAfterId | mrordering/service/node_mover.go:285-369 | every outcome and aliasing case; success behind a linked element stores the moved list |
| NodeMoving.NodeMover.Unlink | mrordering/service/node_mover.go:372-411 | every outcome; success stores the list without the element |
| NodeMoving.Moved | mrordering/service/node_mover.go:174-207 | the last row of a move completes the list edit, from the row updates that were made |
| NodeMoving.Broken | mrordering/service/node_mover.go:74-95 | a half-done call, or an insertion of a linked element, leaves rows that store no list |
| NodeMoving.HalfLinked | mrordering/service/node_mover.go:302-366 | moving behind an unlinked element leaves rows that store no list |
| NodeMoving.EndsOf | mrordering/repository/node_postgres.go:90-173 | least and greatest index are the ends of the list, so the repository's inconsistency errors cannot occur |
| NodeMoving.AfterGap | mrordering/service/node_mover.go:296-324 | the rows fetched around the target show the gap in the list, and what a move into it would overflow |
| OrderingRuns.ApplyReorders | mrordering/service/node_mover.go:55-411 | seen as ids alone every call is the plain sequence edit: indices and renumbering never show |
| OrderingRuns.ReorderPlaces | mrordering/service/node_mover.go:55-411 | each call puts the element where it was sent and leaves the order of all others |
| OrderingRuns.TopOfApply | mrordering/service/node_mover.go:17 | one call raises the largest index by at most 2^21 |
| OrderingRuns.RunBound | mrordering/service/node_mover.go:17 | after k calls from an empty list no index exceeds k * 2^21 |
| OrderingRuns.NoOverflow | mrordering/service/node_mover.go:272 | no call up to number 2^42 - 1 meets the range of a signed 64-bit column |
| OrderingRuns.SumsExact | mrordering/service/node_mover.go:350-360 | sums of stored indices, and of one with the step, never wrap in uint64 |
| OrderingRuns.RenumbersIff | mrordering/service/node_mover.go:350-360 | other elements get new indices exactly when no integer lies strictly between the new neighbours |
| OrderingRuns.GapLasts | mrordering/service/node_mover.go:350-360 | a gap of 2^n takes n insertions at the same place, every older entry left alone |
| OrderingRuns.RenumberingLasts | mrordering/service/node_mover.go:354-360 | a renumbering leaves room for 20 more insertions at the same place |
| OrderingRuns.CallsPlace | mrordering/service/node_mover.go:55-369 | for an unlinked element the calls are these insertions |
| OrderingRuns.RunReorders | mrordering/service/node_mover.go:55-411 | over a whole run the ids are what the plain sequence edits make of them |
| OrderingRuns.CarefulRunKeeps | mrordering/service/node_mover.go:55-411 | after any run of fewer than 2^42 careful calls on unlinked rows, the rows store the list of the calls that succeeded, its order that of the plain edits, and no call met the column's range |
| OrderingRuns.InsertingLinked | mrordering/service/node_mover.go:55-95 | one input on which an insertion succeeds and leaves rows that store no list |
| OrderingRuns.MovingBehindUnlinked | mrordering/service/node_mover.go:285-369 | one input on which a move behind an unlinked element succeeds and leaves rows that store no list |
| SecureOperations.SecureOperation.CheckInvariants | mrauth/model/secureoperation/secure_operation.go:84-118 | accepts exactly the values that keep the invariant |
| SecureOperations.NewOperation | mrauth/model/secureoperation/secure_operation.go:31-55 | succeeds exactly with a token, a name and a chain whose only unsent action is the last; then opened, first action activated |
| SecureOperations.SecureOperation.WakeUp | mrauth/model/secureoperation/secure_operation.go:59-79 | refuses no token, a broken invariant and an expired operation, in this order |
| SecureOperations.SecureOperation.ActivateConfirmation | mrauth/model/secureoperation/activate_confirmation.go:12-38 | error cases; otherwise the new token, the action's attempts and, if it is sent, resends and resend time |
| SecureOperations.SecureOperation.ActivateResendCode | mrauth/model/secureoperation/resend_code.go:12-51 | error cases in order; otherwise one resend less, full attempts, new token |
| SecureOperations.SecureOperation.InitSendableAction | mrauth/model/secureoperation/secure_operation.go:128-152 | stores the code hash in the current action if it is sent, changes nothing else |
| SecureOperations.SecureOperation.ConfirmAction | mrauth/model/secureoperation/confirm.go:13-51 | with attempts left a wrong code costs exactly one attempt and a failed check nothing; a right one passes the action, the last one confirms; without attempts, or not opened, nothing changes |
| SecureOperations.CreatedIsNew | mrauth/model/secureoperation/secure_operation.go:31-55 | what is created, with or without its first code, has its first action's counters untouched, as every operation that a run opens |
| SecureOperations.AfterKeeps | mrauth/model/secureoperation/secure_operation.go:81-118 | every event keeps the invariant, non-negative counters, and the chain a suffix of the original |
| SecureOperations.LifeKeeps | mrauth/model/secureoperation/confirm.go:13-51 | in every run of one operation's events the remaining actions are a suffix, one shorter per right code, and it is confirmed exactly if all were passed |
| SecureOperations.AfterBudget | mrauth/model/secureoperation/resend_code.go:12-51 | no event raises the number of wrong codes still possible, every counted wrong code lowers it |
| SecureOperations.LifeBudget | mrauth/model/secureoperation/confirm.go:13-51 | over every run of one operation's events, wrong codes taken and still possible never exceed those possible at the start |
| SecureOperations.WrongCodesBounded | mrauth/model/secureoperation/activate_confirmation.go:12-38 | a created operation absorbs at most the sum of attempts * (1 + resends), attempts alone for the second factor |
| SecondFactor.Normalized | mrauth/service/auth2fa/verifier.go:57-95 | limits of a recovery code's length end up positive and in order, usable ones unchanged |
| SecondFactor.OwedBySnapshot | mrauth/service/auth2fa/verifier.go:99-173 | a right code owes an update only for a newer step, or for a code stored in the snapshot that matches |
| SecondFactor.Without | mrauth/repository/auth_2fa_postgres.go:117-134 | the removed hash is gone entirely, the others stay |
| SecondFactor.FactorTable.Insert | mrauth/repository/auth_2fa_postgres.go:65-93 | adds a factor exactly if the user has none |
| SecondFactor.FactorTable.UpdateTOTPStep | mrauth/repository/auth_2fa_postgres.go:98-112 | spends a step exactly if it is newer than the stored one |
| SecondFactor.FactorTable.UpdateRecoveryCode | mrauth/repository/auth_2fa_postgres.go:117-134 | spends a code exactly if it is still stored, and fewer remain |
| SecondFactor.FactorTable.UpdateRecoveryCodes | mrauth/repository/auth_2fa_postgres.go:138-153 | replaces the codes of an existing factor only |
| SecondFactor.FactorTable.Delete | mrauth/repository/auth_2fa_postgres.go:157-169 | removes the factor, fails without one |
| SecondFactor.FactorTable.TryRecovery | mrauth/service/auth2fa/verifier.go:183-218 | the first hash that does not answer no decides |
| SecondFactor.FactorTable.Verify | mrauth/service/auth2fa/verifier.go:99-173 | the outcome by method, kind of the factor, answer and length of the code |
| SecondFactor.FactorTable.RunCommit | mrauth/service/auth2fa/verifier.go:134-218 | the returned closure spends the code exactly if its condition still holds; a spent recovery code whose alert cannot be sent is an error all the same |
| OperationService.OperationTable.Replace | mrauth/repository/secure_operation_postgres.go:160-193 | only an opened row with a free new token and storable counters is replaced |
| OperationService.OperationTable.UpdateFailedAttempt | mrauth/repository/secure_operation_postgres.go:196-220 | counts down an opened row with attempts left, never below zero |
| OperationService.OperationTable.Insert | mrauth/repository/secure_operation_postgres.go:113-157 | fails on a used token or negative counters |
| OperationService.OperationTable.DeleteByUserAndName | mrauth/repository/secure_operation_postgres.go:225-237 | leaves every other owner's and every other kind's operations |
| OperationService.OperationTable.Delete | mrauth/repository/secure_operation_postgres.go:241-258 | succeeds exactly once per row |
| OperationService.Others | mrauth/repository/secure_operation_postgres.go:225-237 | exactly the operations not superseded, unchanged |
| OperationService.CommitKept | mrauth/component/secureoperation/confirm_code.go:53-100 | an update the verifier asked for is never dropped, and only a confirmed operation owes one |
| OperationService.CodeDecides | mrauth/usecase/operation/confirm_operation.go:78-267 | for an opened, unexpired operation with attempts left: a code that does not match the stored hash, password, step or recovery codes costs exactly one attempt, and no other; it is confirmed or moved on, and the factor spent, exactly if the code matches and a free token, storable counters and delivery allow it; all else changes nothing |
| OperationService.NotAttempted | mrauth/usecase/operation/confirm_operation.go:105-180 | in every other case nothing is confirmed, counted or spent; expired exactly after its time; refused without attempts |
| OperationService.ResendsWhen | mrauth/usecase/operation/resend_code.go:58-152 | a code is sent again exactly with resends left, the waiting time over, a free token and a deliverable mail; it restores the attempts, costs one resend and starts the waiting time anew |
| OperationService.ResendsApart | mrauth/model/secureoperation/resend_code.go:12-51 | two codes of one action are sent no closer than its waiting time, up to rounding |
| OperationService.OpensWhen | mrauth/component/secureoperation/opener.go:71-140 | opening needs a token free but for the superseded, storable counters and a deliverable first code; exactly the owner's operations of the kind go |
| OperationService.AppliesWhen | mrauth/usecase/security/apply_operation.go:61-113 | an effect is applied exactly for a confirmed, unexpired operation of the visitor whose handler succeeds |
| OperationService.ConfirmsIsEvent | mrauth/usecase/operation/confirm_operation.go:105-233 | a confirmation leaves the operations alone or moves one of them on by an accepted right or wrong code |
| OperationService.ResendsIsEvent | mrauth/usecase/operation/resend_code.go:58-152 | a resend leaves the operations alone or moves one of them on by an accepted resend |
| OperationService.Operations.PrepareConfirm | mrauth/component/secureoperation/confirm_code.go:43-100 | the next state of the operation and the owed update, or the error |
| OperationService.Operations.Confirm | mrauth/usecase/operation/confirm_operation.go:78-267 | tables and answer for every case; the operation handed back, counter included, is the stored one; nothing is kept of a failure after a write, an alert that cannot be sent included |
| OperationService.Operations.Resend | mrauth/usecase/operation/resend_code.go:58-152 | tables and answer for every case, rolled back when the notification fails; the stored operation is handed back on success and when resends are used up or it is too early |
| OperationService.Operations.Open | mrauth/component/secureoperation/opener.go:71-140 | supersedes the owner's operations of the kind and stores the new one, or changes nothing |
| OperationService.Operations.Apply | mrauth/usecase/security/apply_operation.go:61-113 | consumes a confirmed operation of the visitor exactly if the handler of its name succeeds on its owner and payload, else changes nothing |
| OperationRuns.ConfirmIsTwoSteps | mrauth/usecase/operation/confirm_operation.go:105-233 | check and commit with nothing in between are the confirmation of the service |
| OperationRuns.WrongCodeCounted | mrauth/usecase/operation/confirm_operation.go:105-184 | in every run a code that does not match raises the count of wrong codes and lowers the attempts by one, and only a matching one gets as far as the commit |
| OperationRuns.TokensKept | mrauth/usecase/operation/confirm_operation.go:105-233 | every step keeps stored operations valid, and each checked confirmation on its opened row with a token of its own |
| OperationRuns.LeftIsDead | mrauth/component/secureoperation/opener.go:80-112 | a token an operation gives up resolves to nothing stored or about to be stored |
| OperationRuns.DeadForever | mrauth/repository/secure_operation_postgres.go:160-193 | in every run a dead token never resolves again |
| OperationRuns.OwnersKept | mrauth/component/secureoperation/opener.go:80-112 | at most one stored operation per owner and kind, at all times |
| OperationRuns.FrozenKept | mrauth/usecase/session/session_open.go:153-201 | an operation read as confirmed stays as read until it is gone for good |
| OperationRuns.EffectsKept | mrauth/usecase/security/apply_operation.go:76-113 | each confirmed operation has at most one effect, a session's or one of its owner |
| OperationRuns.CommitUses | mrauth/repository/auth_2fa_postgres.go:98-134 | a commit spends a step newer than all spent on the row, or a code not yet spent of the set |
| OperationRuns.UsesKept | mrauth/service/auth2fa/verifier.go:134-218 | whatever interleaves, steps spent on one row strictly increase and no recovery code of a set is spent twice |
| OperationRuns.SpentWithConfirmed | mrauth/usecase/operation/confirm_operation.go:185-204 | a code is spent in the very step that stores Confirmed, or neither happens |
| OperationRuns.ChainsKept | mrauth/usecase/operation/confirm_operation.go:105-233 | every step keeps each stored operation a suffix of the chain it was opened with, and wrong codes counted and still possible within that chain's bound |
| OperationRuns.AlwaysChained | mrauth/model/secureoperation/confirm.go:13-51 | in every run of the service: wrong codes counted are at most the sum of attempts * (1 + resends), attempts alone for the second factor; confirmed exactly if every action was passed; no effect without that |
| OperationRuns.AlwaysSound | mrauth/usecase/operation/confirm_operation.go:78-267 | all of these hold after every run of opens, checks, commits, aborted confirmations, resends, applications, sessions, revocations and factor changes |
| AuthTokens.TokenTable.RevokeRefresh | mrauth/repository/auth_token_postgres.go:312-359 | revokes exactly an enabled, unexpired refresh token, whose row is then valid for the grace period; else tells the remaining outcomes apart |
| AuthTokens.TokenTable.FetchEnabledRefreshToken | mrauth/repository/auth_token_postgres.go:362-411 | revoked and unexpired is a retry, revoked and expired is reuse, enabled and expired is late, no row is unknown |
| AuthTokens.TokenTable.FetchActiveToken | mrauth/repository/auth_token_postgres.go:440-489 | a latest enabled token of the kind in the session, or there is none |
| AuthTokens.TokenTable.Insert | mrauth/repository/auth_token_postgres.go:180-237 | all rows of the pair or none |
| AuthTokens.TokenTable.RevokeTokensBySessions | mrauth/repository/auth_token_postgres.go:535-562 | every enabled token of the sessions is revoked and expires now, nothing else changes |
| AuthTokens.TokenTable.RevokeSessionByRefreshToken | mrauth/repository/auth_token_postgres.go:495-525 | logs out the session of the token whatever its state: every token of it is revoked, enabled ones from now on, all other rows stay; fails if nothing was enabled |
| AuthTokens.AuthTokenService.Recreate | mrauth/service/authtoken/auth_token.go:135-166 | rotates in one transaction, answers a retry without any change, refuses the rest |
| AuthTokens.AuthTokenService.LastSessionToken | mrauth/service/authtoken/auth_token.go:168-214 | the session's current refresh token if neither it nor its access token has run out, or which of the three reasons there is not |
| AuthTokens.AuthTokenService.Continue | mrauth/usecase/session/session_continue.go:65-115 | by the stored row: an enabled unexpired token is rotated; a revoked one gets the current token and changes nothing before its row expires, and closes the session from then on; a late or unknown one is refused |
| AuthTokens.RetryIsCurrent | mrauth/service/authtoken/auth_token.go:168-214 | a retry gets the session's one enabled refresh token |
| AuthTokens.RetryDecided | mrauth/service/authtoken/auth_token.go:168-214 | the tables decide the answer to a retry |
| AuthTokens.NoPairWithoutRefresh | mrauth/service/authtoken/auth_token.go:135-214 | a session without an enabled refresh token gives out no pair for any of its tokens |
| AuthTokens.RevokedIsClosed | mrauth/repository/auth_token_postgres.go:535-562 | closing leaves no enabled token of any kind |
| AuthTokens.RotationKeepsOne | mrauth/service/authtoken/auth_token.go:135-166 | rotation keeps at most one enabled refresh token per session |
| SessionStore.Store.Issue | mrauth/service/session/issuer.go:40-58 | the first free of three generated ids; fails exactly if all three are taken |
| SessionStore.Store.OpenSession | mrauth/usecase/session/session_open.go:153-201 | session row and tokens appear and the operation goes, all together or not at all |
| SessionStore.Store.DeleteOrphaned | mrauth/repository/orphan_session_deleter_postgres.go:48-90 | deletes exactly the candidates without an enabled, unexpired refresh token |
| SessionStore.Store.CleanTokens | mrauth/usecase/clean/auth_tokens_cleaner.go:61-91 | refuses a limit below one; every row that has not expired stays as it was; no refresh row is deleted without its session being queued; a short count means nothing expired is left |
| SessionStore.Store.Drain | mrauth/usecase/clean/session_drainer.go:52-75 | refuses a limit below one; orphans of the batch are deleted, the whole batch acknowledged and counted; a short count means the queue is empty |
| SessionStore.Store.Trim | mrauth/usecase/clean/session_excess_trimmer.go:138-160 | the selected sessions lose their tokens and all their rows |
| SessionStore.OpenIff | mrauth/repository/auth_token_postgres.go:101-178 | a session is open exactly if it has an enabled, unexpired refresh token in the realm |
| SessionStore.RotationKeepsOpen | mrauth/service/authtoken/auth_token.go:135-166 | rotation opens no session, and closes none while the new token lives |
| SessionStore.RevokingCloses | mrauth/repository/auth_token_postgres.go:101-121 | revoking takes exactly these sessions out of the open ones |
| SessionRuns.StepKept | mrauth/usecase/clean/session_drainer.go:52-75 | every step but a cleaning before a pending acknowledgement keeps: no leaked row, every live token with its session row |
| SessionRuns.NeverLeaks | wire/mrauth/scheduler/service.go:155-172 | both hold after every run with cleaner and drainer one after the other, everything else and crashes anywhere |
| SessionRuns.LiveKept | mrauth/repository/orphan_session_deleter_postgres.go:48-90 | no step whatever, in any order, takes the row of a session that is alive |
| SessionRuns.LeakIff | mrauth/usecase/clean/session_drainer.go:52-75 | whatever happens between a deletion and its acknowledgement, the acknowledgement leaks exactly if a session row of the batch has no refresh row by then |
| SessionRuns.RotatedIsReachable | mrauth/usecase/clean/session_drainer.go:52-75 | the first half of the run that leaks |
| SessionRuns.SparedIsReachable | mrauth/usecase/clean/session_drainer.go:52-75 | the second half: the drainer spares a session that is alive |
| SessionRuns.LeakIsReal | mrauth/usecase/clean/session_drainer.go:52-75 | a concrete leak when the last token is cleaned before the acknowledgement |
| SessionRuns.CleanUp | wire/mrauth/scheduler/service.go:155-172 | the job, batch by batch, is a serial run that leaks nothing; every open session stays open and keeps its row; if its turns suffice, nothing expired and nothing queued is left |
| SessionRuns.CleanupCompletes | mrauth/usecase/clean/session_drainer.go:52-75 | after a full clean-up a session row left still has a refresh row that has not expired |
| SessionRuns.OneRefreshKept | mrauth/repository/auth_token_postgres.go:312-359 | every step keeps at most one enabled refresh token per session, if session ids are new |
| SessionRuns.AlwaysOneRefresh | mrauth/service/authtoken/auth_token.go:77-166 | so it is after every run |
| SessionRuns.ClosedStays | mrauth/repository/auth_token_postgres.go:495-562 | no step enables a refresh token in a session that has none |
| SessionRuns.ClosedForever | mrauth/service/authtoken/auth_token.go:135-214 | a closed session never gives out a pair again, in any run that does not reissue its id |
| SessionRuns.OpenGrows | mrauth/repository/auth_token_postgres.go:101-121 | only an admitted login adds an open session, and only its own |
| SessionRuns.ContinueSession | mrauth/usecase/session/session_continue.go:65-115 | presenting a refresh token is a step of the run |
| SessionRuns.RotatedRow | mrauth/service/authtoken/auth_token.go:135-166 | rotation revokes the old token, valid for the grace period, and enables the new one |
| SessionRuns.RetryIsHarmless | mrauth/repository/auth_token_postgres.go:362-411 | in every run, presenting a rotated token again before the grace period is over changes nothing and closes nothing |
| SessionRuns.RetryGetsNewToken | mrauth/service/authtoken/auth_token.go:168-214 | in every run in which nothing closed the session or rotated the new token, a retry gets the new token, if an access token can go with it |
| SessionRuns.ReplayCloses | mrauth/usecase/session/session_continue.go:65-115 | in every run, presenting it from the end of the grace period on closes its session and no other, while its row is stored |
| SessionRuns.ForgottenReplay | mrauth/repository/auth_token_postgres.go:362-411 | once the row was cleaned away, presenting it does nothing |
| SessionRuns.ClosingCloses | mrauth/repository/auth_token_postgres.go:495-562 | logout, closing, trimming and reuse leave the session without an enabled token; logout and reuse leave every other session as it was |
| SessionRuns.ClosedOnceForAll | mrauth/repository/auth_token_postgres.go:495-525 | after a logout, or any other closing, no token of the session brings a pair again, in any run that does not reissue its id |
| SessionRuns.NothingElseCloses | mrauth/repository/auth_token_postgres.go:569-645 | no other step closes an open session while the time stands still |
| SessionRuns.LoginIsOpen | mrauth/usecase/session/session_open.go:153-201 | a login that goes through opens its session |
| SessionRuns.CleaningSpares | mrauth/repository/auth_token_postgres.go:569-645 | a cleaning leaves every row that has not expired, and the open sessions of every user and realm |
| SessionTrimming.SelectExcessSessions | mrauth/usecase/clean/session_excess_trimmer.go:176-214 | exactly the excess, in order, without the most active; the kept have the most distinct devices possible; a device is lost only if all kept differ; a session goes before a less active one only if it repeats a device and the other does not |
| SessionTrimming.ExcessSize | mrauth/usecase/clean/session_excess_trimmer.go:176-214 | as many ids as there are sessions above the limit, one session always kept |
| SessionTrimming.OneChoice | mrauth/usecase/clean/session_excess_trimmer.go:163-175 | number, devices and turn leave one choice only |
| SessionTrimming.ExcessDecided | mrauth/usecase/clean/session_excess_trimmer.go:176-214 | so list and limit decide which ids are revoked |
| SessionTrimming.KeptIsBest | mrauth/usecase/clean/session_excess_trimmer.go:163-175 | all different, or every device kept, is optimal among all choices of that size |
| SessionTrimming.PassCandidate | mrauth/usecase/clean/session_excess_trimmer.go:188-201 | passing a session over keeps the state of the pass |
| SessionTrimming.PassKeep | mrauth/usecase/clean/session_excess_trimmer.go:203-208 | keeping a new device keeps the state of the pass |
| SessionTrimming.TurnCandidate | mrauth/usecase/clean/session_excess_trimmer.go:188-201 | a session passed over is a repetition, or comes after everything kept |
| SessionTrimming.TurnKeep | mrauth/usecase/clean/session_excess_trimmer.go:203-208 | what is kept in the pass repeats no device |
| SessionTrimming.LastPassed | mrauth/usecase/clean/session_excess_trimmer.go:210-214 | the final slice is in bounds and the best choice |
| SessionTrimming.LastInTurn | mrauth/usecase/clean/session_excess_trimmer.go:210-214 | of the candidates the least active go |
| SessionLimits.NewLimitResolver | mrauth/usecase/session/user_limits.go:45-60 | the map answers every realm and kind as the last configured entry says, the default otherwise, always at least one |
| SessionLimits.LastConfigured | mrauth/usecase/session/user_limits.go:45-60 | the last place in the configuration that names a realm and a kind decides their limit |
| SessionLimits.NotConfigured | mrauth/usecase/session/user_limits.go:45-60 | a pair that is named nowhere gets the default |
| SessionLimits.CorrectThresholds | mrauth/usecase/session/user_limits.go:101-123 | both deviations in range and in order; deviations in range are only put in order |
| SessionLimits.ApplySessionLimit | mrauth/usecase/session/session_open.go:267-288 | admitted exactly below limit plus hard deviation, at least one; the queue is asked exactly from limit plus soft deviation on, by every rejected login |
| SessionLimits.NewSessionLimiter | mrauth/usecase/session/user_limits.go:64-72 | resolves the configured limits, with both deviations in range and in order |
| SessionLimits.ExcessQueue.Enqueue | mrauth/repository/session_excess_queue_postgres.go:38-61 | one item per user and realm, with the last limit |
| SessionLimits.FetchOrderedList | mrauth/repository/session_postgres.go:41-111 | each session once, by last activity and then id, both descending |
| SessionLimits.ChosenInTurn | mrauth/usecase/clean/session_excess_trimmer.go:176-214 | on the sessions: a session is closed before a less active one only if it repeats a user agent and the other does not; a device is lost only if the sessions left all differ |
| SessionLimits.SelectSessions | mrauth/usecase/clean/session_excess_trimmer.go:122-136 | the reading half: closing what it selects would leave the smaller of what was listed and the limit, the most active session among it, chosen in turn |
| SessionLimits.TrimUser | mrauth/usecase/clean/session_excess_trimmer.go:122-161 | with nothing between reading and closing: leaves the smaller of what was listed and the limit, the most active session among it, chosen in turn; exactly the sessions closed lose their tokens and rows |
| SessionLimits.TrimmedSize | mrauth/usecase/clean/session_excess_trimmer.go:122-161 | the revoked ids are distinct open sessions, so the count comes out exactly |
| SessionAdmission.StepOpens | mrauth/usecase/session/session_open.go:267-288 | only a login that was admitted adds an open session, and only its own |
| SessionAdmission.AlwaysWithin | mrauth/usecase/session/session_open.go:254-288 | with at most k logins of a user in a realm under way at a time, each counting without a lock, the open sessions exceed the hard threshold by less than k in every run |
| SessionAdmission.AlwaysWithinHard | mrauth/usecase/session/session_open.go:267-288 | with one at a time they never exceed it |
| SessionAdmission.BurstPasses | mrauth/usecase/session/session_open.go:254-266 | two logins at a time do exceed it |
| SessionAdmission.RejectedIsQueued | mrauth/usecase/session/session_open.go:267-288 | a rejected login leaves its user and realm in the excess queue with the configured limit, and opens nothing |
| SessionAdmission.QueuedTillAcknowledged | mrauth/usecase/clean/session_excess_trimmer.go:86-115 | it stays there through every run until the trimmer acknowledges a batch it is in |
| SessionAdmission.StaysQueued | mrauth/repository/session_excess_queue_postgres.go:112-144 | a step takes it out exactly if it is such an acknowledgement |
| SessionAdmission.SelectionFits | mrauth/usecase/clean/session_excess_trimmer.go:122-136 | without what was selected the open sessions come to the smaller of their number and the limit |
| SessionAdmission.TrimBounds | mrauth/usecase/clean/session_excess_trimmer.go:122-161 | whatever happens between a selection and its closing, and after it: the open sessions exceed the limit by at most the number that opened for the pair since the selection, and a login is admitted if the hard deviation is greater than that number |
| SessionAdmission.TrimmedIsAdmitted | mrauth/usecase/session/user_limits.go:92-123 | right after an undisturbed trim from the limit or above exactly the limit is open, and the next login is admitted exactly if the hard deviation is at least one |
| SessionAdmission.TrimSteps | mrauth/usecase/clean/session_excess_trimmer.go:138-160 | selecting and closing with nothing in between come to the trim of the service |
| SessionAdmission.OpenSession | mrauth/usecase/session/session_open.go:113-201 | limit and transaction are the two steps of a login in the run, admitted only below the hard threshold, paid for by the operation |
| SessionAdmission.TrimExcess | mrauth/usecase/clean/session_excess_trimmer.go:86-115 | fetch, each selection, each closing and the acknowledgement are steps of the run; refuses a limit below one; counts the items that left the queue |
| WorkQueue.Queue.Append | mrqueue/service/produce/queue_producer.go:34-60 | all items or none; a step of the run |
| WorkQueue.Queue.ReadItems | mrqueue/repository/queue_postgres.go:72-106 | moves a batch of due ready items to processing from now on, attempts untouched, all others as they were; a step of the run |
| WorkQueue.Queue.CancelItems | mrqueue/service/consume/queue_consumer.go:80-94 | only items still in processing go back to ready, free of charge; a step of the run |
| WorkQueue.Queue.Delete | mrqueue/repository/queue_postgres.go:265-278 | deletes exactly an item in the given status |
| WorkQueue.Queue.Commit | mrqueue/service/consume/queue_consumer.go:98-116 | succeeds exactly for an item in processing not yet journalled, else changes nothing |
| WorkQueue.Queue.CommitMessage | mrqueue/service/consume/message_consumer.go:82-95 | the effect stays exactly if the commit succeeds; a step of the run |
| WorkQueue.Queue.Reject | mrqueue/service/consume/queue_consumer.go:121-155 | a system cause charges one attempt of an item in processing, any other drops it; a step of the run |
| WorkQueue.Queue.ToRetryByTimeout | mrqueue/repository/queue_postgres.go:153-188 | overdue items are to be retried, free of charge; a step of the run |
| WorkQueue.Queue.RetryToReady | mrqueue/repository/queue_postgres.go:192-229 | due items with attempts left become ready; a step of the run |
| WorkQueue.Queue.Clean | mrqueue/usecase/clean/queue_cleaner.go:55-81 | refuses a limit below one; items without attempts are dropped unless the hook fails; a step of the run |
| WorkQueue.PlacedKept | mrqueue/repository/queue_postgres.go:72-278 | every step keeps each appended id in exactly one of queue, completed and dropped, effective exactly if completed, once |
| WorkQueue.CountedKept | mrqueue/repository/queue_postgres.go:110-262 | every step keeps attempts left plus charges equal to the initial attempts, at least one unless to be retried |
| WorkQueue.AlwaysInOrder | mrqueue/service/consume/queue_consumer.go:98-155 | both hold after every run, however late a consumer commits or rejects |
| WorkQueue.RetryGoesOn | mrqueue/repository/queue_postgres.go:192-262 | an item to be retried is taken by exactly one of the two background jobs |
| WorkQueue.RejectionCharges | mrqueue/repository/queue_postgres.go:131-149 | the check on attempts never stops a rejection, and a late rejection charges nothing |
| WorkQueue.CommittedOnce | mrqueue/service/consume/message_consumer.go:82-95 | a committed id never returns to the queue in any continuation of the run |
| WorkQueue.NotBefore | mrqueue/repository/queue_postgres.go:72-229 | no batch reads an item before its delay, times one out before its timeout, or retries one before its delay has passed |
| WorkQueue.WaitsAnew | mrqueue/repository/queue_postgres.go:72-229 | every change of status starts the waiting time anew, and only a rejection costs an attempt |
| WorkQueue.StaysWithConsumer | mrqueue/repository/queue_postgres.go:153-188 | in every run an item that was read stays as it is until it is committed, rejected or given back, or its timeout has passed since |
| ActivityStat.LatestIsMax | mrauth/usecase/auth/user_statistic.go:58-101 | one entry per key that occurs, carrying a maximum that occurs |
| ActivityStat.LatestOfPermutation | mrauth/usecase/auth/user_statistic.go:58-101 | the order of the messages does not matter |
| ActivityStat.LatestOfBoth | mrauth/repository/user_activity_stat_postgres.go:135-183 | two batches together say the merged maximum |
| ActivityStat.SortInPlace | mrauth/usecase/auth/user_statistic.go:64-82 | sorted by user, realm and latest first; a permutation |
| ActivityStat.RealmRows | mrauth/usecase/auth/user_statistic.go:84-101 | skipping adjacent repeats gives one row per user and realm with the latest visit, none for realm zero |
| ActivityStat.SessionRows | mrauth/usecase/auth/user_statistic.go:130-170 | one entry per session with the latest visit and an address it came from |
| ActivityStat.StatTable.UpdateLastVisited | mrauth/repository/user_activity_stat_postgres.go:135-183 | the greater of stored and new time in existing rows only |
| ActivityStat.AllInOneBatch | mrauth/repository/user_activity_stat_postgres.go:135-183 | any number of batches store what one batch of all their messages stores |
| ActivityStat.BatchesDoNotMatter | mrauth/repository/user_activity_stat_postgres.go:135-183 | batches that reach a table: the same messages store the same times, however they are split, in whatever order batches and messages come |
| ActivityStat.SessionTable.UpdateLastActivity | mrauth/repository/session_postgres.go:154-200 | the greater time wins and brings its address, in existing rows only; an error exactly if the batch is not empty and none of its sessions has a row |
| ActivityStat.Execute | mrauth/usecase/auth/user_statistic.go:58-126 | succeeds exactly if the batch names no session or one that has its row; the sessions take its latest visits either way, the statistics and the log only then, whatever its order |
| ActivityStat.ExecutedIsUpdated | mrauth/usecase/auth/user_statistic.go:103-119 | over any batches the sessions take the messages of all, the statistics those of exactly the batches not refused |
| ActivityStat.SplitsAgree | mrauth/usecase/auth/user_statistic.go:103-119 | the same messages, split in two ways, leave the same sessions, and the same statistics if the batches not refused hold the same messages |
| ActivityStat.NoneRefused | mrauth/usecase/auth/user_statistic.go:103-107 | if every batch names no session or one that has its row, all of them reach the statistics |
| ActivityStat.RefusedBatchesMatter | mrauth/usecase/auth/user_statistic.go:103-119 | the statistics are those of one accepted batch of all messages exactly if every message of a refused batch has no row there, is no later than that row, or no later than an accepted message of its user and realm |
| ActivityStat.GoneSession | mrauth/repository/session_postgres.go:187-199 | one input where the split matters: a visit with a session that is gone is stored beside one whose session is there, and lost alone |
| SettingsLists.JoinSplit | mrsettings/field/parse/field_parser.go:45-51 | joining a split string gives it back, for every string and non-empty separator |
| SettingsLists.SplitJoin | mrsettings/field/format/field_formatter.go:61-91 | splitting a joined list gives it back exactly if its separators are the ones found |
| SettingsLists.ParseFormatted | mrsettings/field/parse/field_parser.go:54-65 | every 64-bit integer parses from its decimal form |
| SettingsLists.ParsesExactly | mrsettings/field/parse/field_parser.go:54-65 | a string parses to a number exactly if it is its decimal form, sign and leading zeros allowed, and the number has 64 bits |
| SettingsLists.JoinLength | mrsettings/field/format/field_formatter.go:66-72 | the length checked is the length written |
| SettingsLists.FieldFormatter.constructor | mrsettings/field/format/field_formatter.go:28-46 | defaults replace an unusable length or separator |
| SettingsLists.FieldFormatter.FormatStringList | mrsettings/field/format/field_formatter.go:61-91 | the joined list, or an error exactly if it is longer than the limit |
| SettingsLists.FieldFormatter.FormatInt64List | mrsettings/field/format/field_formatter.go:99-130 | the joined decimal forms, or an error by the estimate of 19 digits a value |
| SettingsLists.ParseInt64List | mrsettings/field/parse/field_parser.go:68-86 | all parts parsed in order, or an error if one fails |
| SettingsLists.ParsesEach | mrsettings/field/parse/field_parser.go:68-86 | a list parses exactly if every part does, each to its number |
| SettingsLists.FormatParsed | mrsettings/field/parse/field_parser.go:45-51 | formatting a parsed list gives the string back |
| SettingsLists.ParseFormattedList | mrsettings/field/parse/field_parser.go:45-51 | parsing a formatted list gives it back exactly if it is empty, or its separators are found where they were put and it is not one empty string |
| SettingsLists.CommaInElement | mrsettings/field/parse/field_parser.go:45-51 | one list that does not come back |
| SettingsLists.ParseFormattedIntegers | mrsettings/field/parse/field_parser.go:68-86 | every list of 64-bit integers parses from its formatted form, with the default comma and every separator starting with neither digit nor minus |

## Left out

- SQL text and the extra conditions that pick one list among several in a table, error wrapping, logging, events, and the content of notifications.
- Anomalies of READ COMMITTED between transactions: transactions are serial, apart from the check and the commit of a second factor, the counting and the opening of a login, the trimmer's fetch, selection, closing and acknowledgement, and the drainer's fetch, deletion and acknowledgement, which are steps of their own.
- The transaction around a mover call: it is the caller's. Half-done failures are described, not rolled back.
- Repeated code of the mover is written once (`JoinNeighbours`, `Relink`, `IndexInFront`, `IndexBehind`); the column of the index is taken as a signed 64-bit one.
- bcrypt, TOTP, JWT signing and the generators: arbitrary functions and new values. A pair that cannot be signed only matters for a retry.
- Notification by phone, which the code refuses, is a failed notification; a notification with an empty plain code is not modelled.
- OperationRuns.AlwaysSound: the expiry cleaner may remove any operation that is not locked, expired or not, which allows more runs than the code.
- Scopes, realm lookup and language settings of tokens and sessions; address and user agent of a session outside the trimmer.
- OperationService.Operations.Apply: a handler is a function of owner and payload that succeeds or not; what it does inside is its own.
- SessionRuns.ClosedForever: session ids are not reissued. A reissued id may collide with tokens of a deleted session; that no row leaks does not depend on it.
- SessionLimits.ApplySessionLimit: an error of the excess queue is swallowed by the code; then `reached` is false and no trim is asked for.
- SessionLimits.TrimUser: the rows' user agents and times of activity are a parameter (`Metas`), as no other part depends on them.
- SessionLimits.SelectSessions: the open sessions and their listing, two reads in the code, are one.
- SessionAdmission.TrimExcess: proved to be a run with nothing between its steps; what others do between them is the business of `TrimBounds` and of the invariants. The runs also allow the trimmer to select anew or to acknowledge early, which is more than the code does.
- Failures of the database itself, among them a failed revocation after a token's reuse, which the code logs and passes over (`mrauth/usecase/session/session_continue.go:73-77`).
- ActivityStat.ExecutedIsUpdated: no session row appears or goes between the batches of a run. A batch that is refused and delivered again is one more batch of the run.
- SessionTrimming.SelectExcessSessions: the sorted slice of user agents seen is a set.
- SessionStore.Store.CleanTokens: the deletion of expired access tokens, a transaction of its own in the code, is part of the step; the step without refresh tokens is that deletion alone. The order in which batches are taken, oldest first, is not modelled, here and in the other cleaners and queues.
- SessionRuns.CleanUp: the cleaners of operations and activity logs that run in between touch none of these tables and are left out; the job's time limit is a number of turns.
- WorkQueue.Queue.ReadItems: the batch is any set of due items within the limit; that older ones are preferred is not modelled, as rows locked by others are skipped. The same holds for the other batch queries.
- Retention of message bodies, and the cleaners of the completed and crashed journals.
- ActivityStat.SortInPlace: the library's sort is any sort; among visits at the same time the address written is not determined.
- The insertion of activity rows at login.
- The formatting and parsing of single strings, integers and booleans; characters are bytes.
- Cached settings, mail and notice sending, the user registry: separate components that would add easy members.
