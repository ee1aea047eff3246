# Verification of the SaaS kit's back-end

A Dafny model of the stateful core of a multi-tenant SaaS kit, and proofs of the guarantees its
code and documentation make. `dafny verify dfyconfig.toml` checks everything.

The model has two layers. Classes (`Repository`, `Services`, `TransactionFactory`, `AuthService`,
`OtpService`, `Hooks`, `BillingService`, `TenantsService`, `MailSuppressionsRepository`,
`MailDeliveriesRepository`) follow the source statement by statement over tables, stores and caches
updated in place; nearly every method is proved equal to a specification function of the state before it. The
theorems are about those functions: over any run of calls, or, where the source has an atomic gate,
over any interleaving of the store operations that calls are made of. The `*Effects` modules say
what those functions mean without them: when a call succeeds, and what every row and column is after it.

| file | what it covers |
|---|---|
| `Tables.dfy`, `SoftDeleteRepository.dfy`, `TenantScopedRepository.dfy`, `RepositoryEffects.dfy` | one table sliced per tenant, refined by a private soft-delete repository |
| `Tenancy.dfy`, `TenancyServices.dfy`, `TenancyEffects.dfy`, `NoGhosts.dfy` | invitations, memberships and the tenant cascade, calls atomic |
| `AcceptProtocol.dfy`, `CascadeGhosts.dfy` | the same calls interleaved statement by statement, with row locks |
| `Slugify.dfy`, `SlugAllocation.dfy`, `TenantsServices.dfy` | slugs and their allocation under concurrent creators |
| `Transactions.dfy` | the ambient transaction proxy over program trees |
| `AuthRevocation.dfy`, `AuthServices.dfy`, `AuthSessions.dfy`, `AuthEffects.dfy` | token revocation and password resets, calls atomic and interleaved |
| `OtpCodes.dfy`, `OtpServices.dfy`, `OtpEffects.dfy`, `TokenUtilities.dfy`, `TtlParsing.dfy` | one-time codes, code sampling, TTLs |
| `Idempotency.dfy`, `IdempotencyHooks.dfy`, `IdempotencyEffects.dfy` | the idempotency-key protocol and its two hooks |
| `BillingTables.dfy`, `Billing.dfy`, `BillingServices.dfy`, `WebhookStream.dfy`, `BillingEffects.dfy` | webhook ledger, dispatch, the tables they make and what tenants are served |
| `EntitlementsService.dfy`, `EntitlementReaders.dfy` | the entitlement cache, lookups atomic and split |
| `Suppressions.dfy`, `SuppressionServices.dfy`, `SuppressionEffects.dfy` | the mail suppression list and its cache |
| `Outbox.dfy`, `OutboxServices.dfy`, `OutboxEffects.dfy` | the mail delivery outbox |
| `Paging.dfy`, `AuditDiff.dfy` | pages, cursors, keyset sweeps; the audit diff as a patch |
| `Decimal.dfy`, `Wrappers.dfy` | decimal notation; `Option` and `Result` |

Choices that hold throughout. SHA-256 is injective, signatures are membership in the set of issued
tokens, and tokens and jtis are fresh. Clocks, random draws and provider answers are parameters. An
ORDER BY is any function of the rows; where the source has none, the lowest id comes first. A unique
index is an insert guard. Times are milliseconds, JWT times whole seconds.

Where the code and its documentation differ, the model follows the code:

- `generateOtpCode` says its retry rate is about 7e-3. It is 967,296 in 4,294,967,296, about 2.3e-4.
- `mail-suppressions-repository.ts` says an add pops the cache and that stale answers cannot outlive a
  manual unblock. An add puts the address into the cache, and a global unblock reaches no tenant's key
  (`Suppressions.GlobalUnblockCanStayUnseen`).
- `tenants-service.ts` describes the cascade as leaving no ghost memberships.
  An accept that is already past its insert escapes it (`AcceptProtocol.CascadeCanMissAnAccept`);
  `CascadeGhosts.CascadeLeavesNoGhostIff` says exactly when nothing does.
- A slug cut at its cap can end in a dash, and its suffixed candidates then hold two in a row
  (`Slugify.TruncationLeavesDash`, `SlugAllocation.CandidateForm`), although a hostname label must not.

Where the model departs from the code as written:

- `mail-suppressions-repository.ts` names `uq_mail_suppressions_tenant_email` and
  `uq_mail_suppressions_global_email` in ON CONFLICT ON CONSTRAINT. The migration
  (`20260512000003_create_mail_suppressions.ts`, lines 46 and 51) makes them plain unique indexes, which
  Postgres refuses there. `Suppressions.Add` takes the columns of those indexes as the conflict target.

## Model

| member | source | states |
|---|---|---|
| `TenantScopedRepository.TenantIsolation` | packages/kit/tenancy/src/repository.ts:241-431 | under any interleaving with other tenants' calls, a tenant gets exactly the replies of a private soft-delete repository that ran its own calls only, if and only if it never writes a primary key that only foreign rows hold; and then its rows are the private repository's too |
| `TenantScopedRepository.FreshKeysAreNotForeign` | packages/kit/tenancy/src/repository.ts:361-386 | payloads that do not set `id`, with freshly drawn keys, never meet the exception of `TenantIsolation` |
| `TenantScopedRepository.NonInterference` | packages/kit/tenancy/src/repository.ts:241-431 | two worlds that agree on a tenant's rows and calls, and differ in anything else, give it the same replies and the same rows |
| `TenantScopedRepository.CallLeavesOthersAlone` | packages/kit/tenancy/src/repository.ts:361-427 | no call of one tenant changes another tenant's slice, whatever it writes |
| `TenantScopedRepository.CallRefinesPrivate` | packages/kit/tenancy/src/repository.ts:303-427 | one call acts on its tenant's slice as on a private table, and replies alike, except exactly when it reuses a foreign key, which is refused without effect |
| `TenantScopedRepository.ChangeRefinesPrivate` | packages/kit/tenancy/src/repository.ts:373-420 | the same for one scoped update statement |
| `TenantScopedRepository.SelectThroughSlice` | packages/kit/tenancy/src/repository.ts:262-270 | selecting under the tenant clause is selecting from the tenant's slice |
| `TenantScopedRepository.UpdateOwnSlice` | packages/kit/tenancy/src/repository.ts:373-386 | an update without the tenant column acts on its own slice as on a private table, and returns the same rows |
| `TenantScopedRepository.UpdateOtherSlice` | packages/kit/tenancy/src/repository.ts:79-87 | such an update leaves every other slice as it was; this is what stripping the tenant column buys |
| `TenantScopedRepository.DeleteSlices` | packages/kit/tenancy/src/repository.ts:422-427 | a hard delete removes from its own slice what a private delete would, and from no other slice anything |
| `TenantScopedRepository.StepKeepsIds` | packages/kit/tenancy/src/repository.ts:361-427 | every call keeps the primary key unique |
| `TenantScopedRepository.Repository.Create` | packages/kit/tenancy/src/repository.ts:361-371 | the in-place create is the specified step: stamped with the tenant, refused on a used key, other slices kept |
| `TenantScopedRepository.Repository.Update` | packages/kit/tenancy/src/repository.ts:373-386 | the in-place update is the specified step: tenant column stripped, own live row only, other slices kept |
| `TenantScopedRepository.Repository.SoftDelete` | packages/kit/tenancy/src/repository.ts:400-410 | sets the deletion instant on an own live row, and is the specified step |
| `TenantScopedRepository.Repository.Restore` | packages/kit/tenancy/src/repository.ts:412-420 | clears it on an own row, deleted or not, and is the specified step |
| `TenantScopedRepository.Repository.HardDeleteById` | packages/kit/tenancy/src/repository.ts:422-427 | removes an own row, deleted or not, and is the specified step |
| `RepositoryEffects.FindByIdFinds` | packages/kit/tenancy/src/repository.ts:306-309 | finds a live row of the tenant by its key, as it is; a deleted or foreign one is not found |
| `RepositoryEffects.FindAllFinds` | packages/kit/tenancy/src/repository.ts:311-348 | lists and counts exactly the live rows of the tenant |
| `RepositoryEffects.UpdateWrites` | packages/kit/tenancy/src/repository.ts:373-386 | column by column: the row found, and returned, has the payload's value in each payload column besides the tenant column, its old value in every other, the payload's key if it has one; all other rows stay |
| `RepositoryEffects.UpdateRefuses` | packages/kit/tenancy/src/repository.ts:373-386 | an update to a key that another row holds is refused without effect; without an own live row nothing happens |
| `RepositoryEffects.SoftDeleteStamps` | packages/kit/tenancy/src/repository.ts:400-410 | the deletion column holds the instant and no other column changes; from then on the row is not found |
| `RepositoryEffects.RestoreClears` | packages/kit/tenancy/src/repository.ts:412-420 | the deletion column is null and no other column changes; from then on the row is found |
| `RepositoryEffects.HardDeleteRemoves` | packages/kit/tenancy/src/repository.ts:422-427 | the row is gone and returned, the others stay in their order |
| `RepositoryEffects.CreateAppends` | packages/kit/tenancy/src/repository.ts:361-371 | the new row has the payload's columns, the tenant's name in the tenant column and the payload's key or the drawn one; refused without effect iff the key is held |
| `AcceptProtocol.AcceptSafety` | packages/kit/tenancy/src/memberships-service.ts:292-345 | accepts, regenerates and cascades interleaved statement by statement, with invites and revokes: each invitation has at most one committed accept, one live membership per (tenant, user), and every membership made is owed to a consumed invitation of its tenant and role whose normalised e-mail is the user's |
| `AcceptProtocol.AcceptedAtIsFinal` | packages/kit/tenancy/src/invitations-repository.ts:84-94 | a committed `acceptedAt` never changes again, whatever runs |
| `AcceptProtocol.GateKeeps` | packages/kit/tenancy/src/invitations-repository.ts:84-94 | the conditional update at the gate keeps the invariant: the row it stamps is held by that transaction alone |
| `AcceptProtocol.InsertKeeps` | packages/kit/tenancy/migrations/20260424000002_create_memberships.ts:33-37 | the membership insert keeps the invariant: the partial unique index lets one open or live row per pair through, and aborts the loser |
| `AcceptProtocol.SoloAccept` | packages/kit/tenancy/src/memberships-service.ts:292-345 | left alone, the statements of one accept add up to the service call that the other theorems take as one step |
| `AcceptProtocol.SoloRenew` | packages/kit/tenancy/src/memberships-service.ts:230-250 | so do the statements of one regenerate |
| `AcceptProtocol.SoloCascade` | packages/kit/tenancy/src/tenants-service.ts:183-206 | so do the statements of one tenant soft delete |
| `AcceptProtocol.InsertIsInvite` | packages/kit/tenancy/src/memberships-service.ts:252-290 | the insert in those runs is what an invite does for an address with nothing pending, of nobody known to be a member |
| `CascadeGhosts.CascadeLeavesNoGhostIff` | packages/kit/tenancy/src/tenants-service.ts:183-206 | in every interleaved run, a cascade leaves its tenant without a live membership or invitation if and only if no accept of the tenant committed an insert (not revoked since) between its membership statement and its commit, and no invitation of the tenant was inserted between its invitation statement and its commit |
| `CascadeGhosts.CommitLeavesNoneIff` | packages/kit/tenancy/src/tenants-service.ts:193-204 | a commit leaves nothing iff the two statements took every row that is live by then |
| `CascadeGhosts.MissedMemberIff` | packages/kit/tenancy/src/tenants-service.ts:193-198 | the membership statement has missed a live row iff an accept has joined since |
| `CascadeGhosts.MissedInvitationIff` | packages/kit/tenancy/src/tenants-service.ts:199-204 | the invitation statement has missed a live row iff one was inserted since |
| `AcceptProtocol.CascadeCanMissAnAccept` | packages/kit/tenancy/src/tenants-service.ts:183-206 | a concrete interleaving in which that condition fails and a live membership outlives its tenant |
| `NoGhosts.StepGhostFree` | packages/kit/tenancy/src/tenants-service.ts:183-206 | with calls atomic, exactly one kind of call makes a ghost: an invite in the frame of a soft-deleted tenant |
| `NoGhosts.RunGhostFree` | packages/kit/tenancy/src/memberships-service.ts:252-290 | over any run with invites in live frames only, a live membership or invitation implies a live tenant |
| `NoGhosts.NothingSurvivesSoftDelete` | packages/kit/tenancy/src/tenants-service.ts:183-206 | after a soft delete and any such run, the tenant has no live member and no accept joins it |
| `NoGhosts.DeadStaysDead` | packages/kit/tenancy/src/tenants-service.ts:183-206 | a soft-deleted tenant never comes back in a run |
| `NoGhosts.RenewKeepsOnePending` | packages/kit/tenancy/src/memberships-service.ts:230-250 | exactly when a regenerate keeps one pending invitation per (tenant, e-mail): no other pending row competes, or the new expiry has already passed |
| `NoGhosts.StepOnePending` | packages/kit/tenancy/src/memberships-service.ts:252-290 | every call other than the renewal of a row that is not pending keeps one pending invitation per (tenant, normalised e-mail) |
| `NoGhosts.RunOnePending` | packages/kit/tenancy/src/memberships-service.ts:230-290 | so does every run of such calls |
| `NoGhosts.RenewedExpiredRivalsNewer` | packages/kit/tenancy/src/memberships-service.ts:230-250 | a concrete run in which renewing an expired invitation leaves two pending ones |
| `NoGhosts.AcceptNotFound` | packages/kit/tenancy/src/memberships-service.ts:295-299 | accept reports an unknown token iff every row with its hash has been soft-deleted |
| `NoGhosts.AcceptTwice` | packages/kit/tenancy/src/memberships-service.ts:310-331 | a token redeemed once is refused after any run of calls that draw other tokens, whoever presents it |
| `Tenancy.NormalizeIdempotent` | packages/kit/tenancy/src/memberships-service.ts:25 | the e-mail normal form is a normal form |
| `TenancyServices.Services.MarkAccepted` | packages/kit/tenancy/src/invitations-repository.ts:84-94 | stamps the row iff it is the tenant's and still pending, and returns it; otherwise nothing changes |
| `TenancyServices.Services.Accept` | packages/kit/tenancy/src/memberships-service.ts:292-345 | the ordered reads and writes compute the specified accept |
| `TenancyServices.Services.Regenerate` | packages/kit/tenancy/src/memberships-service.ts:230-250 | the specified regenerate; tokens being unique, the old token finds no row any more and the new one finds this row |
| `TenancyServices.Services.Invite` | packages/kit/tenancy/src/memberships-service.ts:252-290 | the specified invite: refuses members, refreshes a pending row, else inserts |
| `TenancyServices.Services.Revoke` | packages/kit/tenancy/src/memberships-service.ts:347-351 | the specified revoke; afterwards the user has no live membership in the tenant |
| `TenancyServices.Services.SoftDeleteTenant` | packages/kit/tenancy/src/tenants-service.ts:183-206 | the specified cascade: the tenant, its live memberships and its live invitations, and no others |
| `TenancyEffects.NormalFormMeans` | packages/kit/tenancy/src/memberships-service.ts:25 | the normal form is what is left without white space at both ends, capitals made small |
| `TenancyEffects.AcceptIff` | packages/kit/tenancy/src/memberships-service.ts:292-345 | on a row that a token finds: refused as a mismatch iff the user has no address or one of another normal form; otherwise as accepted or expired by the row's columns, and successful iff it is pending |
| `TenancyEffects.AcceptJoins` | packages/kit/tenancy/src/memberships-service.ts:310-345 | a successful accept stamps that row, and the user is a live member afterwards: by the membership there was, or a new one with the invitation's tenant, role and inviter; nothing else changes |
| `TenancyEffects.RegenerateRenews` | packages/kit/tenancy/src/memberships-service.ts:230-250 | renews hash and expiry of an own, live, unaccepted row and nothing else; otherwise the error by the row's columns |
| `TenancyEffects.InviteOnce` | packages/kit/tenancy/src/memberships-service.ts:252-290 | refused iff the known user is a live member; renews a row pending for the normalised address if there is one, and otherwise adds one with the columns asked for |
| `TenancyEffects.RevokeDeletes` | packages/kit/tenancy/src/memberships-service.ts:347-351 | stamps an own live membership and nothing else; otherwise not found |
| `TenancyEffects.SoftDeleteCascades` | packages/kit/tenancy/src/tenants-service.ts:183-206 | row by row: stamps the tenant and exactly its live memberships and invitations |
| `Transactions.ErasurePreserves` | packages/kit/db/src/runtime/transaction.ts:43-63 | for every program tree, deleting the `transaction` calls inside another one changes neither outcome, database, isolation levels used, nor ambient store |
| `Transactions.EraseInside` | packages/kit/db/src/runtime/transaction.ts:52-55 | inside a transaction, erasure leaves no `transaction` call |
| `Transactions.OutermostIsAtomic` | packages/kit/db/src/runtime/transaction.ts:57-62 | an outermost transaction opens one database transaction at its own level, commits all of its body's effect or none, and restores the ambient store |
| `Transactions.AmbientIsFlat` | packages/kit/db/src/runtime/transaction.ts:65-78 | under an ambient transaction every statement acts on its working copy alone |
| `Transactions.AutocommitIsFlat` | packages/kit/db/src/runtime/transaction.ts:69-77 | outside one, statements act on the committed rows one by one |
| `Transactions.CaughtInnerWritesCommit` | packages/kit/db/src/runtime/transaction.ts:52-55 | an inner transaction whose error is caught outside it still commits what it wrote |
| `Transactions.TransactionFactory.RunTransaction` | packages/kit/db/src/runtime/transaction.ts:43-63 | the method that reassigns the builder and installs the store computes the evaluator's result |
| `Transactions.TransactionFactory.Execute` | packages/kit/db/src/runtime/transaction.ts:65-78 | so does dispatching each statement to the ambient store or the root |
| `AuthRevocation.ConsumedForever` | packages/kit/auth/src/auth.service.ts:233-252 | a refresh token consumed by refresh or logout is refused by refresh and `verifyJwt` at every later time, also after its blacklist key has expired |
| `AuthRevocation.ClearedForeverIff` | packages/kit/auth/src/auth.service.ts:254-257 | tokens issued in a second before their owner's sessions were cleared are refused for ever, in every run, if and only if the access TTL is at most the refresh TTL and six hours |
| `AuthRevocation.ClearRefuses` | packages/kit/auth/src/plugin.ts:78-102 | the same for one clear, or one password reset, and any later run |
| `AuthRevocation.LongAccessTokenReturns` | packages/kit/auth/src/auth.service.ts:152-179 | with a longer access TTL, a cleared access token is accepted again once the key has expired |
| `AuthRevocation.NextKeepsRevocations` | packages/kit/auth/src/stores.ts:152-173 | every step keeps a spent token's key, and a cleared-at key, alive for as long as a token it must refuse |
| `AuthRevocation.NextKeepsTokens` | packages/kit/auth/src/tokens.ts:67-108 | issued tokens never share a jti, were issued by now, and live at most their TTL and the second lost to rounding |
| `AuthRevocation.ResetIsSingleUse` | packages/kit/auth/src/auth.service.ts:285-306 | with calls atomic, a reset row redeems at most once, whatever runs in between |
| `AuthSessions.SecondPairIff` | packages/kit/auth/src/auth.service.ts:233-243 | refreshes split into check, blacklist write and issue, in any interleaving: after one call wrote the blacklist, another call with the same token ends with a pair if and only if it had passed its check before that write |
| `AuthSessions.RefreshRace` | packages/kit/auth/src/auth.service.ts:233-243 | a run that shows it for every token that passes its check: two calls check, both write, and get different pairs |
| `AuthSessions.ResetOnce` | packages/kit/auth/src/auth.service.ts:285-306 | resets split into find, markUsed gate, password update and clear, in any interleaving: no two calls redeem one reset row |
| `AuthSessions.GateStep` | packages/kit/auth/src/stores.ts:63-67 | only a call that finds its row unused goes through the gate, and leaves it used |
| `AuthSessions.HashedIsStored` | packages/kit/auth/src/auth.service.ts:300-301 | a reset call that is past its password write has stored its own hash for its row's user |
| `AuthSessions.DoneIsCleared` | packages/kit/auth/src/auth.service.ts:302-305 | a reset call that ends with success has cleared that user's sessions as of the current second |
| `AuthSessions.SoloRefresh` | packages/kit/auth/src/auth.service.ts:233-243 | left alone, the operations of one refresh add up to the atomic one |
| `AuthSessions.SoloReset` | packages/kit/auth/src/auth.service.ts:285-306 | so do those of one reset |
| `AuthServices.AuthService.AssertNotRevoked` | packages/kit/auth/src/auth.service.ts:191-203 | fails iff the jti is blacklisted or the token precedes the clear, under keys that have not expired |
| `AuthServices.AuthService.VerifyJwt` | packages/kit/auth/src/plugin.ts:78-102 | the specified check of an access token |
| `AuthServices.AuthService.IssueTokenPair` | packages/kit/auth/src/auth.service.ts:181-188 | the specified pair: two fresh jtis, lifetimes by kind |
| `AuthServices.AuthService.Refresh` | packages/kit/auth/src/auth.service.ts:233-243 | the specified refresh: refused without effect, or the old jti blacklisted and a new pair issued |
| `AuthServices.AuthService.Logout` | packages/kit/auth/src/auth.service.ts:245-252 | the specified logout; whatever token it was given, refresh refuses it afterwards |
| `AuthServices.AuthService.ConfirmPasswordReset` | packages/kit/auth/src/auth.service.ts:285-306 | the specified reset, through the markUsed gate: one error for unknown, used and expired; otherwise the row is used, the password set and sessions cleared |
| `AuthEffects.VerifyJwtIff` | packages/kit/auth/src/plugin.ts:78-102 | an access token passes iff it was issued, its `exp` is still to come, its jti has no live key, and no live clear of its owner is later than its `iat` |
| `AuthEffects.CheckRefreshIff` | packages/kit/auth/src/auth.service.ts:233-240 | the same for a refresh token, whose owner must exist |
| `AuthEffects.IssueMakesPair` | packages/kit/auth/src/tokens.ts:67-108 | an access and a refresh token of the user with new jtis, issued at the current second, each expiring its TTL (and at most a second) later |
| `AuthEffects.RefreshRotates` | packages/kit/auth/src/auth.service.ts:233-243 | succeeds iff the check does; then the old jti is keyed for the refresh TTL and six hours and a pair of its user is issued; otherwise nothing changes |
| `AuthEffects.LogoutBlacklists` | packages/kit/auth/src/auth.service.ts:245-252 | keys the jti of a valid refresh token and changes nothing else |
| `AuthEffects.ConfirmResetIff` | packages/kit/auth/src/auth.service.ts:285-306 | succeeds iff the row exists, unused and unexpired; then its user has the new hash, every other user the old one, the row is used, and the sessions are cleared as of the current second; otherwise nothing changes |
| `AuthEffects.RequestedResetWorks` | packages/kit/auth/src/auth.service.ts:259-306 | a reset requested by a known user is redeemed after any run that does not redeem it, if and only if its TTL is not over |
| `AuthEffects.LoginTokensWork` | packages/kit/auth/src/auth.service.ts:181-188 | after any run that neither spends them nor clears their owner's sessions, both tokens of a login pass, each until its own `exp` |
| `OtpCodes.OtpSafety` | packages/kit/auth/src/auth.service.ts:379-404 | over any interleaving of verifies and requests split at each store call, a code row sees at most OTP_MAX_ATTEMPTS hash comparisons and at most one success, which presented the issued code |
| `OtpCodes.NoSuccessAfterLockout` | packages/kit/auth/src/auth.service.ts:387-397 | after a lockout marked a row used, no call in flight or later succeeds on it |
| `OtpCodes.SerialOnlyLatestLive` | packages/kit/auth/src/auth.service.ts:350-367 | with calls atomic, all codes but the last of each (user, purpose) are used |
| `OtpCodes.OnlyLatestRedeems` | services/api/src/modules/auth/otp-code.repository.ts:49-86 | then a success redeems the code issued last, unexpired, and leaves no live one |
| `OtpCodes.SoloVerify` | packages/kit/auth/src/auth.service.ts:379-404 | left alone, the store calls of one verify add up to the atomic verify |
| `OtpCodes.SoloRequest` | packages/kit/auth/src/auth.service.ts:350-367 | so do those of one request |
| `OtpCodes.NextKeeps` | packages/kit/auth/src/stores.ts:97-115 | every store call keeps comparisons equal to the capped attempts, and used rows used |
| `OtpServices.OtpService.RequestOtp` | packages/kit/auth/src/auth.service.ts:350-377 | the specified request: the live code is used up, a new one inserted |
| `OtpServices.OtpService.VerifyOtp` | packages/kit/auth/src/auth.service.ts:379-404 | the specified verify, its three errors and its success |
| `OtpEffects.VerifyOtpIff` | packages/kit/auth/src/auth.service.ts:379-404 | on the latest unused row of the pair: success iff unexpired, fewer than the maximum attempts and the right code; locked out iff unexpired and out of attempts, or on the last one with a wrong code; invalid otherwise |
| `OtpEffects.VerifyOtpNone` | packages/kit/auth/src/auth.service.ts:380-383 | without an unused row it is invalid and nothing changes |
| `OtpEffects.VerifyOtpCounts` | packages/kit/auth/src/auth.service.ts:387-402 | what a verify writes: an unexpired row counts one more attempt, and is used iff the answer is success or locked out; other rows stay |
| `OtpEffects.RequestOtpIssues` | packages/kit/auth/src/auth.service.ts:350-367 | a request uses up the latest unused row of the pair and adds one with the new code, no attempts and the full TTL; other rows stay |
| `OtpEffects.IssuedCodeAccepted` | packages/kit/auth/src/auth.service.ts:350-404 | after a request and any calls that hold fewer than the maximum wrong codes for the pair, and no further request, the issued code is accepted before it expires |
| `TokenUtilities.EveryCodeEquallyLikely` | packages/kit/auth/src/token-utilities.ts:50-57 | exactly 4294 of the accepted 32-bit draws give each of the 1,000,000 codes |
| `TokenUtilities.CodeReadsBack` | packages/kit/auth/src/token-utilities.ts:56 | a code has six digits, and read as a number is the draw modulo 1,000,000 |
| `TokenUtilities.SameCode` | packages/kit/auth/src/token-utilities.ts:56 | two draws give one code iff they agree modulo 1,000,000 |
| `TokenUtilities.GenerateOtpCode` | packages/kit/auth/src/token-utilities.ts:50-57 | the loop returns the code of the first draw below the bound |
| `TokenUtilities.FirstCodeIff` | packages/kit/auth/src/token-utilities.ts:50-57 | the code comes from a draw below 4,294,000,000 after none but draws at or above it; none iff there is no such draw |
| `TtlParsing.ParseReadsBack` | packages/kit/auth/src/tokens.ts:42-49 | a number of seconds, and a number with a unit, is read as what it says |
| `TtlParsing.ParseIff` | packages/kit/auth/src/tokens.ts:42-49 | exactly the texts that are read, and as how many seconds: digits, or digits and one of five units |
| `Idempotency.IdempotencySafety` | packages/kit/core/src/server/idempotency.ts:70-156 | over any interleaving with handlers shorter than the TTL: one request per key between lock and unlock, each stores at most once, and every replay is a response some execution stored for that key |
| `Idempotency.OnlyHolderStores` | packages/kit/core/src/server/idempotency.ts:144-154 | in every reachable state a response is stored only by the request whose lock the store still holds, unexpired, and nobody else holds; and exactly that response is added |
| `Idempotency.ReplayWithinTtl` | packages/kit/core/src/server/idempotency.ts:97-105 | a request that arrives after a store and reads before its TTL is over never runs the handler |
| `Idempotency.SecondExecutionIff` | packages/kit/core/src/server/idempotency.ts:107-122 | in every reachable state, while a stored response is valid, a request for its key starts another execution at tryLock if and only if it read the store before that response was stored and nobody holds the lock |
| `Idempotency.LateReadersDoNotRun` | packages/kit/core/src/server/idempotency.ts:97-122 | whoever holds the lock within the TTL of a stored response had read the store before it |
| `Idempotency.TwoExecutions` | packages/kit/core/src/server/idempotency.ts:97-122 | and does happen: a concrete run in which two requests for one key both execute |
| `Idempotency.NextKeeps` | packages/kit/core/src/server/idempotency.ts:70-156 | every store operation keeps the invariant behind these |
| `IdempotencyHooks.Hooks.PreHandler` | packages/kit/core/src/server/idempotency.ts:70-123 | no key, missing key, replay, conflict or go: the reply and the request's flags in each case, and what the store becomes |
| `IdempotencyHooks.Hooks.CopyHeaders` | packages/kit/core/src/server/idempotency.ts:101-103 | the loop sets every cached header on the reply |
| `IdempotencyHooks.Hooks.CollectHeaders` | packages/kit/core/src/server/idempotency.ts:138-142 | the loop collects exactly the headers that are set |
| `IdempotencyHooks.Hooks.OnSend` | packages/kit/core/src/server/idempotency.ts:128-156 | stores and unlocks iff this request is the active one |
| `IdempotencyEffects.ReplayIff` | packages/kit/core/src/server/idempotency.ts:97-105 | in every reachable state a read replays iff the last response stored for the key is younger than the TTL, and then exactly that response |
| `IdempotencyEffects.ExecuteIff` | packages/kit/core/src/server/idempotency.ts:107-122 | in every reachable state a request that found nothing executes iff no request is executing for its key, and is otherwise turned away |
| `IdempotencyEffects.ExecutedThenReplayed` | packages/kit/core/src/server/idempotency.ts:97-156 | a request that runs alone leaves the lock free and its response replayed to the next one, if and only if that comes within the TTL |
| `WebhookStream.StreamSemantics` | packages/kit/billing/src/billing-service.ts:164-231 | after any run: no event id applied twice; a subscription row exists iff an event of it was applied, owned by the customer and tenant that its first event names, with status, period, cancellation, trial and metadata of its last one, and with plan p iff that event's price is on sale for p and p is a plan of the catalog |
| `WebhookStream.MethodSemantics` | packages/kit/billing/src/payment-methods-repository.ts:85-130 | after any run a payment method row exists iff an attach or update of it was applied, with customer and type of the first and the card of the last, soft-deleted iff a detach was applied after that |
| `WebhookStream.InvoiceSemantics` | packages/kit/billing/src/invoices-repository.ts:83-127 | after any run an invoice row exists iff an event of it was applied, with tenant, customer and issue date of the first and the other columns of the last; it is linked iff a subscription event with the id that the first one named was applied before it, and then to that subscription's row |
| `WebhookStream.LinkMeans` | packages/kit/billing/src/billing-service.ts:237-244 | the link an invoice event resolves, in terms of the events applied before it |
| `WebhookStream.RedeliveriesAreAbsorbed` | packages/kit/billing/src/webhook-events-repository.ts:68-79 | a run with redeliveries, whatever they carry, ends in the state of the run without them |
| `WebhookStream.SubscriptionEnds` | packages/kit/billing/src/subscriptions-repository.ts:97-143 | the first and last upserts of a subscription are those of its first and last applied events |
| `WebhookStream.UpsertMethodOk` | packages/kit/billing/src/payment-methods-repository.ts:85-121 | an attach or update keeps the owner columns, overwrites the card and revives the row |
| `WebhookStream.DetachMethodOk` | packages/kit/billing/src/payment-methods-repository.ts:123-130 | a detach soft-deletes a live row and changes no column besides |
| `WebhookStream.WorkLedger` | packages/kit/billing/src/webhook-events-repository.ts:102-109 | an event is marked processed iff its dispatch was applied, once |
| `BillingTables.UpsertReflects` | packages/kit/billing/src/subscriptions-repository.ts:117-143 | a table kept by upserts holds, per key, the owner of the first and the columns of the last |
| `BillingTables.FindUpsert` | packages/kit/billing/src/subscriptions-repository.ts:145-153 | an upsert is seen under its own key and under no other, and keeps keys unique |
| `BillingServices.BillingService.ResolveCustomer` | packages/kit/billing/src/billing-service.ts:151-162 | the customer with that provider id, or the missing-customer error |
| `BillingServices.BillingService.DispatchSubscription` | packages/kit/billing/src/billing-service.ts:218-231 | the specified dispatch: upsert, then the customer's tenant busted |
| `BillingServices.BillingService.DispatchInvoice` | packages/kit/billing/src/billing-service.ts:233-252 | the specified dispatch, with the subscription link looked up |
| `BillingServices.BillingService.DispatchMethod` | packages/kit/billing/src/billing-service.ts:254-270 | the specified dispatch of attach, update and detach |
| `BillingServices.BillingService.DispatchEvent` | packages/kit/billing/src/billing-service.ts:217-298 | the specified dispatch of every event kind |
| `BillingServices.BillingService.ProcessEvent` | services/api/src/modules/billing/jobs/billing/billing-process-event.job.ts:120-185 | an unprocessed row is dispatched, and marked unless the dispatch threw |
| `BillingServices.BillingService.EnsureCustomer` | packages/kit/billing/src/billing-service.ts:128-149 | a tenant that has a customer keeps exactly those it had; one without gets exactly the created one, unless its id is taken |
| `BillingEffects.SubscriptionEventWrites` | packages/kit/billing/src/billing-service.ts:218-231 | one event: every column of its row, the rows that stay, the owner of a new row, and the one cache entry dropped |
| `BillingEffects.MethodEventRefusedIff` | packages/kit/billing/src/payment-methods-repository.ts:85-121 | an attach or update is refused, changing nothing, iff it would make a second live default of the customer who owns the row or will own it; otherwise the columns it writes |
| `BillingEffects.DetachStamps` | packages/kit/billing/src/payment-methods-repository.ts:123-130 | a detach stamps the live row with its key and changes nothing else |
| `BillingEffects.RunKeepsOneDefault` | packages/kit/billing/src/payment-methods-repository.ts:85-130 | a customer has at most one live default method after any run |
| `BillingEffects.WorkAppliesIff` | services/api/src/modules/billing/jobs/billing/billing-process-event.job.ts:120-185 | the worker applies and marks an unprocessed event iff its customer is known and, for a method, no second default comes of it; otherwise nothing changes |
| `BillingEffects.OtherEventsWriteNothing` | packages/kit/billing/src/billing-service.ts:272-298 | checkouts and disputes write nothing; a checkout is skipped iff its customer is unknown |
| `BillingEffects.DeliveryStores` | packages/kit/billing/src/webhook-events-repository.ts:68-79 | a delivery stores its event unprocessed iff the id is new |
| `BillingEffects.DeliveredIsApplied` | services/api/src/modules/billing/jobs/billing/billing-process-event.job.ts:120-185 | a first delivery of an event that the tables take is applied by the next worker, and by no later one |
| `BillingEffects.CustomerIsMade` | packages/kit/billing/src/billing-service.ts:128-149 | a tenant without a customer gets the created one, unless its id is taken; otherwise nothing changes |
| `EntitlementsService.LookupsAreTrue` | packages/kit/billing/src/entitlements-service.ts:79-92 | with calls atomic and each subscription's customer fixed, every lookup in every reachable state equals `resolveFromDb` |
| `EntitlementsService.EventKeepsCoherentIff` | packages/kit/billing/src/billing-service.ts:217-231 | exactly when a subscription event leaves the cache true: the stored row's tenant is the one busted, or has nothing live in the cache, or resolves as before |
| `EntitlementsService.EventLeavesResolution` | packages/kit/billing/src/subscriptions-repository.ts:155-166 | which events leave the owner's resolution alone, told from the stored row and the event: neither version gives access, or both end together on one plan, or another row outlasts both |
| `EntitlementsService.MovedSubscriptionStaysCached` | packages/kit/billing/src/billing-service.ts:217-231 | a concrete event under another tenant's customer after which a cancelled feature is still served |
| `EntitlementsService.FindActive` | packages/kit/billing/src/subscriptions-repository.ts:155-166 | a row that gives the tenant access and ends no earlier than any other such row; none iff there is none |
| `EntitlementsService.FindActiveFirst` | packages/kit/billing/src/subscriptions-repository.ts:155-166 | among rows that end together, the first |
| `EntitlementsService.FeatureMapHolds` | packages/kit/billing/src/entitlements-service.ts:74-77 | the map holds each key's last row |
| `EntitlementsService.FeatureMapOnly` | packages/kit/billing/src/entitlements-service.ts:74-77 | and no other keys |
| `EntitlementReaders.AnswersWereRead` | packages/kit/billing/src/entitlements-service.ts:63-92 | lookups split at all four awaits, subscriptions and plan features changing at will: every map returned was put together by the two reads of some fill, is older than the answer by less than the TTL plus that fill's own duration, was the true map at the first read if and only if the features of the plan read did not change before the second, and at one of the two whenever only one of the two tables changed between them |
| `EntitlementReaders.FillTrueIff` | packages/kit/billing/src/entitlements-service.ts:63-78 | exactly when a fill is the true map at an instant between its reads: at the first, iff the features of the plan read have not changed since; at any later one, iff the plan the tenant has then has the map that was read |
| `EntitlementReaders.StillFillIsTrue` | packages/kit/billing/src/entitlements-service.ts:63-78 | a map that was never true needs both tables to change between the two reads |
| `EntitlementReaders.TornAnswerWasNeverTrue` | packages/kit/billing/src/entitlements-service.ts:63-78 | a concrete run that returns such a map: it was true at no step |
| `EntitlementReaders.AnswersAfterBust` | packages/kit/billing/src/entitlements-service.ts:108-110 | after a bust every answer for the tenant comes from a fill written after it; that fill had read before the bust if and only if its lookup was in flight then |
| `EntitlementReaders.BustHolds` | packages/kit/billing/src/entitlements-service.ts:108-110 | with no lookup of the tenant in flight, every answer after a bust was read after it |
| `EntitlementReaders.SoloLookup` | packages/kit/billing/src/entitlements-service.ts:79-92 | left alone, the store operations of one lookup give the cache and the answer of the atomic one |
| `EntitlementReaders.BustLost` | packages/kit/billing/src/entitlements-service.ts:79-92 | with one in flight, a run in which a lookup asked after the bust is answered from what was read before it |
| `BillingServices.BillingService.Invalidate` | packages/kit/billing/src/entitlements-service.ts:108-110 | drops the tenant's entry and no other; the next lookup resolves from the tables |
| `BillingServices.BillingService.ResolveFromDb` | packages/kit/billing/src/entitlements-service.ts:63-78 | the loop computes the specified map |
| `BillingServices.BillingService.GetEntitlements` | packages/kit/billing/src/entitlements-service.ts:79-92 | the specified lookup: a parsable live entry, else a resolve that is cached |
| `BillingServices.BillingService.IsFeatureEnabled` | packages/kit/billing/src/entitlements-service.ts:96-106 | true iff the key is present and not switched off |
| `BillingEffects.FreeTierWhen` | packages/kit/billing/src/entitlements-service.ts:63-73 | without a trialing, active or past-due subscription, or when the one that ends last has no plan, a tenant has the free tier |
| `BillingEffects.PlanFeatures` | packages/kit/billing/src/entitlements-service.ts:63-78 | otherwise it has a feature with a value iff the plan of the paying row that ends last (the first of those on a tie) lists it so, last |
| `BillingEffects.HitIsServed` | packages/kit/billing/src/entitlements-service.ts:79-86 | a parsable entry is served as it is until it expires |
| `BillingEffects.MissIsResolved` | packages/kit/billing/src/entitlements-service.ts:86-92 | without one the tables answer and the tenant's entry, and no other, is written |
| `BillingEffects.MissIsKept` | packages/kit/billing/src/entitlements-service.ts:79-92 | what was resolved is served for the configured seconds even if the rows change unseen, and not at their end |
| `BillingEffects.PaidEventIsServed` | packages/kit/billing/src/billing-service.ts:217-231 | from event to answer: after a paying event whose row outlasts the tenant's others, the next lookup has exactly the features of the plan behind its price |
| `BillingEffects.EndedEventIsServed` | packages/kit/billing/src/billing-service.ts:217-231 | after the event that ends the tenant's last paying subscription the next lookup is the free tier |
| `Suppressions.AnswersMatchTable` | packages/kit/mailer/src/mail-suppressions-repository.ts:118-225 | in every run with permanent rows and tenant-level removals, whatever cache keys expire, `isSuppressed` answers exactly whether a row of the tenant or a global one exists |
| `Suppressions.IsSuppressed` | packages/kit/mailer/src/mail-suppressions-repository.ts:118-168 | never false while an active row exists, in any state |
| `Suppressions.RemoveKeepsAgreementIff` | packages/kit/mailer/src/mail-suppressions-repository.ts:207-225 | exactly when a removal leaves the cache right: not for a global row that some tenant has cached without an active row of its own |
| `Suppressions.AgreementAnswers` | packages/kit/mailer/src/mail-suppressions-repository.ts:118-168 | while cache and table agree, a lookup answers from the table and keeps them agreeing |
| `Suppressions.AddKeepsAgreement` | packages/kit/mailer/src/mail-suppressions-repository.ts:170-205 | an add of a permanent row keeps them agreeing |
| `Suppressions.GlobalUnblockCanStayUnseen` | packages/kit/mailer/src/mail-suppressions-repository.ts:200-224 | for every number of hours, a run in which a tenant still sees an address suppressed that long after its only, global, row was removed |
| `SuppressionServices.MailSuppressionsRepository.IsSuppressed` | packages/kit/mailer/src/mail-suppressions-repository.ts:112-168 | the specified lookup, the tenant taken from the override or the frame |
| `SuppressionServices.MailSuppressionsRepository.Add` | packages/kit/mailer/src/mail-suppressions-repository.ts:170-205 | the specified upsert, the address cached and the whole key renewed |
| `SuppressionServices.MailSuppressionsRepository.Remove` | packages/kit/mailer/src/mail-suppressions-repository.ts:207-225 | the specified delete, the address dropped from its own key iff a row was removed |
| `SuppressionServices.MailSuppressionsRepository.InvalidateCache` | packages/kit/mailer/src/mail-suppressions-repository.ts:227-229 | drops the key; the next lookup under it answers from the table |
| `SuppressionEffects.LookupIff` | packages/kit/mailer/src/mail-suppressions-repository.ts:118-168 | yes iff the unexpired cached set has the address, or a row of the scope or a global one exists whose expiry is absent or to come; what the lookup writes to the cache, and when |
| `SuppressionEffects.AddWrites` | packages/kit/mailer/src/mail-suppressions-repository.ts:170-205 | the row is the given one whatever was there, the address is in the scope's cached set for an hour, other rows and keys stay |
| `SuppressionEffects.AddedIsFound` | packages/kit/mailer/src/mail-suppressions-repository.ts:118-205 | an added row is found until it expires, by every spelling in other capitals, in its scope and, when global, in every scope |
| `SuppressionEffects.RemoveDeletes` | packages/kit/mailer/src/mail-suppressions-repository.ts:207-225 | says yes iff there was a row, which is gone with the scope's cached address; then only a global row suppresses the address there |
| `Outbox.FirstEnqueueWins` | packages/kit/mailer/src/mail-deliveries-repository.ts:224-261 | after any run, a key's one row is as first enqueued, its attempts count the sends, and it is queued iff no mark has touched it |
| `Outbox.RowHistory` | packages/kit/mailer/src/mail-deliveries-repository.ts:308-386 | the same for any row from any consistent state: envelope fixed, attempts grown by the sends, never queued again |
| `Outbox.OutboxConsistent` | packages/kit/mailer/src/mail-deliveries-repository.ts:321-416 | in every reachable state keys are unique and status sent, bounced, complained or failed has its timestamp |
| `Outbox.EnqueueAgain` | packages/kit/mailer/src/mail-deliveries-repository.ts:249-259 | a repeated enqueue changes `updated_at` and nothing else |
| `Outbox.RowStep` | packages/kit/mailer/src/mail-deliveries-repository.ts:308-416 | what one operation can do to a row |
| `OutboxServices.MailDeliveriesRepository.Enqueue` | packages/kit/mailer/src/mail-deliveries-repository.ts:224-261 | the specified insert or touch, optional columns defaulted |
| `OutboxServices.MailDeliveriesRepository.MarkSending` | packages/kit/mailer/src/mail-deliveries-repository.ts:308-319 | the specified mark: provider set, one more attempt |
| `OutboxServices.MailDeliveriesRepository.MarkSent` | packages/kit/mailer/src/mail-deliveries-repository.ts:321-333 | the specified mark: message id set, last error cleared |
| `OutboxServices.MailDeliveriesRepository.MarkBounced` | packages/kit/mailer/src/mail-deliveries-repository.ts:335-343 | the specified mark |
| `OutboxServices.MailDeliveriesRepository.MarkComplained` | packages/kit/mailer/src/mail-deliveries-repository.ts:345-353 | the specified mark |
| `OutboxServices.MailDeliveriesRepository.MarkSuppressed` | packages/kit/mailer/src/mail-deliveries-repository.ts:355-361 | the specified mark, which sets no timestamp |
| `OutboxServices.MailDeliveriesRepository.MarkFailed` | packages/kit/mailer/src/mail-deliveries-repository.ts:363-375 | the specified mark |
| `OutboxServices.MailDeliveriesRepository.RecordAttempt` | packages/kit/mailer/src/mail-deliveries-repository.ts:377-386 | records the error and leaves the status |
| `OutboxServices.MailDeliveriesRepository.SetFromEvent` | packages/kit/mailer/src/mail-deliveries-repository.ts:156-205 | the columns an event sets, by its type |
| `OutboxServices.MailDeliveriesRepository.ApplyEvent` | packages/kit/mailer/src/mail-deliveries-repository.ts:388-416 | every row with that message id is updated, no other, and the first of them is returned; unknown types update none |
| `OutboxEffects.FirstEnqueueInserts` | packages/kit/mailer/src/mail-deliveries-repository.ts:224-261 | every column of a first enqueue, defaults v1, en and no tags included; the rows before it stay |
| `OutboxEffects.MarkWrites` | packages/kit/mailer/src/mail-deliveries-repository.ts:308-386 | column by column, which mark writes it and what; other rows stay |
| `OutboxEffects.EventWrites` | packages/kit/mailer/src/mail-deliveries-repository.ts:156-205 | column by column, what an event writes to the rows with its message id, and that other rows stay |
| `OutboxEffects.AnswerReachesRow` | packages/kit/mailer/src/mail-deliveries-repository.ts:321-416 | a bounce or complaint under the id a row was sent with reaches that row, whatever happened in between but another send |
| `Slugify.SlugifyForm` | packages/kit/tenancy/src/slugify.ts:16-29 | for every input and cap: non-empty, over a-z, 0-9 and dash, starting alphanumeric, no double dash; and exactly when it fits the cap |
| `Slugify.CoreIsWordsJoined` | packages/kit/tenancy/src/slugify.ts:20-27 | before the cap, the slug is the alphanumeric words of the folded input joined by single dashes |
| `Slugify.SlugifyAgain` | packages/kit/tenancy/src/slugify.ts:16-29 | a second application removes at most one trailing dash, a third nothing; and exactly when the first was final |
| `Slugify.TruncationLeavesDash` | packages/kit/tenancy/src/slugify.ts:27 | a concrete input on which slugify is not idempotent |
| `Slugify.SlugIsCut` | packages/kit/tenancy/src/slugify.ts:16-29 | the letters and digits of the folded input, none lost, added or moved, with single dashes inside, cut at the cap; the fallback iff there is none |
| `SlugAllocation.SlugsStayDistinct` | packages/kit/tenancy/src/tenants-service.ts:114-147 | with any creators, renames and deletions interleaved between probe and insert, slugs over live and deleted tenants stay distinct, and each new row was made by exactly one creator, which made no other |
| `SlugAllocation.ExhaustedMeansTaken` | packages/kit/tenancy/src/tenants-service.ts:126-147 | in runs whose renames never vacate a slug that a creator has passed, exhaustion means all hundred candidates are taken; a created slug is its base or base-2 .. base-100, within 63 characters, all earlier candidates taken |
| `SlugAllocation.StepHonestIff` | packages/kit/tenancy/src/tenants-service.ts:154-178 | exactly which step makes what creators have found untrue: a rename that moves a row off a slug some creator has passed |
| `SlugAllocation.HonestThroughoutIff` | packages/kit/tenancy/src/tenants-service.ts:126-178 | over runs: what creators have passed stays taken in every state if and only if no rename does that |
| `SlugAllocation.NoRenames` | packages/kit/tenancy/src/tenants-service.ts:126-147 | so it does when nobody renames |
| `SlugAllocation.CreatesEnd` | packages/kit/tenancy/src/tenants-service.ts:137-146 | a creator's own steps bring it to an end, and nobody else's move it |
| `SlugAllocation.RenameCanFreeAPassedCandidate` | packages/kit/tenancy/src/tenants-service.ts:154-178 | a run from a creator's start in which one does, and exhaustion is reported with a candidate free |
| `SlugAllocation.CandidateFits` | packages/kit/tenancy/src/tenants-service.ts:22-32 | every candidate has 1 to 63 characters |
| `SlugAllocation.CandidatesDiffer` | packages/kit/tenancy/src/tenants-service.ts:138 | the candidates of one base are pairwise different |
| `SlugAllocation.CandidateMeans` | packages/kit/tenancy/src/tenants-service.ts:138 | the base itself, or the base, a dash and the number in decimal |
| `SlugAllocation.SoloCreate` | packages/kit/tenancy/src/tenants-service.ts:126-147 | left alone, a creator inserts the first free candidate under its name, as the service call does |
| `SlugAllocation.CandidateForm` | packages/kit/tenancy/src/tenants-service.ts:111-112 | a suffixed candidate is in slug form iff its base does not end in the dash a cap can leave |
| `TenantsServices.TenantsService.FindBySlugIncludingDeleted` | packages/kit/tenancy/src/tenants-service.ts:130-141 | a row with the slug, live or deleted; none iff it is free |
| `TenantsServices.TenantsService.TryCreate` | packages/kit/tenancy/src/tenants-service.ts:114-124 | inserts iff the slug is free, and otherwise changes nothing |
| `TenantsServices.TenantsService.CreateWithSlugRetry` | packages/kit/tenancy/src/tenants-service.ts:126-147 | inserts one row under the first free candidate; fails, changing nothing, iff all hundred are taken |
| `TenantsServices.TenantsService.Create` | packages/kit/tenancy/src/tenants-service.ts:149-152 | the first free candidate of the slug of the explicit slug or else the name, in one new row with that name; slugs stay distinct and within 63 characters; failure iff all are taken |
| `TenantsServices.TenantsService.Rename` | packages/kit/tenancy/src/tenants-service.ts:154-178 | not found, conflict with another tenant, or exactly the given fields changed; slugs stay distinct |
| `Paging.PagesCoverOnce` | packages/kit/db/src/runtime/repository.ts:143-168 | pages 1 to ceil(total / limit) concatenate to the list, all but the last are full, none is empty and every later one is |
| `Paging.CeilingBounds` | packages/kit/schemas/src/pagination.ts:93-102 | the page count is the least number of pages that holds the total |
| `Paging.RepositoryPages` | packages/kit/tenancy/src/repository.ts:321-339 | with the total the query reports, its pages up to ceil(total / limit) concatenate to the ordered rows, and a page has items iff it is one of them |
| `Paging.ListSubscriptions` | packages/kit/billing/src/providers/stripe.ts:284-303 | the cursor loop ends, having yielded every item after the start cursor once and in order; it fails exactly on a limit or cursor the provider refuses |
| `Paging.Fetch` | packages/kit/billing/src/providers/stripe.ts:292-301 | one page takes the cursor past itself, and says truly whether more follow |
| `Paging.SweepSeesEachOnce` | packages/kit/billing/src/subscriptions-repository.ts:168-179 | keyset sweeps over a table that changes between pages never return a row twice, nor one that gave access in none of the tables read, and a finished one has returned every row that was active, trialing or past due throughout |
| `Paging.PageIsNext` | packages/kit/billing/src/subscriptions-repository.ts:168-179 | one keyset page: ascending, after the cursor, nothing skipped up to its last id |
| `AuditDiff.DiffIsPatch` | packages/kit/audit/src/diff.ts:66-112 | field by field, exactly when applying a diff gives `after` and applying it backwards gives `before`: always, but for a redacted value that changed |
| `AuditDiff.NoDiffMeansNoChange` | packages/kit/audit/src/diff.ts:78-111 | an update has no diff iff no field changed, and is sensitive iff a redacted field did |
| `AuditDiff.RedactionHides` | packages/kit/audit/src/diff.ts:97-106 | other redacted values with the same changed and unchanged fields give the same result |
| `AuditDiff.RedactedHides` | packages/kit/audit/src/diff.ts:118-138 | redaction is idempotent and hides the values of redacted fields |
| `AuditDiff.UpdateShows` | packages/kit/audit/src/diff.ts:78-111 | an update lists a field iff what the records show for it differs, with both values, or with the replacement text for both when the field is listed, matched, or has password, token, secret, hash or api key in its name in any case |
| `AuditDiff.CreateShows` | packages/kit/audit/src/diff.ts:78-111 | a create lists exactly the new record's fields, from null |
| `AuditDiff.DeleteShows` | packages/kit/audit/src/diff.ts:78-111 | a delete lists exactly the old record's fields, to null |
| `AuditDiff.ComputeDiff` | packages/kit/audit/src/diff.ts:66-112 | the loop computes the specified diff and flag |
| `AuditDiff.Redact` | packages/kit/audit/src/diff.ts:118-138 | the loop replaces exactly the redacted fields; the flag is set iff there is one |
| `AuditDiff.IsRedacted` | packages/kit/audit/src/diff.ts:43-53 | true iff the field is listed or some pattern matches |

## Left out

- `unscoped()` views, ledger and audit pruning, and TTL sweeps: they break the invariants by design and are in no run.
- An update whose payload is empty once the tenant column is stripped: the SQL builder's behaviour there is not part of this model.
- Two readings of the clock inside one call: a call takes one instant, except for `iat` and `exp`, which may fall in different seconds.
- AcceptProtocol.AcceptSafety: assumes row locks held to the end of a transaction and foreign-key locks that do not block a soft delete, as Postgres has them; other engines are not modelled.
- AcceptProtocol.SoloAccept: user e-mails are read from a table that does not change during a run.
- AuthRevocation.ConsumedForever: `refresh` is one step, since its check and its write are not gated together; AuthSessions.SecondPairIff is the interleaved result.
- AuthSessions.ResetOnce: hashing the new password, and a reset row pruned while a call is in flight.
- AuthServices.AuthService.VerifyJwt: the issuer check, the role claim and the signature itself; a token is genuine iff it was issued.
- OtpServices.OtpService.RequestOtp: the silent return for an unknown user id (`auth.service.ts`, lines 351 and 352).
- TtlParsing.ParseReadsBack: the access TTL is parsed by the JOSE library, whose grammar is not part of this model.
- TokenUtilities.GenerateOtpCode: takes a finite supply of draws, and reports when it runs out, where the source draws without end.
- OtpCodes.OtpSafety: deletion of expired codes, and the missing-row error of an increment after one.
- Idempotency.IdempotencySafety: handlers that outlive their lock, and crashes between store and unlock.
- IdempotencyHooks.Hooks.PreHandler: the text of the error bodies.
- BillingServices.BillingService.ProcessEvent: a ledger row carries one event, as the Stripe adapter yields at most one; failed re-verification, the `error` column, audit entries, and a crash between dispatch and mark are not modelled.
- BillingServices.BillingService.EnsureCustomer: two first-time calls racing at the provider; reading and inserting are one step.
- EntitlementsService.LookupsAreTrue: the plan catalog is fixed; EntitlementReaders.AnswersWereRead lets plan features change.
- BillingServices.BillingService.IsFeatureEnabled: feature keys that name members of JavaScript's object prototype, and feature values of other shapes.
- SuppressionServices.MailSuppressionsRepository.Add: the refusal by Postgres of the conflict target as written (see above).
- EntitlementReaders.AnswersWereRead: the free tier and the TTL are those the service was made with.
- NoGhosts.AcceptTwice: two draws of one token, which the unique index on the hash refuses.
- Suppressions.AnswersMatchTable: rows with an expiry, which the cache outlives; Suppressions.IsSuppressed covers them one way.
- TenantsServices.TenantsService.Rename: `updatedAt`.
- Slugify.SlugifyForm: Unicode lower-casing, NFKD and marks are a parameter, used only as the identity on a-z, 0-9 and dash.
- Tenancy.NormalizeIdempotent: ASCII letters and white space only.
- Paging.ListSubscriptions: the provider's list does not change while it is read, and its normalisation of items is left out.
- Paging.PagesCoverOnce: pages are read from one list; between queries the table may change, which offset paging does not survive.
- AuditDiff.ComputeDiff: values are compared by identity as `Object.is` does; stateful regular expressions are not modelled.
- Fastify plugins, routing, dependency wiring, queues and their retries, the admin UI, e-mail bodies, OAuth, CSRF and config parsing: I/O, or settled by one branch.
- Tenant-scoped and soft-delete repositories without the other half: they would repeat `TenantScopedRepository` with fewer clauses.
