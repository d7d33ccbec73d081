# A verified model of the Vaultwarden server

Dafny models of the parts of the server (`src/`) and of its Cloudflare Workers port (`worker/`) whose behaviour
spans several requests, background jobs or stored records, with proofs about all their inputs and all their runs.
`dafny verify dfyconfig.toml` checks the whole project.

Handlers that change stored data are classes. The contract of a method gives its answer and the new state over the
stored columns, and ties both to a function from the old state to the new one; protocols are state machines over
those functions; the theorems are about every run of them. SQL tables are
maps or sets keyed as `src/db/schema.rs` keys them.

| files | what they model |
|---|---|
| `RateLimit`, `RateLimitRuns`, `Decimal` | the sliding-window limiter over an expiring key-value store |
| `EmergencyAccess`, `EmergencyAccessRuns`, `EmergencyAccessSafety`, `EmergencyAccessJobs` | the emergency access protocol and its two background jobs |
| `KeyRotation`, `KeyRotationProofs` | rotation of the account keys |
| `Ciphers`, `CipherRuns`, `Totals` | cipher ownership, sharing, attachments and storage limits |
| `CollectionUpdate`, `SyncIndex` | collection changes, the maps of a full sync, access restrictions |
| `DbPool` | permits and connections of the database pool |
| `Config`, `ConfigRuns` | the layered configuration |
| `Notifications` | frame length prefix and timestamp encoding |
| `SsoLogin`, `SsoRefresh` | the one-shot SSO login record and chains of token refreshes |
| `Sanitizer` | the mail data sanitiser |

## Where the code falls short of the obvious claim

Each of these is a lemma with a concrete run or input, or an exact condition, beside what does hold in every run.

- **Emergency access.** The timeout job writes from a list it loaded earlier and does not look at the row again. A
  rejection that arrives between the load and the write is overwritten (`RejectionCanBeOverwritten`), and a longer
  waiting time set in that gap is ignored (`RaisedWaitCanBeIgnored`). An access granted by timeout follows an
  undisturbed waiting time if and only if neither a rejection nor an update that postpones the recovery fell into the
  gap (`TimeoutIsUninterruptedIff`); the waiting time in force at the write has elapsed if and only if no such update
  stands (`WaitHasElapsedIff`); the write agrees with a fresh look at the row if and only if the row is gone, still
  due, or approved already (`StaleWriteIsFreshIff`).
- **Access restrictions.** The restrictions computed from the sync index and those computed by direct queries can
  differ (`SyncCanDiffer`); `SyncAgreesIff` says when they do not.
- **SSO login.** A provider reply that cannot be used is not remembered, so one login record can have two codes
  accepted by the provider (`TwoCodesForOneRecord`); an accepted code is the last one of its record, whatever follows,
  if and only if the reply to it gave an identity (`LastExchangeIff`).
- **Storage limits.** Sharing a cipher consults no limit (`SharingCanExceedLimit`) and keeps the receiver's limit if
  and only if the cipher's uploaded bytes still fit in (`InboundStaysWithinIff`); apart from such transfers the limit
  holds in every run (`UploadsStayWithinLimit`). Announced sizes count without any limit, so the stored sum can
  saturate at 64 bits. The limit survives that if and only if it is more than one mebibyte below 2^63
  (`LimitHoldsIff`): for larger ones there is a run that uploads one byte too many.
- **Configuration.** A failed file write is reported, yet the accepted settings are live, and a restart goes back to
  those before (`FailedWriteIsLive`). After any run a restart goes back to the last save (`RestartReturnsToLastSave`);
  it reproduces the live settings if and only if the file holds the user configuration and the loading check accepts
  them (`RestartReproducesIff`).
- **Generated key.** The server keeps the Duo application key it generates in a setting that is not editable, and every
  admin save drops it (`AdminSaveDropsKey`). The key survives a run if and only if no admin update and no reset in it
  was accepted (`GeneratedKeySurvivesIff`).
- **Timestamps.** The eight bytes decode to the packed pair if and only if the seconds fit 34 bits and the nanoseconds
  30 bits (`DateRoundTrip`); dates before 1970 and leap seconds from 2^30 nanoseconds on are lost.
- **Rate limiter.** A sliding window can hold more than the limit: at most the limit plus the limit's share of the
  part of the next window it reaches into, and never more than twice the limit (`RunIsBounded`). That maximum is
  attained for every limit and start (`MaximumIsReached`): 394 logins in a minute for a limit of 200, 1000
  registrations and 60 mails in an hour for limits of 500 and 30 (`ConfiguredLimits`). Twice the limit is attained if
  and only if the limit is zero or less than half the window's seconds (`TwiceTheLimitIff`).

## Modelling assumptions

- Each request handler is one atomic step. The two emergency access jobs are not: they load their list in one step
  and handle each row in a step of its own. Each of the two jobs runs one instance at a time.
- Clocks do not go back. Times are whole seconds; days have 86400 of them.
- The limiter's floating-point estimate is exact real arithmetic. A failed store write is a parameter of `Check`;
  the bounds are about admissions that reached the store.
- Generated identifiers are fresh.
- Cryptography, the SSO provider, access-control queries and the field checks inside handlers are parameters that
  carry their outcome. Sending mail, push notifications, event logs and file contents have no effect on the state.
- What a browser does with its SSO binding cookie is not modelled; the server asks it to drop the cookie after a
  callback.
- The configuration check on an update is at least as strict as the one on loading, as in `src/config.rs:923-1050`,
  where the flag turns a warning into an error. `RunSurvivesRestart` uses this for runs without resets.
- On the unsigned frame length, mask and shift are remainder and quotient by 128.
- `serial` in the SSO record and `uploaded` in the attachment row are history: they tell apart successive records of
  the same state, and announced from uploaded rows.

## Model

| member | source | states |
|---|---|---|
| Decimal.ParseOfPrint | worker/src/ratelimit.rs:42-50 | a printed counter parses back to itself exactly when it fits 64 bits |
| RateLimit.KvStore.Put | worker/src/ratelimit.rs:42-44 | from now on a read at time t gives the value exactly while t is before the end of its time to live, and reads of other keys give what they gave |
| RateLimit.ReadCount | worker/src/ratelimit.rs:48-53 | a missing, expired or unreadable entry counts as zero |
| RateLimit.EstimateReachesLimit | worker/src/ratelimit.rs:34-39 | the weighted estimate over the reals reaches the limit exactly when the integer admission condition fails |
| RateLimit.Check | worker/src/ratelimit.rs:23-46 | a call is admitted by the weighted count of two windows; an admitted call stores the count plus one for two windows and five seconds, a refused one writes nothing |
| RateLimitRuns.KeyInjective | worker/src/ratelimit.rs:28-29 | keys of distinct kind, identifier and window differ, even when identifiers contain colons |
| RateLimitRuns.StoreRefinesCounters | worker/src/ratelimit.rs:24-53 | after any run over the shared store, reads of the current and previous window return the exact recorded counts, and the decision is that of exact counters |
| RateLimitRuns.RunIsBounded | worker/src/ratelimit.rs:23-46 | in every run an aligned window records at most the limit, and an interval of one window length at most the limit plus the rounded-up share of the limit for the seconds before its last one in the next window, never more than twice the limit |
| RateLimitRuns.JustifiedIsRealized | worker/src/ratelimit.rs:23-46 | every history that exact counters justify is the recorded history of a run, so the bounds speak of exactly the possible histories |
| RateLimitRuns.MaximumIsReached | worker/src/ratelimit.rs:23-46 | for every limit, identifier and start from the second window on, a run in which the interval holds exactly that maximum |
| RateLimitRuns.TwiceTheLimitIff | worker/src/ratelimit.rs:34-39 | some run has twice the limit in one window length exactly when the limit is zero or less than half the window's seconds |
| RateLimitRuns.ConfiguredLimits | worker/src/ratelimit.rs:16-21 | for the three configured limits the maxima over all runs and starts are 394, 1000 and 60 |
| EmergencyAccess.Server.SendInvite | src/api/core/emergency_access.rs:202-279 | an invitation is stored exactly unless it is to oneself or the grantor has a record for that account or address; with mail off that of a registered account is accepted at once |
| EmergencyAccess.Server.PostAccept | src/db/models/emergency_access.rs:374-387 | the matching address stores the grantee, clears the address and moves to accepted |
| EmergencyAccess.Server.PostEmergencyAccess | src/api/core/emergency_access.rs:125-156 | the grantor alone changes type and waiting time, and the key only if one is sent |
| EmergencyAccess.Server.DeleteEmergencyAccess | src/api/core/emergency_access.rs:162-183 | grantor or grantee, but not someone who is both, deletes the record |
| EmergencyAccess.Server.PostConfirm | src/api/core/emergency_access.rs:392-439 | the grantor confirms an accepted record with a known grantee and stores the key |
| EmergencyAccess.Server.PostInitiate | src/api/core/emergency_access.rs:445-481 | the grantee initiates a confirmed record and both dates are set |
| EmergencyAccess.Server.PostApprove | src/api/core/emergency_access.rs:483-516 | the grantor approves an initiated recovery |
| EmergencyAccess.Server.PostReject | src/api/core/emergency_access.rs:518-549 | the grantor returns an initiated or approved recovery to confirmed |
| EmergencyAccess.Server.ViewEmergencyAccess | src/api/core/emergency_access.rs:555-591 | answers exactly the grantee of an approved record whose type is view, with its key |
| EmergencyAccess.Server.TakeoverEmergencyAccess | src/api/core/emergency_access.rs:593-622 | answers exactly the grantee of an approved record whose type is takeover and whose grantor exists, with its key |
| EmergencyAccess.Server.TimeoutJob | src/api/core/emergency_access.rs:722-775 | whatever the order of the list, exactly the recoveries under way whose waiting time is over become approved, and no other column or row changes |
| EmergencyAccess.Server.ReminderJob | src/api/core/emergency_access.rs:777-834 | whatever the order of the list, exactly the recoveries under way that are a day from the end and a day from the last notification get the new date, and no other column or row changes |
| EmergencyAccessRuns.RunIsGood | src/api/core/emergency_access.rs:202-834 | every reachable state has the columns its status needs, agrees with its log, and its log is legal |
| EmergencyAccessRuns.TermsAreLogged | src/api/core/emergency_access.rs:125-156 | access type and waiting time of every stored record are those its grantor set last |
| EmergencyAccessRuns.LoadedRowsAreComplete | src/api/core/emergency_access.rs:736-739 | every loaded row has initiation date, grantee and key, so the unwrap of the date is safe |
| EmergencyAccessRuns.AcceptOnlyOnce | src/db/models/emergency_access.rs:374-387 | only an open invitation without a grantee can be accepted |
| EmergencyAccessRuns.AccessHasKey | src/api/core/emergency_access.rs:586-622 | whoever may access finds a stored key and no invitation address |
| EmergencyAccessSafety.AccessIsJustified | src/api/core/emergency_access.rs:392-746 | in every run each access is of the type the grantor set last, by the account that accepted the invitation with the invited address, was then confirmed and has initiated since; it was approved by that grantor, or by a timeout write for that recovery after the wait the grantor had set last before the load had elapsed; and nothing was rejected after that grant |
| EmergencyAccessSafety.TimeoutIsUninterruptedIff | src/api/core/emergency_access.rs:729-745 | a timeout access follows a wait without rejection or new initiation, elapsed at every moment from load to write, exactly when neither a rejection nor a postponing update came between load and write |
| EmergencyAccessSafety.WaitHasElapsedIff | src/api/core/emergency_access.rs:729-745 | for every timeout write the wait in force has elapsed throughout the gap exactly when no update in it postpones the recovery, and at the write exactly when no such update stands; the clock value used is not after the write |
| EmergencyAccessSafety.StaleWriteIsFreshIff | src/api/core/emergency_access.rs:736-745 | the unconditional write equals a fresh check exactly when the row is gone, still due or approved |
| EmergencyAccessSafety.RejectionCanBeOverwritten | src/api/core/emergency_access.rs:729-745 | a run with a rejection between load and write after which the grantee gets access |
| EmergencyAccessSafety.RaisedWaitCanBeIgnored | src/api/core/emergency_access.rs:729-745 | a run in which the wait is raised to 90 days between load and write and the grantee gets access after one |
| EmergencyAccessSafety.ReminderIsDue | src/api/core/emergency_access.rs:790-808 | in every run each reminder is for a recovery open at the load, not before the last day of the wait its grantor had set last before the load |
| EmergencyAccessSafety.RemindersAreSpaced | src/api/core/emergency_access.rs:797-808 | in every run the dates of two reminders for a record are at least a day apart |
| EmergencyAccessJobs.NothingIsLost | src/api/core/emergency_access.rs:722-834 | for every interleaving of the two jobs over any lists each row ends with the status of the one alone and the date of the other alone |
| EmergencyAccessJobs.BothJobsAreDone | src/api/core/emergency_access.rs:722-834 | for every interleaving over lists loaded from one table exactly the due recoveries are approved and exactly those with a reminder due are dated |
| EmergencyAccessJobs.WholeRecordSavesLose | src/api/core/emergency_access.rs:741-743 | why only one column is written: saving whole loaded records would lose an update in either order |
| Replacement.ApplyMeans | src/api/core/accounts.rs:834-894 | an update loop completes exactly when every entry is admissible; then each row has the last material given for it, whatever order and duplicates |
| Replacement.PassStopsAtFirst | src/api/core/accounts.rs:834-894 | an update loop stores everything before the first entry that is unknown or refused, and nothing from there on |
| KeyRotationProofs.Accounts.ValidateKeyData | src/api/core/accounts.rs:719-795 | accepts exactly unchanged key derivation, address and public key and a request that covers all five kinds of records |
| KeyRotationProofs.Accounts.UpdateFolders | src/api/core/accounts.rs:834-846 | the folder loop, entries without identifier passed over, up to the first unknown one |
| KeyRotationProofs.Accounts.UpdateGrants | src/api/core/accounts.rs:848-858 | the emergency access loop, up to the first unknown identifier |
| KeyRotationProofs.Accounts.UpdateMembers | src/api/core/accounts.rs:860-870 | the reset password loop, found by organization |
| KeyRotationProofs.Accounts.UpdateSends | src/api/core/accounts.rs:872-879 | the send loop, up to the first unknown or refused one |
| KeyRotationProofs.Accounts.UpdateCiphers | src/api/core/accounts.rs:881-894 | the cipher loop over personal ciphers, up to the first unknown or refused one |
| KeyRotationProofs.Accounts.PostRotateKey | src/api/core/accounts.rs:797-917 | the whole handler equals the described rotation, earlier writes of a failing one included |
| KeyRotationProofs.ValidatedIff | src/api/core/accounts.rs:719-795 | by columns: the validation accepts exactly unchanged identity and a request that names every folder, personal cipher, confirmed grant, membership with a reset key and send of the user |
| KeyRotationProofs.RotationSucceedsIff | src/api/core/accounts.rs:719-917 | success exactly for right password, valid notes, unchanged identity and a request that names each record of the five kinds and no other, with entries that pass their checks |
| KeyRotationProofs.RotationReplacesAll | src/api/core/accounts.rs:834-909 | after success each record of the five kinds has the last material given for it and its other columns as before, the user has the three new columns and the others as before, and nothing else has changed |
| KeyRotationProofs.NothingUnderOldKey | src/api/core/accounts.rs:740-909 | if all given material is under the new key, nothing of the user's, private key included, stays under the old one |
| KeyRotationProofs.OthersAreKept | src/api/core/accounts.rs:816-894 | whatever the outcome, a changed record is one of the five kinds of the user, changed in nothing but its material |
| KeyRotationProofs.FailureIsContained | src/api/core/accounts.rs:802-894 | a refused validation writes nothing; a later failure leaves the tables of earlier loops rotated and those of later loops and the user as they were |
| Ciphers.Server.UpdateCipherFromData | src/api/core/ciphers.rs:435-471 | an organization cipher accepts only its organization; otherwise the owner becomes the given organization or the caller |
| Ciphers.Server.PostCiphers | src/api/core/ciphers.rs:362-375 | a new cipher is stored with exactly the owner the update gives it |
| Ciphers.Server.PostCiphersCreate | src/api/core/ciphers.rs:328-358 | stored, shared, and taken back when sharing fails: the same as creating it in place |
| Ciphers.Server.ShareCipherByUuid | src/api/core/ciphers.rs:1028-1077 | a stored, writable cipher is updated; otherwise nothing changes |
| Ciphers.Server.SizeOf | src/db/models/attachment.rs:161-207 | the sum over an owner's rows in any order, saturating at 64 bits |
| Ciphers.Server.AllowanceOf | src/api/core/ciphers.rs:1212-1258 | the remaining allowance by owner kind, with its four denials |
| Ciphers.Server.PostAttachmentV2 | src/api/core/ciphers.rs:1125-1149 | announcing stores a row without consulting a limit |
| Ciphers.Server.PostAttachmentV2Data | src/api/core/ciphers.rs:1260-1295 | an upload within allowance and a mebibyte either way of the announced size records the real size; outside it the row is deleted |
| Ciphers.Server.PostAttachment | src/api/core/ciphers.rs:1296-1313 | the older upload creates its row only within the allowance |
| Ciphers.Server.DeleteAttachment | src/api/core/ciphers.rs:1929-1953 | deletes the row of a writable cipher only |
| CipherRuns.RunIsSound | src/api/core/ciphers.rs:328-471 | in every run each stored cipher has exactly one owner kind and attachments belong to stored ciphers |
| CipherRuns.OrganizationIsForever | src/api/core/ciphers.rs:435-437 | while it is stored, an organization cipher keeps its organization |
| CipherRuns.OwnerIsKnown | src/api/core/ciphers.rs:1256-1258 | the arm for a cipher nobody owns is unreachable |
| CipherRuns.SharingConserves | src/api/core/ciphers.rs:446-471 | sharing moves the attachment bytes from old to new owner; their sum and everyone else's usage stay |
| CipherRuns.OverflowIsUnreachable | src/api/core/ciphers.rs:1207-1255 | with limits that pass the configuration check no upload overflows, even with a saturated sum |
| CipherRuns.FitsIff | src/api/core/ciphers.rs:1207-1263 | the allowance admits anything without a limit, and otherwise exactly what keeps the stored sum, less the announced size, within a limit not yet used up |
| CipherRuns.UnlimitedUploads | src/api/core/ciphers.rs:1207-1313 | without a limit every complete upload, and every announced one within the leeway, to a writable cipher is accepted |
| CipherRuns.UploadsStayWithinLimit | src/api/core/ciphers.rs:1190-1313 | in every run an owner's uploaded bytes exceed a limit more than a mebibyte below 2^63 by no more than transfers have brought in, even when announced sizes saturate the stored sum |
| CipherRuns.LimitHoldsIff | src/api/core/ciphers.rs:1207-1295 | that holds in all runs exactly for the limits more than a mebibyte below 2^63 |
| CipherRuns.LastMebibyteIsExceeded | src/api/core/ciphers.rs:1207-1295 | for every larger limit and every owner, a run without transfers whose uploads exceed it by one byte |
| CipherRuns.UploadIsSafeIff | src/api/core/ciphers.rs:1207-1291 | an upload to an announced attachment leaves all rows of the owner within the limit exactly when the stored sum fits 64 bits, or allowance and leeway together admit no size once it has saturated |
| CipherRuns.InboundStaysWithinIff | src/api/core/ciphers.rs:1028-1077 | a share keeps the receiver's limit exactly when the uploaded bytes of the cipher still fit in |
| CipherRuns.SharingCanExceedLimit | src/api/core/ciphers.rs:1028-1077 | a run in which sharing takes an organization over its limit |
| CollectionUpdate.Server.PostCollectionsUpdate | src/api/core/ciphers.rs:796-838 | the loop over the symmetric difference in a given order, stopping at the first collection not allowed |
| CollectionUpdate.UpdateInAnyOrder | src/api/core/ciphers.rs:813-838 | for every order: completes exactly when all differences are writable ones of the organization; then posted plus invisible ones remain; a failing run changed only members of the difference |
| SyncIndex.GroupRows | src/api/core/ciphers.rs:2144-2158 | the map has exactly the keys of the rows, and for each of them the values of all its rows, by increasing position |
| SyncIndex.CombinePermissions | src/api/core/ciphers.rs:2174-2193 | per collection the conjunction of read-only and hide-passwords and the disjunction of manage over its rows |
| SyncIndex.CombinedIgnoresOrder | src/api/core/ciphers.rs:2176-2190 | the combined permissions do not depend on row order |
| SyncIndex.MergeRows | src/db/models/cipher.rs:640-669 | no row means no access; otherwise the three flags over all rows |
| SyncIndex.AccessRestrictions | src/db/models/cipher.rs:617-630 | the restrictions computed from the index |
| SyncIndex.SyncAgreesIff | src/db/models/cipher.rs:617-638 | index and direct queries agree exactly when there is no own permission or the remaining group permissions add nothing to the own ones |
| SyncIndex.SyncCanDiffer | src/db/models/cipher.rs:617-638 | a cipher that is read-only by direct query and writable in the sync |
| DbPool.Database.FromConfig | src/db/mod.rs:210-231 | semaphore and connection pool start with the same size |
| DbPool.Database.AcquirePermit | src/db/mod.rs:235-242 | a permit is taken when one is left |
| DbPool.Database.TakeConnection | src/db/mod.rs:244-252 | a holder of a permit finds a slot; a failing database returns the permit |
| DbPool.Database.BeginDrop | src/db/mod.rs:149-156 | dropping hands permit and connection to a closure |
| DbPool.Database.ReleaseConnection | src/db/mod.rs:156-162 | the connection goes back first |
| DbPool.Database.ReleasePermit | src/db/mod.rs:164-167 | the permit goes back after it |
| DbPool.ConnectionsNeedPermits | src/db/mod.rs:149-252 | in every interleaving connections out are at most permits out, permits out and available add up to the maximum, and nothing is lost at rest |
| DbPool.PermitFindsConnection | src/db/mod.rs:235-252 | a request with a permit always finds a free connection slot |
| DbPool.NobodyIsStuck | src/db/mod.rs:149-252 | every request under way can go on |
| DbPool.PermitFirstConnectsIff | src/db/mod.rs:158-165 | after any run, released in the other order, the next request gets a permit, and a connection exactly when not all were out |
| DbPool.PermitFirstStarves | src/db/mod.rs:158-165 | for every pool size a run after which that order leaves the next request with a permit and no connection |
| Config.MergeIsUnion | src/config.rs:277-299 | merging puts the second builder on top of the first |
| Config.OverridesAre | src/config.rs:281-289 | the overrides are exactly the names set in both |
| Config.MergeBuilders | src/config.rs:279-299 | the field loop computes merged builder and overrides |
| Config.ClearNonEditable | src/config.rs:269-275 | exactly the values of editable fields remain |
| Config.BuildItems | src/config.rs:301-321 | the ordered build followed by the corrections |
| Config.BuildMeans | src/config.rs:74-89 | a field has the given value, nothing, its default, or what its rule computes from earlier fields; a generated one ignores what is given |
| Config.BuildDependsOnPrefix | src/config.rs:301-306 | what is built depends only on given values of fields that are not generated |
| Config.CorrectionsAre | src/config.rs:303-318 | after the build the domain loses its trailing slashes and nothing else, whether it was given is recorded, the two lists are tidied, and the older spelling of the block list counts exactly when the newer is not set |
| ConfigRuns.RunIsLayered | src/config.rs:1418-1563 | after any sequence of updates, partial updates and resets the live settings are the build of user file over environment and the overrides exactly the names set in both, in field order |
| ConfigRuns.PartialUpdatesCompose | src/config.rs:1483-1490 | two accepted partial updates equal one with the second on top of the first |
| ConfigRuns.RestartReproducesIff | src/config.rs:1418-1443 | a restart reproduces the live settings exactly when the file holds the user configuration and the loading check accepts them |
| ConfigRuns.RestartReturnsToLastSave | src/config.rs:1418-1563 | after any run, whichever writes failed, a restart that passes the loading check has the settings of the last save |
| ConfigRuns.RunSurvivesRestart | src/config.rs:1418-1563 | after any run with successful writes a restart reproduces the settings; without resets it always succeeds |
| ConfigRuns.FailedWriteIsLive | src/config.rs:1468-1480 | every accepted change whose write fails is live with the file as before, is unsaved exactly if it changed the user configuration, and a restart returns to the settings before it |
| ConfigRuns.LiveIsKept | src/config.rs:1445-1563 | in every run of updates, partial updates and resets the live value of a field is that of the last accepted event that gave or dropped it, and where none is left the environment's, unless it is computed from other settings |
| ConfigRuns.AdminSaveTakesEditable | src/config.rs:1445-1481 | an accepted admin save makes the editable settings on the page live and takes over no other |
| ConfigRuns.GeneratedKeySurvivesIff | src/config.rs:1445-1490 | a stored value of an optional field that is not editable is still live exactly when no later admin update or reset was accepted |
| ConfigRuns.AdminSaveDropsKey | src/config.rs:1569-1586 | for every page that passes the check: a generated key is stored by a partial update and dropped by the next admin save |
| ConfigRuns.Service.UpdateConfig | src/config.rs:1445-1481 | validated settings become live before the file is written; success means the file holds them |
| ConfigRuns.Service.UpdateConfigPartial | src/config.rs:1483-1490 | the update of the merged user configuration |
| ConfigRuns.Service.DeleteUserConfig | src/config.rs:1541-1563 | back to the environment once the file is deleted |
| Notifications.Serialize | src/api/notifications.rs:259-288 | the frame is the seven-bit length prefix followed by the payload; the loop terminates |
| Notifications.StreamIsUniquelyDecodable | src/api/notifications.rs:259-288 | any list of payloads is recovered from its concatenated frames |
| Notifications.PrefixFree | src/api/notifications.rs:265-284 | no length prefix begins another |
| Notifications.PrefixIsMinimal | src/api/notifications.rs:265-284 | no shorter byte string reads as the same length |
| Notifications.DateRoundTrip | src/api/notifications.rs:290-300 | the big-endian bytes give the pair back exactly when seconds fit 34 and nanoseconds 30 bits |
| Notifications.SignBitIsCovered | src/api/notifications.rs:293-295 | that includes words whose sign bit the shift has set |
| SsoLogin.Server.PostAuthorize | src/api/identity.rs:1272-1305 | only the S256 method creates, or replaces, the record of a state |
| SsoLogin.Server.OidcSigninRedirect | src/api/identity.rs:1201-1228 | a current record with the right browser binding takes code and error and keeps an identity it has |
| SsoLogin.Server.PostToken | src/sso.rs:247-348 | tokens exactly for a current record with the code, an identity, and passed user checks and second factor; what becomes of the record in every other case |
| SsoLogin.OneShot | src/sso.rs:243-328 | in every run nothing follows the issue of tokens for a record, and after a completed exchange the provider is not asked again, not even to refuse |
| SsoLogin.IssuesIff | src/api/identity.rs:316-343 | a step issues tokens exactly if it is such a request, for the record that holds its code |
| SsoLogin.IssueHasRequest | src/api/identity.rs:316-343 | in every run each issue is the work of a token request that passed, with the code its record held |
| SsoLogin.RetryNeedsNoProvider | src/sso.rs:239-262 | a request that does not pass keeps record and identity, and the retry issues tokens without asking the provider |
| SsoLogin.ExpiryIsInvisible | src/db/models/sso_auth.rs:142-155 | deleting expired records changes no later answer |
| SsoLogin.IssueIsBound | src/api/identity.rs:1201-1228 | each issue follows a completed exchange that follows a callback with the cookie which the authorize call of the same record had set; callback and issue come within ten minutes of that call |
| SsoLogin.LastExchangeIff | src/sso.rs:286-313 | for every run and request whose code the provider accepts: no continuation has another code of the record accepted, exactly when the reply gave an identity |
| SsoLogin.TwoCodesForOneRecord | src/sso.rs:279-287 | a run with two codes accepted for one record |
| SsoRefresh.ChainKeepsKind | src/auth.rs:1286-1297 | along any chain the kind never changes, and an access chain keeps token and expiry with every success 300 seconds before it |
| SsoRefresh.ChainKeepsNewestToken | src/sso.rs:435-448 | a refresh chain always holds the newest token the provider issued, as in section 6 of RFC 6749, with the dates the last reply carries |
| SsoRefresh.ChainSucceedsIff | src/auth.rs:1247-1297 | whatever the session, a chain of refreshes succeeds exactly when at each the device is known, the settings admit the method, and the token is renewed or accepted |
| SsoRefresh.SessionKeepsToken | src/sso.rs:338-473 | from a redeemed login, with the dates it starts with, through any refreshes: the newest refresh token if the login brought one, else its access token with the expiry it had then; with single sign-on disabled no refresh succeeds |
| SsoRefresh.OwnSessionSlides | src/auth.rs:1219-1297 | along any chain of an own session the method stays, and access lasts two hours and refreshing 30 days, 90 on a mobile device, from the last refresh on |
| Sanitizer.StripKeepsTagFree | src/mail.rs:100-106 | a string without a match is unchanged |
| Sanitizer.StripDeletesLeftmost | src/mail.rs:100-106 | the leftmost match is deleted and the scan resumes after it |
| Sanitizer.StripLeavesNoTag | src/mail.rs:100-106 | deletion never creates a new match |
| Sanitizer.SanitizeData | src/mail.rs:100-119 | on every path of the tree a string has become its stripped form, containers have kept size and names, and anything else is as it was |
| Sanitizer.TagIs | src/mail.rs:103 | a match is an opening bracket, one or more other characters and a closing bracket |
| Sanitizer.SanitizedIsClean | src/mail.rs:100-119 | no string of the result contains a match; shape, field names and other leaves are kept |
| Sanitizer.CleanIsFixed | src/mail.rs:100-119 | exactly the clean trees are left unchanged |
| Sanitizer.SanitizedTwice | src/mail.rs:100-119 | a second pass changes nothing |

## Left out

- Concurrent duplicate requests: handlers that read a record and save it whole are atomic here; only the two emergency access jobs are split into steps.
- EmergencyAccess.Server.SendInvite: creating an account for an unknown address is not modelled; in runs, immediate acceptance is an invitation step followed by an acceptance step.
- EmergencyAccess.Server.PostAccept: the signed invitation token that the endpoint checks beforehand is not modelled.
- EmergencyAccess.Server.ViewEmergencyAccess: the list of ciphers in the answer is not modelled.
- EmergencyAccess.Server.TakeoverEmergencyAccess: the key derivation settings in the answer are not modelled.
- EmergencyAccessRuns.LoadedRowsAreComplete: the account lookups made for mails after the write are not covered; a job that fails there ends before its next row, which the runs allow at any moment.
- Password step of emergency access: its access condition is that of takeover; the new password, the removal of second factors and of memberships are not modelled.
- Date arithmetic limits: a waiting time so long that the date overflows makes the jobs panic in the source; here dates are unbounded.
- KeyRotationProofs.Accounts.UpdateSends: the checks of a single send (type, deletion date, text) enter as one flag, and its columns as one body.
- KeyRotationProofs.Accounts.UpdateCiphers: the checks of a single cipher enter as one flag, and its columns as one body; attachment keys are not part of the claim, as the validation does not cover them.
- KeyRotationProofs.Accounts.PostRotateKey: the new security stamp and the logout of other devices are not modelled.
- Ciphers.Server.ShareCipherByUuid: links to collections, which are saved before the share can still be refused, are not modelled.
- SsoLogin.Server.PostAuthorize: the checks of client and redirect address are not modelled.
- SsoLogin.Server.PostToken: matching the identity to a user, the second factor and the device are one outcome.
- Access control queries behind write access to ciphers and collections: they enter as outcomes, except for the restrictions in `SyncIndex`.
- File storage of attachments: a failing write after the row is saved is not modelled.
- Configuration file format: writing and reading the user file is taken as lossless.
- Config.CorrectionsAre: trimming and lower-casing of the two lists is a parameter of the schema.
- Cancelled requests of the connection pool, idle connections and pool timeouts other than an error reply.
- Reader limits of the websocket clients on the length prefix.
- Cryptography, token signing, templates, mail transport, icons, admin pages, the Workers port other than its rate limiter: library calls, input and output, or single SQL statements.
