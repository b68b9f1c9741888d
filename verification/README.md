# SecureVault verification

SecureVault enrols devices, issues and renews their certificates, logs users in by password or
certificate, stores encrypted files and shares them. Its state lives in database collections that
short multi-step requests change; a request can fail between any two of its writes, and requests
interleave. This project models those collections as finite maps with their unique indexes and
proves what every request, and every interleaving of requests, keeps.

Two kinds of model appear side by side.

- **Services** (`SetupService`, `ShareService`, `AuthService`, `Sessions`, `Encryption`,
  `FilesService`) are classes whose methods change their fields as the services do, one call at a
  time. Where a call awaits a write, a `Fault` parameter says whether that write throws,
  and the contract says exactly what is left behind.
- **Protocols** (`RenewalProtocol`, `RefreshTokens`, `DownloadBudget`, `EnrollmentBudget`,
  `FileStore`) are state machines in which each read or write of one document is a step of its own,
  and any number of requests interleave and fail anywhere. `RenewalIsARun`, `EnrollmentIsARun`,
  `RegistrationIsARun`, `RefreshIsARun`, `UploadIsARun`, `DeleteIsARun` and `CleanupIsARun` tie a
  service method to an undisturbed run of its protocol, `BeginValidates` and `LoadAndSaveRecords` the
  steps of a download to the operations on shares. `RenewalRuns`, `StrandedDevices`, `DeviceFutures`
  and `DeviceBlocks` say what runs of the renewal protocol come to.

Time is an integer in milliseconds and comes in as a parameter, as do random values and the answers
of bcrypt and Vault. Ciphers and hashes are function values; the laws used of them are written out
(`Encryption.Lawful`, `Encryption.Authentic`).

## Where the code differs from what is said of it

- *Refresh rotation* is documented as revoking the old token and issuing one new one. Its find and
  its save are two steps, so two requests can redeem one token and leave two live ones
  (`InterruptedRotationForks`, a run from the empty store). A token is redeemed at most once exactly
  when no two such sections of its rotations overlap (`RedeemedOnceExactly`). A family keeps to one
  token, live or still to be stored, exactly while no save finds its token revoked already with
  another one there (`FamilyBoundExactly`); `FamiliesBounded` is the bound that always holds.
- *Revoking all of a user's tokens*, as a password change does, revokes what is stored at that moment.
  A rotation that has found its token, or a login that has read the old password hash, goes on to store
  a live one (`RotationOutlivesRevokeAll`, `LoginOutlivesRevokeAll`, `OldPasswordOutlivesRevokeAll`).
  With no login that reads the user afterwards, the user stays without a live token exactly when no
  such request is under way (`RevokeAllHoldsExactly`). A logout revokes the one refresh token it is
  given, and ends its family exactly when no rotation of the family is under way (`LogoutHoldsExactly`).
- *Download limits and enrollment token limits* are counters saved by load, add one, save. The
  stored download count never passes its bound, but the downloads themselves can
  (`OverlapLosesCount`); a late save reopens a spent enrollment token (`LateSaveReopensToken`).
  The counts are exact precisely when no save overlapped another, in particular when the consume
  step is atomic (`AtomicEnrollment`).
- *Logout* is said to blacklist the access token. Logout and the strategy both take the token to be
  the `Authorization` header with the first `Bearer ` removed, while the token that is authenticated
  is the second word of the header. The two agree for one header only, `Bearer `, the token, and
  nothing else: other capitalisation, spacing or trailing text misses the key (`KeyFoundExactly`,
  `TrailingTextMissesKey`), and a logout takes effect exactly when its own header and the later one
  are both plain (`LogoutTakesEffectExactly`). A failing Redis is swallowed (`RejectedExactly`).
- *A file is not to be shared with its owner*, but the check compares the text typed while the lookup
  and the stored ids read hexadecimal of either case: the owner's id in upper case stores a share whose
  owner is its recipient (`UpperCaseSelfShare`). Owner and recipient differ exactly when the text does
  not respell the owner's id, for one share (`ShareFile`, `RecipientExactly`) and over every run
  (`RunKeeps`).
- *Renewal* revokes the old certificate before it signs the new one, and enrollment inserts the device
  before it signs. A request that fails in between leaves a device that can neither renew nor enroll
  again, its fingerprint being taken (`FailureStrands`). The same becomes of a device whose certificate
  expires before it is renewed (`ExpiryStrands`). `NoneToComeExactly` says exactly when a device never
  gets another certificate.
- *Verification* is said to refuse revoked certificates. It looks for both marks of revocation before it
  looks at the device, so a revocation between its reads goes unseen (`ValidAfterRevocation`); what
  `valid` still means then is `InterleavedValid`, and one that begins after the revocation never
  accepts (`RevokedBeforehand`).
- *Blocking a device* does not stop an enrollment of it that has read the device PENDING and not yet
  saved it: the save approves it. A block holds exactly when no enrollment is at that point
  (`BlockHoldsExactly`).
- *The expiry sweep* agrees with lazy expiry for the access gate, but not for creating shares: an
  overdue share still marked ACTIVE blocks a new one until a sweep (`SweepUnblocksSharing`). The
  share listing is said to apply lazy expiry and does not (`DefaultListingMayLag`).
- *Master key rotation* is said to re-encrypt all stored keys and does not: afterwards a file
  downloads exactly when its own key was wrapped under the present master key (`StoredFilesDownload`,
  `RotationDecidesExactly`).
  A rotation that fails puts the old key back but loses the files whose upload wrapped a key
  meanwhile (`EveryFileDownloads`, `FailedRotationLosesUpload`); two failing rotations that overlap
  put back a key nobody keeps and lose earlier files (`OverlappingRotationsLoseFiles`).
- *Cleanup and the integrity job* ask local storage whether a blob exists, which answers no on any
  access error: cleanup then removes the document and leaves the blob, and the integrity job counts
  a file that is not orphaned (`CleanupExpiredFiles`, `NoOrphans`).
- *Listing files* shows managers less than they may read: exactly the department files of others
  (`ReadableButNotListed`).
- *Two-stage serial lookup* differs from the simple lookup in the reason given for refusing a
  REVOKED certificate presented in another spelling, and in nothing else
  (`TwoStageAgreesWithNormalFind`).
- `recordDownload` may overwrite REVOKED with EXPIRED, so what is final is having left ACTIVE.
- `forceChangePassword` returns a refresh token that it does not store; if a login in the same second
  has stored the identical one, that one is revoked.

## Model

| member | source | states |
|---|---|---|
| RenewalProtocol.AtMostOneCertificate | src/modules/setup/setup.service.ts:286-329 | under every interleaving of registrations, enrollments, renewals, revocations and status changes, with failures anywhere: a device's certificates without a revocation record, plus renewals past the record step, plus enrollments not yet signed, are at most one, so at most one of its certificates is not REVOKED |
| RenewalProtocol.AtMostOneSuccessor | src/modules/certificates/schemas/certificate-revocation.schema.ts:34-35 | the unique revocation serial orders racing renewals: each old serial has at most one successor and each successor one predecessor, on the same device, and the old one is REVOKED with a record that says `superseded` by `system:renewal` |
| RenewalProtocol.RevocationIsFinal | src/modules/certificates/certificates.service.ts:318-361 | a certificate revoked on either count stays in the store, REVOKED, and no answer a later verification may give accepts it |
| RenewalProtocol.OneAcceptedCertificate | src/modules/certificates/certificates.service.ts:120-313 | at any moment of any run, two accepted presentations that name one device are the same certificate with the same bytes |
| RenewalProtocol.ReachableValidIsTrustworthy | src/modules/certificates/certificates.service.ts:120-313 | in every reachable state, whatever the CA did, a `valid` answer is for a stored certificate that is unrevoked on both counts and hashes to the stored fingerprint, and the device it names is APPROVED now and owned by the user it names |
| RenewalProtocol.ReachableVerification | src/modules/certificates/certificates.service.ts:120-313 | given that the CA never issues a number twice in any spelling, `valid` is answered for every trustworthy certificate presented, and only for those |
| RenewalRuns.InterleavedValid | src/modules/certificates/certificates.service.ts:120-313 | a verification whose reads other requests come between: `valid` means that the clock was inside the validity period, then the certificate carried neither mark when looked up, then no record of it was found, in this order and within the request; and now its bytes match, and the device it names is APPROVED and belongs to the user it names |
| RenewalRuns.RevokedBeforehand | src/modules/certificates/certificates.service.ts:318-361 | however its reads are interleaved, a verification that begins after a certificate is revoked on either count never accepts it |
| RenewalRuns.ValidAfterRevocation | src/modules/certificates/certificates.service.ts:211-255 | a run from the empty store in which a verification accepts a certificate that has become REVOKED and recorded since its lookup |
| RenewalRuns.RecordsNameOwners | src/modules/certificates/certificates.service.ts:347-355 | in every reachable state a revocation record names the user and the device of its certificate, which is REVOKED |
| DeviceBlocks.BlockHoldsExactly | src/modules/devices/devices.service.ts:123-170 | a blocked device stays BLOCKED until the next status change, whatever other requests do, if and only if no enrollment of it had read it PENDING and not yet saved it APPROVED |
| DeviceFutures.NoneToComeExactly | src/modules/certificates/certificates.service.ts:154-176 | at every moment of a run whose clock does not go back, in which certificates say what their bytes say and the CA never issues a number twice: a device never gets another certificate by enrollment or renewal, whatever follows, if and only if all it has are REVOKED or past their validity, no request holds its slot, no renewal is about to record a revocation of one, and no verification of one that it could still renew is past its clock read |
| DeviceFutures.SpentForGood | src/modules/setup/setup.service.ts:286-329 | the forward half, whatever numbers the CA issues: such a device stays so through every continuation, and its certificates are the same |
| DeviceFutures.ExpiryStrands | src/modules/certificates/certificates.service.ts:154-164 | an enrolled device whose only certificate is ACTIVE and expired never gets another, though no request has failed |
| StrandedDevices.FailureStrands | src/modules/setup/setup.service.ts:314-329 | a request that holds a device's slot, past the record or past the insert, and ends without signing leaves the device so for good |
| RenewalProtocol.RunKeepsInv | src/modules/certificates/certificates.service.ts:41-114 | the inductive invariant over every run: sound collections, correct locals of every request, one claim per device, chains of successors; documents are only added |
| RenewalProtocol.StepExclusive | src/modules/setup/setup.service.ts:286-329 | the slot argument for one step of one request: no two claims on one device |
| RenewalProtocol.RunKeepsDistinctSerials | src/modules/certificates/schemas/certificate.schema.ts:31-32 | if the CA never issues a number twice in any spelling, stored serials stay distinct after normalising |
| TrustStore.ValidExactlyWhenTrustworthy | src/modules/certificates/certificates.service.ts:120-313 | the verification cascade accepts exactly what one declarative condition describes: unrevoked on both counts, matching hash, APPROVED device; and it names that device and its owner |
| TrustStore.ValidOnlyWhenTrustworthy | src/modules/certificates/certificates.service.ts:120-313 | on any sound store, whichever match the scan comes upon, `valid` is answered only for a trustworthy certificate, with its device and owner |
| TrustStore.VerifyMayAnswer | src/modules/certificates/certificates.service.ts:187-198 | the scan's order matters only when serials are not distinct: with distinct ones there is one answer |
| TrustStore.TwoStageAgreesWithNormalFind | src/modules/certificates/certificates.service.ts:179-221 | exact match then scan of the non-revoked accepts what one lookup by normalised serial accepts; verdicts are equal if and only if no REVOKED certificate is stored under another spelling |
| TrustStore.ScreenedFor | src/modules/certificates/certificates.service.ts:132-176 | which fault of the presented bytes is reported, in field terms: format, parsing, past its period, before it |
| TrustStore.RefusedFor | src/modules/certificates/certificates.service.ts:210-284 | the reason for refusing a stored certificate, in field terms and in this order: status, record with its reason, device fingerprint, device status, bytes |
| TrustStore.SoundByGrowth | src/modules/devices/devices.service.ts:183-191 | the binding invariant: a write to one certificate and one device that keeps owners, fingerprints and bindings in place keeps them everywhere |
| SetupService.RenewalIsARun | src/modules/setup/setup.service.ts:286-329 | the renewal method's effect is that of an undisturbed renewal request of the interleaved protocol |
| SetupService.EnrollmentIsARun | src/modules/setup/setup.service.ts:205-248 | the writes of an enrollment, complete or failing at any of them, are those of an undisturbed process of the interleaved protocol that throws there |
| SetupService.RegistrationIsARun | src/modules/devices/devices.service.ts:34-80 | the same for registering a device, which may find its fingerprint or its deviceId taken |
| SetupService.EnrollmentKeepsDbOk | src/modules/setup/setup.service.ts:205-233 | wherever an enrollment throws, the collections stay sound, one unrecorded certificate per device, serials distinct |
| SetupService.RenewalKeepsDbOk | src/modules/setup/setup.service.ts:314-329 | the same for a renewal, before and after each of its writes |
| SetupService.Service.CreateEnrollmentToken | src/modules/setup/setup.service.ts:46-91 | the token added, with zero hours read as 24 and zero devices as 1 |
| SetupService.Service.RegisterDevice | src/modules/devices/devices.service.ts:34-80 | succeeds exactly on a new fingerprint and deviceId, adding one PENDING device; otherwise nothing changes |
| SetupService.Service.ApproveDevice | src/modules/devices/devices.service.ts:123-143 | succeeds exactly on a PENDING device, and changes its status alone |
| SetupService.Service.AddDevice | src/modules/setup/setup.service.ts:205-233 | steps 4 to 6 of enrollment, for any serial the CA returns: when they succeed, the exact new collections, and what each failing write leaves |
| SetupService.Service.EnrollDevice | src/modules/setup/setup.service.ts:146-280 | succeeds exactly when the token is stored, in time, has enrollments left, is for this employee and of an active account, the CSR is valid, fingerprint, deviceId and serial are new and every write goes through; the exact new collections and token, or what each failing write leaves; each refusal exactly when its check is the first to fail |
| SetupService.Service.VerifyToken | src/modules/setup/setup.service.ts:97-140 | each reason for refusing a token if and only if its check is the first to fail, and otherwise how many devices are left |
| SetupService.AcceptedExactly | src/modules/setup/setup.service.ts:97-140 | a stored token is refused if and only if it is past `expiresAt`, completed enrollments have reached `maxDevices`, the employee is another, or its user is not an active account |
| SetupService.Service.ConsumeToken | src/modules/setup/setup.service.ts:235-248 | one use more, `isUsed` exactly at the maximum, the token's user, employee, expiry and maximum kept |
| SetupService.EnrollmentWrites | src/modules/setup/setup.service.ts:205-233 | what an enrollment stopped anywhere leaves, document by document and field by field: the device PENDING, then APPROVED, then the ACTIVE certificate, then the binding |
| SetupService.RenewalWrites | src/modules/setup/setup.service.ts:314-329 | the same for a renewal: the status, the record, the successor, the binding |
| SetupService.Service.VerifyCertificate | src/modules/certificates/certificates.service.ts:120-313 | the search over the store gives an answer the specification allows, whichever match it comes upon first |
| SetupService.Service.RevokeCertificate | src/modules/certificates/certificates.service.ts:318-361 | succeeds exactly on a stored certificate that is not REVOKED; the status and a record with its user, device, reason (or `unspecified`) and revoker, or the status alone when the record fails |
| SetupService.Service.RenewCertificate | src/modules/setup/setup.service.ts:286-357 | succeeds exactly when verification, the CSR and every write do, for any serial the CA returns; the old certificate superseded and the new one bound, or what each failing write leaves |
| EnrollmentBudget.EnrollmentConservation | src/modules/setup/setup.service.ts:235-248 | under any interleaving `usedCount` equals completed enrollments exactly when no save overlapped another; then `isUsed` means spent, and completed plus in flight stay below `maxDevices` plus the most in flight |
| EnrollmentBudget.AcceptedInTime | src/modules/setup/setup.service.ts:113-133 | under any interleaving every enrollment in flight or completed was accepted at or before the token's expiry, for its own employee and with its user active; the token keeps its terms, and once used stays so |
| EnrollmentBudget.ConsumesOne | src/modules/setup/setup.service.ts:235-248 | load and save with nothing between use the token once and mark it used at its maximum |
| EnrollmentBudget.FailedUsesNothing | src/modules/setup/setup.service.ts:205-248 | an enrollment that fails after its checks, before or after it has loaded the token, uses nothing of it up |
| EnrollmentBudget.SequentialEnrollment | src/modules/setup/setup.service.ts:97-140 | one at a time: `usedCount` is the number completed, at most `maxDevices`, and `isUsed` exactly at the maximum |
| EnrollmentBudget.LateSaveReopensToken | src/modules/setup/setup.service.ts:235-248 | a concrete run: two enrollments spend a token for two devices, a third that loaded it earlier saves, and it is accepted again |
| EnrollmentBudget.AcceptsAfterSave | src/modules/setup/setup.service.ts:113-133 | after a save the token is accepted if and only if it is in time, the employee its own, the user active, and the count it loaded was two or more below the maximum |
| EnrollmentBudget.AtomicEnrollment | src/modules/setup/setup.service.ts:235-248 | with an atomic consume step and any number in flight: `usedCount` is the number completed, `isUsed` exactly at the maximum, completed plus in flight at most `maxDevices` plus the most in flight less one |
| Counters.SaveExact | src/modules/setup/setup.service.ts:239-247 | a load-add-save counter is exact precisely while no two sections overlap, and stays so over a save |
| Shares.RunKeeps | src/modules/shares/schemas/file-access.schema.ts:86-92 | over every run: one ACTIVE share per file and recipient, a share that left ACTIVE never returns, its terms never change, and owner and recipient of every share differ if and only if no create named the owner in another spelling |
| Shares.StepKeeps | src/modules/shares/services/file-access-validation.service.ts:161-187 | the same for each single operation, sweeps and one-time revocation included |
| Shares.GrantedExactly | src/modules/shares/enums/share-permission.enum.ts:1-62 | the weights and the required-permission table grant exactly what the described levels allow, and the gate adds time, limit and device |
| Shares.DeniedFor | src/modules/shares/services/file-access-validation.service.ts:73-150 | each reason for denying access if and only if its check is the first to fail |
| Shares.LastsExactly | src/modules/shares/services/file-access-validation.service.ts:161-187 | over every run before expiry in which the owner does not revoke: the count grows by the downloads recorded, and the share is ACTIVE at the end if and only if it was and is neither one-time and used nor at its limit |
| Shares.UnlimitedStaysGranted | src/modules/shares/services/file-access-validation.service.ts:161-187 | a share with no limit and no one-time access grants after any such run exactly what it granted before |
| Shares.SweepRefinesLazyExpiry | src/modules/shares/services/file-access-validation.service.ts:193-228 | for every run of the gate, recordDownload, isShareValid, revokeShare and sweeps at times that do not go back, leaving out the sweeps, or the sweeps and the isShareValid calls, changes no answer the other calls get |
| Shares.SweepCounts | src/modules/shares/services/file-access-validation.service.ts:211-228 | a sweep counts exactly the shares it changes, and a second at the same instant changes none |
| Shares.SweepUnblocksSharing | src/modules/shares/services/share.service.ts:120-131 | a sweep changes the answer to creating a share if and only if an overdue share still ACTIVE blocks it |
| DownloadBudget.BudgetWithInFlight | src/modules/shares/services/file-access-validation.service.ts:117-133 | with at most k downloads ever in flight, the stored count plus those in flight stays at most the limit plus k - 1, and ACTIVE means below the limit; the count equals the downloads recorded exactly when no save overlapped; with one-time access the downloads recorded and in flight are at most k whatever overlaps |
| DownloadBudget.LetThroughRightly | src/modules/shares/services/file-access-validation.service.ts:73-150 | under any interleaving every download in flight or recorded was let through before the expiry, with DOWNLOAD permission or more, and from the device the share names if any |
| DownloadBudget.EndedForGood | src/modules/shares/services/file-access-validation.service.ts:168-184 | under every interleaving a share that has left ACTIVE never returns, whatever saves were loaded before it did |
| DownloadBudget.BeginValidates | src/modules/shares/services/file-access-validation.service.ts:50-155 | beginning a download lets through and writes what validateAccess does on a store that holds the share |
| DownloadBudget.LoadAndSaveRecords | src/modules/shares/services/file-access-validation.service.ts:161-187 | load and save with nothing between are recordDownload; giving up after the load changes nothing |
| DownloadBudget.SequentialBudget | src/modules/shares/services/file-access-validation.service.ts:161-187 | one at a time, recorded plus in-flight downloads never exceed the limit, and one-time access admits one |
| DownloadBudget.OverlapLosesCount | src/modules/shares/services/file-access-validation.service.ts:161-166 | a concrete run in which two overlapping pairs record four downloads against a limit of two |
| ShareService.Service.ShareFile | src/modules/shares/services/share.service.ts:62-148 | succeeds exactly when the six checks pass on the ids the typed texts are cast to, the self check being on the text itself; adds one ACTIVE share with the requested terms, whose owner and recipient differ exactly when the text does not respell the owner's id |
| ShareService.RecipientExactly | src/modules/shares/services/share.service.ts:90-106 | for every text typed: who is accepted as recipient, and that an active owner is if and only if the text is the owner's id in another spelling |
| ShareService.UpperCaseSelfShare | src/modules/shares/services/share.service.ts:102-106 | a concrete request: the caller's id in upper case passes the self check and is stored as the caller |
| ShareService.Service.RevokeShare | src/modules/shares/services/share.service.ts:186-208 | succeeds exactly for the owner of a share that is not REVOKED, and changes its status alone |
| ShareService.Service.ValidateAccess | src/modules/shares/services/file-access-validation.service.ts:50-155 | grants exactly what time, described level, limit and device allow on the one ACTIVE share, with the reason otherwise, and writes only a lazy expiry |
| ShareService.Service.RecordDownload | src/modules/shares/services/file-access-validation.service.ts:161-187 | one download counted; an ACTIVE share stays ACTIVE if and only if it is not one-time and has no limit or one above the new count; EXPIRED at the limit, else REVOKED |
| ShareService.Service.IsShareValid | src/modules/shares/services/file-access-validation.service.ts:193-205 | true exactly for an ACTIVE share not past its expiry, and writes only a lazy expiry |
| ShareService.Service.ExpireOverdueShares | src/modules/shares/services/file-access-validation.service.ts:211-228 | the number returned is the number of shares changed, and no overdue share is left |
| ShareService.Service.FindActiveShare | src/modules/shares/services/share.service.ts:121-125 | the one ACTIVE share of a file and recipient, if there is one |
| RefreshTokens.FamiliesBounded | src/modules/auth/auth.service.ts:282-327 | under every interleaving: a family has at most one token, live or still to be stored, plus its late saves; a token is redeemed at most once plus its late redemptions; a user has at most the logins whose password has matched since the last revoke-all, plus the logins and rotations that then had a token to store, plus late saves |
| RefreshTokens.FamilyBoundExactly | src/modules/auth/auth.service.ts:288-304 | at every moment of a run a family has at most one token, live or still to be stored, if and only if no save finds its token revoked already while the family has another |
| RefreshTokens.BoundExactly | src/modules/auth/auth.service.ts:282-327 | of any family or user: at every moment of a run the tokens live or still to be stored are at most the logins (for a user since the last revoke-all) if and only if no save is late with the group full and no revoke-all finds a request with a token to store |
| RefreshTokens.RevokeAllHoldsExactly | src/modules/auth/auth.service.ts:397-401 | after a revoke-all, in any state, no continuation without a login that reads the user from then on leaves the user a live token if and only if at that moment no login was between reading the user and its store and no rotation between its find and its store |
| RefreshTokens.LogoutHoldsExactly | src/modules/auth/auth.service.ts:356-366 | after a logout with a stored refresh token, in every reachable state, no continuation leaves its family a live token if and only if at that moment the family had no other live token and no rotation of it was between its find and its store |
| RefreshTokens.LoginOutlivesRevokeAll | src/modules/auth/auth.service.ts:81-106 | a run from the empty store: a login whose password matched before a revoke-all stores after it, leaving a live token and no login since |
| RefreshTokens.OldPasswordOutlivesRevokeAll | src/modules/auth/auth.service.ts:61-84 | a run from the empty store: a login that read the user before a revoke-all compares with the hash it read and stores a live token |
| RefreshTokens.RedeemedOnceExactly | src/modules/users/schemas/refresh-token.schema.ts:16-17 | in every run, logouts and revoke-alls included, a token is redeemed at most once if and only if no rotation of it saves while another that goes on to save is between its find and save |
| RefreshTokens.InterruptedRotationForks | src/modules/auth/auth.service.ts:288-304 | a run from the empty store: two rotations of one login's token, interrupted between find and save, leave two live tokens in its family |
| RefreshTokens.RotationOutlivesRevokeAll | src/modules/auth/auth.service.ts:302-320 | a run from the empty store: a rotation past its save survives a revoke-all, leaving a live token and no login since |
| RefreshTokens.RevokedForGood | src/modules/auth/auth.service.ts:397-401 | a revoked hash is never live again, whatever follows |
| RefreshTokens.ExpiredNeverRedeemed | src/modules/auth/auth.service.ts:297-299 | in every run a token is not redeemed after its expiry except by rotations that had found it before |
| RefreshTokens.StoredOnlyAfterCheck | src/modules/auth/auth.service.ts:81-95 | in every run no token of a user is stored unless a password of the user matched or the user was found active |
| RefreshTokens.RunKeepsInv | src/modules/auth/auth.service.ts:495-517 | the counting invariant over every run, by user and by family, and tokens only ever added or revoked |
| Lockout.LockoutRateBound | src/modules/users/users.service.ts:222-265 | for every sequential run and interval of length L: at most 5 * (floor(L / (30 min + 1 ms)) + 1 + c) password comparisons, c being the events in the interval that clear the lock early |
| Lockout.LockoutRateBoundUncleared | src/shared/constants/app.constants.ts:10-13 | with no successful login and no administrator's activate or reset, at most 5 * (floor(L / (30 min + 1 ms)) + 1), hence at most 5 * (floor(L / 30 min) + 1) |
| Lockout.BoundIsMet | src/modules/auth/auth.service.ts:74-95 | for every L some sequential run with nothing clearing the lock makes the bound an equality |
| Lockout.LocksAtFifth | src/modules/users/users.service.ts:222-265 | over every run the counter is the number of wrong guesses since the last right one, administrator's clearing or lapsed lock, at most five, and the account carries a lock if and only if they are five |
| Lockout.LockSetExactly | src/modules/users/users.service.ts:235-249 | a new lock comes only of the fifth such wrong guess and ends 1800000 ms after its recording |
| Lockout.StepKeepsAccountOk | src/modules/users/users.service.ts:222-265 | the counter never exceeds 5, and `lockoutUntil` is set exactly when it is 5 |
| Lockout.WithinAllowance | src/modules/users/users.service.ts:222-265 | comparisons never exceed the allowance of the account's present counter and lock |
| Blacklist.NoBlacklistGap | src/modules/auth/auth.service.ts:338-354 | from the write on, a logged-out token with an expiry is rejected for ever; the key outlives the expiry of section 4.1.4 of RFC 7519 by less than a second and the writing delay |
| Blacklist.RejectedExactly | src/modules/auth/strategies/jwt.strategy.ts:39-48 | that rejection holds if and only if the token has an `exp` and Redis took the key or the token has expired by then |
| Blacklist.KeyFoundExactly | src/modules/auth/strategies/jwt.strategy.ts:40-44 | of all headers from which a token is extracted, the strategy derives the key of that token from exactly one: `Bearer `, the token, nothing else |
| Blacklist.StripsFirst | src/modules/auth/strategies/jwt.strategy.ts:40-41 | of any header exactly the first `Bearer ` is removed, and one without it is left alone |
| Blacklist.LogoutTakesEffectExactly | src/modules/auth/auth.controller.ts:132-140 | a token that logs out under one header and comes back unexpired under another is rejected if and only if both headers are plain |
| Blacklist.LogoutThenReturn | src/modules/auth/auth.controller.ts:132-140 | after a logout under the plain header the token is rejected under that header and admitted with text behind it |
| Blacklist.TrailingTextMissesKey | src/modules/auth/strategies/jwt.strategy.ts:40-44 | a header with text after the token carries the token and misses its key |
| AuthService.RefreshIsARun | src/modules/auth/auth.service.ts:282-327 | the rotation method's effect is that of one uninterrupted request of the concurrent model |
| AuthService.Service.Login | src/modules/auth/auth.service.ts:60-124 | succeeds exactly on an active account without a lock or with a lapsed one and the right password; counter and lock afterwards in fields, cleared by success, counted by failure; one token stored; each error exactly |
| AuthService.Service.CertificateLogin | src/modules/auth/auth.service.ts:137-280 | lets through exactly the active owner of a verified device, APPROVED at that moment; one token, and one active session on that device, the new one, every other session unchanged |
| AuthService.Service.RefreshTokens | src/modules/auth/auth.service.ts:282-327 | rotates exactly for a live unexpired token of an active user, and spends the token even when the user is inactive |
| AuthService.Service.Logout | src/modules/auth/auth.service.ts:332-372 | the access token rejected for ever when Redis takes the key, stored as `bl:token:` and the token with the rest of its lifetime if any is left; the refresh token revoked, no active session left |
| AuthService.Service.IsAccountLocked | src/modules/users/users.service.ts:254-265 | the lock's answer, and an expired lock cleared |
| AuthService.Service.RecordLoginAttempt | src/modules/users/users.service.ts:222-252 | success sets the counter to 0 and removes the lock, failure adds one and locks for 1800000 ms from the fifth on, other accounts unchanged; the lockout invariant kept unless a failure is recorded on a locked account |
| AuthService.Service.RevokeAllTokens | src/modules/auth/auth.service.ts:397-401 | no live token of that user, and those of others unchanged |
| AuthService.Service.ChangePassword | src/modules/auth/auth.service.ts:379-402 | succeeds exactly on the current password, then no refresh token of the user is live |
| AuthService.Service.ForceChangePassword | src/modules/auth/auth.service.ts:409-444 | succeeds exactly when a change is due and the temporary password matches; no token is stored, none of the user's is live, and the one returned is revoked if a login had stored it already |
| AuthService.Service.ActivateUser | src/modules/users/users.service.ts:148-157 | the account active, its counter 0 and its lock gone, and nothing else changed |
| AuthService.Service.DeactivateUser | src/modules/users/users.service.ts:159-173 | the lock and the counter kept, every refresh token of the user revoked |
| AuthService.Service.ResetPassword | src/modules/users/users.service.ts:175-199 | the counter 0, the lock gone, a change made due, every refresh token of the user revoked |
| Sessions.InsertKeepsExactly | src/modules/sessions/sessions.service.ts:26-49 | the insert keeps one active session per user and device if and only if none is active at that moment |
| Sessions.SessionsCountDevices | src/modules/sessions/sessions.service.ts:121-126 | active sessions of a user are as many as the devices they are on |
| Sessions.SessionsService.CreateSession | src/modules/sessions/sessions.service.ts:18-55 | the new session, the ended one of the same user and device, and every other unchanged |
| Sessions.SessionsService.EndAllUserSessions | src/modules/sessions/sessions.service.ts:71-76 | no active session of the user, those of others unchanged |
| Sessions.SessionsService.EndDeviceSessions | src/modules/sessions/sessions.service.ts:81-86 | every user's active devices lose exactly that device |
| Sessions.SessionsService.CountActiveSessions | src/modules/sessions/sessions.service.ts:121-126 | the number of distinct devices with an active session, 0 exactly when none is active |
| FileStore.StoredFilesDownload | src/modules/files/files.service.ts:129-180 | through every interleaving of uploads, deletes, cleanups and rotations with failures anywhere, a file not deleted downloads to the bytes uploaded if, and for an authentic cipher only if, the master key is the one that wrapped its key |
| FileStore.EveryFileDownloads | src/modules/files/files.service.ts:47-124 | when no rotation succeeds and none overlaps another, once none is open every file not deleted downloads to exactly the bytes uploaded unless its upload wrapped its key while a rotation was open; for an authentic cipher if and only if |
| FileStore.RotationDecidesExactly | src/modules/encryption/encryption.service.ts:253-272 | after an undisturbed rotation the new key is in place if Vault accepted it and the old one if not, and a live file is read exactly when that is the key of its upload: an accepted rotation to another key loses every file |
| FileStore.FailedRotationLosesUpload | src/modules/encryption/encryption.service.ts:253-272 | a concrete run: an upload during a rotation that fails does not open once the old key is back |
| FileStore.OverlappingRotationsLoseFiles | src/modules/encryption/encryption.service.ts:253-272 | a concrete run: two failing rotations that overlap leave a key under which a file uploaded before them does not open |
| FileStore.CleanupRemovesOnlyOldFiles | src/modules/queue/processors/file.processor.ts:34-76 | a step that removes a file's blob is a cleanup step, and that file was first soft-deleted 2592000000 ms (30 days) or more before the clock the job read when it began |
| FileStore.RunKeepsInv | src/modules/queue/processors/file.processor.ts:51-68 | the invariant over every run: each live document has its own sealed blob, unfinished uploads share nothing with cleanup jobs |
| StoragePaths.PathsInjective | src/shared/utils/file.util.ts:45-51 | a storage path determines its date, uuid and extension, so files of different uuids never share one |
| StoragePaths.PathLayout | src/shared/utils/file.util.ts:45-51 | the year, the month and the day in two digits padded with 0, then uuid and extension, with slashes between |
| Encryption.UnwrapUndoesWrap | src/modules/encryption/encryption.service.ts:206-246 | for every IV and tag length, slicing a wrapped key apart gives back what was packed; under another master key an authentic cipher gives nothing |
| Encryption.EncryptionService.EncryptKey | src/modules/encryption/encryption.service.ts:206-222 | the wrapped key, laid out as IV, tag and ciphertext, which unwraps to the key |
| Encryption.EncryptionService.DecryptKey | src/modules/encryption/encryption.service.ts:227-246 | every key wrapped under the present master key comes back |
| Encryption.EncryptionService.Encrypt | src/modules/encryption/encryption.service.ts:123-141 | sealing under the given key or the master key, opening back to the data |
| Encryption.EncryptionService.RotateKey | src/modules/encryption/encryption.service.ts:253-272 | a rotation that throws leaves every wrapped key unwrapping as before |
| FilesService.Service.UploadFile | src/modules/files/files.service.ts:47-124 | on success the document with uploader, name, type, department and level as asked (PRIVATE when not), read by exactly the uploader, administrators and whom the level names, and the blob, which opens to what was sent; on failure no document, and a blob only when the insert failed |
| FilesService.Service.DownloadFile | src/modules/files/files.service.ts:129-180 | refused as the access rule says, else what opening gives, changing nothing |
| FilesService.Service.DeleteFile | src/modules/files/files.service.ts:256-282 | exactly for the owner or an administrator; one document marked, no blob touched |
| FilesService.FileProcessor.CleanupExpiredFiles | src/modules/queue/processors/file.processor.ts:34-76 | the find's answer is exactly the files soft-deleted 2592000000 ms or more ago, each counted once as deleted or error; every other document is kept; exactly the deleted documents and the blobs storage saw and removed are gone; no errors if and only if no such file remains |
| FilesService.FileProcessor.CleanAll | src/modules/queue/processors/file.processor.ts:51-68 | the loop: documents, blobs and both counters after it, whatever item fails where |
| FilesService.FileProcessor.VerifyFileIntegrity | src/modules/queue/processors/file.processor.ts:82-113 | `orphaned` counts exactly the files checked whose blob is missing or cannot be seen; a throw ends the job with the counts so far |
| FilesService.NoOrphans | src/modules/queue/processors/file.processor.ts:94-103 | in every reachable state the integrity job counts exactly the files whose blob storage cannot see |
| FilesService.GonePathsExactly | src/modules/queue/processors/file.processor.ts:52-60 | the blobs a cleanup removes are exactly those of the items whose blob was seen and whose delete went through |
| FilesService.UploadIsARun | src/modules/files/files.service.ts:81-100 | the upload method, complete or stopped before its insert, is a run of the interleaved store |
| FilesService.DeleteIsARun | src/modules/files/files.service.ts:261-266 | the delete method after its access check is a run of the interleaved store |
| FilesService.CleanupIsARun | src/modules/queue/processors/file.processor.ts:51-68 | the cleanup loop with any pattern of failures is a run of the interleaved store's cleanup process |
| FileAccess.AccessIsPolicy | src/modules/files/files.service.ts:287-332 | the branches grant reading and deleting exactly as the one-line policy says, and deleting implies reading |
| FileAccess.FoundExactly | src/modules/files/files.service.ts:292-302 | a file is found if and only if it is not deleted and the text is its uuid or, no file having that as uuid, its _id in either case |
| FileAccess.ListingIsSound | src/modules/files/files.service.ts:195-237 | for every sort order, a file is on some page exactly when it is not deleted, is of the type, level and department asked for, its name contains the text typed, and it is the user's own, INTERNAL, PUBLIC or the user an administrator; on one page only, and the user may read it |
| FileAccess.ReadableButNotListed | src/modules/files/files.service.ts:209-216 | a readable file is never listed if and only if it is another's department file and the user a manager |
| FileAccess.SharePagesAreExact | src/modules/shares/services/share.service.ts:324-429 | the count query and the data query, each over its own order, stage by stage through match, lookup, unwind and match when searching, agree: the page is cut from one enumeration of the listed shares, `total` is their number, the pages hold each once, and hasNextPage is right |
| FileAccess.SharesListedExactly | src/modules/shares/services/share.service.ts:306-361 | the shares listed are exactly the side's shares of the status asked (ACTIVE when none is), with a search those whose file exists, is not deleted and has the text in its name |
| FileAccess.PipelineSelects | src/modules/shares/services/share.service.ts:344-361 | the aggregation's stages select, in order, exactly the shares that the one-filter description selects |
| FileAccess.DefaultListingMayLag | src/modules/shares/services/share.service.ts:306-322 | the default listing shows a share past its expiry exactly while one is still stored ACTIVE; after a sweep it shows none |
| Paging.PagesPartition | src/modules/shares/services/share.service.ts:416-428 | pages 1 to totalPages in order are the whole sequence, each element once, for every limit |
| Paging.HasNextExactly | src/modules/users/users.service.ts:112-135 | hasNextPage holds exactly when some later page is non-empty, hasPreviousPage on every page but the first; the total is the length and no page exceeds the limit |
| Paging.OnOnePage | src/modules/devices/devices.service.ts:236-258 | a matching document is on exactly one page, within totalPages, and no other document is on any |
| Search.EscapedIsLiteral | src/modules/files/files.service.ts:218-221 | for every text, the escaped pattern reads as the text's own characters, with no syntax character of section 22.2.1 of ECMA-262 left as an operator |
| Search.RawIsLiteralExactly | src/modules/users/users.service.ts:100-107 | unescaped it would do so if and only if the text has no syntax character |
| Search.UnescapeUndoesEscape | src/modules/devices/devices.service.ts:226-234 | the escaped text unescapes to the original |
| Search.SearchIsLiteral | src/modules/shares/services/share.service.ts:340-361 | a search finds exactly the fields that contain the text typed, ignoring case |
| Serials.NormalizeAfterFormat | src/shared/utils/certificate.util.ts:181-193 | for a one-line string without colons, normalising the formatted serial gives the lower-case serial if and only if its length is even or 1; two characters or more print in colon form |
| Serials.FormatAfterNormalize | src/shared/utils/certificate.util.ts:181-193 | formatting a normalised one-line string gives it back in lower case if and only if it is a canonical colon form, a single character other than a colon, or empty |
| Serials.NormalizeIdempotent | src/shared/utils/certificate.util.ts:191-193 | normalising twice is normalising once, for every string |
| Serials.FormatIdempotent | src/shared/utils/certificate.util.ts:181-188 | a serial with colons is printed as it is, and printing twice is printing once |
| Serials.PairsByLine | src/shared/utils/certificate.util.ts:183-187 | the pairs that are printed of a text of several lines are those of each line |

## Left out

- SetupService.Service.RenewCertificate: one renewal at a time; what concurrent renewals do is `RenewalProtocol`, where the device's `certificateSerial` field is kept bound to a certificate of the device but not shown to be the newest, since binds may land in either order.
- SetupService.Service.VerifyCertificate: the cascade reads one state; read by read it is part of `RenewalProtocol`, where the two clock reads of the validity check are one and the last two checks (device trust and stored fingerprint) share a step, the second reading nothing new.
- AuthService.Service.Login: the lockout counter is proved for one login at a time; logins that overlap between reading and writing the counter can lose failures.
- AuthService.Service.CertificateLogin: its verification reads one state; `RenewalRuns.InterleavedValid` says what one whose reads are interleaved guarantees, a login's reads being those of a renewal up to its last check.
- AuthService.Service.RefreshTokens: one request at a time; the concurrent rotation is `RefreshTokens`.
- ShareService.Service.RevokeShare: share ids in paths, and the ids of authenticated users, are taken in their printed spelling; texts are cast where a file or a recipient is looked up.
- Sessions.SessionsService.CreateSession: its two writes are taken together; `InsertKeepsExactly` says when a write in between breaks the table.
- FilesService.Service.DeleteFile: one delete at a time; its find and its save are separate steps in `FileStore`.
- FileAccess.ListingIsSound: a page and its total are read from one state, and documents with equal sort keys keep one order; the code issues two queries and sorts by creation time only. The same holds of `SharePagesAreExact`.
- Blacklist.KeyFoundExactly: the bearer extractor is passport-jwt 4's, which is not part of this model's sources; its pattern is two words separated by blanks.
- Search.SearchIsLiteral: case folding is the ASCII part.
- Serials.FormatAfterNormalize: lower-casing is the ASCII part.
- FilesService.NoOrphans: the integrity job reads documents and blobs from one state.
- Removal of documents by time-to-live indexes: counts are over everything stored.
- Audit records, log lines, `lastSeen`, `lastActivity`, IP and user-agent fields: they affect no outcome.
- Vault PKI: signing is a step that may fail and whose serial and bytes are parameters; the chain check only logs.
- DeviceFutures.NoneToComeExactly: what a certificate says is taken to be a function of the hash of its bytes, and the CA's answer to give the number and expiry of the certificate it returns.
- X.509 parsing, PEM to DER conversion, CSR checks, bcrypt, JWT signing and decoding: parameters.
- Hex columns hold bytes here, and AES-GCM is any cipher with the laws of NIST SP 800-38D that are stated.
- The stand-alone certificate endpoint: it passes `system` as the user id, which is no ObjectId, so it throws before it stores anything.
- Parsing of token lifetimes, temporary-password generation, file name sanitising, extensions and size formatting: no state and easy statements.
- Profile updates, role changes, user creation and seeding: field assignments.
- Master-key initialisation and process restarts.
