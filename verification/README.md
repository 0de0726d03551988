# Verified model of the VPN panel's services

A Dafny model of the parts of the panel whose state or arithmetic is hard to get right, with proofs
about every input, every run or every interleaving. `dafny verify dfyconfig.toml` checks all of it.

One module per component:

- `ShellQuoting`: the quoting of API and SSH command lines, against a lexer for the quoting rules of
  POSIX.1-2017 XCU sections 2.2.1 to 2.2.3. The lexer refuses whatever is not plain words.
- `TrojanBox`, `Reconciler`: the trojan-go box as a map from user hash to limits, and the run that
  reconciles it with a desired set. An obedient box does as told but may lose the ip limit of a new
  user; the other kind may answer anything. A box logs every command with its reply and every listing,
  and what a run reports is held against that log.
- `UserFleet`: pushing panel rows, rotating a password, importing live users, the ip-limit sentinel.
- `NonceProtocol`: signed requests and the purging of nonces, interleaved at every await.
- `MobileSessions`: challenges, exchanges and refreshes over the nonce, device and session tables, each
  handler one step. With the handlers interleaved at their awaits: `CredentialUse`, how often one
  credential is honoured, and `SessionSecrets`, whose secret a device ends with.
- `RateLimiter`: fixed windows with pruning, over whole runs.
- `WorkerPool`, `LoadSmoothing`, `Recommendation`: the load pipeline.
- `Bits`, `Ipv4`, `Ipv6`: prefix matching by masks and byte loops, against division of 32-bit and
  128-bit numbers (RFC 4632 section 3.1), and IPv6 text forms (RFC 4291 section 2.2).
- `Monitoring`, `ConfigSamples`: incidents, de-duplicated mails, the rolling window of test samples, each
  check one step. Interleaved at the awaits: `IncidentOpening` and `MailSlots`.
- `TenantCache`, `BanCache`: two TTL caches with single flight, interleaved with table writes.
- `DisplayNames`, `Text`, `Runs`, `Wrappers`: the unique-name search and what the modules share.

Code that updates state in place is modelled by classes and methods over arrays, maps and fields.
Where several parties interleave, a value-level step function carries the theorems and each method is
proved to compute it, or the piece of it that the source runs without an await.

## Assumptions

- SHA-224 and SHA-256 are constructors: equal digests come from equal values and none is empty. Random
  tokens were never issued before.
- The clock never goes backwards, and for the ban cache it is past the first 30 s of the epoch.
- A single database operation is atomic; the nonce column and (server, name) are unique.
- Smoothing is exact on integers, since a fifth never lands on a half.

## Where the code differs from what is said about it

- `src/services/connectionLogService.js:104-105` says an expired nonce no longer protects anything. A
  nonce lives for the clock skew from its insert, but a timestamp may be ahead of the clock by as
  much again, and a purge may also run between a request's timestamp check and its insert.
  `NonceProtocol.ReplayExactly` says exactly when a repetition gets through.
- `src/services/loadMetricsService.js:109` says the pool never rejects. It does exactly when a call
  throws null or undefined (`WorkerPool.DoneMeansComplete`).
- `src/services/npanelUserService.js:92-95` says the sentinel is never stored on a row. An import of a
  user that the panel limited earlier stores the number it was given unless that is the setting at the
  import (`UserFleet.ImportForgetsSentinel`, `UserFleet.ImportForgetsArming`), so after an edit of the
  setting (`UserFleet.EditedSentinelIsStored`), and without one for a pushed user exactly if the setting
  is below 1 (`UserFleet.UneditedSentinel`).
- `src/services/npanelUserService.js:240-245` and `286-290` say an imported user is never written, only
  armed. Its live user is deleted exactly by a new password on the row while tracking is on and the row
  stays enabled (`UserFleet.UpdateUser`, with an instance in `UserFleet.ImportedUserIsDeleted`).
- `src/services/tenantService.js:31-32` says an invalidation takes effect at once. It does unless a
  query is on its way back with something the table no longer says (`TenantCache.InvalidationTakesEffect`);
  `TenantCache.LateQueryHappens` is a run in which the old value is served for a whole TTL. The guard of
  the ban cache behaves alike (`BanCache.InvalidationTakesEffect`, `BanCache.LateLoadHappens`).
- `src/services/banService.js:33` asks for ensureFresh before every lookup. The check of the user id
  (`src/services/mobileSecurityService.js:292`) has none: `BanCache.PeekBoundExactly` says with
  exactly which timing it keeps the guard's bound whatever the table holds, `BanCache.PeekIsUnbounded` is
  a run where no bound holds, and `BanCache.InvalidationAndPeeks` says exactly when an invalidation
  reaches it.
- `src/services/mobileSecurityService.js:151` calls a challenge single-use. It is for handlers that run
  one after another (`MobileSessions.CredentialsAreSingleUse`); interleaved, another session can come
  of a used one exactly while a call that had found it usable is under way (`CredentialUse.UsedUp`).
- `src/services/trojanApiService.js:40` means 0 by unlimited; a positive speed below 1/2048 KiB/s is
  unlimited too (`Reconciler.KibToBytes`).
- `README.md:141` speaks of 300 requests a minute per address; the code's default is 3000. The limits
  are parameters here. The true bound for any closed minute is one less than twice the limit, and reached
  (`RateLimiter.BoundIsTight`, `RateLimiter.IpBoundIsTight`).
- A client told to retry after a whole number of seconds comes back in the last instant of the window
  and is rejected again (`RateLimiter.WaitingSuffices`, `RateLimiter.RejectedAgain`), against
  `src/services/mobileSecurityService.js:407`.

- `src/services/mobileSecurityService.js:396-397` gives each client a bucket of its own. Two clients share
  one exactly if their keys, joined with colons, are the same string, which happens for IPv6 addresses
  and for an address given as the word ip (`RateLimiter.SharedKeys`, `RateLimiter.SharedKeysHappen`).

## Model

| member | source | states |
|---|---|---|
| ShellQuoting.LexShq | src/services/trojanApiService.js:34-36 | A quoted value is read back as one word, the value itself, in front of any rest; a NUL makes the line no words at all |
| ShellQuoting.LineLexes | src/services/trojanApiService.js:123-126 | Any line of quoted and plain arguments lexes to exactly its argument vector if and only if no argument holds a NUL |
| ShellQuoting.LimitsLex | src/services/trojanApiService.js:137-150 | The limit arguments are six words: three flags, each with the decimal of its number |
| ShellQuoting.ApiCommandLexes | src/services/trojanApiService.js:123-126 | Any well-formed argument list behind the quoted binary and address lexes to binary, -api-addr, address and the list |
| ShellQuoting.ListCommandLexes | src/services/trojanApiService.js:128-129 | The list command has exactly the intended argv |
| ShellQuoting.AddCommandLexes | src/services/trojanApiService.js:157-160 | For every binary, address and password without NUL, the add command has exactly the intended argv |
| ShellQuoting.ModifyCommandLexes | src/services/trojanApiService.js:152-165 | The same for modify, by hash, with either form of limits |
| ShellQuoting.DeleteCommandLexes | src/services/trojanApiService.js:167-170 | The same for delete |
| ShellQuoting.LexEscapeDouble | src/services/sshService.js:31 | Inside double quotes the escaped command adds exactly itself to the word being read |
| ShellQuoting.WrappedCommandLexes | src/services/sshService.js:31 | The remote shell sees /bin/bash, -lc and one word, the strict-mode prefix followed by the exact command, if and only if the command is free of NUL |
| TrojanBox.Box.List | src/services/trojanApiService.js:128-135 | An obedient box lists every user once with its limits; any other may list anything or fail. The listing is logged |
| TrojanBox.Box.Delete | src/services/trojanApiService.js:167-170 | On an obedient box the user is gone and nothing else changes; command and reply are logged |
| TrojanBox.Box.Modify | src/services/trojanApiService.js:162-165 | On an obedient box all three limits of a present user are set; an absent one is not created. Command and reply are logged |
| TrojanBox.Box.Add | src/services/trojanApiService.js:297-299 | On an obedient box the user is there with its limits, or with its ip limit lost; command and reply are logged |
| Reconciler.KibToBytes | src/services/trojanApiService.js:38-41 | The closest whole number of bytes; unlimited exactly for speeds below 1/2048 KiB/s, positive ones among them |
| Reconciler.KibToBytesWhole | src/services/trojanApiService.js:38-41 | Whole speeds are exactly 1024 times as many bytes |
| Reconciler.DesiredForAt | src/services/trojanApiService.js:226 | With distinct hashes the index by hash finds each row itself |
| Reconciler.DesiredForSound | src/services/trojanApiService.js:226 | The index knows a hash exactly if some row has it, and answers with such a row |
| Reconciler.DesiredForRow | src/services/trojanApiService.js:226 | The row the index answers with is the last one of its hash |
| Reconciler.ByHashSound | src/services/trojanApiService.js:204 | The index of a listing holds exactly the listed hashes, each with an entry of its own |
| Reconciler.ByHashOfTruth | src/services/trojanApiService.js:203-204 | The index of a truthful listing is the box |
| Reconciler.ReconciledUnique | src/services/trojanApiService.js:172-179 | The reconciled state is determined by the starting state, the rows and the options |
| Reconciler.ReconcileIdempotent | src/services/trojanApiService.js:172-179 | Reconciling a second time with the same inputs changes nothing |
| Reconciler.ReconciledDesired | src/services/trojanApiService.js:137-142 | Every enabled desired hash ends with its upload speed, its download speed and its ip limit, each from its own column; every disabled one is absent |
| Reconciler.ReconciledFrame | src/services/trojanApiService.js:197-224 | Without removeUnmanaged: of the other users exactly the orphans are gone, armed users without ip limit change only that limit, all others are untouched and none appears |
| Reconciler.ReconciledOwned | src/services/trojanApiService.js:270-276 | With removeUnmanaged exactly the enabled desired users are left |
| Reconciler.DeleteOrphans | src/services/trojanApiService.js:199-201 | Sends exactly one delete for each non-empty hash, in order; on an obedient box those are gone and the rest stays |
| Reconciler.ArmOneMore | src/services/trojanApiService.js:215-223 | One more listed user keeps the state exactly armed so far |
| Reconciler.ArmOne | src/services/trojanApiService.js:216-222 | One listed user: a modify exactly if it is to be armed and has no ip limit, with its live speeds |
| Reconciler.ArmImported | src/services/trojanApiService.js:207-224 | Sends exactly one modify for each listed user to arm; on an obedient box exactly those get the sentinel and keep their speeds |
| Reconciler.PushUser | src/services/trojanApiService.js:228-258 | One row: sends exactly the command it needs; its action is the one the row asks for only after the box answered that command with exit 0, every other reply is an error with a reason; on an obedient box its entry is final up to a lost ip limit and no other entry changes |
| Reconciler.PushOneMore | src/services/trojanApiService.js:228-268 | A row's command extends what holds of the rows before it |
| Reconciler.PushRow | src/services/trojanApiService.js:228-268 | A row on top of those before it, on either kind of box |
| Reconciler.PushUsers | src/services/trojanApiService.js:226-268 | One entry per row, in order, with its id, name and hash, reported as the logged reply demands; the log holds exactly the rows' commands; on an obedient box the whole state after pushing |
| Reconciler.RemoveUnmanaged | src/services/trojanApiService.js:270-276 | Sends exactly one delete for each listed user without a row; on an obedient box exactly those are gone |
| Reconciler.JudgeAll | src/services/trojanApiService.js:285-306 | Every entry is judged against the re-read, and those collected for repair are exactly the ones with a wrong ip limit |
| Reconciler.JudgedSound | src/services/trojanApiService.js:286-294 | The verdict follows from whether the user is listed, and a changed verdict has a message |
| Reconciler.VerifiedTruth | src/services/trojanApiService.js:286-305 | Against a truthful re-read a right verdict stands, the stats are the box's, and an entry without repair already has its limits |
| Reconciler.SendRepairs | src/services/trojanApiService.js:308-310 | Sends exactly one modify for each repair; on an obedient box those users get all their limits |
| Reconciler.RecheckRepairs | src/services/trojanApiService.js:311-320 | Repaired entries take the second listing's stats and a note if the limit still differs; no verdict changes |
| Reconciler.RecheckNotes | src/services/trojanApiService.js:313-320 | A repaired entry gets a note exactly if it has none and the second listing lacks the user or shows another limit than its column's; its stats are that listing's |
| Reconciler.RepairIpLimits | src/services/trojanApiService.js:307-321 | The repairs and the logged listing after them, which decides stats and notes but no verdict, on either kind of box |
| Reconciler.RepairsAreSent | src/services/trojanApiService.js:302-310 | The logged repairs are exactly those of the entries whose ip limit the re-read shows wrong |
| Reconciler.RepairsSettle | src/services/trojanApiService.js:297-310 | After the repairs every desired user is exact and everybody else as before |
| Reconciler.VerdictsHold | src/services/trojanApiService.js:278-322 | With truthful listings each verdict is the expected one and each enabled entry reports the final limits |
| Reconciler.RepairsKeepVerdicts | src/services/trojanApiService.js:286-320 | After the repairs the verdicts still are those of the re-read |
| Reconciler.JudgeAndRepair | src/services/trojanApiService.js:284-321 | Verdicts, repairs and log after a re-read, on either kind of box |
| Reconciler.VerifyAndRepair | src/services/trojanApiService.js:278-322 | On any box the verdicts follow the listing that the log shows right behind the commands, or stay if it failed; on an obedient one the state is settled |
| Reconciler.PhasesReconcile | src/services/trojanApiService.js:199-322 | Deleting, arming, pushing, removing and repairing compose to the reconciled state |
| Reconciler.PushAndRemove | src/services/trojanApiService.js:226-276 | Row commands and removals are all that goes over the connection between the two listings; on an obedient box exactly the listed users without a row are removed after pushing |
| Reconciler.RowsStay | src/services/trojanApiService.js:270-276 | The removals spare the desired rows |
| Reconciler.StillReported | src/services/trojanApiService.js:286-294 | Judging takes success away but never gives it: an entry that is no error still reports what its row asks for, and no verdict contradicts the listing |
| Reconciler.Reconcile | src/services/trojanApiService.js:203-325 | The run after its first listing: its log is arming, row commands, removals, re-read and repairs, each exactly the commands it is for |
| Reconciler.SyncServerUsers | src/services/trojanApiService.js:180-333 | On any box: the log of a finished run is exactly its commands with the box's replies, it reports one entry per row in order, each the action its row asks for or an error, no success but after a logged exit 0, and against the logged re-read no user claimed but missing and none deleted but present. On an obedient box with distinct hashes: exactly the reconciled state, each row's own limits column by column on the box and in its stats, and the action that fits |
| Reconciler.RowEnds | src/services/trojanApiService.js:226-268 | On an obedient box each row ends with its limits, field by field, its stats are the box's, and its action is updated or deleted if its user was there and no orphan, else created or absent |
| Reconciler.RowSays | src/services/trojanApiService.js:240-258 | On any box an entry without error names what its row asks for, given the first listing |
| Reconciler.TouchesOwnUsersOnly | src/services/trojanApiService.js:172-179 | Without removeUnmanaged, whatever the box answers, no command of a run is about a user that is not desired, to delete or to arm |
| UserFleet.StoredIpLimit | src/services/npanelUserService.js:328-329 | The sentinel set at the import, if positive, is never stored, and what is stored is the live limit or none |
| UserFleet.ImportForgetsSentinel | src/services/npanelUserService.js:92-100 | Importing a user pushed without a limit stores no limit if and only if the number the push used is the setting at the import; otherwise that number is stored |
| UserFleet.ImportForgetsArming | src/services/npanelUserService.js:267-270 | The same of a user that was only armed, which takes the setting as it is |
| UserFleet.UneditedSentinel | src/services/npanelUserService.js:96-100 | With one setting throughout, a pushed user's sentinel is forgotten if and only if the setting is at least 1 |
| UserFleet.EditedSentinelIsStored | src/services/npanelUserService.js:328-329 | After an edit from 50000 to 60000 an import stores 50000, whether the user was pushed or armed |
| UserFleet.ImportKeepsAdminLimit | src/services/npanelUserService.js:96-100 | An admin's limit survives push and import if and only if it is not the sentinel set at the import, whatever was set at the push |
| UserFleet.DesiredRowsSound | src/services/npanelUserService.js:248-265 | The desired set is exactly the managed rows with a password, with their effective limits, distinct where the passwords are |
| UserFleet.IdleRows | src/services/npanelUserService.js:248-252 | A push has nothing to do exactly if no row is managed with a password and none is imported, enabled and known while tracking is on |
| UserFleet.ArmHashesSound | src/services/npanelUserService.js:249-251 | The armed hashes are exactly those of the imported, enabled rows known by one while tracking is on |
| UserFleet.PushReaches | src/services/npanelUserService.js:246-284 | A reconciled box in the rows' own columns: speeds, the ip limit if positive, else the sentinel with tracking on and 0 with tracking off; users of no row keep their limits, up to the sentinel for imported ones without, and only the hashes to delete go |
| UserFleet.FoldResults | src/services/npanelUserService.js:271-282 | Each row takes the entry of its own hash and nothing else |
| UserFleet.FoldedFromRun | src/services/npanelUserService.js:155-172 | After a finished run every pushed row finds an entry of its hash: it gets that hash, and is synced exactly if that entry is no error |
| UserFleet.FoldedRows | src/services/npanelUserService.js:271-282 | Intent columns, the ip limit among them, and imported rows stay; a failed run marks every pushed row |
| UserFleet.NoErrorIsEarned | src/services/trojanApiService.js:234-258 | On any box an entry without error was answered with exit 0 and listed so afterwards, or its disabled user was not there |
| UserFleet.SyncedIsEarned | src/services/npanelUserService.js:271-282 | On any box a pushed row ends as synced only on such an entry of its own hash |
| UserFleet.PushUsersToServer | src/services/npanelUserService.js:246-284 | No push writes an intent column; an idle one sends nothing; on any box a pushed row is synced only if the log shows its command answered with exit 0 and the re-read agreeing, or its disabled user not there; on an obedient box with distinct passwords every user ends with the limits of its row's columns, every pushed row is synced, and users of no row are as before up to deletion and arming |
| UserFleet.UpdateUser | src/services/npanelUserService.js:405-441 | The password is the typed one if it is new, else the generated one if any, else the old; the other columns are those of the edit or of the row. On an obedient box the password's user has exactly the row's limits, or is absent if disabled; a password change removes the old user and nobody else changes; the live user of an imported row is deleted if and only if it gets a new password while tracking is on and the row stays enabled |
| UserFleet.ImportedUserIsDeleted | src/services/npanelUserService.js:405-441 | An imported row whose live user is there before a password edit and gone after it |
| UserFleet.RowIndexSound | src/services/npanelUserService.js:295-299 | The index by hash knows exactly the tracked hashes, each with its last row |
| UserFleet.NamesInUse | src/services/npanelUserService.js:319-321 | An untracked user is blocked exactly if its row name is in use after the users before it |
| UserFleet.ImportOne | src/services/npanelUserService.js:303-341 | One listed user is refreshed or imported, or in the way exactly if it is blocked |
| UserFleet.ImportedRow | src/services/npanelUserService.js:319-339 | An import is enabled and not managed, known by its hash, with each limit from its own side, the sentinel and no limit stored as 0 |
| UserFleet.RefreshedMore | src/services/npanelUserService.js:304-316 | One listed user refreshes the last row of its hash and leaves the others |
| UserFleet.ImportLiveUsers | src/services/npanelUserService.js:291-344 | Tracked rows keep their intent and show the counters of the last listing entry of their hash; the new rows are exactly the imports of the untracked users reached, each once, never with the sentinel set at the import if that is positive. The import goes through if and only if every user has a hash and no untracked one has a hash listed before or a row name in use; otherwise it stops at the first that does |
| NonceProtocol.StepKeepsGuards | src/services/mobileSecurityService.js:342-361 | Each accepted request's nonce row stands until the clock has passed its expiry and a purge has run |
| NonceProtocol.StepKeepsOrder | src/services/mobileSecurityService.js:342-361 | Accepted requests of one nonce are apart by an expiry and a purge |
| NonceProtocol.StepKeepsRepeats | src/services/mobileSecurityService.js:279-318 | A repetition under way meets the row or has been overtaken by a purge |
| NonceProtocol.OneWinPerRow | src/services/mobileSecurityService.js:313-361 | In every interleaving two accepted requests of one nonce are separated by a purge later than the expiry the first one wrote, 120000 ms after its stamp: the unique insert decides |
| NonceProtocol.NoReplay | src/services/connectionLogService.js:104-108 | A request whose timestamp was not ahead of its expiry stamp is accepted again only if a purge overtakes the repetition |
| NonceProtocol.WinsAreInWindow | src/services/mobileSecurityService.js:279-283 | Every accepted request was checked at most 120000 ms before and at most 120000 ms after its timestamp |
| NonceProtocol.ArrivesExactly | src/services/mobileSecurityService.js:273-283 | The check lets a non-zero timestamp through exactly if it is at most 120000 ms behind the clock and at most 120000 ms ahead |
| NonceProtocol.LooksExactly | src/services/mobileSecurityService.js:313-318 | The replay query turns a request away exactly if a signed request has left its nonce |
| NonceProtocol.WinsAreClose | src/services/mobileSecurityService.js:279-283 | Two accepted requests with one timestamp were checked at most 240000 ms apart |
| NonceProtocol.RepetitionWins | src/services/connectionLogService.js:104-108 | The runs in which a repetition is accepted, with and without being overtaken |
| NonceProtocol.ReplayExactly | src/services/mobileSecurityService.js:279-361 | A repetition no purge overtakes can be accepted if and only if its timestamp was ahead of the clock at its stamp; an overtaken one always can |
| MobileSessions.FindSessionSound | src/services/mobileSecurityService.js:245-252 | The session found is the newest unrevoked one of this device and token; none is found only if all such are revoked |
| MobileSessions.StepKeepsMirrors | src/services/mobileSecurityService.js:204-226 | Every step keeps the device columns equal to what the history says |
| MobileSessions.StepKeepsBalance | src/services/mobileSecurityService.js:260-261 | Every step keeps unrevoked sessions and exchanges in balance |
| MobileSessions.StepKeepsSpent | src/services/mobileSecurityService.js:186 | Every step keeps a used challenge or refresh token used |
| MobileSessions.StepKeepsEntitled | src/services/mobileSecurityService.js:139-262 | Every step keeps every session earned |
| MobileSessions.EverySessionIsEarned | src/services/mobileSecurityService.js:139-262 | Over every run: a full session had a genuine verdict, a degraded one a system failure in strict mode with failing open allowed; every challenge was handed out to that device at most 300000 ms before; every refreshed token came from an earlier session of that device within its lifetime; each session row has its device, digests and lifetimes |
| MobileSessions.ChallengesStand | src/services/mobileSecurityService.js:97-105 | For 300000 ms a challenge stands, and is marked used exactly if it was exchanged |
| MobileSessions.AttestationColumns | src/services/mobileSecurityService.js:213-225 | Over every run attested_at is the time of the last full attestation and attest_degraded_at is set exactly when the latest exchange past the throttle was degraded, to its time |
| MobileSessions.ThrottleFollowsAttestation | src/services/mobileSecurityService.js:148-163 | Every session of the throttle path follows a full attestation of that device within the reverify window |
| MobileSessions.CredentialsAreSingleUse | src/services/mobileSecurityService.js:139-262 | Every challenge and every refresh token yields at most one session |
| MobileSessions.SessionsBalance | src/services/mobileSecurityService.js:65-88 | A device has as many unrevoked sessions as successful exchanges, and its secret hash is that of its newest session |
| MobileSessions.AuthTables.CreateChallenge | src/services/mobileSecurityService.js:97-105 | Writes one unused nonce row for the device |
| MobileSessions.AuthTables.CreateSession | src/services/mobileSecurityService.js:65-88 | Adds a session and moves the device to its secret |
| MobileSessions.AuthTables.StampDevice | src/services/mobileSecurityService.js:188-226 | Creates the device if needed; a full attestation sets its time and clears the degraded mark, a degraded one only sets the mark |
| MobileSessions.AuthTables.GrantFully | src/services/mobileSecurityService.js:186-228 | The challenge is marked, the device stamped and a session minted, as the exchange step does past the throttle |
| MobileSessions.AuthTables.ExchangeToken | src/services/mobileSecurityService.js:139-229 | Granted if and only if the challenge is this device's, unused and not expired, and the device attested fully within the reverify window, or the verdict is genuine, or it is a system failure in strict mode with failing open allowed. Then the challenge is used, the device active with the new secret and one session added; otherwise nothing changes |
| MobileSessions.AuthTables.RefreshToken | src/services/mobileSecurityService.js:231-262 | Granted if and only if the device is active and its newest unrevoked session with the token has not passed its refresh lifetime. Then that one is revoked and one session added; otherwise nothing changes |
| CredentialUse.StepKeepsInv | src/services/mobileSecurityService.js:139-186 | Every stretch of every call keeps each look at a credential before each marking by another call that looked |
| CredentialUse.SecondUseOverlaps | src/services/mobileSecurityService.js:139-262 | In every interleaving two calls that both got a session for one challenge or refresh token overlapped: each looked before the other marked |
| CredentialUse.UsedUp | src/services/mobileSecurityService.js:139-262 | Another session can come of a used credential if and only if a call that had found it usable is still under way |
| CredentialUse.OverlapHappens | src/services/mobileSecurityService.js:139-186 | Two calls that look before either marks both get a session |
| SessionSecrets.ApartIsNewest | src/services/mobileSecurityService.js:65-88 | Calls that do not overlap leave the device with the secret of its newest session |
| SessionSecrets.NewestExactly | src/services/mobileSecurityService.js:65-88 | The calls under way when a session is inserted, and its own, can end with another session's secret if and only if there was one under way |
| SessionSecrets.OlderSecretHappens | src/services/mobileSecurityService.js:65-88 | Two overlapping calls leave the secret of the older session |
| RateLimiter.PruningIsInvisible | src/services/mobileSecurityService.js:416-428 | Pruning at any moments never changes whether a request is let through |
| RateLimiter.AdmissionBound | src/services/mobileSecurityService.js:382-414 | In any run no closed minute lets through more than one less than twice the limit, per device of an address and per address over all devices |
| RateLimiter.BoundIsTight | src/services/mobileSecurityService.js:382-414 | A run that reaches the bound of one device, for every limit up to that of the address and every client whose two keys differ |
| RateLimiter.IpBoundIsTight | src/services/mobileSecurityService.js:382-414 | A run that reaches the bound of an address over all device ids, for all limits of at least 1 |
| RateLimiter.RetryAfter | src/services/mobileSecurityService.js:407-409 | The least whole number of seconds, at least one, that reaches the end of the window |
| RateLimiter.WaitingSuffices | src/services/mobileSecurityService.js:384-409 | A rejected client that comes back exactly as told is let through if and only if the rest of its window was not a positive whole number of seconds, that bucket's limit is not 0, and the other bucket, as the rejection left it, is below its limit or over by then; it opens a new window or is rejected again |
| RateLimiter.WaitPassesEnd | src/services/mobileSecurityService.js:384-409 | Waiting as told never falls short of the window's end, and passes it except for a positive whole number of seconds |
| RateLimiter.RejectedAgain | src/services/mobileSecurityService.js:393-414 | A run, for every limit, in which a client comes back as told and is rejected again |
| RateLimiter.SharedKeys | src/services/mobileSecurityService.js:398-402 | The exact condition for two bucket keys to be the same string |
| RateLimiter.PlainAddressesApart | src/services/mobileSecurityService.js:398-402 | Clients at addresses without a colon share a device bucket only if they are the same, and none with an address |
| RateLimiter.SharedKeysHappen | src/services/mobileSecurityService.js:398-402 | Two IPv6 clients with one bucket, and a device bucket that is the bucket of an address |
| RateLimiter.IndependentExactly | src/services/mobileSecurityService.js:382-414 | Requests of one client never change a decision on another if and only if none of their keys is the same string |
| RateLimiter.Limiter.BumpBucket | src/services/mobileSecurityService.js:382-391 | Counts in the live window, or opens one of 60000 ms with 1 |
| RateLimiter.Limiter.Handle | src/services/mobileSecurityService.js:393-414 | Both buckets count once whatever the outcome and no other is touched; the request passes exactly if neither is over, otherwise the delay is that of the device bucket first |
| RateLimiter.Limiter.PruneRateLimitBuckets | src/services/mobileSecurityService.js:418-428 | Leaves exactly the buckets not past their end, as they were, and counts the others |
| WorkerPool.StepKeepsInv | src/services/loadMetricsService.js:113-123 | Any stretch of any worker keeps every claimed index settled or held by exactly one worker |
| WorkerPool.ClaimsAreExact | src/services/loadMetricsService.js:110-126 | In every interleaving each index is claimed once and in order; the pool has limit workers, but one at least and no more than items beyond that, and never more calls open |
| WorkerPool.DoneMeansComplete | src/services/loadMetricsService.js:109-126 | At the end the pool has rejected if and only if some call threw null or undefined; otherwise every index holds its result or error record |
| WorkerPool.Termination | src/services/loadMetricsService.js:113-125 | Every interleaving takes at most n plus the number of workers stretches, exactly so many unless it rejects |
| WorkerPool.Resume | src/services/loadMetricsService.js:114-122 | One stretch of a worker on the shared array and counter is the step the theorems speak of |
| WorkerPool.MapLimit | src/services/loadMetricsService.js:110-126 | With resumptions in any order each index ends with the value of its call or a record of its error message, or the pool rejects for a null throw |
| Recommendation.ChallengerLeast | src/services/loadMetricsService.js:87-91 | The challenger is the first eligible entry by load, sort order and id |
| Recommendation.WinnerMeans | src/services/loadMetricsService.js:86-99 | A group of two or more with an eligible entry has a winner: eligible, less than 8 points above the least load, and first by load, sort order and id if it takes the star from another |
| Recommendation.IncumbentKeeps | src/services/loadMetricsService.js:91-98 | The one incumbent, if eligible, keeps the star if and only if no eligible entry is 8 points below it |
| Recommendation.OrderIndependent | src/services/loadMetricsService.js:86-99 | With at most one incumbent the winner does not depend on row order |
| Recommendation.PickIdempotent | src/services/loadMetricsService.js:86-99 | Picking again after the stars are written picks the same winner |
| Recommendation.MoveLowersLoad | src/services/loadMetricsService.js:91-98 | With non-rising loads each move of the star lowers the winner's load by 8 points |
| Recommendation.AtMostTwelveMoves | src/services/loadMetricsService.js:79-99 | With fixed eligibility and non-rising loads in 0..100 the star moves at most 12 times |
| Recommendation.TwelveMovesHappen | src/services/loadMetricsService.js:79-99 | A run with 12 moves |
| Recommendation.PassMeans | src/services/loadMetricsService.js:265-298 | After a pass no country and type has two stars; every star is on an active, fresh, healthy, scored row with a peer, less than 8 points above any peer that could hold it and, if new, first of them by load, sort order and id; a group that can have a star has one; nothing but stars is written |
| Recommendation.PeersAreTwo | src/services/loadMetricsService.js:270-283 | Rows share a group exactly if both are active with the same country and type |
| Recommendation.StarStays | src/services/loadMetricsService.js:91-98 | The one star of a group stays, if its row can still hold it and has a peer, if and only if no peer that can hold it is 8 points below |
| Recommendation.PassIdempotent | src/services/loadMetricsService.js:265-298 | A second pass on unchanged readings changes nothing |
| Recommendation.CollectGroups | src/services/loadMetricsService.js:270-283 | The groups are exactly the active rows by country and type, in table order |
| Recommendation.StarGroup | src/services/loadMetricsService.js:286-291 | In one group exactly the winner carries the star; no other row is touched |
| Recommendation.ClearInactive | src/services/loadMetricsService.js:293-297 | Inactive rows lose their star, active ones keep what they have |
| Recommendation.UpdateRecommendations | src/services/loadMetricsService.js:265-298 | The loops over groups and rows compute the pass the lemmas speak of |
| Ipv4.Ipv4ToInt | src/services/clientIpService.js:47-57 | A number below 2^32, big-endian over the octets, exactly for four integers of 0..255 |
| Ipv4.FourDigits | src/services/clientIpService.js:50-56 | The four octets weigh 2^24, 2^16, 2^8 and 1 |
| Ipv4.Ipv4InCidr | src/services/clientIpService.js:59-68 | For a prefix length of 0..32: both addresses agree after division by 2^(32-bits); malformed addresses never match |
| Ipv4.MaskIs | src/services/clientIpService.js:66 | The shifted mask is 2^32 - 2^(32-bits) |
| Ipv4.MaskedAgree | src/services/clientIpService.js:66-67 | Masked comparison is comparison after division |
| Ipv4.PrefixIsInterval | src/services/clientIpService.js:59-68 | A prefix is an interval of 2^(32-bits) addresses that starts at a multiple of its size |
| Bits.AndPrefix | src/services/clientIpService.js:67 | Masking with leading ones rounds down to a multiple |
| Ipv6.NumberPrefix | src/services/clientIpService.js:105-110 | Dividing a 128-bit number by whole bytes leaves the number of its leading bytes |
| Ipv6.AgreeIsQuotient | src/services/clientIpService.js:104-110 | Agreement on whole bytes and leading bits of the next is agreement after division by 2^(128-bits) |
| Ipv6.PrefixLoop | src/services/clientIpService.js:104-111 | The byte loop holds iff the numbers of the bytes agree after division |
| Ipv6.Ipv6InCidr | src/services/clientIpService.js:98-112 | Two address texts match iff their 128-bit numbers agree after division by 2^(128-bits); lengths over 128 compare whole addresses, negative ones match all, unreadable texts never match |
| Ipv6.FillBytes | src/services/clientIpService.js:89-94 | The loop writes high and low byte of each group in order |
| Ipv6.Ipv6ToBytes | src/services/clientIpService.js:71-96 | Sixteen bytes of the expanded groups, or nothing for an invalid or overlong address |
| Ipv6.FullForm | src/services/clientIpService.js:73-88 | A full address of eight groups expands to its groups |
| Ipv6.CompressedForm | src/services/clientIpService.js:75-88 | A compressed address expands to its groups with zeros at the double colon |
| Ipv6.BytesHoldGroups | src/services/clientIpService.js:90-94 | The two bytes of a group hold exactly its hexadecimal value |
| Ipv6.HexValueReads | src/services/clientIpService.js:91 | A group is read digit by digit, most significant first, in either case |
| Ipv6.NumberOfGroups | src/services/clientIpService.js:89-94 | The number of the bytes is the base-65536 number of the groups |
| Ipv6.LegalGroups | src/services/clientIpService.js:91-93 | Of legal groups nothing is cut off |
| Ipv6.TextIsNumber | src/services/clientIpService.js:70-96 | A legal address stands for the number its groups spell, in full and with any run of zero groups compressed |
| Ipv6.CompressionKeepsBytes | src/services/clientIpService.js:70-96 | Compressing any run of zero groups of an address leaves its 16 bytes alone |
| LoadSmoothing.Score | src/services/loadMetricsService.js:34-42 | Always within 0..100 |
| LoadSmoothing.ScoreReaches | src/services/loadMetricsService.js:34-42 | The score reaches s if and only if traffic against capacity, CPU, or addresses against a positive maximum comes to s - 0.5 percent |
| LoadSmoothing.ScoreMonotone | src/services/loadMetricsService.js:34-42 | More traffic, CPU or addresses never lower the score |
| LoadSmoothing.EmaIsRounding | src/services/loadMetricsService.js:48-50 | The integer form is the rounding of 0.4 raw + 0.6 prev, and the first sample as it is |
| LoadSmoothing.SmoothedInHull | src/services/loadMetricsService.js:214-218 | The smoothed load stays between the least and the greatest of its seed and the samples |
| LoadSmoothing.GapShrinks | src/services/loadMetricsService.js:48-50 | A repeated sample strictly closes a gap of more than 1 without crossing; a gap of at most 1 stays |
| LoadSmoothing.SmoothingConverges | src/services/loadMetricsService.js:48-50 | After as many equal samples as the gap is wide, the smoothed load is within 1 for good |
| LoadSmoothing.RunIsSmoothed | src/services/loadMetricsService.js:207-222 | Over every run the load in memory is the smoothing of its seed and the raw scores of exactly the polls that got one, and the stored load is that of the last poll that wrote it |
| LoadSmoothing.ServiceInHull | src/services/loadMetricsService.js:214-218 | Over every run both stay between the least and the greatest of their seeds and the raw scores |
| LoadSmoothing.ServiceConverges | src/services/loadMetricsService.js:214-218 | A raw score that repeats draws the load of the service to within 1 of it |
| LoadSmoothing.StreakIsSuffix | src/services/loadMetricsService.js:242-263 | The streak is the length of the longest suffix of polls that, busy skips aside, all succeeded with the smoothed load at or above their threshold |
| LoadSmoothing.IncidentNeedsStreak | src/services/loadMetricsService.js:245-262 | A load incident opens exactly on the third or later hot poll in a row, and one is resolved exactly by a success below its threshold and below 75 |
| LoadSmoothing.LoadMetrics.CheckLoadAlerts | src/services/loadMetricsService.js:245-263 | The new streak, and open, resolve or nothing |
| LoadSmoothing.LoadMetrics.PollServer | src/services/loadMetricsService.js:175-240 | Each way a poll ends does to the three entries of its server what the step says, and nothing to other servers |
| ConfigSamples.WindowSlides | src/services/monitorService.js:287-288 | Appending and trimming keeps the last ten of the whole history |
| ConfigSamples.SumAppend | src/services/monitorService.js:290 | The sum is that of all samples |
| ConfigSamples.TimedAppend | src/services/monitorService.js:289 | Exactly the passing samples with a time count, in order |
| ConfigSamples.MeanBetween | src/services/monitorService.js:290-292 | The rounded mean lies between least and greatest |
| ConfigSamples.MeanIsNearest | src/services/monitorService.js:290 | The rounded mean is the closest integer, the upper of two |
| ConfigSamples.TimedEmpty | src/services/monitorService.js:289 | No sample is left exactly when none passed with a time |
| ConfigSamples.Extremes | src/services/monitorService.js:291-292 | Least and greatest of the samples |
| ConfigSamples.Summarize | src/services/monitorService.js:289-292 | All null for no sample, otherwise least, greatest and nearest mean, in order |
| ConfigSamples.CatalogItem.RecordConfigResult | src/services/monitorService.js:283-303 | After any results the stored samples are the last 10 of the history and the figures describe them; a recovery is a pass right after a failure |
| DisplayNames.CandidatesDiffer | src/services/npanelUserService.js:470-476 | All candidate names are different |
| DisplayNames.TakenCandidatesFew | src/services/npanelUserService.js:469-478 | No more leading candidates can be taken than there are rows |
| DisplayNames.UniqueDisplayName | src/services/npanelUserService.js:469-478 | Ends within one probe more than there are rows, with the first of base, "base 2", "base 3" and so on that no other row of the country holds |
| Text.DecimalInjective | src/services/npanelUserService.js:476 | Different numbers print differently |
| Text.DecimalReads | src/services/npanelUserService.js:476 | Reading a printed number back gives the number, without leading zeros |
| Text.JoinSplit | src/services/clientIpService.js:48 | Splitting takes out the separators and nothing else |
| Monitoring.RenderInjective | src/services/monitorService.js:113-134 | The de-duplication keys of different alerts are different strings |
| Monitoring.OneOpenIncident | src/services/monitorService.js:86-136 | Over every run a server, kind and item have at most one open incident |
| Monitoring.RecoveriesMatchOutages | src/services/monitorService.js:121-136 | Every delivered recovery follows a delivered outage mail of its incident about the same server, kind and item, and no two recoveries share an incident |
| Monitoring.RunKeepsNames | src/services/monitorService.js:86-136 | Every mail on an incident is about that incident's server, kind and item |
| Monitoring.MailsArePaced | src/services/notificationService.js:86-101 | Delivered mails of one key are at least the minimum gap apart, ten minutes for outages and 55 for failed config tests, failed sends in between included |
| Monitoring.Monitor.SendAlert | src/services/notificationService.js:86-101 | A mail goes out exactly if its gap has passed and the mail server takes it; only then the slot is taken, and a refused one frees it |
| Monitoring.Monitor.OpenIncident | src/services/monitorService.js:86-119 | Opens nothing next to an open incident, otherwise one; it is mailed, and marked notified, exactly if it alerts, its gap has passed and the mail server takes it |
| Monitoring.Monitor.ResolveIncidents | src/services/monitorService.js:121-136 | Closes exactly the incidents of the topic, and mails the recovery exactly if it alerts, an outage among them was mailed, and the mail server takes it |
| Monitoring.Monitor.UpdateServerStatus | src/services/monitorService.js:164-175 | Afterwards an incident is open exactly for the check that failed |
| IncidentOpening.TwoOpenOverlap | src/services/monitorService.js:86-100 | In every interleaving two incidents open at once on one server, kind and item come from calls that each looked before the other created |
| IncidentOpening.StaysAlone | src/services/monitorService.js:86-100 | Beside an open incident another can be opened if and only if a call that had found none is under way |
| IncidentOpening.TwoDoOpen | src/services/monitorService.js:86-100 | Two checks side by side open two incidents |
| MailSlots.PacedUnlessRobbed | src/services/notificationService.js:86-101 | In every interleaving delivered mails of one key are the minimum gap apart, unless a still earlier mail of the key was refused between the two |
| MailSlots.SafeForItsGap | src/services/notificationService.js:86-101 | Before a mail's gap is over another of its key can be sent if and only if the slot is free already or a mail of the key is under way |
| MailSlots.SlowRefusalHappens | src/services/notificationService.js:86-101 | A run in which two mails of one key are delivered at one instant |
| TenantCache.OneQueryPerKey | src/services/tenantService.js:17-27 | In every interleaving at most one query per key is in flight |
| TenantCache.WaitersAreTold | src/services/tenantService.js:18-28 | Everybody who waits for a key is answered when its query comes back, and nobody else |
| TenantCache.AnswersAreRecent | src/services/tenantService.js:14-29 | Every answer is the table's value at an instant no older than the TTL plus its query's duration |
| TenantCache.InvalidationTakesEffect | src/services/tenantService.js:31-35 | Answers after an invalidation can be ones the table has not given since if and only if the key's query was on its way back with such a one |
| TenantCache.LateQueryHappens | src/services/tenantService.js:19-35 | From the start and within one instant: the value from before a write and an invalidation is served until just before the TTL has passed |
| TenantCache.AppCaches.ResolveApp | src/services/tenantService.js:14-29 | Answers from the cache exactly for an entry younger than 30000 ms, else joins the query in flight, else sends one; a cached answer was the table's less than the TTL plus its query's duration ago |
| TenantCache.AppCaches.Loaded | src/services/tenantService.js:20-26 | Is the completing step of the system: everybody who waited is told what the query found, absence included, and so is every call for the next 30000 ms |
| TenantCache.AppCaches.LoadFailed | src/services/tenantService.js:26 | Is the failing step of the system, and no later call joins the failed query |
| TenantCache.AppCaches.InvalidateAppCache | src/services/tenantService.js:33-35 | Is the invalidating step of the system: every call joins the query in flight, or sends one |
| BanCache.GlobalKeyInjective | src/services/banService.js:17 | The joined key determines type and value, whatever the value holds |
| BanCache.ScopedKeyInjective | src/services/banService.js:18 | The joined key determines app, type and value |
| BanCache.LookupIsScan | src/services/banService.js:34-39 | Looking up the joined keys is the same as scanning the rules |
| BanCache.BannedMeans | src/services/banService.js:34-39 | A value is banned exactly if it is not empty and a rule of its type names it, for all apps or for this one |
| BanCache.BuildSets | src/services/banService.js:14-19 | The two sets mirror exactly the rules read |
| BanCache.BanService.Refresh | src/services/banService.js:12-23 | Is the completing step of the system: the sets are those of the rules read, and everybody who waited is told what a scan of them says |
| BanCache.BanService.RefreshFailed | src/services/banService.js:27 | Is the failing step of the system: sets and their age stay |
| BanCache.BanService.Guard | src/services/banService.js:25-39 | Is the asking step of the system: it waits exactly when the sets are stale, and what it answers at once was true less than the TTL plus the load's duration ago |
| BanCache.BanService.Invalidate | src/services/banService.js:31 | Is the invalidating step of the system: the next guard waits, the sets stay in use |
| BanCache.BanService.IsBannedValue | src/services/banService.js:34-39 | True if and only if some loaded rule of the app or of all apps has this type and value; never for an empty value |
| BanCache.AnswersAreRecent | src/services/banService.js:25-29 | In every interleaving each answer of the guard is that of a scan of the rule table at an instant no older than the TTL plus the load's duration |
| BanCache.PeekIsRecent | src/services/mobileSecurityService.js:292 | The reading behind the check of the user id is within the guard's bound if and only if its load has finished no longer ago than the TTL and the wait of its read; before any load nobody is banned |
| BanCache.PeekBoundExactly | src/services/mobileSecurityService.js:292 | Whatever the table holds, that check answers as a scan within the guard's bound if and only if the load finished less than the TTL and its wait for the table ago; from then on, for every wait, some run has no such instant |
| BanCache.PeekAfterGuard | src/services/mobileSecurityService.js:292 | In a request whose guard found or waited for fresh sets, it exceeds the bound by no more than the time since |
| BanCache.PeekIsUnbounded | src/services/mobileSecurityService.js:292 | A run, for every length of an outage, in which a guard fails open and a user banned that long ago passes |
| BanCache.InvalidationTakesEffect | src/services/banService.js:31 | Answers of the guard after an invalidation can be ones no scan of the table has given since if and only if a refresh was on its way back with such rules |
| BanCache.InvalidationAndPeeks | src/services/mobileSecurityService.js:292 | The same of the check of the user id, if and only if the sets in use or a refresh on its way back give such an answer |
| BanCache.LateLoadHappens | src/services/banService.js:12-31 | From the start and within one instant: a ban lifted before an invalidation is enforced until just before the TTL has passed |

## Left out

- Express routing, static files, cron wiring, sockets, the terminal and the front end: plumbing and UI.
- SSH, TLS, SMTP and the attestation providers: each call is an input that says how it came out.
- Cryptography: hashes are injective functions; signatures, HMAC and body hashes are checks a request may fail at any time.
- Parsing of the box's JSON, of numbers and of dates: listings and ip limits are typed integers, speeds are reals without binary rounding. `Number(part)` of an IPv4 octet and the answer of `net.isIPv6` are parameters, and a prefix is given as address and length.
- Traffic and speed counters are carried along without a meaning of their own.
- The line `resolveBinary` builds to find the binary (`src/services/trojanApiService.js:113-121`): compound commands are outside the lexer, its `shq` words are covered by `ShellQuoting.LexShq`.
- Decimals from 10^21 on, which JavaScript prints with an exponent.
- Reconciler.PushUser: a command that throws an error with an empty message counts as having one.
- Reconciler.SyncServerUsers: the exact final state is stated for distinct desired hashes; rows that share a password are covered only by the clauses about any box.
- NonceProtocol.OneWinPerRow: a request whose insert succeeded counts as accepted, although its device update can still fail.
- MobileSessions.CredentialsAreSingleUse: each handler is one step; the interleaved case is `CredentialUse`, which leaves out devices, expiry and what the attestation says, and `SessionSecrets`, which leaves out device updates that fail. The request checks for missing fields are not modelled.
- MobileSessions.AttestationColumns: the columns for platform, app user, attestation subject and keys are not modelled.
- Monitoring.OneOpenIncident: each check is one step; interleaved checks are `IncidentOpening` and interleaved mails `MailSlots`, each without the other.
- Monitoring.RenderInjective: row ids start at 1, since a row 0 would share the key of the server itself.
- LoadSmoothing.IncidentNeedsStreak: an alert that fails half way is a failed poll, which resets the streak; whether its incident row was written is not modelled.
- LoadSmoothing.Score: computed on reals, without binary rounding of the utilizations.
- Ipv4.Ipv4InCidr: prefix lengths outside 0..32, whose shift count wraps around, and a missing length are not specified.
- Ipv6.CompressionKeepsBytes: dotted-quad tails are not modelled.
- BanCache.AnswersAreRecent: bounds the answers of the guard, on addresses and device ids; a request that waited for a refresh that failed passes the guard unasked, and the check of the user id is `BanCache.PeekBoundExactly`.
- Deleting a user, adopting a config, provisioning, settings, country inference, publishing, the serializer, log search and retention, migrations: short branches that would add easy members.
- Freshness and health of a catalog row are given flags (`src/services/loadMetricsService.js:52-60`), and so are the level names of a load.
