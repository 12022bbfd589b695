# opCA, modelled in Dafny

opCA is a certificate authority kept in 1Password, with an ACME broker that holds a
subordinate CA of its own. This project models the protocols and the dense algorithms of
both and proves what they promise, for every input and over every run. To check it:

    dafny verify dfyconfig.toml

| module | models |
|---|---|
| `VaultNotes`, `VaultLock`, `VaultLockProtocol` | the lock on a vault without compare-and-swap: ranking and staleness, one contest, and any number of contenders interleaved |
| `CrlKeeper`, `CrlTiming`, `CrlKeeperLimits` | the loop that keeps the leaf CRL fresh, racing with revokers, the signing mutex and the clock |
| `Enrolment`, `Broker` | enrolling, pairing, reopening, renewing, pausing, revoking and restoring a broker, on disk and in memory |
| `Issuance`, `AcmeOrders`, `AcmeOutcomes` | names, wildcards, windows and certificates; orders, authorisations and challenges as the store moves them; what a run makes of an order |
| `IssuedSync`, `Restore` | opCA's copy of what a broker issued, paged by change number; a restore, all or nothing |
| `CrlBatch` | pre-signed CRLs released by the Lambda |
| `Calendar`, `Rfc3339`, `Decimal`, `Base64Url`, `Nonces`, `Settings` | `civil_from_days`, `rfc_3339`, `decimal`, `base64url`, the nonce pool, settings migration |
| `Text`, `Wrappers` | texts and their order; `Option` and `Result` |

Concurrent code is a step system: a state, the steps each task may take, `Enabled`,
`Apply`, and runs as sequences of steps, so a theorem about a run is about every
interleaving. Objects that are changed in place (`VaultLock`, `Broker`, `Nonces`,
`Settings`, the state a restore changes) are classes whose methods are proved against
functions or histories. Clocks, random numbers, vault and disk failures, and foreign code
(TLS, X.509, JWS, SQLite, host name syntax) are parameters.

## What turned out otherwise

Each of these is a lemma with a run or an input, next to the condition under which the
promise does hold.

- `held_within_ttl` counts from the end of the contest while rivals count from
  `acquired_at`, so two instances can both answer yes (`VaultLockProtocol.TwoReportHeld`),
  exactly when contests may take more than a second
  (`VaultLockProtocol.SaysOnceExactlyWithinASecond`).
- A TTL of 2^63 s or more reads as negative and the note is broken at once
  (`VaultLockProtocol.TwoHoldWithinWrappedTtl`); exclusion holds for exactly the TTLs below
  that (`VaultLockProtocol.ExcludesExactlyBelowTwo63`).
- The stale flag is in memory only: a restart between a revocation and its signing drops it
  (`CrlKeeperLimits.RestartLosesRevocation`), and the first check after it loses the leaf
  exactly when the CRL on disk has more than three days left
  (`CrlKeeperLimits.RestartLosesExactlyWhen`).
- A CRL write that outlives the state lock's timeout can replace a newer CRL
  (`CrlKeeperLimits.LateWriteLosesRevocation`); it moves the CRL on exactly when its number
  is above that of the CRL on disk (`CrlKeeper.LateWriteFollowsExactlyWhen`).
- A broker reopened before its daemon reloads can commit a chain for the deleted key
  (`Enrolment.ReopenBeforeReloadEnrolsDeletedKey`, `Enrolment.HalfReopenEnrolsDeletedKey`),
  and after such a commit a renewal moves the enrolment to another key
  (`Enrolment.RenewalMovesKey`), so that its leaves and CRLs are not under one key as
  `sign_crl` says. `Enrolment.WrongKeyExactlyWhen` and `Enrolment.KeyMovesExactlyWhen` say
  which steps do it: those that do not compare with the key on disk.
- A restored enrolment leaves the pairing code pending, so a request checked before the
  restore can still replace it (`Enrolment.RestoreLeavesCodePending`); no other step does
  (`Enrolment.CodeUnspentExactlyWhen`). And a capture from before a renewal brings back an
  `issuers` list without the renewed serial, so that leaves signed under it drop out of the
  issued list, revocation and the CRL (`Enrolment.RestoreOrphansLeaf`).
- `replace_from` says that a sync cursor from before a restore misses nothing after it. A
  capture without certificates restarts the change numbers at 1, below every cursor
  (`IssuedSync.EmptyRestoreHidesNextCertificate`); any other restore keeps the promise
  (`IssuedSync.RestoreMovesOnExactlyWhen`).
- `sync_brokers` gives up its connection while it asks, and an answer written after a later
  one takes a revocation back for good (`IssuedSync.LateAnswerLosesRevocation`).
  `IssuedSync.WriteKeepsGoodExactlyWhen` says which overlapping answers do harm; never
  putting an older row over a newer would do (`IssuedSync.NewerRowsAreWritable`).
- A batch is released by number alone, so a published CRL numbered above it stays, expired
  or not (`CrlBatch.HigherNumberLeavesExpiredCrl`).
- `rfc_3339` texts stop sorting as instants in the year 10000
  (`Rfc3339.TextsMissortPastYear9999`).

## Model

| member | source | states |
|---|---|---|
| `VaultNotes.StaleExactlyFrom` | crates/opca-core/src/vault_lock.rs:249-273 | a note turns stale exactly one second past its TTL, counted from `acquired_at` in whole seconds |
| `VaultNotes.StaleForEver` | crates/opca-core/src/vault_lock.rs:249-273 | a stale note is stale at every later clock reading, whatever its fields |
| `VaultNotes.StaleUnlessReadable` | crates/opca-core/src/vault_lock.rs:249-273 | a note without a readable `acquired_at` or TTL is stale at once, and one without a TTL has five minutes |
| `VaultNotes.RanksEarlierFirst` | crates/opca-core/src/vault_lock.rs:62-71 | of two stamped notes the earlier stamp ranks first, and of equal stamps the lesser id |
| `VaultNotes.SortSorts` | crates/opca-core/src/vault_lock.rs:62-71 | ranking sorts the rivals and neither loses nor invents one |
| `VaultNotes.AheadIsEveryoneAhead` | crates/opca-core/src/vault_lock.rs:161-165 | stopping at the first rival not ahead misses no rival that is |
| `VaultLock.ReadRivals` | crates/opca-core/src/vault_lock.rs:154-160 | the rivals read are exactly the vault's other notes as they stand; it fails only when the vault does |
| `VaultLock.Contest` | crates/opca-core/src/vault_lock.rs:154-171 | grants or names the first fresh note ahead, deleting exactly the stale notes ranked before it, and says what is left when a delete fails |
| `VaultLock.GrantedExactlyWhenAllAheadAreStale` | crates/opca-core/src/vault_lock.rs:154-171 | with a vault that answers, a contest is granted exactly when every note ranked ahead is stale, and no fresh or later note is touched |
| `VaultLock.VaultLock.Acquire` | crates/opca-core/src/vault_lock.rs:105-150 | holds its note exactly when its contest is granted; the note records the second at which it began, its TTL and its stamp, and for a TTL below 2^63 is stale exactly one second past that TTL; until then an earlier-stamped note refuses a contender and stays; refused, it leaves what it held and takes its own note away; a lock it holds unexpired refuses it |
| `VaultLock.VaultLock.Release` | crates/opca-core/src/vault_lock.rs:177-183 | deletes the held note and only then lets go; a failed delete leaves the lock held; a no-op when nothing is held |
| `VaultLock.VaultLock.HeldWithinTtl` | crates/opca-core/src/vault_lock.rs:191-195 | a yes means that a note of this TTL is not stale, if the contest was over within a second of what the note records |
| `VaultLockProtocol.StepKeeps` | crates/opca-core/src/vault_lock.rs:105-183 | every step of every contender keeps the history invariant: claimed notes are deleted only once stale, contenders face every older claim that is not, and holders have outlived the older ones |
| `VaultLockProtocol.CreateMakesTheNoteOfAcquire` | crates/opca-core/src/vault_lock.rs:105-150 | the note a contender creates in a run is the one `acquire` leaves, so that exclusion is about the class |
| `VaultLockProtocol.OlderHolderIsStale` | crates/opca-core/src/vault_lock.rs:105-183 | of any two holders, in any run, the one with the older note has a stale note |
| `VaultLockProtocol.MutualExclusion` | crates/opca-core/src/vault_lock.rs:105-183 | in no run do two instances hold the lock with both notes within TTLs below 2^63 s |
| `VaultLockProtocol.ReportIsSafeExactlyWhen` | crates/opca-core/src/vault_lock.rs:191-195 | `held_within_ttl` implies the note is within its TTL at every clock reading if and only if the contest ended within a second of `acquired_at` |
| `VaultLockProtocol.ReportsExclude` | crates/opca-core/src/vault_lock.rs:186-195 | over every run, two instances that answer yes, neither releasing and both held within a second of their notes, are one |
| `VaultLockProtocol.RefusedExactlyByOlderFreshNote` | crates/opca-core/src/vault_lock.rs:164-170 | over every run, a contest is refused exactly by a note older than its own that is not stale at that moment |
| `VaultLockProtocol.TwoReportHeld` | crates/opca-core/src/vault_lock.rs:186-195 | for every TTL below 2^63 s and every delay of more than a second between `acquired_at` and the end of the contest, a run in which two instances answer yes |
| `VaultLockProtocol.SaysOnceExactlyWithinASecond` | crates/opca-core/src/vault_lock.rs:186-195 | for every such TTL, no run has two instances answer yes if and only if contests are over within a second |
| `VaultLockProtocol.TwoHoldWithinWrappedTtl` | crates/opca-core/src/vault_lock.rs:266-272 | for every TTL from 2^63 s on, and any for the other, a run in which two instances hold notes within theirs |
| `VaultLockProtocol.OlderTtlWraps` | crates/opca-core/src/vault_lock.rs:266-272 | over every run, of two holders within their TTLs the older note's TTL is 2^63 s or more |
| `VaultLockProtocol.ExcludesExactlyBelowTwo63` | crates/opca-core/src/vault_lock.rs:266-272 | of the TTLs a u64 can say, no run has an older note held within one and a newer within another if and only if the older's is below 2^63 s |
| `CrlKeeper.StepForms` | crates/opca-acme-broker/src/pki.rs:187-265 | every step, timeouts and late writes included, keeps disk, database, job and handlers in agreement: numbers rank what is written and yet to be written, every list is of revoked leaves unexpired when it was signed, one holds the mutex |
| `CrlKeeper.StepLosesNothing` | crates/opca-acme-broker/src/pki.rs:187-265 | no orderly step uncovers a flagged revocation: on disk, flagged stale, carried as `force`, or expired |
| `CrlKeeper.StepMissesNoWake` | crates/opca-acme-broker/src/pki.rs:73-82 | a loop that has not seen the flag keeps a permit, a short wait, or a handler about to notify |
| `CrlKeeper.NoRevocationIsLost` | crates/opca-acme-broker/src/pki.rs:73-82 | over every run in which no late write has a lower number than the CRL it replaces and no restart comes before an answered revocation is on disk, a returned revocation is on the CRL on disk, or flagged, or carried, until its leaf expires; and a loop asleep on the flag will be woken |
| `CrlKeeper.CrlsListRightly` | crates/opca-acme-broker/src/acme/store.rs:727-746 | over every run, each serial on a CRL on disk or yet to be written was revoked, of an issuer of the enrolment, and unexpired at the clock it was signed by; no leaf of an earlier enrolment is on one |
| `CrlKeeper.SigningListsAll` | crates/opca-acme-broker/src/pki.rs:230-265 | what a signing reads is every revoked leaf of its issuers unexpired at its clock and none expired; what it writes is that list, under a number never used, for four days from a minute before its clock |
| `CrlKeeper.SignsExactlyWhenDue` | crates/opca-acme-broker/src/pki.rs:205-228 | a check signs if and only if it is forced, or the files are not this subordinate's, or the CRL has three days or less left; else it looks again by then and within the hour |
| `CrlKeeper.LooksAgain` | crates/opca-acme-broker/src/pki.rs:187-203 | the loop looks again an hour after a signing, or when the broker is not enrolled, and a minute after a failure |
| `CrlKeeper.HandlersFlag` | crates/opca-acme-broker/src/pki.rs:73-82 | a handler that recorded a revocation or was asked to resign ends with the flag up and the loop notified |
| `CrlKeeper.IssuersGrow` | crates/opca-acme-broker/src/enrolled.rs:200-222 | a renewal adds its subordinate to the issuers and no step takes one away |
| `CrlKeeper.RestartCoversExactlyWhen` | crates/opca-acme-broker/src/pki.rs:61-70 | a restart uncovers no answered revocation if and only if all of them are on disk or expired |
| `CrlKeeper.LateWriteFollowsExactlyWhen` | crates/opca-acme-broker/src/broker.rs:167-184 | a write that outlived its timeout moves the CRL on if and only if its number is above that of the CRL on disk |
| `CrlKeeper.LateWriteCoversExactlyWhen` | crates/opca-acme-broker/src/broker.rs:167-184 | a late write uncovers no flagged revocation if and only if it lists each one on disk that nothing else covers |
| `CrlKeeper.CrlsMoveForward` | crates/opca-acme-broker/src/pki.rs:208-265 | over the same runs, timeouts included, successive CRLs on disk have strictly rising numbers and each lists every unexpired leaf an earlier one listed, whoever signed them |
| `CrlTiming.ClocksStep` | crates/opca-acme-broker/src/pki.rs:187-228 | every timely step keeps the loop's clocks and the freshness bound |
| `CrlTiming.CrlStaysFresh` | crates/opca-acme-broker/src/pki.rs:33-36 | after the first check that found the broker enrolled, the CRL has three days left less two latencies while checks succeed, and does not expire in an outage, of failures or timeouts, shorter than three days less one retry and four latencies |
| `CrlTiming.RevocationIsPublished` | crates/opca-acme-broker/src/pki.rs:187-203 | once its handler returned and checks succeed, a revocation is on disk within two latencies and one retry |
| `CrlKeeperLimits.RestartLosesRevocation` | crates/opca-acme-broker/src/pki.rs:187-203 | a run in which a restart drops the flag and the leaf stays off a CRL still fresh |
| `CrlKeeperLimits.RestartLosesExactlyWhen` | crates/opca-acme-broker/src/pki.rs:187-228 | for every state, the first check after a restart loses an answered revocation not yet on disk if and only if the CRL on disk is this subordinate's and has more than three days left; else it signs and lists the leaf |
| `CrlKeeperLimits.LateWriteLosesRevocation` | crates/opca-acme-broker/src/broker.rs:167-184 | a run in which a signing that timed out waiting for the lock writes over a newer CRL |
| `Enrolment.CheckStages` | crates/opca-acme-broker/src/enrolment.rs:90-117 | a request passes its check if and only if the daemon is not enrolled and the chain is a current subordinate's over its key; what it stages is unrevoked, unpaused and its own issuer |
| `Enrolment.CommitEnrols` | crates/opca-acme-broker/src/enrolment.rs:188-211 | the pending code named spends it and enrols, on disk and in memory, if promoted; any other costs a pending code an attempt, the last of which locks it; nothing else changes |
| `Enrolment.RenewRenews` | crates/opca-acme-broker/src/enrolled.rs:200-222 | a renewal is stored exactly for an unrevoked enrolment, over the daemon's key and the enrolled root, and keeps the pause and every issuer, adding its own |
| `Enrolment.RevokeRevokes` | crates/opca-acme-broker/src/enrolled.rs:229-243 | `Revoke` of an unrevoked enrolment puts a revocation on disk and in memory and leaves chain, issuers, pause, key, code and requests as they were; of any other it changes nothing |
| `Enrolment.PausePauses` | crates/opca-acme-broker/src/enrolled.rs:249-261 | a pause is stored exactly for an unrevoked enrolment that is not so already, and changes nothing else |
| `Enrolment.PairIssues` | crates/opca-acme-broker/src/cli.rs:58-82 | pairing issues a code never made before, with five attempts, exactly for a broker not enrolled |
| `Enrolment.ReopenArchives` | crates/opca-acme-broker/src/cli.rs:84-102 | a reopen touches the disk alone: the enrolment goes first, then the key, for which a new one is made, then the code, wherever it stops |
| `Enrolment.ReloadReads` | crates/opca-acme-broker/src/broker.rs:203-216 | after a reload memory is the disk, with a key made only where there was none |
| `Enrolment.RestartReads` | crates/opca-acme-broker/src/broker.rs:67-138 | so is a new daemon's, with no requests, no issuer yet, and a code |
| `Enrolment.RefreshServes` | crates/opca-acme-broker/src/acme/listener.rs:171-190 | the issuer becomes the one in memory exactly when that is unrevoked, served, and certifies the daemon's key |
| `Enrolment.RestorePutsBack` | crates/opca-acme-broker/src/backup.rs:256-299 | a restore refuses an enrolment over another key where there is one, and one that would take a revocation back; one it takes goes on disk as captured and is reloaded |
| `Enrolment.EnrolmentSpendsItsCode` | crates/opca-acme-broker/src/enrolment.rs:82-117 | over every restore-free run of checks, commits, pairings, reopens and the rest, an enrolment on disk has spent the code on disk, and no code yields two enrolments |
| `Enrolment.CodeUnspentExactlyWhen` | crates/opca-acme-broker/src/backup.rs:109-129 | of all steps exactly a restore that puts an enrolment back over an unspent code leaves one whose code is not spent |
| `Enrolment.OnlyReopenOrRedeemClears` | crates/opca-acme-broker/src/enrolled.rs:200-275 | a step takes a revocation off the disk if and only if it is a reopen or a commit whose code is still good |
| `Enrolment.RevokeOrRestoreRevokes` | crates/opca-acme-broker/src/enrolled.rs:229-243 | a step puts a revocation on disk if and only if it stores one, restores a revoked enrolment over the daemon's key, or commits a revoked one |
| `Enrolment.RevokedOnlyByRevoke` | crates/opca-acme-broker/src/enrolled.rs:229-243 | over every restore-free run from an unrevoked broker, an enrolment revoked on disk comes of a revocation that was stored |
| `Enrolment.RevocationIsFinal` | crates/opca-acme-broker/src/backup.rs:256-299 | chain updates, pauses, revokes, reloads and restores of any captures never clear `revoked` |
| `Enrolment.RevocationIsFinalUntilReopened` | crates/opca-acme-broker/src/enrolled.rs:229-243 | without restores no commit clears it either |
| `Enrolment.ReopenIsNotUndone` | crates/opca-acme-broker/src/cli.rs:84-102 | while a reopen is not yet reloaded, no operator's change recreates the archived enrolment |
| `Enrolment.LeavesStayOurs` | crates/opca-acme-broker/src/enrolled.rs:200-222 | every leaf signed under any chain the enrolment has held passes its `issuers` filter, over every restore-free run |
| `Enrolment.OrphansExactlyWhen` | crates/opca-acme-broker/src/backup.rs:256-299 | a serial's leaves leave the enrolment's list if and only if it is archived, or a new or restored one in its place does not list the serial |
| `Enrolment.ListedUntilOrphaned` | crates/opca-acme-broker/src/enrolled.rs:200-222 | over every run, restores included, a serial once listed stays listed until such a step |
| `Enrolment.RestoreOrphansLeaf` | crates/opca-acme-broker/src/backup.rs:109-129 | a run in which a capture from before a renewal orphans a leaf signed after it |
| `Enrolment.RootStaysEnrolled` | crates/opca-acme-broker/src/enrolment.rs:119-148 | for as long as it is one enrolment its chain ends in the root it was enrolled with |
| `Enrolment.KeyStaysEnrolled` | crates/opca-acme-broker/src/enrolment.rs:119-148 | over synced restore-free runs the subordinate key stays the one enrolled with for as long as it is one enrolment |
| `Enrolment.KeyMovesExactlyWhen` | crates/opca-acme-broker/src/enrolled.rs:200-222 | within one enrolment the key moves if and only if a renewal is stored while the daemon holds another key than the stored chain's |
| `Enrolment.RenewalMovesKey` | crates/opca-acme-broker/src/enrolled.rs:200-222 | a run, through a commit after a half-made reopen, in which a renewal moves the enrolment to another key |
| `Enrolment.EnrolmentCertifiesTheKey` | crates/opca-acme-broker/src/enrolment.rs:103-111 | if the daemon holds the key on disk whenever it checks an enrolment, and no reopen stops half-way, the enrolment on disk certifies the key on disk, over every restore-free run |
| `Enrolment.WrongKeyExactlyWhen` | crates/opca-acme-broker/src/enrolment.rs:188-211 | a restore-free step makes the enrolment on disk certify another key than the one there if and only if it commits a chain for another key or renews while the daemon holds another |
| `Enrolment.ReopenBeforeReloadEnrolsDeletedKey` | crates/opca-acme-broker/src/cli.rs:84-102 | a run that commits a chain for a key a reopen deleted |
| `Enrolment.HalfReopenEnrolsDeletedKey` | crates/opca-acme-broker/src/cli.rs:84-102 | the same after a reopen that failed before issuing its code |
| `Enrolment.RestoreLeavesCodePending` | crates/opca-acme-broker/src/backup.rs:109-129 | a run in which a request checked before a restore clears the revocation it brought |
| `Broker.Broker.StoreChain` | crates/opca-acme-broker/src/enrolled.rs:200-222 | stores exactly a chain over the daemon's key and the enrolled root for an unrevoked enrolment, on disk and in memory, with every issuer kept and its own added; refused, in the order checked, it changes nothing |
| `Broker.Broker.StorePause` | crates/opca-acme-broker/src/enrolled.rs:249-261 | succeeds if and only if the enrolment on disk is unrevoked and is so paused or can be stored; then disk and memory are that enrolment so paused and nothing else moves; failing, nothing does |
| `Broker.Broker.StoreRevocation` | crates/opca-acme-broker/src/enrolled.rs:229-243 | succeeds if and only if there is an enrolment on disk that is revoked or can be stored; then disk and memory are that enrolment revoked, with key, code, issuer, requests and epoch untouched; failing, nothing changes |
| `Broker.Broker.RedeemAndStore` | crates/opca-acme-broker/src/enrolment.rs:188-211 | enrols exactly when the pending code is the one named and the staged write is promoted; file and mode are then the staged enrolment and the code is spent, and else neither file nor mode changes; the request is gone either way |
| `Broker.Broker.ReloadLocked` | crates/opca-acme-broker/src/broker.rs:203-216 | memory then holds the key and the enrolment on disk; enrolment, code and requests are untouched, a key is made only when there was none, and a new issuer is that of an unrevoked enrolment certifying the key |
| `Calendar.DaysOfCivil` | crates/opca-acme-broker/src/enrolment.rs:293-308 | every integer day has a calendar date, whose day count is that day |
| `Calendar.CivilOfDays` | crates/opca-acme-broker/src/enrolment.rs:293-308 | every date is found from its day count |
| `Calendar.CivilIsTheCalendar` | crates/opca-acme-broker/src/enrolment.rs:293-308 | day 0 is 1970-01-01, and day n+1 is the date after day n's, leap years and all |
| `Calendar.EarlierIsFewerDays` | crates/opca-acme-broker/src/enrolment.rs:293-308 | day counts order dates as the calendar does |
| `Calendar.YearOfEraFound` | crates/opca-acme-broker/src/enrolment.rs:297-299 | the divisions by 1460, 36524 and 146096 find the year of every day of an era |
| `Rfc3339.TextsSortAsInstants` | crates/opca-acme-broker/src/enrolment.rs:278-290 | through the year 9999 the texts sort as the instants, and differ when they do |
| `Rfc3339.TextSaysTheInstant` | crates/opca-acme-broker/src/enrolment.rs:278-290 | through the year 9999 a text is twenty characters whose six fields say a date of the calendar and a time of day, and read back they are the instant |
| `Rfc3339.TextsMissortPastYear9999` | crates/opca-acme-broker/src/enrolment.rs:278-290 | the first second of the year 10000 sorts before the one it follows |
| `Rfc3339.TextsSortExactlyThroughYear9999` | crates/opca-acme-broker/src/enrolment.rs:278-290 | all texts below a limit sort as their instants if and only if the limit is at most the start of the year 10000 |
| `Decimal.Decimal` | crates/opca-acme-broker/src/enrolment.rs:255-276 | the result is the decimal numeral, without a leading zero, that reads as the hex value, for hex of any length |
| `Decimal.Absorb` | crates/opca-acme-broker/src/enrolment.rs:257-266 | one nibble makes the digits sixteen times what they were plus it; the carry never passes 15 |
| `Decimal.AbsorbedIs` | crates/opca-acme-broker/src/enrolment.rs:257-266 | the digits stay below ten and their value is sixteen times the old one plus the carry |
| `Decimal.NibbleIsHexDigit` | crates/opca-acme-broker/src/enrolment.rs:257-258 | a character stands for its place among the sixteen hex digits of either case, and nothing else does |
| `Decimal.AbsorbedTrimmed` | crates/opca-acme-broker/src/enrolment.rs:267-269 | no nibble brings a leading zero, so the trimming loop has nothing to take |
| `Decimal.Trim` | crates/opca-acme-broker/src/enrolment.rs:267-269 | drops leading zeros only, and nothing exactly from digits that have none |
| `Decimal.NumeralReads` | crates/opca-acme-broker/src/enrolment.rs:270-275 | the numeral of n is decimal, has no leading zero and reads as n |
| `Decimal.NumeralInjective` | crates/opca-acme-broker/src/enrolment.rs:255-276 | different serials have different numerals |
| `Base64Url.Base64url` | crates/opca-acme-broker/src/acme/mod.rs:58-74 | the shifting loops write the encoding that the inverse theorem is about |
| `Base64Url.FromBase64url` | crates/opca-acme-broker/src/acme/mod.rs:77-96 | the masked buffer decodes exactly as the unmasked definition does, refusals included |
| `Base64Url.DecodeExactlyInvertsEncode` | crates/opca-acme-broker/src/acme/mod.rs:58-96 | a text decodes to some bytes if and only if it is their encoding |
| `Base64Url.EncodesSixBitsEach` | crates/opca-acme-broker/src/acme/mod.rs:58-74 | symbol i is the letter of the alphabet for bits 6i to 6i+5, zeros beyond the end, one for every six bits rounded up (section 5 of RFC 4648) |
| `Base64Url.SymbolIsAlphabet` | crates/opca-acme-broker/src/acme/mod.rs:59-68 | the symbols are A to Z, a to z, 0 to 9, - and _ in that order |
| `Nonces.RedemptionsNeverExceedIssues` | crates/opca-acme-broker/src/acme/request.rs:186-223 | over every history, repeated nonces included, a nonce is redeemed no more often than it was issued |
| `Nonces.LiveIsQueued` | crates/opca-acme-broker/src/acme/request.rs:205-219 | the live are among the queued, and the queue never holds more than the capacity, or one |
| `Nonces.QueueIsTheLastIssues` | crates/opca-acme-broker/src/acme/request.rs:207-217 | the queue is the latest issues, as many as there is room for, in order |
| `Nonces.LiveExactlyWhileStanding` | crates/opca-acme-broker/src/acme/request.rs:207-223 | a nonce redeems if and only if its last issue is unredeemed and no queued copy of it was pushed out since |
| `Nonces.UniqueNonceRedeemsExactlyWhen` | crates/opca-acme-broker/src/acme/request.rs:207-223 | a nonce issued once redeems if and only if it is unredeemed and fewer than the capacity were issued since |
| `Nonces.Nonces.Issue` | crates/opca-acme-broker/src/acme/request.rs:205-217 | the popping loop makes the room the history says, and the new nonce stands |
| `Nonces.Nonces.Redeem` | crates/opca-acme-broker/src/acme/request.rs:220-223 | succeeds if and only if the history leaves the nonce standing, and spends it |
| `Nonces.Nonces.Verified` | crates/opca-acme-broker/src/acme/request.rs:92-129 | a request with the right address, key and signature is let through if and only if its nonce stands, and spends it; one refused for anything else spends nothing, for the first thing wrong |
| `CrlBatch.ReleaseIsLatestDue` | notification/aws_lambda.py:200-245 | what is released is signed, due, newer than the published CRL, and nothing due is later; nothing is released only when nothing is due or something due is not newer |
| `CrlBatch.ReleaseExactlyWhen` | notification/aws_lambda.py:200-245 | a run releases exactly the first of the latest due CRLs of a batch all signed and numbered, if and only if its number is above the published one's |
| `CrlBatch.WarnsExactlyWhen` | notification/aws_lambda.py:200-245 | it warns unless the batch can be read, is all signed and numbered, and has two CRLs still to come |
| `CrlBatch.RunReleases` | notification/aws_lambda.py:200-245 | over a batch as opCA signs it, a run releases the last CRL due when its number is higher, and warns exactly from three weeks in |
| `CrlBatch.NumberNeverFalls` | notification/aws_lambda.py:429-437 | over any runs, batches, clocks and failed puts the published number never falls |
| `CrlBatch.HighNumberIsNeverReplaced` | notification/aws_lambda.py:218-231 | a published CRL numbered at or above every batch CRL is never replaced |
| `CrlBatch.PublishedStaysInWindow` | notification/aws_lambda.py:200-245 | with working runs at most three days (and a second) apart and each batch re-signed that long before its cover ends, the published CRL is in its window at every instant from the first run until 38 days after the current batch's start |
| `CrlBatch.FirstWarningLeavesTwoWeeks` | crates/opca-core/src/constants.rs:92-97 | each batch's first warning leaves more than fourteen days of cover, and eleven in which to re-sign on time |
| `CrlBatch.RunPublishesExactlyWhen` | notification/aws_lambda.py:218-231 | a run leaves the last CRL due published if and only if it was already, or the one there has a lower number |
| `CrlBatch.AlwaysCoveredExactlyUpToGap` | crates/opca-core/src/constants.rs:92-97 | every schedule with runs up to a given gap apart stays covered if and only if the gap is at most three days and a second |
| `CrlBatch.HigherNumberLeavesExpiredCrl` | notification/aws_lambda.py:218-231 | over every schedule, an expired CRL numbered above the batch stays published |
| `Settings.MatchAliasExactlyWhen` | crates/opca-core/src/settings.rs:63-90 | an identifier resolves exactly when, trimmed and but for case, it is one of the three names of one listed account and of no other, and then to that account's user |
| `Settings.TrimIsTheMiddle` | crates/opca-core/src/settings.rs:83-85 | trimming leaves the text between its first and last characters that are no blank |
| `Settings.CanonicalKeysAreStable` | crates/opca-core/src/settings.rs:125-129 | where each user UUID names its own row alone, a resolved key resolves to itself, whatever `op` answers |
| `Settings.Settings.Migrate` | crates/opca-core/src/settings.rs:203-230 | for any resolver the aliases are rekeyed in key order and keys that are no alias keep their items; for a stable one the map is exactly the migrated one |
| `Settings.MigratedIsDetermined` | crates/opca-core/src/settings.rs:203-230 | canonical keys keeping their items, no alias left, and the least alias's item where there was none, say which map it is |
| `Settings.MigrateIsIdempotent` | crates/opca-core/src/settings.rs:203-230 | migrating twice is migrating once |
| `Settings.NoAliasLeftExactlyWhenStable` | crates/opca-core/src/settings.rs:203-230 | migrating leaves no alias behind, whatever the map, if and only if the resolver is stable |
| `Issuance.SuffixIsLabelSuffix` | crates/opca-acme-broker/src/enrolment.rs:231-238 | being a domain or ending in a dot and it is having its labels at the end of one's own |
| `Issuance.PermittedIsInDomain` | crates/opca-acme-broker/src/acme/issue.rs:238-260 | a name let through is, wildcard stripped, under a permitted domain label by label, no IP address, with a star nowhere but in front |
| `Issuance.InDomainIsPermitted` | crates/opca-acme-broker/src/acme/issue.rs:238-260 | a name is let through if and only if it is in lower case, no IP address, starred nowhere but in front, not rooted, a host name in A-label form, and under a permitted domain |
| `Issuance.CollectedNames` | crates/opca-acme-broker/src/acme/server.rs:417-443 | an order's names are all of its identifiers, lower-case, refused if any is not a permitted DNS name |
| `Issuance.NamesExactlyWhen` | crates/opca-acme-broker/src/acme/server.rs:417-443 | an order is made exactly for one to a hundred permitted DNS names, and refused for the count or for the first identifier that may not be had, by its kind |
| `Issuance.AuthorisationsAreOneToOne` | crates/opca-acme-broker/src/acme/server.rs:447-473 | authorisations and identifiers are one to one; wildcards get dns-01 alone, and are refused exactly when it is not offered |
| `Issuance.RequestedNames` | crates/opca-acme-broker/src/acme/issue.rs:187-208 | the loop yields every SAN, lower-case, or the first refusal |
| `Issuance.ValidityIsWidestAllowed` | crates/opca-acme-broker/src/acme/issue.rs:213-234 | the window starts earliest and ends latest of all that order, longest lifetime and subordinate allow, and is refused exactly when none is allowed |
| `Issuance.CommonNameIsFittingSan` | crates/opca-acme-broker/src/acme/issue.rs:276-291 | the common name is a SAN of at most 64 bytes: the CSR's own if it fits, else the first of its names that does; it is missing only when none does |
| `Issuance.IssuedAsOrdered` | crates/opca-acme-broker/src/acme/issue.rs:91-131 | a certificate's SANs are the order's identifiers, each permitted, its common name the chosen one, its window the widest allowed, its issuer this one, over an RSA key of 2048 to 8192 bits, P-256 or P-384 that is not the account's |
| `Issuance.OrderedIsIssued` | crates/opca-acme-broker/src/acme/issue.rs:91-131 | under the config it was ordered with, a CSR naming just the order's identifiers is refused only if no window is allowed |
| `Issuance.IssuedExactlyWhen` | crates/opca-acme-broker/src/acme/issue.rs:91-131 | a certificate is issued if and only if the CSR is readable, over an allowed key not the account's, names permitted DNS names that are just those ordered, and a window is allowed |
| `Issuance.RefusedFor` | crates/opca-acme-broker/src/acme/issue.rs:91-131 | and refused for the first thing wrong: key, first name that may not be had, difference from the order, window |
| `AcmeOrders.StepKeeps` | crates/opca-acme-broker/src/acme/store.rs:1071-1088 | every transaction keeps orders sound: valid authorisations proven, ready orders all valid, pending ones undecided and unfailed |
| `AcmeOrders.EveryCertifiedNameWasProven` | crates/opca-acme-broker/src/acme/store.rs:597-666 | over every run, the validator said that a challenge was met in the certificate's own order for each name it carries, by dns-01 for a wildcard |
| `AcmeOrders.StatusFollowsAuthorisations` | crates/opca-acme-broker/src/acme/store.rs:330-333 | over every run, a ready order has every authorisation valid and a pending one has some undecided and none failed |
| `AcmeOrders.AuthorisationsFollowChallenges` | crates/opca-acme-broker/src/acme/store.rs:597-628 | over every run, a valid authorisation has a challenge met, an invalid one a challenge refused, and a pending one none decided |
| `AcmeOrders.SweepLeavesNothingOverdue` | crates/opca-acme-broker/src/acme/store.rs:851-879 | after a sweep nothing open has had its time, and a sweep changes an order exactly when something open in it had |
| `AcmeOrders.SweepingOftenIsSweepingLast` | crates/opca-acme-broker/src/acme/server.rs:165-171 | any sweeps before a sweep make no difference to it |
| `AcmeOrders.StepMovesAsDrawn` | crates/opca-acme-broker/src/acme/store.rs:95-107 | an order moves only as its lifecycle draws it and keeps its terms |
| `AcmeOrders.OverIsOver` | crates/opca-acme-broker/src/acme/store.rs:631-666 | a valid or invalid order stays so, with the certificate it had |
| `AcmeOrders.ProvenByVerdict` | crates/opca-acme-broker/src/acme/server.rs:118-141 | a challenge is valid only by the validator's verdict on it |
| `AcmeOutcomes.WhatMayHappen` | crates/opca-acme-broker/src/acme/store.rs:110-128 | a challenge is tried once pending, judged while processing, and an authorisation given up while pending or valid |
| `AcmeOutcomes.NewOrderAsks` | crates/opca-acme-broker/src/acme/store.rs:484-526 | a new order has one pending authorisation for each name, in their order, none of whose challenges has been tried |
| `AcmeOutcomes.AttemptOnlyTries` | crates/opca-acme-broker/src/acme/server.rs:557-594 | an attempt marks its challenge and nothing else |
| `AcmeOutcomes.VerdictMarks` | crates/opca-acme-broker/src/acme/store.rs:597-628 | a verdict marks its challenge and decides the authorisation if that is pending, and touches nothing else |
| `AcmeOutcomes.VerdictSettles` | crates/opca-acme-broker/src/acme/store.rs:1071-1088 | meeting a challenge of the last authorisation not yet valid makes the order ready, refusing one makes it invalid, and no other verdict moves it |
| `AcmeOutcomes.DeactivateFails` | crates/opca-acme-broker/src/acme/store.rs:584-595 | giving up an authorisation fails an open order |
| `AcmeOutcomes.SweepExpires` | crates/opca-acme-broker/src/acme/store.rs:851-879 | a sweep expires exactly the pending or valid authorisations past their time and fails exactly the open orders past theirs or left with one |
| `AcmeOutcomes.FinaliseIssues` | crates/opca-acme-broker/src/acme/store.rs:631-666 | finalising makes the order valid with the certificate issued, and changes nothing else |
| `AcmeOutcomes.WhatClosesAuthorisations` | crates/opca-acme-broker/src/acme/store.rs:110-118 | over every run an authorisation is deactivated exactly by its client, expired only by a sweep after its time, revoked never, and one still open has seen no such sweep |
| `AcmeOutcomes.InvalidExactlyWhen` | crates/opca-acme-broker/src/acme/store.rs:330-333 | over every run an order without a certificate is invalid if and only if an authorisation of it has failed or a sweep found its time over |
| `AcmeOutcomes.InvalidHasReason` | crates/opca-acme-broker/src/acme/store.rs:330-333 | so is every invalid order made in the course of a run |
| `AcmeOutcomes.MetInTimeIsReady` | crates/opca-acme-broker/src/acme/store.rs:1071-1088 | over every run in which each authorisation has a challenge met, in time, with none refused or given up, the order ends ready or valid |
| `AcmeOutcomes.EveryOrderCanBeFinalised` | crates/opca-acme-broker/src/acme/store.rs:597-666 | for whatever may be ordered there is a run in which the order becomes ready and, with whatever is then issued, valid |
| `IssuedSync.IssueMovesOn` | crates/opca-acme-broker/src/acme/store.rs:631-666 | recording a certificate numbers it past every change there was |
| `IssuedSync.RevokeMovesOn` | crates/opca-acme-broker/src/acme/store.rs:691-725 | so does revoking one |
| `IssuedSync.RevokeTouchesOneRow` | crates/opca-acme-broker/src/acme/store.rs:691-725 | a revocation changes one row, in its change and its revocation alone |
| `IssuedSync.RevokedStaysRevoked` | crates/opca-acme-broker/src/acme/store.rs:691-725 | over every restore-free run a certificate keeps its issuer and body, and is revoked if and only if it was or a step of the run revoked it |
| `IssuedSync.RestorePutsBackTheCapture` | crates/opca-acme-broker/src/acme/store.rs:963-1024 | a restore puts back exactly the capture's rows, each whole but for its change, in the capture's order |
| `IssuedSync.RestoreLeavesTheCapturesRevocations` | crates/opca-acme-broker/src/acme/store.rs:963-1024 | after a restore, and until the next, exactly the capture's revocations stand and those made since |
| `IssuedSync.RestoreMovesOnExactlyWhen` | crates/opca-acme-broker/src/acme/store.rs:963-1024 | a restore puts every row past every change of either database and never lowers the highest, if and only if it brings a certificate or there was none |
| `IssuedSync.FetchKeeps` | crates/opca-acme-broker/src/acme/store.rs:761-809 | a page of any size, of the enrolment's issuers, leaves a sync holding everything listed that changed from its start to its last row |
| `IssuedSync.StepKeeps` | crates/opca-core/src/services/acme_broker/mod.rs:182-192 | every orderly step of the broker and of any number of overlapping calls keeps the copy and every call good |
| `IssuedSync.WriteKeepsGoodExactlyWhen` | crates/opca-core/src/services/acme_broker/mod.rs:371-415 | a call written over a good copy, whatever was written since it began, leaves it good if and only if no row of the answer is older than the copy's of a change the cursor has passed, and none is skipped; the capped answer to a revocation included |
| `IssuedSync.NewerRowsAreWritable` | crates/opca-core/src/services/database/mod.rs:1284-1300 | never putting an older row over a newer keeps every write harmless and the cursor from falling back |
| `IssuedSync.CappedRow` | crates/opca-core/src/services/acme_broker/mod.rs:371-415 | the answer to a revocation is written whole but for its change, the lesser of its own and the cursor |
| `IssuedSync.CursorMissesNothing` | crates/opca-core/src/services/database/mod.rs:1276-1282 | over every orderly run, overlapping calls included, each certificate of the enrolment's issuers changed up to opCA's cursor is held as the broker has it |
| `IssuedSync.LastPageCompletes` | crates/opca-core/src/services/acme_broker/mod.rs:182-192 | a sync whose last page may be written, before the broker changes more and with the cursor not fallen back, holds every certificate listed |
| `IssuedSync.EmptyRestoreHidesNextCertificate` | crates/opca-acme-broker/src/acme/store.rs:963-1024 | after restoring a capture without certificates the next one issued is on no page past any cursor that had seen one |
| `IssuedSync.LateAnswerLosesRevocation` | crates/opca-tauri/src/commands/broker.rs:128-160 | a run of two overlapping syncs that leaves a revoked leaf unrevoked in opCA's copy, behind its cursor |
| `Restore.State.Apply` | crates/opca-acme-broker/src/backup.rs:131-180 | succeeds exactly when nothing is blocked and nothing it needs fails, changing and reporting just the wanted sections; failing, it changes nothing unless the commit failed and the file could not be put back |
| `Restore.State.ReplaceFrom` | crates/opca-acme-broker/src/acme/store.rs:935-952 | the rows are swapped exactly when staging, the closure and the commit all succeed |
| `Restore.State.WriteEnrolment` | crates/opca-acme-broker/src/backup.rs:151-157 | `written` is set exactly when the file was replaced |

## Left out

- VaultLockProtocol.MutualExclusion: assumes that every note carries a server stamp, stamps rise strictly in creation order, a create is visible to later lists, and one clock is shared; with mixed or equal stamps contenders rank differently and exclusion is not claimed.
- CrlKeeper.NoRevocationIsLost: not over runs with a late write below the CRL on disk, or a restart before an answered revocation is there, since it is false for them. Earlier enrolments' leaves are in the database, and a new subordinate's serial is taken to be none that one of them was issued under.
- CrlKeeper.CrlsMoveForward: over the same runs, without restores. The check of the files reads both at once.
- CrlTiming.CrlStaysFresh: the time from the loop's wake-up to the end of its check is bounded by the parameter `latency`.
- Enrolment.EnrolmentSpendsItsCode: over runs without restores, since a restore leaves the code pending.
- Enrolment.LeavesStayOurs: over runs without restores; `OrphansExactlyWhen` says which restores orphan a leaf.
- AcmeOrders.EveryCertifiedNameWasProven: over runs in which no restore replaces the tables, as is every run of `AcmeOrders` and `AcmeOutcomes`.
- IssuedSync.CursorMissesNothing: not over runs with a write that `WriteKeepsGoodExactlyWhen` says spoils the copy, or a restore that empties a table that held certificates, since it is false for them; a renewed chain's serial joins the list before anything of it is in the table.
- Settings.CanonicalKeysAreStable: for accounts whose user UUIDs are trimmed and each name one row; texts are ASCII.
- CrlBatch.PublishedStaysInWindow: from a published CRL numbered below the first batch, as opCA's counter makes it.
- TLS, X.509, JWS and key operations: abstract (a chain certifies a key, a signature verifies, a CSR is readable).
- `check_config` is a yes or no to a chain update; the comparison of name constraints is not modelled.
- The one-time code is pending with attempts left, or spent; its hashing and file format are not modelled.
- Challenge validation over the network, HTTP routing, JSON shapes and problem documents.
- `set_order_status`, which only tests call, accounts, contacts, key changes and external account bindings.
- `check_capture`, `stage_acme` and the capture's encoding, beyond what a restored enrolment may be.
- `account_key`, `account_label` and the settings file; `newest`, `counts` and `snapshot`.
- The Slack message, the other Lambda checks, S3, the 1Password client, the command line, and the user interface.
- SANs are a set, so the order in which a certificate lists them is not modelled; byte lengths are character counts, names being ASCII.
- Bit operations in `base64url` are written as arithmetic; `u32`, `u64` and `i64` ranges are modelled only where they matter (the lock's TTL, the carry of `decimal`, the decoder's buffer).
