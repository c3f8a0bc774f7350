# UniTrack backend: verified model

A Dafny model of five stateful parts of the campus-bus backend and proofs of what they promise over every run:

1. **Refresh-token rotation**: any number of interleaved `refresh` calls over a store with expiring keys and an explicit clock.
2. **The boarding ledger**: rotating QR codes, per-item sync, ride deduction, duplicate detection, and the fraud sweep.
3. **Arrival estimates**: progress along a route carried between passes, and the arrival board built from it.
4. **Order settlement**: browser return, IPN, reconciler and checkout retry acting on one order table.
5. **Trip binding**: the active-trip cache in front of the trips table, and GPS ingest.

`dafny verify dfyconfig.toml` checks the whole project.

## How it is built

Each part has three layers. Values and functions say what one operation does (`Revocation`, `Ledger`, `EtaProgress`,
`Settlement`, `Trips`, ...). A state machine over those functions gives the runs (`Rotation`, `LedgerRuns`, `EtaPasses`,
`Payments`, `TripRuns`) with an inductive invariant, and the `...Guarantees` modules prove the promises from it. Beside
them a class holds the tables and keys as fields and its methods follow the handlers statement by statement, loops
included (`AuthService`, `LedgerService`, `EtaArrivals`/`EtaEngine`, `ShopService`, `TripService`); each method is
proved against the functions the state machine uses, or, where a handler is several steps of it, against a function
shown to be a run of it (`ShopRuns`), so what is proved about runs holds of the methods. What the deciding functions
decide is stated a second time without them, in the constants, texts, times and distances of the source
(`MintGuarantees`, `SettlementGuarantees`, `Reports`, `Reconciler`, `EtaTimes`, `RefusedIff`, `StartedIff`).

| module | source | content |
|---|---|---|
| `Revocation`, `Rotation`, `RotationGuarantees`, `MintGuarantees`, `LogoutGuarantees`, `AuthService` | `app/core/revocation.py`, `app/api/routes/auth.py` | denylist, rotation records, the five-step call, its interleavings |
| `Text`, `BoardingQr` | `app/services/boarding.py` | decimal and base64url text, build, parse, verify, freshness |
| `Ledger`, `LedgerRuns`, `LedgerGuarantees`, `SweepGuarantees`, `LedgerService` | `app/services/redemption.py`, `app/api/routes/boarding.py`, `app/worker/fraud_sweep.py` | the books, one item, a batch, a sweep |
| `EtaProgress`, `EtaPasses`, `EtaArrivals`, `EtaGuarantees`, `EtaTimes`, `EtaEngine` | `app/services/eta.py`, `app/worker/eta_engine.py` | progress, passes, the board |
| `Money`, `Decimals`, `Settlement`, `Payments`, `PaymentGuarantees`, `PaymentRaces`, `SettlementGuarantees`, `Reports`, `Reconciler`, `ShopService`, `ShopRuns` | `app/core/sslcommerz.py`, `app/services/settlement.py`, `app/api/routes/shop.py`, `app/worker/payment_reconciler.py` | amounts, answers, transactions, handlers overlapping or not, and what each leaves in the tables, told from the gateway's own words |
| `Trips`, `TripRuns`, `TripGuarantees`, `TripService` | `app/services/trip.py`, `app/api/routes/helper.py` | trips, cache, ingest |
| `Base`, `Runs`, `Rounding`, `Sorting` | | options, finite runs, Python's `round` and `sorted` |

## What the proofs show about the code

- **Rotation is exactly as safe as calls are quick.** One token is exchanged for one pair under every interleaving if and
  only if every call finishes within half of `ROTATION_GRACE_S` (`HalfTheGraceIsExact`); `TwoPairsWhenSlow` gives the
  run with two pairs for any larger bound.
- **"Already recorded" is not always true.** The batch handler reads every integrity error as a repeated boarding
  (`app/api/routes/boarding.py:259-265`). A boarding that names a trip that does not exist fails on the foreign key, is
  answered "already recorded", and is kept nowhere (`UnknownTripLeavesNoTrace`). `AcceptedIsRecorded` says exactly when an
  accepted item is on record.
- **Duplicates of a used-up ticket lead nowhere.** They are filed as evidence for the sweep
  (`app/services/redemption.py:155-160`), but the sweep reads active tickets only (`app/worker/fraud_sweep.py:69`).
  `EvidenceLeadsToSuspensionIff` gives the exact condition and `EvidenceCanLeadNowhere` a ledger that fails it.
- **A logout need not end the session.** It kills the one refresh token it is given. With one holder already on a newer
  token, logging out with the older ends nothing (`LogoutCanEndNothing`), and an exchange of the newest that has passed
  its revocation check outruns any logout (`LogoutCanBeOutrun`). `LogoutEndsSessionIff` and `LogoutIsFinalIff` give the
  exact conditions for every token and every reachable state.
- **A late report can overwrite a paid order.** `LateFailureOverwritesPaid` is a reachable state of overlapping handlers
  with a ticket on a `failed` order; `CommitKeepsEquivalenceIff` says which commits break "paid exactly when ticketed".
  With handlers one at a time the equivalence always holds (`PaidExactlyWhenTicketed`).
- **A refused pass is not "nothing to fix"** (`app/worker/payment_reconciler.py:169-172`). A checkout overlapping a payment
  can leave a ticketed order pending (`LateCheckoutReopensPaid`); any pass that then hears it paid commits nothing, and
  the other orders in that pass are left as they were (`HearingUndoesThePass`).
- **An answer is not tied to an order.** The same passing answer pays a second order it is reported for if and only if
  the two cost the same (`OneAnswerPaysTwoIff`).
- **An unverified report can put an order out of the reconciler's reach** once the row holds a gateway answer, such as one
  held for review: `LostByCommitIff` says exactly when, under any interleaving, and `HeldOrderIsLost` shows it with
  handlers one at a time. An order out of reach is always paid or answered (`OutOfReachMeansPaidOrAnswered`).
- **Carried progress can keep a later arrival time.** Pass by pass the furthest stop is always right; the arrival time
  equals that of one pass over everything exactly unless an older fix at the current stop turns up late (`PassAgreesIff`,
  `LateFixKeepsLaterArrival`).
- **The cached trip's expiry stops nothing.** `app/core/redis.py:81-84` says the expiring key keeps a forgotten trip from
  collecting fixes for days; in the code the next batch reads the table, caches the trip again and is filed under it
  (`ForgottenTripStillCollects`). The model follows the code.

## Model

| member | source | states |
|---|---|---|
| Revocation.TtlSeconds | app/core/revocation.py:99-106 | A denylist entry lives at least one second and never less than the token does |
| Revocation.RevocationIsFinal | app/core/revocation.py:109-124 | Once revoked, a token is revoked or expired at every later instant |
| AuthService.Store.IsRevokedStrict | app/core/revocation.py:136-142 | Answers whether a denylist entry is live now |
| AuthService.Store.RecallRotation | app/core/revocation.py:86-96 | Answers the live rotation record, if there is one |
| AuthService.Store.ClaimRotation | app/core/revocation.py:60-83 | SET NX EX: the first claimant's pair is stored and it gets none back; others get what is recorded when they read |
| AuthService.Store.RevokeToken | app/core/revocation.py:109-124 | Adds exactly this token's denylist entry, for its remaining life |
| AuthService.Store.Refresh | app/api/routes/auth.py:394-447 | Leaves the store, and answers its caller, as the lone run of one protocol call does, from any surrounding state; a pair it mints lives 15 minutes and 30 days from its minting, and its record a minute from its claim |
| MintGuarantees.PairsAreMintedWhole | app/core/security.py:50-70 | In every reachable state, for any time bound, each pair a call holds, lost or returned was minted at one instant within that call's time: its access token ends 15 minutes later, its refresh token 30 days later |
| AuthService.Store.LogoutSession | app/api/routes/auth.py:450-473 | Revokes the access token, and the refresh token when it decodes and is the caller's own; both, under their two ids, are dead at every later instant |
| Rotation.NextInv | app/api/routes/auth.py:420-447 | With calls under half the grace period every step keeps the invariant: records belong to a winner that revokes, ids are fresh, tokens chain |
| Rotation.RecordStillLive | app/api/routes/auth.py:435-440 | When a timely call claims or reads, a record already made for its token cannot have expired yet |
| Rotation.ReachableInv | app/api/routes/auth.py:420-447 | The invariant holds in every reachable state |
| RotationGuarantees.OnePairPerToken | app/api/routes/auth.py:420-447 | Over every run, all callers that presented one token and were answered hold the same pair |
| RotationGuarantees.TokensFormOneChain | app/api/routes/auth.py:433-447 | The refresh tokens handed out after one login are distinct and each has at most one successor |
| RotationGuarantees.OlderTokenIsDead | app/api/routes/auth.py:435-447 | With no call in flight every token but the newest is revoked or expired |
| RotationGuarantees.QuietLeavesOneUsable | app/api/routes/auth.py:433-447 | With no call in flight at most the newest token can still be exchanged |
| LogoutGuarantees.EndOfTheLineIff | app/api/routes/auth.py:420-447 | In every reachable state: no continuation hands out another refresh token if and only if the newest is dead and nobody is exchanging it |
| LogoutGuarantees.OverIff | app/api/routes/auth.py:420-473 | In every reachable state: no token ever handed out can be exchanged in any continuation if and only if none can now and nobody is exchanging the newest |
| LogoutGuarantees.LogoutKillsOne | app/api/routes/auth.py:467-473 | A logout makes the refresh token it is given unusable, leaves every other as it was and stops no exchange under way |
| LogoutGuarantees.LogoutEndsSession | app/api/routes/auth.py:450-473 | With no call in flight, logging out with the newest token ends the session for good |
| LogoutGuarantees.LogoutEndsSessionIff | app/api/routes/auth.py:450-473 | Logging out with any held token ends the session for good if and only if no other token of it can be exchanged and nobody is exchanging the newest |
| LogoutGuarantees.LogoutCanBeOutrun | app/api/routes/auth.py:420-447 | With an exchange of the newest token in flight, however far along, some continuation of any logout hands out one more token that can be exchanged |
| LogoutGuarantees.OlderLogoutEndsNothing | app/api/routes/auth.py:467-473 | So does some continuation of a logout with an older token while the newest can be exchanged |
| LogoutGuarantees.LogoutCanEndNothing | app/api/routes/auth.py:450-473 | A reachable state, written out, with nothing in flight: one holder has refreshed, the other logs out with the old token, and the session goes on |
| LogoutGuarantees.LogoutIsFinalIff | app/api/routes/auth.py:420-473 | Logging out with any held token ends the handing out of tokens if and only if nobody is exchanging the newest and the token given is the newest, or the newest is dead anyway |
| RotationGuarantees.GraceWindow | app/core/revocation.py:86-96 | A caller that finds its token revoked gets the same replacement as everyone else exactly while the grace period since the claim lasts; a revoked token without a record was logged out |
| RotationGuarantees.TwoPairsWhenSlow | app/core/revocation.py:46-49 | For any larger time bound a reachable state has one token exchanged for two different pairs |
| RotationGuarantees.HalfTheGraceIsExact | app/core/revocation.py:46-83 | Rotation is safe in every reachable state if and only if calls finish within half the grace period |
| Text.SplitJoin | app/services/boarding.py:115-137 | Splitting what was joined gives the parts back when none contains the separator |
| Text.ParseIntRoundTrip | app/services/boarding.py:138-143 | A rendered integer reads back, negative ones included |
| Text.StripTrims | app/core/sslcommerz.py:207-210 | Only space is dropped around a number's text, all of it, at both ends |
| Text.B64RoundTrip | app/services/boarding.py:187-192 | Padded base64url (section 5 of RFC 4648) reads back for every byte string |
| BoardingQr.VerifyQr | app/services/boarding.py:159-184 | An accepted code reads as the payload returned, its signature verifies over it, its slice is fresh, and it carries 1 to 60 passengers and separator-free ids |
| BoardingQr.ParseAfterBuild | app/services/boarding.py:115-156 | A built code reads back as its payload and the signature made for it; with no passenger or more than sixty it is refused for that |
| BoardingQr.VerifyAfterBuild | app/services/boarding.py:159-184 | A built code verifies under the matching key exactly while its slice is fresh, and is otherwise refused as expired; however well signed, only for 1 to 60 passengers |
| BoardingQr.SigningBytesInjective | app/services/boarding.py:79-89 | Different payloads are signed over different text |
| BoardingQr.AcceptedWasIssued | app/services/boarding.py:159-184 | If only issued payloads' texts verify under a key, every accepted payload was issued: no field can be edited |
| BoardingQr.FreshnessWindow | app/services/boarding.py:104-105 | A code is fresh whenever the clocks are within 30 s of each other and never from 60 s on |
| BoardingQr.FreshnessBoundsAreTight | app/services/boarding.py:41-47 | For every gap strictly between, one code is fresh and another is not |
| Ledger.Lookup | app/services/redemption.py:141-144 | Some row with the nonce, whichever the unordered query returns; none only if there is none |
| LedgerService.Database.RedeemCode | app/services/redemption.py:107-194 | The handler's decision is the model's, read from the tables and writing none of them |
| LedgerService.Database.SyncRedemptions | app/api/routes/boarding.py:195-267 | A batch leaves the books and gives the answers of its items taken in order, each committed or rolled back alone |
| LedgerService.Database.SweepOnce | app/worker/fraud_sweep.py:77-118 | One pass leaves the books as the model's sweep; its tally counts the groups and the alerts added |
| LedgerRuns.StagedRow | app/services/redemption.py:152-192 | A staged boarding is on a known, not suspended ticket, clean exactly on a first sighting, and then deducted in full: the floor at zero never changes the result |
| LedgerRuns.BalanceKept | app/services/redemption.py:187-192 | Committing a staged boarding keeps every ticket balanced |
| LedgerRuns.DisciplineKept | app/services/redemption.py:141-185 | Committing it keeps one clean row per nonce and suspects from other devices after it |
| LedgerRuns.SweepInv | app/worker/fraud_sweep.py:85-115 | A sweep keeps the ledger's invariant |
| LedgerRuns.NextInv | app/services/redemption.py:139-194 | Issue, sync and sweep all keep the ledger's invariant |
| LedgerGuarantees.RidesConserved | app/services/redemption.py:187-192 | In every reachable ledger rides sold are rides left plus passengers boarded cleanly, and a ticket is exhausted exactly at zero |
| LedgerGuarantees.OneCleanRowPerNonce | app/services/redemption.py:141-185 | A recorded nonce has exactly one clean row, its first; all others are suspects, all its rows come from different devices, and counting flagged rows misses exactly one device |
| LedgerGuarantees.OneAlertPerSuspension | app/worker/fraud_sweep.py:84-115 | In every reachable ledger a suspended ticket has exactly one alert and any other has none |
| LedgerGuarantees.ResyncChangesNothing | app/api/routes/boarding.py:229-265 | Re-submitting what a device already reported changes nothing, whichever row the lookup returns |
| LedgerGuarantees.ResyncAfterAnyRun | app/services/redemption.py:146-150 | Nor does it after any run of issues, syncs and sweeps in between |
| LedgerGuarantees.ResyncBatchChangesNothing | app/api/routes/boarding.py:212-267 | Nor does a whole batch of such items, in any order |
| LedgerGuarantees.OwnResyncIsAccepted | app/services/redemption.py:146-150 | A device's repeat of a code still fresh is answered as recorded, with its own row if the look-up finds it, and changes nothing |
| LedgerGuarantees.AcceptedIsRecorded | app/api/routes/boarding.py:259-265 | An accepted item is on record if and only if it was before or its trip is absent or real |
| LedgerGuarantees.UnknownTripLeavesNoTrace | app/api/routes/boarding.py:229-265 | A genuine boarding under a trip that does not exist is answered "already recorded" and changes nothing |
| LedgerGuarantees.GenuineCodeBoards | app/services/redemption.py:107-194 | A fresh code with room, of a ticket neither withdrawn nor out of its time, boards: exactly one clean row, the group deducted, the ticket closed exactly at none left, nothing else touched |
| LedgerGuarantees.RefusedIff | app/services/redemption.py:48-104 | A genuine fresh code is refused if and only if its ticket is revoked, suspended, out of date, past its end or before its start, or on a first sighting short of rides; each for its own reason, changing nothing |
| LedgerGuarantees.BoardedInTime | app/services/redemption.py:65-68 | In every reachable ledger each boarding was synced between its ticket's start and end |
| LedgerGuarantees.SecondDeviceIsSuspect | app/services/redemption.py:152-192 | The same code, still fresh, from a device that has not reported it appends exactly one suspect row and touches no ticket, rides left or not |
| LedgerGuarantees.RefusedItemsDoNotMatter | app/api/routes/boarding.py:206-210 | Dropping refused items from a batch changes neither the books nor any other answer |
| LedgerGuarantees.RowsOnlyGrow | app/api/routes/boarding.py:212-267 | No run of the ledger removes or rewrites a row |
| LedgerGuarantees.BatchIsARun | app/api/routes/boarding.py:195-267 | A batch is a legal run of one sync step per item |
| SweepGuarantees.SweepSuspends | app/worker/fraud_sweep.py:84-96 | A pass suspends exactly the active tickets it was shown and changes nothing else about any ticket or row |
| SweepGuarantees.OffendingIff | app/worker/fraud_sweep.py:49-74 | A group is looked for exactly when its ticket is active and two rows carry the nonce from different devices, whatever their flags |
| SweepGuarantees.SweepClears | app/worker/fraud_sweep.py:49-74 | A pass clears exactly the groups of the tickets it was shown, at least as many as the query returned |
| SweepGuarantees.PassesShrink | app/worker/fraud_sweep.py:72-74 | n passes with no boarding in between clear at least 100 n groups, or all |
| SweepGuarantees.SweepConverges | app/worker/fraud_sweep.py:49-118 | Enough passes leave no active ticket with two rows of one nonce from different devices |
| SweepGuarantees.OneAlertPerTicket | app/worker/fraud_sweep.py:84-107 | A pass raises one alert per distinct ticket however many groups name it and none for any other, each with the exact number of devices that reported the code it was shown for |
| SweepGuarantees.EvidenceLeadsToSuspensionIff | app/worker/fraud_sweep.py:49-118 | In every reachable ledger, after enough passes a code with two rows from different devices has its ticket suspended with one alert if and only if the ticket was not used up when they began |
| SweepGuarantees.ExhaustedIsFinal | app/worker/fraud_sweep.py:62-74 | No step changes an exhausted ticket or alerts on it |
| SweepGuarantees.LastRideThenSecondDevice | app/services/redemption.py:155-160 | In any ledger, a ticket's last rides on one device and then the same code from another are both accepted and leave it used up with two devices on record |
| SweepGuarantees.EvidenceCanLeadNowhere | app/worker/fraud_sweep.py:69 | A reachable ledger, written out, with a used-up ticket and one code on two devices |
| EtaProgress.AdvanceProgress | app/services/eta.py:180-223 | The nested loops compute the fold over time-ordered fixes and stops, and meet the closed form |
| EtaProgress.OverStopsClosedForm | app/services/eta.py:212-221 | One fix moves progress to the furthest new stop it hits, stamped with its time |
| EtaProgress.OverFixesClosedForm | app/services/eta.py:207-223 | Time-ordered fixes move it to the furthest new stop hit, stamped with the earliest hit there |
| EtaProgress.AdvanceClosedForm | app/services/eta.py:180-223 | The same for fixes in any order, a hit being a distance within the radius; progress stands exactly when nothing new is hit |
| EtaProgress.OrderDoesNotMatter | app/services/eta.py:207-223 | The order and repetition of fixes and stops do not change the result |
| EtaPasses.StoredIsFurthest | app/worker/eta_engine.py:163-174 | Over every run of overlapping or repeated windows the stored stop is the furthest any fix ever seen was at |
| EtaPasses.PassAgreesIff | app/worker/eta_engine.py:163-174 | One more pass agrees with one pass over everything exactly unless the bus stays and an older arrival there turns up |
| EtaPasses.StoredIsOnePass | app/worker/eta_engine.py:163-174 | If new fixes never predate seen ones, the store equals one pass over the union, arrival time included |
| EtaPasses.LateFixKeepsLaterArrival | app/services/eta.py:212-221 | Without that condition a late, older fix at the same stop gives a different time |
| EtaTimes.SpeedExactly | app/services/eta.py:144-177 | A speed is given exactly when the newest fix is at most 5 minutes old, time passed since the oldest and the way makes 3 to 80 km/h; it is then the sum of the legs over that time |
| EtaArrivals.Monotonic | app/services/eta.py:327-351 | The loop gives every entry the latest time so far and changes nothing else |
| EtaArrivals.WalkDistances | app/services/eta.py:275-286 | The running walk gives each remaining stop its road distance from the bus, leg by leg |
| EtaArrivals.EstimateStop | app/services/eta.py:289-322 | One stop's estimate is the model's: observed speed near, timetable beyond, never before now, nothing past three hours |
| EtaArrivals.EstimateArrivals | app/services/eta.py:253-324 | The loops give the repaired list of the stops' own estimates, which `RawBoardExactly` spells out |
| EtaTimes.RawBoardExactly | app/services/eta.py:253-322 | The entries before the repair, exactly: by speed if and only if there is one, the bus is seen and fewer than two stops lie nearer, then an hour per the speed's kilometres from now; else start plus offset plus lateness; never before now; with the road distance in hundredths |
| EtaTimes.OmittedIff | app/services/eta.py:292-311 | A stop ahead is left out if and only if neither speaks for it or it is due in more than three hours |
| EtaTimes.WalkIsRoad | app/services/eta.py:275-286 | The road distance is 1.3 times the sum of the straight legs from the bus through every stop on the way |
| EtaTimes.DelayIsLate | app/services/eta.py:226-246 | Lateness is the time at the stop reached against that stop's timetable, and nothing before the first stop or where the timetable is silent |
| EtaArrivals.RemainingOrder | app/services/eta.py:249-250 | Exactly the stops beyond progress, in strictly increasing order |
| EtaGuarantees.BoardInOrder | app/services/eta.py:253-324 | Listed stops are route stops beyond progress, strictly increasing, distances never shrink, times within three hours of now |
| EtaGuarantees.ListedIffEstimated | app/services/eta.py:289-322 | A stop is listed exactly when it has an estimate, with that estimate |
| EtaGuarantees.LatestIsLeast | app/services/eta.py:327-351 | No nondecreasing times that pull no arrival earlier are anywhere below the repaired ones |
| EtaGuarantees.RepairIsLeast | app/services/eta.py:327-351 | The repair touches only times, is nondecreasing, pulls none earlier, and is the least such change |
| EtaGuarantees.LatenessCarriesOver | app/services/eta.py:226-246 | A timetable estimate is the last arrival plus the timetabled gap, whenever the trip really started |
| EtaEngine.Cache.ComputeForTrip | app/worker/eta_engine.py:156-215 | One pass moves the trip's progress to the furthest stop within 150 m of a fix, replaces its board, made for the window's last fix, if there is one to show, and touches no other trip |
| Money.RenderedReadsBack | app/core/sslcommerz.py:87-93 | A rendered paisa amount reads back exactly |
| Money.RenderedAmountMatchesOnlyItself | app/core/sslcommerz.py:187-213 | An answer with a rendered amount, in either field pair, matches that amount in that currency and nothing else |
| Money.OtherFieldsAreIgnored | app/core/sslcommerz.py:199-206 | No other field, the merchant's take included, affects the comparison |
| Money.SucceededSaysTaken | app/core/sslcommerz.py:183-184 | Money counts as taken if and only if the status reads valid or validated, letter by letter in either case |
| Money.MatchesAgrees | app/core/sslcommerz.py:187-213 | An answer matches if and only if the first filled amount field is, to the nearest paisa, the amount asked for, in the same currency whatever its case |
| Decimals.ReadsIff | app/core/sslcommerz.py:204-210 | A text reads as an amount if and only if, stripped, it is a numeral with or without a sign, and then as its positional value |
| Settlement.SuccessfulElement | app/worker/payment_reconciler.py:93-105 | The first element that is money taken with a `val_id`; none only if there is none |
| Settlement.PaidIffPasses | app/services/settlement.py:68-110 | A decision pays an unpaid order exactly when it is an answer passing all checks, and keeps that answer |
| SettlementGuarantees.AnswerSettles | app/services/settlement.py:35-110 | What any answer makes of an order and the ticket it sells, field by field, from the answer's text: paid, held or failed; that student and product, all rides, valid from now for whole days |
| SettlementGuarantees.PaidIffTheAnswerSaysSo | app/services/settlement.py:81-110 | An unpaid order becomes paid with one ticket if and only if the status reads valid or validated, amount and currency agree and the risk level is not 1; any other status fails it with none |
| SettlementGuarantees.TicketsHeardMoney | app/services/settlement.py:81-110 | Under any interleaving every ticketed order heard an answer that reads so |
| SettlementGuarantees.TicketsAreFair | app/services/settlement.py:53-64 | Under any interleaving every ticket is its order's student's and product's, sold full, for whole days |
| SettlementGuarantees.SoldIsIssued | app/services/settlement.py:53-64 | So every ticket sold with at least one ride is one the ledger takes as issued |
| Payments.NextInv | app/api/routes/shop.py:207-275 | Under any interleaving every step keeps: one ticket per order, tickets paid for, sessions that stage a ticket only on a passing answer |
| Payments.CommittedTicketPaidFor | app/services/settlement.py:107-110 | Every ticket a commit leaves belongs to an order some heard answer passed for |
| Payments.FinishSafe | app/api/routes/shop.py:266-273 | Committing or rolling back any session keeps the tables safe and every deal as agreed |
| PaymentGuarantees.TicketsArePaidFor | app/services/settlement.py:35-65 | With handlers overlapping arbitrarily no order gets two tickets, every ticketed order had a passing answer, every paid order has its ticket, keys stay unique |
| PaymentGuarantees.LoserRollsBack | app/api/routes/shop.py:266-273 | A commit is refused exactly when it would ticket an order twice, and then leaves the tables alone; otherwise its tickets' orders are paid |
| PaymentGuarantees.CommitKeepsEquivalenceIff | app/api/routes/shop.py:225-236 | "Paid exactly when ticketed" survives a commit if and only if it is refused or writes no status over an order ticketed behind its back |
| PaymentGuarantees.OutOfReachMeansPaidOrAnswered | app/worker/payment_reconciler.py:76-86 | An order the reconciler no longer selects is paid or keeps an answer the gateway gave |
| PaymentGuarantees.LostByCommitIff | app/worker/payment_reconciler.py:76-86 | Under any interleaving, a commit that brings an order no answer and no ticket takes it out of the selection if and only if it closes it while the row holds an answer, whatever the session had loaded |
| PaymentGuarantees.PaidExactlyWhenTicketed | app/services/settlement.py:81-110 | With handlers atomic an order is paid exactly when it has its one ticket, and its stored answer passes every check |
| PaymentGuarantees.PaidIsFinal | app/worker/payment_reconciler.py:166-172 | With handlers atomic no step touches a paid order and no commit, a whole pass included, is refused |
| PaymentRaces.LateFailureOverwritesPaid | app/api/routes/shop.py:227-236 | A reachable state of overlapping handlers has a ticket on a failed order |
| PaymentRaces.LateCheckoutReopensPaid | app/api/routes/shop.py:180-181 | Another has a ticket on an order the reconciler selects, left pending by a checkout that overlapped the payment |
| PaymentRaces.HearingDooms | app/services/settlement.py:107-110 | A handler that hears a passing answer for an order with a ticket stages a second one |
| PaymentRaces.DoomedCommitsNothing | app/worker/payment_reconciler.py:166-172 | Then, whatever else happens and whatever else it decides, its commit changes nothing |
| PaymentRaces.HearingUndoesThePass | app/worker/payment_reconciler.py:108-174 | So a pass that hears one ticketed order paid leaves every other order in it as it was |
| ShopService.Database.ApplyValidation | app/services/settlement.py:68-110 | Assigning field by field gives the decided order, the outcome, and a ticket exactly when the status says taken, amount and currency agree and no review is asked for |
| ShopService.Database.CommitSession | app/api/routes/shop.py:266-273 | Everything is written, or nothing when the unique constraint fires |
| ShopService.Database.Settle | app/api/routes/shop.py:207-275 | Finds the order by our own reference, or changes nothing; then settles it as one transaction |
| ShopService.Database.SettleOrder | app/api/routes/shop.py:225-275 | Leaves the tables as one report's transaction, as `ReportLeft` spells out; each reply means one thing; a lost race changes nothing |
| ShopService.Database.SettleAnswered | app/api/routes/shop.py:252-275 | Settles by the gateway's answer, filling in a missing `val_id` |
| Reports.ReportLeaves | app/api/routes/shop.py:225-275 | The tables after a report: untouched for a paid order, closed as a text reading cancelled or failed says, untouched without handle or answer, else that one order settled and ticketed by the answer, unless it has a ticket already |
| ShopService.Database.ReconcileOrder | app/worker/payment_reconciler.py:116-164 | One order's decision, ticket and whole tally within a pass |
| ShopService.Database.ReconcileOnce | app/worker/payment_reconciler.py:108-174 | A pass is one transaction over the selected orders; over distinct orders it leaves every row and ticket as `PassLeft` spells out if no due order has a ticket already, else nothing, and each tally field counts the orders of its case |
| Reconciler.TurnDecides | app/worker/payment_reconciler.py:116-164 | One order's row: as it was with the gateway out of reach, or no usable success and less than a day old; failed, or still cancelled, from 24 hours on; else settled by the first usable success |
| Reconciler.PassLeaves | app/worker/payment_reconciler.py:108-172 | A pass over distinct orders commits if and only if no due order has a ticket, leaves every row so and adds one ticket for each due order; otherwise it changes nothing |
| Reconciler.PassTallies | app/worker/payment_reconciler.py:110-164 | The tally counts the orders due, given up, paid the wrong money and left open by what the gateway's records say |
| ShopService.Database.CreateOrder | app/api/routes/shop.py:102-151 | A key in use gives back its own order and makes none; a new key makes one at today's price, or none; a key taken while inserting gives the rival's order; keys stay unique |
| ShopService.Database.LoseInsertRace | app/api/routes/shop.py:143-148 | A refused insert leaves the rival's order alone in the table and opens its session |
| ShopService.Database.OpenCheckout | app/api/routes/shop.py:154-190 | Opening a session makes the order pending; failing to leaves it as it was |
| ShopRuns.ReportIsARun | app/api/routes/shop.py:207-275 | A report handled alone is three steps of the protocol |
| ShopRuns.PassIsARun | app/worker/payment_reconciler.py:108-174 | A whole reconciler pass is a legal run of the protocol ending in one commit |
| ShopRuns.HeldOrderIsLost | app/api/routes/shop.py:227-236 | Even with handlers atomic: for any answer held for review, an unverified FAILED report after it leaves the order closed with that answer and no ticket |
| ShopRuns.SomeOrderIsLost | app/worker/payment_reconciler.py:76-86 | So a reachable state has an order no pass selects, neither paid nor refused by the gateway |
| ShopRuns.OneAnswerPaysTwoIff | app/services/settlement.py:68-110 | Even with handlers atomic: an answer that pays one order and is reported for another unpaid one pays and tickets that too if and only if amount and currency are the same |
| ShopRuns.CheckoutIsARun | app/api/routes/shop.py:154-190 | Opening a session for an unpaid order is a retry run alone, and changes its status only |
| ShopRuns.PurchaseIsARun | app/api/routes/shop.py:125-151 | A purchase under a new key is a run of the protocol: one insert, then a checkout when a session opens |
| Trips.LiveTrip | app/services/trip.py:215-217 | A live trip of the helper, or none when there is none |
| Trips.Newest | app/api/routes/helper.py:260 | The first of the latest fixes |
| TripGuarantees.HistoryIsWhatWasAcknowledged | app/api/routes/helper.py:260-306 | Over every run the fixes filed under a trip are exactly the batches acknowledged for it, in order: none lost, added or moved |
| TripRuns.NextInv | app/services/trip.py:76-164 | Starts, ends, look-ups, batches, edits, time and evictions keep: no overlapping trips, a true cache, bound fixes and positions |
| TripRuns.CachedIsTable | app/services/trip.py:145-164 | Whatever is cached, the look-up answers what the table says |
| TripRuns.OneLive | app/models/fleet.py:138-148 | A helper has at most one live trip |
| TripGuarantees.CacheIsInvisible | app/services/trip.py:145-164 | Over a whole run with any evictions, tables, stream and live map are those of the service without a cache |
| TripGuarantees.CacheChangesNoReply | app/services/trip.py:145-164 | And so is every reply along the run |
| TripGuarantees.CacheNeverLies | app/services/trip.py:145-164 | In every reachable state the look-up equals the plain table answer |
| TripGuarantees.OneTripAtATime | app/models/fleet.py:134-148 | At no instant, past or present, is one bus or one helper on two trips |
| TripGuarantees.StartedIff | app/services/trip.py:76-119 | In every reachable state a start is refused as a bad target if and only if bus or route is unknown or inactive, as a conflict if and only if bus or helper is on a trip that has not ended; else it leaves one new trip and its cached copy |
| TripGuarantees.EndedIff | app/services/trip.py:122-142 | An end closes the helper's one trip that has not ended, as of now, and drops it from the cache; it finds none if and only if all have ended |
| TripGuarantees.EveryFixHasItsTrip | app/api/routes/helper.py:282-296 | Every message on the stream names a trip of that helper on that bus that was running, or had ended at most 12 hours before |
| TripGuarantees.LiveMapShowsRunningBuses | app/api/routes/helper.py:267-281 | A bus shown on the live map is on that trip or ended it less than a minute ago |
| TripGuarantees.AcceptedExactlyFor | app/api/routes/helper.py:231-258 | A batch is taken exactly for the live trip's bus or, without one, a bus finished within 12 hours; each refusal means one thing |
| TripGuarantees.FiledWholeOrNotAtAll | app/api/routes/helper.py:260-306 | A batch files all its fixes in order under the trip it answers with, or nothing; the live map moves only for a live trip |
| TripGuarantees.OutboxDrainsToItsTrip | app/services/trip.py:167-212 | After a trip that lasted any time ends, its leftover fixes are filed under that very trip for 12 hours, over any run in which its helper starts no other |
| TripGuarantees.ForgottenTripStillCollects | app/core/redis.py:81-84 | The cache entry's expiry stops no fix: over any run in which the helper does not end the trip, however long, the next batch is filed under it and leaves it cached |
| TripService.Service.StartTrip | app/services/trip.py:76-119 | Row and cached copy as the model says, or a refusal that changes nothing |
| TripService.Service.LiveTripFromDb | app/services/trip.py:215-217 | The one live trip, or none |
| TripService.Service.EndTrip | app/services/trip.py:122-142 | Completes the live trip now and drops its cached copy, or changes nothing |
| TripService.Service.GetActiveTrip | app/services/trip.py:145-164 | Answers what the table says and leaves the cache as the model does |
| TripService.Service.IngestGps | app/api/routes/helper.py:196-306 | Binds and writes a batch as the model does, keeping the invariant |
| TripService.Service.Write | app/api/routes/helper.py:260-297 | The loop writes exactly one entry per fix, and position and message only when live |

## Left out

Rotation
- Redis and database failures: `revoke` swallows an error and the token then stays exchangeable; the strict check that reports an outage as "revoked" is not modelled either.
- Calls are assumed to finish in time; a process that dies between claim and revoke is a call that never finishes.
- One login's tokens at a time; other sessions use other ids. Access tokens' denylist entries appear in `LogoutSession` but not in the protocol state.
- JWT decoding is the claims it yields; a token without a `jti` or of another type is one that does not decode. Decoding and the denylist check are one step.

Boarding
- Ed25519 (section 5.1 of RFC 8032) is any scheme in which a signature verifies under the signer's public key; key generation and nonce randomness are inputs.
- Text that is not what `build_qr` writes: `int()` and the lenient base64 decoder are modelled for ASCII, and non-ASCII digits are not read.
- Ticket ids are compared as text; other spellings of one uuid are not identified. Column widths are not modelled.
- One item is one atomic step: the duplicate check and the deduction are a read followed by a write, so nothing is claimed about two overlapping transactions.
- Freshness uses the clock at sync, as the code does; nothing is claimed about codes synced later than that.
- The offline manifest, wallet pages and an admin lifting a suspension.

Arrival estimates
- Distance is any function of two points (nonnegative where order matters); no trigonometry. Times and distances are exact reals, `round(x, 2)` rounds exact numbers half to even.
- The stored progress is taken to survive: its 30-minute expiry, and the board's, are left out, as are unreadable stored values.
- The search query and its limit of 200 fixes, `eta_minutes`, `compute_once`.

Settlement
- Amounts are read over exact decimals: exponents, infinities, underscores and binary rounding are not modelled.
- The gateway is the answer it gives; session creation succeeds or fails. Nothing ties an answer to a `tran_id`, in the code or here (`ShopRuns.OneAnswerPaysTwoIff`), so money facts are stated per order.
- Which 50 of the open orders a pass selects, and so whether it ever reaches a given one.
- Products are never deleted; refunds; the ticket's key pair.

Trips
- Handlers are atomic, with the cache entry free to vanish between any two: a look-up that refills the cache while the trip ends can cache a finished trip, and that interleaving is not modelled.
- Trips.LatestDraining: of several trips that ended at one instant the database may answer any; the query's answer is an input.
- Cached JSON, service dates, seat reports and alerts; delivery of the stream to the indexer.
- A batch is never empty, as its schema demands; the schema's ranges for coordinates play no part.

Elsewhere
- HTTP, authentication dependencies, schemas, email, WebSockets, rendering, migrations and scripts; catalogue and fleet editing beyond what the machines above need.
