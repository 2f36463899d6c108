# AirCoins paid-session engine: verified model

AirCoins sells internet access by the minute: coins dropped into a slot, or a voucher code, become
a timed session of one device, and the captive rules let that device's MAC through while its session
runs. This project models the part that turns payments into time, and proves what it keeps over
whole runs. Verify everything with `dafny verify dfyconfig.toml`.

| module | models |
|---|---|
| `Sessions`, `SessionStore` | the sessions table, the handlers that step it and the authorised MACs |
| `SessionLaws` | each session step in terms of the columns alone |
| `SessionAccess` | the authorised MACs against the table; expiry and pausing over runs |
| `SessionLedger` | the account of every paid second over runs, and exactly when one is lost |
| `AccessLedger`, `DeviceLedger` | the time rows and devices are let through against what was paid |
| `CoinLedger`, `PaymentDesk` | coin events, the markers of the coin slot, the start handler end to end |
| `ArmedWindow`, `CoinLanes` | which coins a Start finds after any run, and whose they are |
| `Pricing`, `PricingTable` | tier selection, scaled credit, the preview, the browser's copy, the table's writes |
| `PayLock`, `PayLockRegistry` | the pay lock of a VLAN with tickets and watchdogs over timed runs; the registry that takes them |
| `Vouchers` | redemption under interleaving, together with the sessions it credits |
| `TapLimiter` | the tap counter and the bans |
| `Dhcp`, `DnsWatch`, `Text`, `ConfigFiles` | DHCP ranges, the DNS watcher, bridges.conf and portals.conf |
| `Clock`, `Arithmetic`, `Options` | the time unit, facts about products and floors, optional values |

How to read it. Transitions are functions on values (`Step`, `Next`, `Credited`, ...); runs are
sequences of steps; the theorems quantify over all runs. The handlers that update state are methods
of classes, each proved to take exactly such a step. What a step reads and writes is said once more by
a law (`PauseLaw`, `CreditLaw`, `TicketLaw`, `ArmLaw`, ...) that does not use its definition. Times are integers in microseconds on one clock
shared by the API and the database. Tables are maps and sequences, a transaction is all or nothing,
and a unique index is a condition under which a transaction aborts. A MAC is the empty string when
it cannot be resolved; a resolved MAC is never "-", so the index predicate reduces to "not empty".
The three pause columns of a session are one optional value, since every handler sets and clears
them together. What the code cannot decide by itself is a parameter: the outcome of a ban query, a
generated token or ticket, whether the coin slot is fitted and its marker files can be written, the
row picked among sessions started at the same instant, the DNS readings.

Where the code differs from what is said about it, the model follows the code:

- Time that is credited or extended while a session is paused goes into its total but not into the
  snapshot that Resume uses (`TimeAddedWhilePausedIsLost`, `StrandedMinuteRun`).
- A payment for a paused session whose original expiry has passed does not find it as a live session
  and overwrites it, so all it was owed is lost (`StepLosesIff`, `OverwrittenHourRun`). The other ways
  to forfeit owed time are to be ended and to stay paused beyond the deadline.
- The clock of a running session goes on during a power cut; the account books that time as `outage`.
- Extending, prolonging or migrating a paused session authorises its MAC although it stays paused, with
  no bound on the time (`PausedRowIsOpenedForGood`). A payment that finds a session by address can
  authorise a device whose own session has ended, or leave the session's former MAC authorised
  (`CallerWithoutRunningRowIsAuthorised`, `OldMacStaysAuthorised`), with no bound on the time either
  (`AdriftForGood`). `StepAccess` has the exact condition.
- A paying customer is said never to be robbed of a coin, and the source of a coin to keep one VLAN's
  coins from crediting another VLAN's client. Pay locks are per VLAN, but the coin slot, its two markers
  and the source `local_gpio` are one for all. Arming on one VLAN moves the window of a customer who is
  paying on another past the coins already dropped (`RobbedCustomerRun`; `ArmedCoinIsReturnedIff` has the
  exact condition), and a Start then spends the other VLAN's coins (`TenDroppedRun`, `SwappedCoins`;
  `StartCreditsOnlyOwnIff` has the exact condition). Disarm on one VLAN closes the window of all.
- The migration first expires another active session of the new MAC, to make room; that row keeps its
  MAC, so the unique index aborts the migration and undoes the expiry (`MigrationIsAborted`;
  `MigrationMovesOrAborts` has the exact condition).
- The tap counter is described as a sliding window but is a fixed one (`RateBoundIsReached`).
- The boot pass of the DNS watcher is described as aligning all clients; it can never act
  (`StartDNSWatcher`).
- A batch of prices with one unacceptable request is answered as refused, yet the requests before it
  stay applied (`RefusedBatchIsPartlyApplied`; `BatchChangesNothingIff` has the exact condition).
- A DHCP start at the last host of a larger network is refused, because the end is then derived from
  the default start; a start at the network address is accepted (`LastHostIsRefused`;
  `GivenStartIsAcceptedIff` has the exact condition).

## Model

| member | source | states |
|---|---|---|
| `Sessions.CreditKeepsMacIndex` | system/usr/local/bin/aircoins-api/handlers/session.go:501-562 | In every branch of creditSession - extend with its guarded MAC update, reuse by upsert, insert - no two rows end up with the same real MAC |
| `Sessions.CreditCommitsIff` | system/usr/local/bin/aircoins-api/handlers/session.go:453-576 | creditSession is refused if and only if the caller is banned or the token it would write belongs to another row; the MAC index never refuses it |
| `Sessions.MigrationMovesOrAborts` | system/usr/local/bin/aircoins-api/handlers/session.go:145-170 | Migration moves the row exactly when no other row, active or not, carries the new MAC; otherwise the whole transaction aborts and nothing changes |
| `Sessions.OneRowPerDevice` | system/usr/local/bin/aircoins-api/handlers/session.go:523-562 | In every run of credits, extensions, ends, pauses, resumes, passes, migrations and reboots each real MAC and each token has at most one row |
| `Sessions.TokenIsPermanent` | system/usr/local/bin/aircoins-api/handlers/session.go:512-556 | No run removes a row or changes a session token that is set |
| `SessionLaws.LookupLaw` | system/usr/local/bin/aircoins-api/handlers/session.go:481-493 | A payment finds the newest active unexpired session of the caller's MAC, if it has one, or address |
| `SessionLaws.NoLookupLaw` | system/usr/local/bin/aircoins-api/handlers/session.go:523-562 | A payment that finds none overwrites the row that owns the caller's MAC, if there is one, and else is a new row |
| `SessionLaws.CreditLaw` | system/usr/local/bin/aircoins-api/handlers/session.go:501-576 | Every column a committed payment writes on the row found, overwritten or new - the caller's address and MAC, which token, which pause rules, the minutes and pesos, the expiry - and no other row |
| `SessionLaws.PauseLaw` | system/usr/local/bin/aircoins-api/handlers/session.go:1072-1152 | A pause goes through exactly for a row with a MAC that is active, unexpired, unpaused, pausable and below the limit, and then records the whole seconds left and the deadline of its rate; anything else changes nothing |
| `SessionLaws.ConsumableIsNeverPaused` | system/usr/local/bin/aircoins-api/handlers/session.go:1095-1103 | In no run is a session of a consumable rate ever paused |
| `SessionLaws.ResumeLaw` | system/usr/local/bin/aircoins-api/handlers/session.go:1181-1238 | A resume strictly after the deadline expires the row and closes its access; otherwise the row runs for what its pause recorded and its access is opened |
| `SessionLaws.EndLaw` | system/usr/local/bin/aircoins-api/handlers/session.go:912-932 | An ended row is cancelled or expired as asked, expires now and loses its access; no other row changes |
| `SessionLaws.ExtendLaw` | system/usr/local/bin/aircoins-api/handlers/session.go:860-891 | An extension adds its seconds and pesos to an active row, counting from the later of expiry and now, and opens its access |
| `SessionLaws.ExpirePassLaw` | system/usr/local/bin/aircoins-api/handlers/session.go:1311-1339 | The expiry pass expires exactly the active unpaused rows whose expiry has come, to the instant, and closes exactly their access |
| `SessionLaws.PausedPassLaw` | system/usr/local/bin/aircoins-api/handlers/session.go:1281-1304 | The other pass forfeits exactly the active paused rows whose deadline has come, to the instant, and closes exactly their access |
| `SessionLaws.RecoveryLaw` | system/usr/local/bin/aircoins-api/handlers/session.go:1349-1379 | Which MACs are authorised once the enforcer has started: those of live unpaused rows, and those authorised before that no expired row closes |
| `SessionLaws.MigrationLaw` | system/usr/local/bin/aircoins-api/handlers/session.go:125-184 | A migration moves an active row, paused or unexpired, from one MAC to another that no other row carries; in every other case nothing changes |
| `SessionStore.Latest` | system/usr/local/bin/aircoins-api/handlers/session.go:483-492 | The newest matching row, or none when no row matches |
| `SessionStore.SessionHandler.FindTarget` | system/usr/local/bin/aircoins-api/handlers/session.go:481-493 | The row a payment lands on: the newest live session of the MAC or IP, else the row that owns the MAC, else a new one |
| `SessionStore.SessionHandler.CreditSession` | system/usr/local/bin/aircoins-api/handlers/session.go:453-603 | Takes exactly the credit step, all or nothing, reports whether it committed and on which row, and then authorises the caller |
| `SessionStore.SessionHandler.Extend` | system/usr/local/bin/aircoins-api/handlers/session.go:845-896 | Adds the minutes, or the seconds when no minutes are given, to an active row from the later of its expiry and now; anything else changes nothing |
| `SessionStore.SessionHandler.End` | system/usr/local/bin/aircoins-api/handlers/session.go:899-943 | Ends the row now with the status the reason asks for and revokes its MAC |
| `SessionStore.SessionHandler.Pause` | system/usr/local/bin/aircoins-api/handlers/session.go:1058-1164 | Takes exactly the pause step of the caller's row and says which refusal is returned under which condition: no device, nothing live to pause, a consumable rate, the limit |
| `SessionStore.SessionHandler.ForceExpirePaused` | system/usr/local/bin/aircoins-api/handlers/session.go:1260-1275 | Expires an active row, clears its pause and revokes its MAC |
| `SessionStore.SessionHandler.Resume` | system/usr/local/bin/aircoins-api/handlers/session.go:1168-1251 | Takes exactly the resume step of the caller's row and says when it is forfeited, resumed with which remainder, or refused |
| `SessionStore.SessionHandler.ExpireOverdueSessions` | system/usr/local/bin/aircoins-api/handlers/session.go:1311-1344 | Expires every overdue unpaused row at once and revokes each MAC; returns how many |
| `SessionStore.SessionHandler.ExpireOverduePausedSessions` | system/usr/local/bin/aircoins-api/handlers/session.go:1281-1305 | Forfeits every paused row whose deadline has come, one after the other; returns how many |
| `SessionStore.SessionHandler.EnforcerTick` | system/usr/local/bin/aircoins-api/handlers/session.go:1381-1387 | One tick is the expiry pass followed by the paused pass |
| `SessionStore.SessionHandler.StartExpiryEnforcer` | system/usr/local/bin/aircoins-api/handlers/session.go:1349-1379 | After a reboot, or a restart with the rules still in place: both passes, then authorise what is live |
| `SessionStore.SessionHandler.MigrateSessionMAC` | system/usr/local/bin/aircoins-api/handlers/session.go:125-194 | The migration with its conflict update, the index check on commit and the change of the captive rules |
| `SessionLedger.AccountBalancesOverRuns` | system/usr/local/bin/aircoins-api/handlers/session.go:453-603 | In every state of every run, with no hypothesis, each row's account balances over all its purchases and over the current one: paid = served + owed + cut off + stranded + forfeited + lost to power cuts, the cut-off part below one second per pause |
| `SessionLedger.NeverOverServes` | system/usr/local/bin/aircoins-api/handlers/session.go:453-603 | In every run from an empty table no row runs unexpired for longer than it paid for, also together with what it still owes, over its current purchase and over all of them; this is the account of the rows, AccessIsPaidFor that of the devices |
| `SessionLedger.CommittedCreditGivesItsMinutes` | system/usr/local/bin/aircoins-api/handlers/session.go:501-576 | A committed credit adds exactly its minutes and pesos to the device's session, or starts a fresh one with exactly those, and touches no other row |
| `SessionLedger.StepLosesIff` | system/usr/local/bin/aircoins-api/handlers/session.go:533-562 | A step strands, forfeits or cuts out paid time of a row if and only if the guard of a branch that does so holds - a payment that overwrites a paused row among them - and a forfeiture takes all that was owed |
| `SessionLedger.NoLossBeyondTruncation` | system/usr/local/bin/aircoins-api/handlers/session.go:1114-1223 | In every run, a row has lost exactly what pauses cut off, less than a second each, if and only if no event of the run stranded, forfeited or cut out its time; each of the three is zero exactly when no event incurred it |
| `SessionLedger.PurchaseLosesIff` | system/usr/local/bin/aircoins-api/handlers/session.go:871-880 | The same for the current purchase of a row and the events since its last fresh start; an active purchase has forfeited nothing |
| `SessionLedger.TimeAddedWhilePausedIsLost` | system/usr/local/bin/aircoins-api/handlers/session.go:501-520 | Time added to a live purchase, by a payment or by the administrator, is owed if and only if the row is not paused; to a paused row it enters the total and changes nothing it resumes with |
| `SessionLedger.StrandedMinuteRun` | system/usr/local/bin/aircoins-api/handlers/session.go:1217-1223 | A run from the empty table in which a minute added to a paused hour, by either way, is gone when it resumes |
| `SessionLedger.OverwrittenHourRun` | system/usr/local/bin/aircoins-api/handlers/session.go:533-562 | A run from the empty table in which a payment of one minute destroys a paused hour |
| `SessionLedger.OverstayIsBoundedByTheLastPass` | system/usr/local/bin/aircoins-api/handlers/session.go:1311-1344 | In every run no session runs longer past its expiry than the time since the last pass |
| `SessionLedger.OverstayIsBoundedByTheTicker` | system/usr/local/bin/aircoins-api/handlers/session.go:1381-1392 | In every run in which time does not go past a pass that is due, no session runs more than 30 seconds past its expiry |
| `SessionLedger.AuthorisedMeansPaid` | system/usr/local/bin/aircoins-api/handlers/session.go:1311-1392 | After every orderly run each authorised MAC belongs to a running session that had not expired at the last pass |
| `SessionAccess.RecoveryAuthorisesExactlyTheLive` | system/usr/local/bin/aircoins-api/handlers/session.go:1349-1379 | Starting the enforcer revokes the overdue, authorises the live and leaves any other MAC as it was; from an empty rule set exactly the live are authorised |
| `SessionAccess.StepAccess` | system/usr/local/bin/aircoins-api/handlers/session.go:443-447 | A step keeps the authorised set equal to the MACs of active unpaused rows if and only if it does not misauthorise: extend or migrate a paused row, or prolong for a caller whose own row is not running, or a paused row, or a row taken from another device |
| `SessionAccess.OldMacStaysAuthorised` | system/usr/local/bin/aircoins-api/handlers/session.go:511-513 | A payment by address from a new device leaves the old MAC authorised though no row carries it |
| `SessionAccess.CallerWithoutRunningRowIsAuthorised` | system/usr/local/bin/aircoins-api/handlers/session.go:511-513 | A payment by address from a device whose own row has ended or is paused authorises that device though its row stays as it is |
| `SessionAccess.OldMacRun` | system/usr/local/bin/aircoins-api/handlers/session.go:483-513 | A run from the empty table for the first of these |
| `SessionAccess.EndedOwnerPays` | system/usr/local/bin/aircoins-api/handlers/session.go:483-513 | A payment for the second, from a state that EndedAndLiveIsReached reaches |
| `SessionAccess.MigrationIsAborted` | system/usr/local/bin/aircoins-api/handlers/session.go:151-170 | From that state a migration to the MAC of the ended row aborts, and it does too when that row is active and would be expired to make room |
| `SessionAccess.AccessTracksTheTable` | system/usr/local/bin/aircoins-api/handlers/session.go:1149-1238 | The authorised set equals the MACs of active unpaused rows in every state of a run if and only if no step of the run misauthorises anybody |
| `SessionAccess.PassesClearTheOverdue` | system/usr/local/bin/aircoins-api/handlers/session.go:1281-1318 | After both passes nothing overdue is active, and every row that was not overdue is unchanged |
| `SessionAccess.PausedRowsAreFrozen` | system/usr/local/bin/aircoins-api/handlers/session.go:1281-1318 | A paused row whose deadline is absent or still ahead survives any number of passes over any time and resumes with its recorded remainder |
| `SessionAccess.PauseWindowIsTheRatesHours` | system/usr/local/bin/aircoins-api/handlers/session.go:1119-1137 | A pause is forfeited exactly when the hours of its rate have passed; the recorded remainder is the time left rounded down |
| `SessionAccess.PauseLimitHoldsOverRuns` | system/usr/local/bin/aircoins-api/handlers/session.go:1105-1112 | Under a fixed positive limit no session is paused more often than the limit in any run |
| `AccessLedger.AccessIsPaidFor` | system/usr/local/bin/aircoins-api/handlers/session.go:1311-1392 | In every run the MAC of a row is let through no longer than its purchase was paid for, plus the time the row overran its expiry, plus the time it was authorised without the row running; orderly runs have none of the last, and the ticker keeps the overrun to 30 seconds, and 30 more for each extension of an overdue row |
| `AccessLedger.StepUnbacksIff` | system/usr/local/bin/aircoins-api/handlers/session.go:443-447 | From a matching state, a step leaves some row authorised without running if and only if it misauthorises and does not merely move a running row to the caller |
| `AccessLedger.PausedRowIsOpenedForGood` | system/usr/local/bin/aircoins-api/handlers/session.go:871-896 | A row paused without a deadline and then extended is let through for any length of time, through every pass, and stays owed all it was owed |
| `AccessLedger.NobodyEntitledIsShutOut` | system/usr/local/bin/aircoins-api/handlers/session.go:1149-1238 | In every run, with no hypothesis, the device of every running row is let through |
| `DeviceLedger.DeviceAccessIsPaidFor` | system/usr/local/bin/aircoins-api/handlers/session.go:1149-1392 | In every run and for every MAC, whatever rows it has had and lost: its access is exactly the service of the rows that carried it, plus their overrun, plus stray time without a running row; the service is paid for on those rows, and orderly runs have no stray time |
| `DeviceLedger.StepStraysIff` | system/usr/local/bin/aircoins-api/handlers/session.go:443-447 | From a matching state, a step leaves some MAC let through without a running row if and only if it misauthorises somebody |
| `DeviceLedger.AdriftForGood` | system/usr/local/bin/aircoins-api/handlers/session.go:1149-1238 | A MAC let through that no row carries stays so, all of the time stray, until a reboot or its own next payment or migration |
| `DeviceLedger.OldMacDriftsOn` | system/usr/local/bin/aircoins-api/handlers/session.go:511-513 | After OldMacRun, when the moved row is ended and any time and both passes go by, nobody has a session and the former device is still let through |
| `CoinLedger.Window` | system/usr/local/bin/aircoins-api/handlers/session.go:236-262 | Returns at most 200 unprocessed coins of the source and age, in id order |
| `CoinLedger.WindowMembershipIff` | system/usr/local/bin/aircoins-api/handlers/session.go:236-246 | A coin is returned exactly when it is unprocessed, of the source and recent enough, and fewer than 200 such coins come before it |
| `CoinLedger.ArmSecondLaw` | system/usr/local/bin/aircoins-api/handlers/coinslot.go:386-399 | The arm second is the one noted when that can be right, and else five minutes before the end of the window |
| `CoinLedger.SinceTheArm` | system/usr/local/bin/aircoins-api/handlers/session.go:222-234 | While the slot is armed the window reaches back to the second before the arm second, at the present fraction of a second, and otherwise for five minutes |
| `ArmedWindow.ArmedCoinIsReturnedIff` | system/usr/local/bin/aircoins-api/handlers/session.go:216-246 | After any run of arming and disarming by anybody, drops, Starts and session steps, while the slot is armed: an unprocessed coin dropped meanwhile is in a Start's window if and only if no Arm after its drop opened a window past it and fewer than 200 coins of the window come before it |
| `ArmedWindow.UnarmedCoinIsReturnedIff` | system/usr/local/bin/aircoins-api/handlers/session.go:225-246 | While the slot is not armed, a coin is in a Start's window if and only if it is unprocessed, of the source, at most five minutes old and behind fewer than 200 such coins |
| `ArmedWindow.ArmedCoinsAreCredited` | system/usr/local/bin/aircoins-api/handlers/session.go:236-262 | If nobody arms again, every coin dropped in the armed window is processed for the session of a committed Start, but for those behind 200 others, which stay as they are |
| `CoinLanes.StartCreditsOnlyOwnIff` | system/usr/local/bin/aircoins-api/handlers/session.go:213-216 | After every run from the opening of the desk, a Start of a VLAN credits only coins of its own customers if and only if no unprocessed coin of another VLAN among the first 200 is in reach: since the second before the last arm while armed, in the last five minutes while not |
| `CoinLanes.OwnArmLeavesTheSlack` | system/usr/local/bin/aircoins-api/handlers/session.go:229-234 | When the starting VLAN armed last, a foreign coin in reach dropped in the two seconds before that arm |
| `CoinLanes.LaterArmPutsItsCoinsInReach` | system/usr/local/bin/aircoins-api/handlers/coinslot.go:145-176 | When another VLAN armed last, all its unprocessed coins since are in reach, but for those behind 200 others |
| `CoinLanes.RobbedCustomerRun` | system/usr/local/bin/aircoins-api/handlers/coinslot.go:145-176 | A run in which VLAN 1 arms and drops five pesos, VLAN 2 arms half a minute later, and VLAN 1's window is empty ten seconds after that |
| `CoinLanes.TenDroppedRun` | system/usr/local/bin/aircoins-api/handlers/coinslot.go:145-176 | The same run when VLAN 2 drops ten pesos meanwhile |
| `CoinLanes.SwappedCoins` | system/usr/local/bin/aircoins-api/handlers/session.go:372-377 | At its end VLAN 1's Start buys two hours with VLAN 2's ten pesos and leaves its own five behind |
| `ArmedWindow.CoinsGoToTheFirstStart` | system/usr/local/bin/aircoins-api/handlers/session.go:578-590 | A coin goes to whoever's Start commits first with it and, whatever happens afterwards, is in no window of any Start again |
| `CoinLedger.ReadWindow` | system/usr/local/bin/aircoins-api/handlers/session.go:236-265 | The row loop returns the ids of the window and the sum of their values |
| `CoinLedger.StartIsAllOrNothing` | system/usr/local/bin/aircoins-api/handlers/session.go:578-590 | A failed Start changes neither rows nor coins; a committed one marks for its session exactly the window and leaves every other coin unprocessed or as it was |
| `CoinLedger.CreditedValueIsProcessedValue` | system/usr/local/bin/aircoins-api/handlers/session.go:456-590 | Over every run of drops, Starts, aborts and session steps, the value credited equals the value of the coins that became processed |
| `CoinLedger.EachCoinIsCreditedAtMostOnce` | system/usr/local/bin/aircoins-api/handlers/session.go:578-590 | In every run each coin is credited at most once, and is processed exactly when some Start credited it |
| `CoinLedger.StartPaysTheRate` | system/usr/local/bin/aircoins-api/handlers/session.go:384-399 | A committed Start gives the session found or the fresh one the pesos of the window and the minutes of the greatest active tier not above them, scaled and rounded down, and a fresh one that tier's pause rules |
| `CoinLedger.NothingToCredit` | system/usr/local/bin/aircoins-api/handlers/session.go:378-385 | With no active tier at or below the sum of the window no Start commits |
| `CoinLedger.SessionsOfAnEngineRun` | system/usr/local/bin/aircoins-api/handlers/session.go:301-447 | The sessions after any payment run are those after a run of session steps, so the session theorems apply to it |
| `PaymentDesk.Desk.Arm` | system/usr/local/bin/aircoins-api/handlers/coinslot.go:99-190 | Takes the pay lock of the VLAN and, exactly when it could be armed, is the engine's Arm: both markers are written, whoever wrote them before; any other exit leaves them as they were |
| `PaymentDesk.Desk.Disarm` | system/usr/local/bin/aircoins-api/handlers/coinslot.go:227-254 | Is the engine's Disarm, whichever VLAN wrote the markers, and frees the lock of the caller's VLAN |
| `PaymentDesk.Desk.InsertCoin` | system/usr/local/bin/aircoins-api/handlers/gpio.go:242-271 | A positive value is recorded as a new unprocessed coin, any other is refused |
| `PaymentDesk.Desk.UnprocessedWindowCoins` | system/usr/local/bin/aircoins-api/handlers/session.go:222-291 | The window since the arm, its total and the tiered minutes for the total |
| `PaymentDesk.Desk.Start` | system/usr/local/bin/aircoins-api/handlers/session.go:301-447 | Ban, then ticket, then window and credit: each refusal leaves session and coins unchanged, the ticket is spent once admitted, and success is one all-or-nothing step that also closes the armed window |
| `Pricing.First` | system/usr/local/bin/aircoins-api/handlers/pricing.go:164-169 | The winner of the ordered query: an eligible row that precedes every other, or none when none is eligible |
| `Pricing.CreditIsTheScaledGreatestTier` | system/usr/local/bin/aircoins-api/handlers/session.go:267-289 | The credit is the floor of amount times minutes over coin for the greatest active tier not above the amount, and the pause rules are that tier's |
| `Pricing.NothingEligibleNothingCredited` | system/usr/local/bin/aircoins-api/handlers/session.go:278-289 | Credit is never negative and is zero when no tier is eligible |
| `Pricing.ExactTierIsExact` | system/usr/local/bin/aircoins-api/handlers/session.go:273-277 | Paying exactly a tier buys exactly its minutes |
| `Pricing.CreditIsSuperadditive` | system/usr/local/bin/aircoins-api/handlers/session.go:278-289 | With per-peso rates that never fall, a total buys at least what its parts buy |
| `Pricing.CreditIsMonotone` | system/usr/local/bin/aircoins-api/handlers/session.go:278-289 | With such rates paying more never buys less |
| `Pricing.MonotoneIffNoDropAtATier` | system/usr/local/bin/aircoins-api/handlers/session.go:278-289 | For every table, paying more never buys less over all amounts if and only if no single tier value buys less than one peso below it |
| `Pricing.SuperadditiveIff` | system/usr/local/bin/aircoins-api/handlers/session.go:278-289 | For every table with greatest active tier top, splitting a payment never pays over all amounts if and only if no active tier has a better rate than top and splitting never pays below top's value |
| `Pricing.NoTierSplittingNeverPays` | system/usr/local/bin/aircoins-api/handlers/session.go:278-289 | A table without active tiers credits nothing, so splitting never pays there either |
| `Pricing.FallingRatesBreakBoth` | system/usr/local/bin/aircoins-api/handlers/session.go:278-289 | A table with a falling rate where five pesos buy less than four, and less than four and one separately |
| `Pricing.PreviewNeverExceedsCredit` | system/usr/local/bin/aircoins-api/handlers/coinslot.go:345-378 | With such rates the per-coin total shown while coins drop never exceeds what Start credits for the same coins |
| `Pricing.PreviewIff` | system/usr/local/bin/aircoins-api/handlers/coinslot.go:345-378 | For every table with greatest active tier top, the per-coin total never exceeds the credit over all lists of coins if and only if no active tier has a better rate than top and it never does for lists below top's value |
| `Pricing.CoinsSinceArm` | system/usr/local/bin/aircoins-api/handlers/coinslot.go:345-378 | The cached loop reports count, value, per-coin minutes and seconds of the window |
| `Pricing.LoadPricing` | index.html:1136-1157 | The portal's tier map is exactly the active rows |
| `Pricing.BrowserMinutesForAmount` | index.html:1057-1073 | The portal's loop gives the backend's minutes for every amount, whatever order the keys come in |
| `PricingTable.UpsertShape` | system/usr/local/bin/aircoins-api/handlers/pricing.go:211-216 | An upsert overwrites the row of that coin value in place, keeping its id, or appends one |
| `PricingTable.BatchChangesNothingIff` | system/usr/local/bin/aircoins-api/handlers/pricing.go:192-219 | A batch, refused or not, leaves the table as it was if and only if, for every coin value set before the first unacceptable request, the last such request says what the table already held |
| `PricingTable.RefusedBatchIsPartlyApplied` | system/usr/local/bin/aircoins-api/handlers/pricing.go:192-219 | Two prices of which the second is refused while the first one is in force |
| `PricingTable.SettingBackChangesNothing` | system/usr/local/bin/aircoins-api/handlers/pricing.go:211-216 | A refused batch whose first request says something new and which still changes nothing, so only the last request of a coin value counts |
| `PricingTable.PricingHandler.UpdatePricing` | system/usr/local/bin/aircoins-api/handlers/pricing.go:180-224 | The batch is applied up to the first unacceptable request, refused exactly when there is one, and the table keeps positive values and one row a coin value |
| `PricingTable.PricingHandler.DeletePricing` | system/usr/local/bin/aircoins-api/handlers/pricing.go:226-254 | Deactivates the tier with that id, reports whether there was one, and keeps the table valid |
| `PayLock.AcquisitionLaw` | system/usr/local/bin/aircoins-api/handlers/paylock.go:82-97 | A free lock is taken by whoever tries, with its ticket and the next generation; a taken one is left alone |
| `PayLock.TicketLaw` | system/usr/local/bin/aircoins-api/handlers/paylock.go:158-181 | Exactly the ticket of a taken lock passes, and frees it; a ticket that does not match changes nothing |
| `PayLock.ReleaseLaw` | system/usr/local/bin/aircoins-api/handlers/paylock.go:100-122 | A release frees a taken lock, and a watchdog one of its own generation |
| `PayLock.CustomerGetsIn` | system/usr/local/bin/aircoins-api/handlers/paylock.go:144-173 | A customer who takes a free lock gets in with its ticket for 120 seconds, whatever others try, whatever wrong tickets are given and whatever older watchdogs wake, unless the lock is released |
| `PayLock.LockInvariantOverRuns` | system/usr/local/bin/aircoins-api/handlers/paylock.go:76-182 | In every timed run an empty lock has no holder and no ticket, a full one has both, the generation counts the acquisitions, and no lock is held for more than 120 s |
| `PayLock.ValidTicketFindsItsLock` | system/usr/local/bin/aircoins-api/handlers/paylock.go:166-181 | The branch for a valid ticket whose lock is gone is never reached |
| `PayLock.WatchdogIsExact` | system/usr/local/bin/aircoins-api/handlers/paylock.go:85-124 | A watchdog of an older generation changes nothing, and a holder is only ever force-released when exactly its own 120 s are up |
| `PayLock.TicketPassesAtMostOnce` | system/usr/local/bin/aircoins-api/handlers/paylock.go:144-182 | In every run each ticket passes validation at most once |
| `PayLock.PassesOnlyInItsGeneration` | system/usr/local/bin/aircoins-api/handlers/paylock.go:158-173 | A ticket passes only while the lock is in the generation it was issued to |
| `PayLock.StartsNeverExceedAcquisitions` | system/usr/local/bin/aircoins-api/handlers/paylock.go:144-182 | On a VLAN no more Starts get past the ticket check than there were acquisitions |
| `PayLockRegistry.RegistryRunsInTime` | system/usr/local/bin/aircoins-api/handlers/paylock.go:76-234 | Whatever calls brought a VLAN's lock about, its fields are those of the timed run of its history, so with fresh tickets and punctual watchdogs the invariant, the ticket bound and the 120 s bound hold of the registry |
| `PayLockRegistry.Entry.Wake` | system/usr/local/bin/aircoins-api/handlers/paylock.go:100-122 | The watchdog drains the lock only when the generation is still its own |
| `PayLockRegistry.Registry.WakeWatchdog` | system/usr/local/bin/aircoins-api/handlers/paylock.go:100-122 | A watchdog that wakes is the timed step of its generation on its own VLAN and changes no other lock |
| `PayLockRegistry.Registry.PayLockTryAcquire` | system/usr/local/bin/aircoins-api/handlers/paylock.go:76-132 | Takes a free lock with a fresh ticket or reports the holder; no other VLAN's lock changes and an unresolved VLAN passes without one |
| `PayLockRegistry.Registry.PayLockValidateAndRelease` | system/usr/local/bin/aircoins-api/handlers/paylock.go:144-182 | Admits exactly a caller without a VLAN or the non-empty matching ticket of a taken lock, which it frees; a bad ticket changes nothing; lock gone when the VLAN never had an entry |
| `PayLockRegistry.Registry.PayLockRelease` | system/usr/local/bin/aircoins-api/handlers/paylock.go:211-234 | Frees the VLAN's lock whoever holds it |
| `PayLockRegistry.Registry.Arm` | system/usr/local/bin/aircoins-api/handlers/coinslot.go:104-135 | The lock part of Arm: every exit that acquired the lock hands its ticket to the caller or has released it; a double tap gets the existing ticket and another device is turned away |
| `PayLockRegistry.Registry.Disarm` | system/usr/local/bin/aircoins-api/handlers/coinslot.go:244-249 | The lock part of Disarm: releases the VLAN's lock and no other |
| `PayLockRegistry.Registry.CanStart` | system/usr/local/bin/aircoins-api/handlers/session.go:722-747 | The probe lets a free lock or its own holder through and leaves the lock as it was, up to one generation |
| `Vouchers.ChancesAreConserved` | system/usr/local/bin/aircoins-api/handlers/voucher.go:546-602 | Under every interleaving of claims, credits, rollbacks, crashes and admin actions: credits + in flight + unused + destroyed = what was there + creation and re-issues |
| `Vouchers.SingleCreditPerIssue` | system/usr/local/bin/aircoins-api/handlers/voucher.go:546-602 | Credits, claims in flight and an unused voucher together never exceed one plus the number of re-issues |
| `Vouchers.KioskRunIsBothRuns` | system/usr/local/bin/aircoins-api/handlers/voucher.go:546-611 | A run of vouchers and sessions together, with redemptions in flight settled in any order by creditSession, is a run of each, so the credits that the conservation law counts are credit steps of the sessions table |
| `Vouchers.CreditsAreTheVouchersMinutes` | system/usr/local/bin/aircoins-api/handlers/voucher.go:556-579 | While its minutes are not edited, the minutes credited to sessions for a voucher are its minutes times the credits counted |
| `Vouchers.RollbackRestoresTheVoucher` | system/usr/local/bin/aircoins-api/handlers/voucher.go:580-588 | A failed redemption rolled back with nothing in between restores the shop completely |
| `Vouchers.ElevenAttemptsPerWindow` | system/usr/local/bin/aircoins-api/handlers/voucher.go:453-476 | Within five minutes of the first failure an address is throttled if and only if it has failed at least eleven times |
| `Vouchers.VoucherCreditLaw` | system/usr/local/bin/aircoins-api/handlers/voucher.go:568-579 | A credited voucher gives its minutes and no peso, to the session found or a fresh one of the caller with the voucher's pause rules |
| `Vouchers.VoucherHandler.RedeemFailAdd` | system/usr/local/bin/aircoins-api/handlers/voucher.go:456-470 | Counts the failure in the window of the first one, or opens a new window, and tells whether the address is over the limit |
| `Vouchers.VoucherHandler.ClaimCode` | system/usr/local/bin/aircoins-api/handlers/voucher.go:556-562 | Flips the voucher of the code from unused to used, exactly when there is one, and captures its terms |
| `Vouchers.VoucherHandler.SettleClaim` | system/usr/local/bin/aircoins-api/handlers/voucher.go:574-611 | Whatever happened to the voucher since its claim: credits the claimed terms as a session step and binds the voucher to exactly the credited session and its token, or puts it back on sale if it is still used, with the sessions unchanged |
| `Vouchers.VoucherHandler.RedeemVoucher` | system/usr/local/bin/aircoins-api/handlers/voucher.go:502-617 | The whole redemption on throttle, voucher and session together, for every reply |
| `Vouchers.VoucherHandler.Update` | system/usr/local/bin/aircoins-api/handlers/voucher.go:343-417 | Accepts exactly a known voucher with at least one column given, minutes, plan and price in range and one of the two statuses; re-issue clears the binding, disable keeps it, minutes are overwritten, and a refusal changes nothing |
| `Vouchers.VoucherHandler.Delete` | system/usr/local/bin/aircoins-api/handlers/voucher.go:424-437 | Removes the voucher and reports whether it existed |
| `TapLimiter.ArmLaw` | system/usr/local/bin/aircoins-api/handlers/coinslot.go:58-84 | Each call of Arm: refused under a ban, which stays; else counted in the open window or a new one, and passed up to the limit, above which it is refused and the device banned for ban_seconds from now |
| `TapLimiter.AbuseIsBannedFor` | system/usr/local/bin/aircoins-api/handlers/coinslot.go:70-84 | After max_taps passing taps in an open window the next one is refused, and so is every one until ban_seconds after it; the first one then passes if and only if the old window is over |
| `TapLimiter.ModestIsNeverRefused` | system/usr/local/bin/aircoins-api/handlers/taprules.go:133-157 | A device that never taps more than max_taps times within the length of a window is never refused |
| `TapLimiter.FixedWindowRateBound` | system/usr/local/bin/aircoins-api/handlers/taprules.go:133-157 | Any closed interval as long as the window contains at most 2*max_taps - 1 calls that pass the tap check, one fewer than twice the limit, whatever the bans |
| `TapLimiter.RateBoundIsReached` | system/usr/local/bin/aircoins-api/handlers/taprules.go:128-145 | For every rule that bound is reached, so the counter is a fixed window and not a sliding one |
| `TapLimiter.BanHolds` | system/usr/local/bin/aircoins-api/handlers/coinslot.go:58-84 | Until its end or an unban, a ban lets no call through and no call prolongs it |
| `TapLimiter.TapTables.ActiveBan` | system/usr/local/bin/aircoins-api/handlers/taprules.go:83-103 | Reports the active ban or clears a stale one |
| `TapLimiter.TapTables.RecordTap` | system/usr/local/bin/aircoins-api/handlers/taprules.go:133-157 | Restarts the counter in a new window after the old one, else counts on in it |
| `TapLimiter.TapTables.TapCheck` | system/usr/local/bin/aircoins-api/handlers/coinslot.go:58-84 | The check of Arm for one device; no other device's counter or ban changes |
| `TapLimiter.TapTables.ClearBan` | system/usr/local/bin/aircoins-api/handlers/taprules.go:121-126 | Lifts the ban of one device and changes no other |
| `TapLimiter.TapTables.CleanExpiredBans` | system/usr/local/bin/aircoins-api/handlers/taprules.go:376-384 | Removes exactly the bans that have ended |
| `Dhcp.PackingIsInverse` | system/usr/local/bin/aircoins-api/handlers/portal.go:181-194 | Packing four bytes into a word and unpacking it undo each other |
| `Dhcp.FirstByteIsHighest` | system/usr/local/bin/aircoins-api/handlers/portal.go:181-194 | Addresses are packed most significant byte first |
| `Dhcp.NetworkShape` | system/usr/local/bin/aircoins-api/handlers/portal.go:201-217 | A network's addresses are the interval of its size, which fits below 2^32 |
| `Dhcp.DerivedRangeLaw` | system/usr/local/bin/aircoins-api/handlers/portal.go:200-241 | The range itself for 2 to 31 host bits: it starts at the hint when that is a host but the last, else at the third or 101st address, and ends 100 addresses later or at the last host |
| `Dhcp.DerivedRangeIsValidIff` | system/usr/local/bin/aircoins-api/handlers/portal.go:200-241 | For 2 to 32 host bits and any hint the range is two hosts in order if and only if adding 100 does not wrap, which only a /0 can do |
| `Dhcp.FullyDerivedRangeIsAcceptedIff` | system/usr/local/bin/aircoins-api/handlers/portal.go:735-764 | A request without addresses passes the checks exactly when the network has at least four addresses |
| `Dhcp.GivenStartIsAcceptedIff` | system/usr/local/bin/aircoins-api/handlers/portal.go:735-764 | For every network, a request with only a start passes exactly when the network has four addresses or more and the start lies in it, is not its broadcast address, above 64 addresses not its last host, and in a /0 not one of the last 100 |
| `Dhcp.GivenEndIsAcceptedIff` | system/usr/local/bin/aircoins-api/handlers/portal.go:735-764 | For every network, a request with only an end passes exactly when the network has four addresses or more and the end lies in it, not before its third address or, above 64 addresses, its 101st |
| `Dhcp.GivenBothAreAcceptedIff` | system/usr/local/bin/aircoins-api/handlers/portal.go:749-764 | For every network, a request with both passes exactly when they lie in it in order |
| `Dhcp.LastHostIsRefused` | system/usr/local/bin/aircoins-api/handlers/portal.go:735-764 | In one /24 a start at .254 is refused while .253 and the network address are accepted |
| `DnsWatch.Watcher.DnsWatchPass` | system/usr/local/bin/aircoins-api/handlers/dnswatch.go:120-154 | One pass keeps stored value, streak, pending value and refresh count in step with the history of readings |
| `DnsWatch.Watcher.Poll` | system/usr/local/bin/aircoins-api/handlers/dnswatch.go:168-173 | After any readings the stored value is the latest adjacent equal non-empty pair, else the initial value, and the rules were refreshed exactly when it changed |
| `DnsWatch.Watcher.StartDNSWatcher` | system/usr/local/bin/aircoins-api/handlers/dnswatch.go:158-174 | The boot pass leaves everything unchanged, so the result depends on the polled readings alone |
| `DnsWatch.LatestPairIsTheLatest` | system/usr/local/bin/aircoins-api/handlers/dnswatch.go:136-153 | The history value is a pair's with no later pair, or the initial value when there is no pair |
| `DnsWatch.FlappingChangesNothing` | system/usr/local/bin/aircoins-api/handlers/dnswatch.go:117-119 | Readings that never repeat change nothing however long they go on |
| `Text.FieldsOfJoin` | system/usr/local/bin/aircoins-api/handlers/bridge.go:55-58 | Splitting undoes joining with blanks exactly when every field is non-empty and free of white space |
| `Text.SpaceLaw` | system/usr/local/bin/aircoins-api/handlers/bridge.go:50-55 | White space is that of Unicode, by its code points |
| `Text.FieldsOfTrimmed` | system/usr/local/bin/aircoins-api/handlers/bridge.go:50-55 | Trimming a line changes none of its fields |
| `ConfigFiles.BridgeLineLaw` | system/usr/local/bin/aircoins-api/handlers/bridge.go:99-111 | A bridge's line is its name, its description with underscores for blanks or a dash, and its members |
| `ConfigFiles.BridgeFieldsLaw` | system/usr/local/bin/aircoins-api/handlers/bridge.go:49-80 | What a line of bridges.conf is read as, field by field; blank lines and comments are nothing |
| `ConfigFiles.BridgesRoundTripIff` | system/usr/local/bin/aircoins-api/handlers/bridge.go:47-111 | Bridges written and read back are the same exactly when each is storable |
| `ConfigFiles.RewritingBridgesIsStable` | system/usr/local/bin/aircoins-api/handlers/bridge.go:47-111 | For any text, parse, print, parse equals parse |
| `ConfigFiles.ReadBridgesConfig` | system/usr/local/bin/aircoins-api/handlers/bridge.go:40-83 | The line loop reads exactly the parsed bridges |
| `ConfigFiles.WriteBridgesConfig` | system/usr/local/bin/aircoins-api/handlers/bridge.go:86-112 | The loop writes exactly the printed bridges |
| `ConfigFiles.PortalLineLaw` | system/usr/local/bin/aircoins-api/handlers/portal.go:105-116 | A portal's line is its seven columns in their order |
| `ConfigFiles.PortalFieldsLaw` | system/usr/local/bin/aircoins-api/handlers/portal.go:62-85 | What a line of portals.conf is read as, column by column; blank lines, comments and lines of fewer than six columns are nothing |
| `ConfigFiles.PortalsRoundTripIff` | system/usr/local/bin/aircoins-api/handlers/portal.go:60-117 | Portals written and read back are the same exactly when every text field is a token and no interface starts a comment |
| `ConfigFiles.ReadPortalConfig` | system/usr/local/bin/aircoins-api/handlers/portal.go:53-89 | The line loop reads exactly the parsed portals, with the seventh field optional |
| `ConfigFiles.WritePortalConfig` | system/usr/local/bin/aircoins-api/handlers/portal.go:92-117 | The loop writes exactly the printed portals |
| `ConfigFiles.PortalFile.WritePortalConfigEntry` | system/usr/local/bin/aircoins-api/handlers/portal.go:120-136 | After an upsert the file holds the printed entries, and reads back with exactly that entry set if and only if the entry is storable |
| `ConfigFiles.UpsertShape` | system/usr/local/bin/aircoins-api/handlers/portal.go:120-136 | An upsert replaces the first entry of its interface in its place, or appends the entry |
| `ConfigFiles.UpsertSetsOneInterface` | system/usr/local/bin/aircoins-api/handlers/portal.go:120-161 | After an upsert the interface has the new entry and every other interface what it had |

## Left out

- Steps finer than a function body: the pay lock's semaphore and its fields are separate operations in the code, and a watchdog checks the generation before it drains; each body, and each watchdog's check with its drain, is one step here.
- Start reads the coin window before the credit transaction and the other handlers query before they update; each handler body is one step here.
- PayLockRegistry.RegistryRunsInTime: watchdogs wake when they are due; a scheduler that delays one beyond 120 s is not modelled.
- SessionLedger.OverstayIsBoundedByTheTicker: a pass takes no time; while the API is down nothing bounds the overstay but the last pass.
- PaymentDesk.Desk.Arm: the tap check before the lock is TapLimiter.TapTables.TapCheck. The coin listener, which puts off the end of the armed window while coins drop, is not part of this model but for that effect (Keep).
- ArmedWindow.ArmedCoinIsReturnedIff: runs in which the arm second could be written at every Arm, as in CoinLanes; after a failed write CoinLedger.WindowMembershipIff still decides, with whatever markers there are.
- DeviceLedger.DeviceAccessIsPaidFor: how long a row overruns its expiry is bounded row by row in AccessLedger.AccessIsPaidFor.
- PaymentDesk.Desk.Start: the order of the HTTP response and the background authorisation is not modelled; the MAC is authorised within the step.
- Random generators: tickets are assumed fresh; a session token that collides aborts the credit.
- Integer widths outside the DHCP range: database integers are 32 bits and the credit product 64 bits; larger values make the code's statement fail or wrap.
- Pricing.BrowserMinutesForAmount: JavaScript computes the quotient in floating point; it is exact integer division here.
- The columns remaining_seconds, expired_at, activated_at and shaped_mbps, which only serve display and traffic shaping, and legacy rows without expires_at.
- The columns plan, price and notes of a voucher, which no redemption depends on, though Update checks them, and the generation and trimming of voucher codes.
- Admin PATCH and DELETE of sessions and report resets: they overwrite the counters the ledgers are about.
- Session status lookups by token, MAC and IP, apart from the migration they trigger.
- Database errors that the code logs and replaces by a default, such as a failed tap count of 0.
- The text form of IPv4 addresses and CIDRs: the DHCP functions start from parsed values.
- The scanner's line-length limit in the configuration readers, and vlans.conf.
- Ports, captive-rule scripts, lighttpd, traffic control, VLAN, WAN, Wi-Fi, licence, updater, appearance and audio code.
