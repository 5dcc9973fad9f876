# Booking backend models

Dafny models of the parts of a booking backend that keep books or drive a protocol, with proofs about every input, every
run or every reachable state. Database tables are maps from row ids or sequences of rows held in class fields; a service
method is one atomic step on them. Methods follow the code's loops and branches and are proved against functions, and
lemmas say what those functions mean.

| file | what it models |
|---|---|
| Prelude.dfy | options, results, white space and trimming |
| RollupRows.dfy | keyed accumulators under joined keys |
| ReportDays.dfy | the days an order is reported on, and the texts that stand for them |
| Paging.dfy | reading rows in batches behind a cursor |
| EventRollups.dfy, EventRollupTotals.dfy | the paged scan over orders that rebuilds the event reports, and what the reports mean |
| CafeBuckets.dfy, CafeEntries.dfy | promo and tender proration over cafes, agents and items of one order, and the rows it posts |
| CafeRollups.dfy | the paged scan that rebuilds the cafe reports, and what the reports mean |
| FooterMenu.dfy, FooterLevels.dfy | the footer menu forest: parents, cycle check, reorder payloads, two levels |
| Calendar.dfy | dates and day numbers (section 21.4.1 of ECMA-262) |
| TimingPlanner.dfy, TimingSessions.dfy, TimingPlannerFacts.dfy, TimingRepeats.dfy | expansion of timing patterns into sessions, which they are, where they lie, how many, how often |
| EventSchedule.dfy | replacing an event's schedule and stocking it |
| ThirdPartyVendors.dfy | replacing an event's vendors without dangling references |
| ClosingTotals.dfy, DailyClosings.dfy | expected sales of a day, daily closings with their history, settlements |
| LoginLockout.dfy, LockoutCommands.dfy | login lockout in Redis and in memory, related by simulation, and with Redis failing between commands |
| SmtpProbe.dfy | the SMTP probe: line splitter and step machine against a table of exchanges |
| CafeAssignments.dfy | cafes, their active event, agents and staff assignments |
| Totp.dfy | base32 (section 6 of RFC 4648) and one-time passwords (section 5.3 of RFC 4226, section 4.2 of RFC 6238) |
| LabelMerge.dfy | relabelling a uniquely keyed table, merging collisions |

Where the code does less than one might expect, the code is kept and the exact condition is proved:

- A report day that is normalised twice is one day early where the reporting zone is west of Greenwich (`ReportDays.StoredDay`), and a zone that crosses Greenwich can store two days as one (`ReportDays.StoredTogether`). Cafe rows keep the day as it was and are only keyed by the other, so cafe rows and event rows then differ by a day (`CafeRollups.CafeAndEventDay`), and cafe and item tables can disagree on a day (`CafeRollups.AgreeByStoredDay`, `CafeRollups.WestDisagrees`).
- The menu's descendant check never rejects after the parent check (`FooterMenu.TopLevelChain`), and updates and reorders can make a third level (`FooterLevels.UpdateKeepsLevels`, `FooterLevels.ReorderKeepsLevels`).
- A plan holds a session twice when an extra date is covered already or listed twice (`TimingRepeats.PlannedOnce`).
- The open session of a preferred window may end before it starts (`EventSchedule.OpenSessionOrdered`, `EventSchedule.OpenSessionBackwards`).
- Repeated vendor ids are accepted and leave fewer vendors than rows (`ThirdPartyVendors.EachRowStored`, `ThirdPartyVendors.RepeatedIdStored`). Accepted rows are refused when one takes a name before the vendor that holds it is renamed (`ThirdPartyVendors.StoredExactly`, `ThirdPartyVendors.SwapRefused`).
- Memory and Redis lockouts differ once a failure comes 15 minutes or more after the first of its series (`LoginLockout.FormsDiffer`, `LoginLockout.AgreeUnlessLate`). A counter whose EXPIRE is lost never ages (`LockoutCommands.RestartsExactly`).
- Replies that arrive with the one to STARTTLS are read as replies on the upgraded connection (`SmtpProbe.UpgradeStartsAfresh`, `SmtpProbe.ResolvesAcrossUpgrade`).
- A user of two cafes on one event falls out of step when one of them lets the user go or changes its event (`CafeAssignments.TwoCafes`, `CafeAssignments.StepSynced`, `CafeAssignments.RunSynced`).
- Base32 drops the last byte unless the length is a multiple of five (`Totp.DecodeEncode`), and no code verifies in the first 30 seconds of the epoch (`Totp.AcceptedNearby`).

Assumptions that run through the models: money is in thousandths and sums of thousandths are exact, except in the cafe
pass, where ratios are exact reals; instants are integers; new row ids are fresh; steps do not interleave. The reporting
zone is any function from instants to offsets; where a group-by is claimed, day texts hold no separator and at most one
text of a joined key may.

## Model

| member | source | states |
|---|---|---|
| RollupRows.JoinInjective | prisma/sync-perf-order-rollups.ts:216-412 | two keys joined by the separator, with at most one component that may hold a separator are equal only if all components are |
| RollupRows.JoinAmbiguousWithTwoFree | prisma/sync-perf-order-rollups.ts:294-311 | with two such components distinct dimensions share a key |
| RollupRows.GroupBy | prisma/sync-perf-order-rollups.ts:216-412 | bumping any entries gives one row per distinct dimensions that occur, captioned by the last entry |
| RollupRows.GroupBySum | prisma/sync-perf-order-rollups.ts:216-412 | for every selection of keys the rows total what the bumped entries total |
| RollupRows.RowIsGroupTotal | prisma/sync-perf-order-rollups.ts:216-412 | each row holds the sums of exactly the entries with its dimensions |
| ReportDays.StoredDay | prisma/sync-perf-order-rollups.ts:64-74 | a day normalised once is kept when bumps normalise it again exactly where the zone is not west of Greenwich at the day's UTC midnight; otherwise it is stored one day early |
| ReportDays.StoredTogether | prisma/sync-perf-order-rollups.ts:216-227 | two days are stored as one exactly when they follow each other and the zone goes west of Greenwich between their UTC midnights |
| ReportDays.TellsDaysUnlessWest | prisma/sync-perf-order-rollups.ts:64-74 | the texts of days in keys tell all days apart exactly when the zone never goes west between two midnights |
| ReportDays.LastSummerDay | src/modules/reporting/report-timezone.util.ts:25-46 | a zone on Greenwich time in summer and behind it in winter stores two days as one when summer ends |
| ReportDays.ReportTargets | prisma/sync-perf-order-rollups.ts:525-534 | an order is reported on the zone's day of its payment, or else of its making, and on the UTC day of its event's start when it has one |
| Paging.FindMany | prisma/sync-perf-order-rollups.ts:484-519 | the page behind the first scanned orders is the next batch of at most 2000 in id order, empty only at the end |
| EventRollups.RollupPass.BumpLine | prisma/sync-perf-order-rollups.ts:643-695 | one line bumps the visitor, ticket and vendor rows with order count 1 only for tags the order has not shown yet |
| EventRollups.RollupPass.BumpLines | prisma/sync-perf-order-rollups.ts:640-710 | the seen-set loop over the lines and the promo taken from the first vendor seen give exactly the declared entries of the order |
| EventRollups.RollupPass.BumpTarget | prisma/sync-perf-order-rollups.ts:588-710 | one report basis of an order adds its declared entries to every accumulator and no other |
| EventRollups.RollupPass.AddOrder | prisma/sync-perf-order-rollups.ts:521-770 | a paid order adds its entries once per report basis and to the counters once; other orders add nothing |
| EventRollups.RollupPass.Rebuild | prisma/sync-perf-order-rollups.ts:484-775 | the paged cursor loop ends, scans every order once, and leaves every accumulator equal to bumping the entries of all orders |
| EventRollupTotals.RolledIsGroupBy | prisma/sync-perf-order-rollups.ts:216-775 | after a rebuild each accumulator is the plain group-by of the orders' entries |
| EventRollupTotals.RolledTotal | prisma/sync-perf-order-rollups.ts:484-775 | any selection of rows totals what the selected orders and bases contribute |
| EventRollupTotals.TotalsOverFields | prisma/sync-perf-order-rollups.ts:521-770 | for every selection of keys the daily, payment, demographic, point-of-sale and counter rows total the named fields of the paid orders: tickets net of the promo unless migrated, quantities, tenders by agent |
| EventRollupTotals.HeadlinesAgree | prisma/sync-perf-order-rollups.ts:589-622 | daily, payment and demographic rows agree on orders, admissions and revenue for every choice of events, days and bases, and equal the paid orders |
| EventRollupTotals.SessionsSumToEvent | prisma/sync-perf-order-rollups.ts:752-769 | session counters of an event sum to its event counter and to its paid orders |
| EventRollupTotals.FacetRowsMean | prisma/sync-perf-order-rollups.ts:640-710 | each visitor, ticket and vendor row holds what the lines with its tag bring, less the promo on the first vendor |
| EventRollupTotals.TicketLabels | prisma/sync-perf-order-rollups.ts:640-680 | a ticket row carries the name of the last line with its ticket |
| EventRollupTotals.OrderCountsAreDistinctOrders | prisma/sync-perf-order-rollups.ts:640-694 | the order count of such a row is the number of distinct paid orders with a line of its tag on its day |
| EventRollupTotals.VendorRevenueTakesPromoOnce | prisma/sync-perf-order-rollups.ts:680-710 | vendor revenue is the vendor lines minus each order's promo taken once |
| CafeBuckets.BucketsAre | prisma/sync-perf-order-rollups.ts:1142-1185 | there is one bucket per cafe with lines, where the order's cafe comes before the menu's; it holds their revenue and quantity, also by agent, the line's before the order's, and by menu item under its last name |
| CafeBuckets.BucketLines | prisma/sync-perf-order-rollups.ts:1152-1185 | the in-place bucketing loop builds those buckets |
| CafeBuckets.NetOfIs | prisma/sync-perf-order-rollups.ts:1189-1211 | together the net buckets hold the attributed lines less the discount, never below zero, and no discount for a migrated order or one with an ordinary ticket; every cafe, agent and item has its lines in the same proportion, and items sum to their cafe |
| CafeBuckets.NetBuckets | prisma/sync-perf-order-rollups.ts:1142-1211 | the loops compute these net buckets |
| CafeBuckets.TendersConserved | prisma/sync-perf-order-rollups.ts:1213-1249 | cash, card or online given to the cafes never exceeds the tender, and is all of a positive tender exactly when cafe revenue covers the order total and is at least 0.000001 |
| CafeBuckets.AgentsWithinCafe | prisma/sync-perf-order-rollups.ts:1252-1283 | the agents of a cafe are given no more than the cafe's own tender |
| CafeBuckets.DueIs | prisma/sync-perf-order-rollups.ts:1213-1249 | of every tender a cafe gets the part that its revenue is of the order total, or of the cafe revenue where that is more, or of 0.000001 |
| CafeEntries.EntriesAre | prisma/sync-perf-order-rollups.ts:1142-1312 | per report basis an order posts exactly one row for each of its cafes, for each agent and each menu item of a cafe, with one order, the quantity and net revenue of the lines concerned and that revenue's part of the tenders |
| CafeRollups.PostedIsGroupBy | prisma/sync-perf-order-rollups.ts:1218-1312 | each cafe accumulator has one row per key posted, holding the sums of that key's entries, the last non-empty caption, and the report day of the entry that opened it |
| CafeRollups.CafePass.PostBucket | prisma/sync-perf-order-rollups.ts:1218-1312 | one bucket posts one daily row, one row per agent and one per item, keyed by the text of the report day and carrying the day itself, and nothing else |
| CafeRollups.CafePass.PostOrder | prisma/sync-perf-order-rollups.ts:1142-1313 | an order posts its net buckets, with tenders in the cafe share, once per report basis |
| CafeRollups.SameParts | prisma/sync-perf-order-rollups.ts:1221-1290 | one key has one cafe, event, day text and basis, whatever its other components hold, when those four hold no separator |
| CafeRollups.TablesAgree | prisma/sync-perf-order-rollups.ts:1117-1313 | for every selection of cafes, events, stored days and bases that tells no days of one text apart, item revenue equals cafe revenue, and agents have no more revenue, cash or card than their cafes |
| CafeRollups.AgreeByStoredDay | prisma/sync-perf-order-rollups.ts:1117-1365 | for every selection by stored day, whatever the orders, the tables agree exactly when the zone never goes west of Greenwich between the midnights of two days |
| CafeRollups.WestDisagrees | prisma/sync-perf-order-rollups.ts:1221-1312 | two sales on days of one text: the later item row is selected by its day, and no cafe row is |
| CafeRollups.CafeAndEventDay | prisma/sync-perf-order-rollups.ts:216-227 | the cafe row and the event row of one order and basis show the same day exactly where the zone is not west of Greenwich at its midnight |
| CafeRollups.DailyTotals | prisma/sync-perf-order-rollups.ts:1117-1249 | the rows of one cafe, or of all, over any events, stored days and bases that tell no days of one text apart, hold the lines less the promo and the same part of the tenders, over the fields of the orders concerned |
| CafeRollups.CafePass.Rebuild | prisma/sync-perf-order-rollups.ts:1075-1313 | the paged loop ends with the accumulators equal to the postings of all orders, each once, and both results hold of them |
| FooterMenu.Menu.AssertNotDescendant | src/modules/admin-footer-menus/admin-footer-menus.service.ts:290-306 | the ancestor walk ends on any parent map, even a cyclic one, and rejects exactly when the item is on the candidate's chain |
| FooterMenu.TopLevelChain | src/modules/admin-footer-menus/admin-footer-menus.service.ts:276-306 | behind the parent check, which wants a top-level parent, the descendant check never rejects |
| FooterMenu.Menu.NextSortOrder | src/modules/admin-footer-menus/admin-footer-menus.service.ts:321-328 | one more than the greatest sort order of the siblings, or 0 |
| FooterMenu.ListedLast | src/modules/admin-footer-menus/admin-footer-menus.service.ts:96-98 | an item created without a sort order is listed after its siblings |
| FooterMenu.Menu.Create | src/modules/admin-footer-menus/admin-footer-menus.service.ts:89-116 | creates under an existing top-level parent with a free slug, or fails with the store unchanged; the forest is kept |
| FooterMenu.Menu.Update | src/modules/admin-footer-menus/admin-footer-menus.service.ts:125-163 | moves an item under an existing top-level item other than itself, or fails unchanged; the forest is kept |
| FooterMenu.Menu.Remove | src/modules/admin-footer-menus/admin-footer-menus.service.ts:172-182 | deletes the item and everything below it; the forest is kept |
| FooterMenu.Menu.Walk | src/modules/admin-footer-menus/admin-footer-menus.service.ts:185-192 | the recursive walk is the flattening to (id, parent, index) |
| FooterMenu.Menu.Reorder | src/modules/admin-footer-menus/admin-footer-menus.service.ts:184-217 | rejects repeated and unknown ids, otherwise writes parent and index of every entry and touches nothing else; the forest is kept |
| FooterMenu.ReorderKeepsForest | src/modules/admin-footer-menus/admin-footer-menus.service.ts:184-214 | any accepted payload, also a partial one, leaves an acyclic forest |
| FooterMenu.ReorderRoundTrip | src/modules/admin-footer-menus/admin-footer-menus.service.ts:184-217 | after a payload that names every item, grouping by parent and sorting by index gives the payload back and nothing else |
| FooterMenu.ListAfterReorder | src/modules/admin-footer-menus/admin-footer-menus.service.ts:65-78 | `list` then returns the payload's first two levels in order, and cannot return anything else |
| FooterMenu.ShownForestUnique | src/modules/admin-footer-menus/admin-footer-menus.service.ts:184-217 | two payloads that store the same forest are the same |
| FooterLevels.UpdateKeepsLevels | src/modules/admin-footer-menus/admin-footer-menus.service.ts:125-163 | an accepted update keeps sections and links at two levels exactly when the item has no links or becomes a section |
| FooterLevels.SectionUnderSection | src/modules/admin-footer-menus/admin-footer-menus.service.ts:276-288 | a section with a link is accepted as a link of another section, which makes a third level |
| FooterLevels.ReorderKeepsLevels | src/modules/admin-footer-menus/admin-footer-menus.service.ts:184-214 | an accepted reorder keeps two levels exactly when the payload has no third level and no item left out hangs under an item made a link |
| FooterLevels.CreateKeepsLevels | src/modules/admin-footer-menus/admin-footer-menus.service.ts:89-116 | a created item always keeps them |
| FooterLevels.RemoveKeepsLevels | src/modules/admin-footer-menus/admin-footer-menus.service.ts:172-182 | so does a removal |
| Calendar.NextIsNextDay | src/modules/admin-events/timing-planner.ts:35-44 | advancing the UTC date by one gives the next day number |
| Calendar.DayNumberOrder | src/modules/admin-events/timing-planner.ts:14-44 | day numbers order and identify dates as their texts do |
| Calendar.WeekdaysRun | src/modules/admin-events/timing-planner.ts:28-33 | 1 January 1970 is day 0 and a Thursday, and each date's ISO weekday is followed by the next |
| Calendar.WeekHasEach | src/modules/admin-events/timing-planner.ts:28-33 | seven consecutive days hold each of k weekdays exactly once |
| Calendar.UpToTwoWeeks | src/modules/admin-events/timing-planner.ts:28-55 | seven to fourteen consecutive days hold each of k weekdays once or twice |
| TimingPlanner.EachDate | src/modules/admin-events/timing-planner.ts:35-44 | lists each date of the range once, in order |
| TimingPlanner.WeekBuckets | src/modules/admin-events/timing-planner.ts:46-55 | in every month the last week is exactly the days from 22 on and the first three are days 1-7, 8-14 and 15-21 |
| TimingPlanner.QatarDayOfDateTime | src/modules/admin-events/timing-planner.ts:14-17 | a date and time in Qatar fall on that Qatar date |
| TimingPlanner.PushSlots | src/modules/admin-events/timing-planner.ts:92-105 | appends the sessions of a date's slots, or fails when a slot does not end after it starts |
| TimingPlanner.SlotsByWeekday | src/modules/admin-events/timing-planner.ts:128-134 | looking a weekday up in the map gives the slots of the groups that name it, once per mention |
| TimingPlanner.PlanCustom | src/modules/admin-events/timing-planner.ts:206-220 | custom mode: one error check per date in order, else the expansion |
| TimingPlanner.PlanSessions | src/modules/admin-events/timing-planner.ts:86-223 | for every mode the planner rejects with the declared error or returns the declarative expansion, in order and with repetitions |
| TimingSessions.PlannedExactly | src/modules/admin-events/timing-planner.ts:86-223 | for every mode and style a plan holds exactly the sessions of the slots that the request offers on the weekday, week or date concerned, at their times and with their own capacity or the default one |
| TimingSessions.AcceptedExactly | src/modules/admin-events/timing-planner.ts:108-223 | a pattern is accepted exactly when its days, slots, groups and dates are there and every slot offered ends after it starts |
| TimingPlannerFacts.PlannedInsideWindow | src/modules/admin-events/timing-planner.ts:86-223 | with valid dates and HH:MM times every session starts before it ends and lies between the start and end of the window in Qatar time |
| TimingPlannerFacts.MonthHitsByWeek | src/modules/admin-events/timing-planner.ts:46-55 | a month has k matching days for each of the first three weeks, between k and 2k for the last, and between 4k and 5k for all |
| TimingPlannerFacts.MonthlySessionCounts | src/modules/admin-events/timing-planner.ts:187-204 | a window holding the whole month yields k·s sessions for FIRST, SECOND and THIRD week, between k·s and 2·k·s for LAST and between 4·k·s and 5·k·s for EVERY week |
| TimingRepeats.PlannedCopies | src/modules/admin-events/timing-planner.ts:86-223 | a plan holds a session once for its date in the window and once for each mention of that date as an extra one, times the slots that give it |
| TimingRepeats.PlannedOnce | src/modules/admin-events/timing-planner.ts:86-223 | a plan holds no session twice exactly when the pattern's sessions of each date differ, no extra date with slots is listed twice, and the sessions of extra dates differ from each other and from the pattern's |
| TimingRepeats.CoveredDateRepeats | src/modules/admin-events/timing-planner.ts:140-186 | an extra date that the basic pattern covers already gets its slots twice |
| EventSchedule.RequestAccepted | src/modules/admin-events/admin-events.service.ts:1498-1534 | a request passes exactly when its dates are in order, a tracked inventory has a capacity in the request or in some slot, and the pattern is accepted and makes 1 to 5000 sessions |
| EventSchedule.WantedSessions | src/modules/admin-events/admin-events.service.ts:1605-1620 | it creates the planned sessions, and for a preferred window with both times one open session with the default capacity |
| EventSchedule.WindowIs | src/modules/admin-events/admin-events.service.ts:1536-1537 | the stored window runs from the first day at the start time or 00:00 to the last day at the end time or 23:59, in Qatar |
| EventSchedule.OpenSessionOrdered | src/modules/admin-events/admin-events.service.ts:1605-1620 | the open session of a preferred window starts before it ends exactly when its end is later in date and time; the code only compares dates |
| EventSchedule.OpenSessionBackwards | src/modules/admin-events/admin-events.service.ts:1498-1620 | an accepted request from evening to morning of one day, whose session ends before it starts |
| EventSchedule.Schedule.ClearSchedule | src/modules/admin-events/admin-events.service.ts:1559-1594 | deletes the event's sessions without orders with their stock and holds, hides the others, drops its empty dates, and counts both |
| EventSchedule.Schedule.EnsureDates | src/modules/admin-events/admin-events.service.ts:1621-1647 | every listed day gets one active event date, in chunks of 100; dates stay unique per day |
| EventSchedule.Schedule.CreateSessions | src/modules/admin-events/admin-events.service.ts:1648-1676 | creates one active session per item on the event date of its Qatar day; the missing-date error cannot occur |
| EventSchedule.Schedule.EnsureInventory | src/modules/admin-events/admin-events.service.ts:4509-4570 | adds exactly the missing rows for active tickets without variants and active variants, with the session's capacity |
| EventSchedule.Schedule.ApplyTiming | src/modules/admin-events/admin-events.service.ts:1498-1730 | fails with the first broken condition and changes nothing, or clears and rebuilds the schedule; references and date uniqueness are kept |
| EventSchedule.OrderedSessionsHidden | src/modules/admin-events/admin-events.service.ts:1559-1589 | after a replacement a session of the event exists exactly if it had an order, and is then hidden; the others leave no stock or hold |
| EventSchedule.ActiveSessionsAreThePlan | src/modules/admin-events/admin-events.service.ts:1605-1676 | the active sessions are exactly the new ones, one per planned item, each on an active event date of its Qatar day |
| EventSchedule.ReplacedSchedule | src/modules/admin-events/admin-events.service.ts:1559-1712 | after a replacement the event holds exactly its sessions with orders, hidden with their stock and holds, and one active session per planned item, stocked for exactly the items on sale; no date is empty |
| EventSchedule.EveryDateInUse | src/modules/admin-events/admin-events.service.ts:1590-1676 | after a replacement every date of the event has a session, so the schedule shows no empty day |
| EventSchedule.OtherEventsUntouched | src/modules/admin-events/admin-events.service.ts:1555-1730 | sessions, dates, stock and holds of other events are unchanged |
| ThirdPartyVendors.CheckRules | src/modules/admin-events/admin-events.service.ts:4459-4502 | accepts exactly rows with distinct non-empty names, shares summing to 100 within 0.01, a named and ruled main vendor and no excess over a fixed share; otherwise gives the first broken rule |
| ThirdPartyVendors.AcceptedExactly | src/modules/admin-events/admin-events.service.ts:4444-4502 | submitted rows pass exactly when trimmed names are given and differ, shares sum to 100 within 0.01, a first row with a vendor share has an owner and a rule, and a fixed one leaves the others the rest |
| ThirdPartyVendors.RowErrorIs | src/modules/admin-events/admin-events.service.ts:4470-4490 | a row's error names the first of its rules that is broken |
| ThirdPartyVendors.WithoutIs | src/modules/admin-events/admin-events.service.ts:2919-2925 | filtering removes exactly the listed ids and changes nothing when the length stays |
| ThirdPartyVendors.WithoutSplits | src/modules/admin-events/admin-events.service.ts:2919-2925 | it filters every stretch of a list by itself, so order and copies stay |
| ThirdPartyVendors.Service.DetachStaff | src/modules/admin-events/admin-events.service.ts:2904-2943 | the loop that writes only changed assignments detaches all of them |
| ThirdPartyVendors.Service.SaveVendor | src/modules/admin-events/admin-events.service.ts:2952-2989 | updates by id within the event or creates; refuses foreign ids and taken names |
| ThirdPartyVendors.Service.ReplaceVendors | src/modules/admin-events/admin-events.service.ts:2885-3001 | runs the checks, detaches and deletes, writes in order; any failure leaves all tables as they were |
| ThirdPartyVendors.VendorsAreRows | src/modules/admin-events/admin-events.service.ts:2951-2990 | with distinct row ids the event's vendors are exactly the submitted rows: name, shares and cafe mark as submitted, main on the first, payee behind it, owner and rule on a first row with a vendor share, sort order 1..n |
| ThirdPartyVendors.EachRowStored | src/modules/admin-events/admin-events.service.ts:2893-2990 | every row has a vendor of its own exactly when no id is repeated, which the checks do not ask for |
| ThirdPartyVendors.RepeatedIdStored | src/modules/admin-events/admin-events.service.ts:2893-2990 | two accepted rows for one vendor are stored and leave that vendor alone |
| ThirdPartyVendors.StoredExactly | src/modules/admin-events/admin-events.service.ts:2951-2990 | rows of different names are stored exactly when each id is a vendor of the event and no row takes a name still held by a vendor whose own row comes later; else, with right ids, the name is refused |
| ThirdPartyVendors.DistinctRowsStored | src/modules/admin-events/admin-events.service.ts:2951-2990 | with distinct ids of the event: stored exactly when no row takes the stored name of a later row's vendor |
| ThirdPartyVendors.NoDanglingReferences | src/modules/admin-events/admin-events.service.ts:2893-2949 | exactly the tickets and assignments of the event lose the vendors that no row keeps, and assignments their tickets; an assignment left with no listed vendor after losing one is no cafe agent's any more |
| ThirdPartyVendors.OtherEventsUntouched | src/modules/admin-events/admin-events.service.ts:2885-2990 | vendors, tickets and assignments of other events are unchanged |
| ThirdPartyVendors.SwapRefused | src/modules/admin-events/admin-events.service.ts:2971-2978 | an accepted payload that swaps the names of an event's two vendors is refused |
| ClosingTotals.WindowsPartition | src/modules/admin-daily-closings/daily-closing-totals.service.ts:25-33 | an instant lies in the 24-hour Qatar window of exactly one date, and consecutive windows meet |
| ClosingTotals.CountsOnce | src/modules/admin-daily-closings/daily-closing-totals.service.ts:62-74 | a qualifying order counts on exactly the Qatar day it was paid, or else made |
| ClosingTotals.RangeIsSumOfOrders | src/modules/admin-daily-closings/daily-closing-totals.service.ts:55-124 | expected totals over a date range are the totals of its qualifying orders, each once |
| ClosingTotals.EventsAddUp | src/modules/admin-daily-closings/daily-closing-totals.service.ts:62-76 | expected totals of disjoint event sets add up |
| ClosingTotals.ExpectedOverFields | src/modules/admin-daily-closings/daily-closing-totals.service.ts:62-119 | each figure is the sum of its own column over the agent's paid or refunded orders of the Qatar day that are not cancelled; discounts count up to the ticket amount |
| ClosingTotals.NoneOnDay | src/modules/admin-daily-closings/daily-closing-totals.service.ts:62-119 | the count is zero exactly when there is no such order |
| ClosingTotals.OrgOfDay | src/modules/admin-daily-closings/daily-closing-totals.service.ts:78-119 | the organization is that of the first such order that has one |
| ClosingTotals.CurrencyOfDay | src/modules/admin-daily-closings/daily-closing-totals.service.ts:78-119 | the currency is that of the last such order that has one, and QAR without any |
| ClosingTotals.ExpectedForAgentDate | src/modules/admin-daily-closings/daily-closing-totals.service.ts:55-119 | the accumulating loop computes these totals, the first organization and the last currency |
| DailyClosings.Service.CreateClosing | src/modules/admin-daily-closings/admin-daily-closings.service.ts:166-259 | role, date, scope, duplicate and booking checks in order, else a generated closing with balances and a history entry |
| DailyClosings.Service.UpdateClosing | src/modules/admin-daily-closings/admin-daily-closings.service.ts:261-330 | recomputes amounts and balances of an unapproved closing, returns it to generated and logs it |
| DailyClosings.Service.AddClosingNote | src/modules/admin-daily-closings/admin-daily-closings.service.ts:332-361 | sets the trimmed note of an unapproved closing without one |
| DailyClosings.Service.Approve | src/modules/admin-daily-closings/admin-daily-closings.service.ts:363-432 | approves or rejects an unapproved closing under the note and reason rules and logs it |
| DailyClosings.Service.RemoveClosing | src/modules/admin-daily-closings/admin-daily-closings.service.ts:476-512 | marks the closing deleted and logs it with the reason Deleted |
| DailyClosings.CreateLeaves | src/modules/admin-daily-closings/admin-daily-closings.service.ts:166-259 | creating succeeds exactly under the role, date, scope, duplicate and booking rules, and leaves one generated row with the caller's cash and card received, the day's as sold, their differences, and one entry |
| DailyClosings.UpdateLeaves | src/modules/admin-daily-closings/admin-daily-closings.service.ts:261-330 | correcting succeeds exactly on an unapproved closing in scope with orders on its day, and reckons it anew as generated without a reason |
| DailyClosings.NoteLeaves | src/modules/admin-daily-closings/admin-daily-closings.service.ts:332-361 | a note goes exactly on an unapproved closing without one and changes nothing else |
| DailyClosings.DecideLeaves | src/modules/admin-daily-closings/admin-daily-closings.service.ts:363-432 | a permitted decision leaves the closing approved or rejected as asked, with the trimmed reason of a rejection and the trimmed or the old note, and one entry saying so; it is refused exactly without the note of an imbalance or the reason of a rejection |
| DailyClosings.RemoveLeaves | src/modules/admin-daily-closings/admin-daily-closings.service.ts:476-512 | a removal leaves the deletion mark and an entry with the reason Deleted, whatever the status |
| DailyClosings.ApprovalReached | src/modules/admin-daily-closings/admin-daily-closings.service.ts:166-432 | every agent with an order on a day can reach an approved closing for it, and with it the day can be settled |
| DailyClosings.StepKeepsGood | src/modules/admin-daily-closings/admin-daily-closings.service.ts:166-512 | each operation keeps: one live closing per agent, event and day; balance = received − expected; approved discrepancies noted; rejections reasoned; latest history entry in agreement |
| DailyClosings.RunKeepsGood | src/modules/admin-daily-closings/admin-daily-closings.service.ts:166-512 | so does every sequence of operations |
| DailyClosings.ReachedGood | src/modules/admin-daily-closings/admin-daily-closings.service.ts:166-512 | so every state reached from empty tables has them |
| DailyClosings.StepFreezes | src/modules/admin-daily-closings/admin-daily-closings.service.ts:166-512 | an operation changes nothing of an approved or deleted closing but its deletion mark, and only appends to the history |
| DailyClosings.ApprovedIsFinal | src/modules/admin-daily-closings/admin-daily-closings.service.ts:261-512 | whatever follows, an approved closing keeps its amounts, status, note and reason |
| DailyClosings.DiscrepancyIsDifference | src/modules/admin-daily-closings/admin-settlements.service.ts:122-140 | a settlement's discrepancy is received minus booked |
| DailyClosings.Service.CreateSettlement | src/modules/admin-daily-closings/admin-settlements.service.ts:77-165 | succeeds exactly when the day has closings in scope, all approved, and no settlement; received, booked and discrepancy are then the sums of these columns over those closings, each once |
| LoginLockout.CoversStep | src/common/auth/login-lockout.service.ts:28-88 | each failure, login or check keeps: memory holds at least what Redis holds |
| LoginLockout.MemoryCoversRedis | src/common/auth/login-lockout.service.ts:28-88 | on every time-ordered history memory counts at least what Redis counts and is locked whenever Redis is |
| LoginLockout.FormsDiffer | src/common/auth/login-lockout.service.ts:28-59 | the converse fails: a fifth failure after the window locks memory only |
| LoginLockout.FifthFailure | src/common/auth/login-lockout.service.ts:28-88 | in a checked run the fifth counted failure rejects for exactly the 15 minutes and counting then restarts from zero, in both forms |
| LoginLockout.RedisRejectsExactly | src/common/auth/login-lockout.service.ts:28-79 | a checked run on Redis rejects exactly when a fifth counted failure is less than 15 minutes back with no login since |
| LoginLockout.MemoryRejectsExactly | src/common/auth/login-lockout.service.ts:47-87 | the same for process memory |
| LoginLockout.LinkedWhileNoneLate | src/common/auth/login-lockout.service.ts:28-88 | while no failure comes 15 minutes or more after the first of its series, both forms hold what the open series of failures says |
| LoginLockout.AgreeUnlessLate | src/common/auth/login-lockout.service.ts:28-59 | in every run guarded in both forms count, lock and unlock time agree after each failure exactly when no failure comes that late |
| LoginLockout.DecideAlikeUnlessLate | src/common/auth/login-lockout.service.ts:28-87 | both forms then decide alike at every later time |
| LoginLockout.KeyInjective | src/common/auth/login-lockout.service.ts:90-94 | logins of different scopes never share a key |
| LockoutCommands.WholeCalls | src/common/auth/login-lockout.service.ts:28-72 | runs in which all commands go through are the runs of the Redis form |
| LockoutCommands.CountIsTally | src/common/auth/login-lockout.service.ts:32-41 | when Redis may fail after any command, it counts the failures of the open series until 15 minutes after its first one, or for ever when the EXPIRE of that one was lost |
| LockoutCommands.RejectsExactly | src/common/auth/login-lockout.service.ts:28-79 | over all such runs a login is rejected exactly while a failure counted as the fifth or later that got its lock through is less than 15 minutes back with no login since |
| LockoutCommands.RestartsExactly | src/common/auth/login-lockout.service.ts:32-41 | after the lock counting restarts from zero exactly if the EXPIRE of the series' first failure went through; otherwise the next failure locks at once |
| LockoutCommands.LostExpireLocks | src/common/auth/login-lockout.service.ts:32-41 | an input: a lost EXPIRE and four whole failures, after which each failure locks at any time |
| LoginLockout.Lockout.SendFailure | src/common/auth/login-lockout.service.ts:32-41 | the Redis commands of a failure, including a failure part way |
| LoginLockout.Lockout.RecordFailure | src/common/auth/login-lockout.service.ts:28-59 | counts in Redis when it answers and otherwise in memory; other logins are untouched |
| LoginLockout.Lockout.ClearLogin | src/common/auth/login-lockout.service.ts:61-72 | forgets the login in memory and, when it answers, in Redis |
| LoginLockout.Lockout.IsLocked | src/common/auth/login-lockout.service.ts:74-87 | asks Redis when it answers, else memory, dropping an expired slot |
| SmtpProbe.SplitInTwo | src/modules/admin-app-settings/admin-app-settings.service.ts:838-845 | splitting text cut anywhere, even inside a line end, gives the same lines and the same rest |
| SmtpProbe.StepFollowsTable | src/modules/admin-app-settings/admin-app-settings.service.ts:735-836 | each reply moves the machine as the table of exchanges says |
| SmtpProbe.ProbeDecides | src/modules/admin-app-settings/admin-app-settings.service.ts:735-836 | over any replies the probe resolves exactly on the accepted dialogue and is rejected exactly by the first unexpected code before its end |
| SmtpProbe.ResolvedMeansDone | src/modules/admin-app-settings/admin-app-settings.service.ts:735-836 | success means every exchange took place and everything was sent |
| SmtpProbe.SentInOrder | src/modules/admin-app-settings/admin-app-settings.service.ts:727-836 | what is sent is always a prefix of one list: with STARTTLS, AUTH only after the upgrade and the second EHLO; user name and password after AUTH |
| SmtpProbe.PasswordAfterTwoPrompts | src/modules/admin-app-settings/admin-app-settings.service.ts:806-824 | the password is sent only after two 334 replies |
| SmtpProbe.ChunksDoNotMatter | src/modules/admin-app-settings/admin-app-settings.service.ts:838-845 | lines dispatched and actions sent depend only on the text received, not on its chunks nor on when the probe settled |
| SmtpProbe.SettledOnce | src/modules/admin-app-settings/admin-app-settings.service.ts:710-725 | the first settlement stands whatever happens later |
| SmtpProbe.ResolvesOnlyOnDialogue | src/modules/admin-app-settings/admin-app-settings.service.ts:706-870 | over text, errors, end and timeout in any order the probe resolves only when the lines received are an accepted dialogue; on text alone it settles as the table does |
| SmtpProbe.UpgradeStartsAfresh | src/modules/admin-app-settings/admin-app-settings.service.ts:774-846 | the dialogue over the upgraded connection starts with the text received on it exactly when nothing but lines without a code or continuation lines follows the reply to STARTTLS in its chunk |
| SmtpProbe.ResolvesAcrossUpgrade | src/modules/admin-app-settings/admin-app-settings.service.ts:774-846 | two replies in one chunk otherwise carry a probe without a user name across the upgrade to success |
| SmtpProbe.EhloReply | src/modules/admin-app-settings/admin-app-settings.service.ts:756-806 | a reply to EHLO given as text counts once its last line is there, whatever lines beginning with 250 and a hyphen come before |
| SmtpProbe.Probe.HandleLine | src/modules/admin-app-settings/admin-app-settings.service.ts:746-836 | the mutating step machine is the transition function |
| SmtpProbe.Probe.HandleData | src/modules/admin-app-settings/admin-app-settings.service.ts:838-845 | buffering and dispatching a chunk is the declared event step |
| SmtpProbe.Probing | src/modules/admin-app-settings/admin-app-settings.service.ts:688-870 | handling any events one by one gives the run the theorems speak of |
| CafeAssignments.Service.CreateCafe | src/modules/admin-cafes/admin-cafes.service.ts:156-180 | creates a draft without an event for an existing organization and manager, or fails and changes nothing |
| CafeAssignments.Service.UpdateCafe | src/modules/admin-cafes/admin-cafes.service.ts:182-207 | changes the given fields of a cafe and never its status, organization or event |
| CafeAssignments.Service.PublishBlockers | src/modules/admin-cafes/admin-cafes.service.ts:241-264 | lists exactly the conditions that hold publishing back |
| CafeAssignments.Service.SetStatus | src/modules/admin-cafes/admin-cafes.service.ts:209-239 | publishes exactly a named cafe with tables, an active event, a menu item and an active agent; other marks are always set |
| CafeAssignments.Service.AddAgent | src/modules/admin-cafes/admin-cafes.service.ts:578-635 | fails with the first broken condition and changes nothing, or makes an existing or new user an active agent: a new user gets one plain assignment, and the user's duty for the active event is updated or created |
| CafeAssignments.Service.UpdateAgentStatus | src/modules/admin-cafes/admin-cafes.service.ts:637-672 | switches one agent and the user's duty for the active event with it |
| CafeAssignments.Service.RemoveAgent | src/modules/admin-cafes/admin-cafes.service.ts:674-690 | deletes the agent and suspends the user's cafe assignments for the active event, and nothing else |
| CafeAssignments.Service.AssignEvent | src/modules/admin-cafes/admin-cafes.service.ts:692-757 | closes the open assignment, opens one for an event of the same organization, and moves the duty of all agents; fails unchanged otherwise |
| CafeAssignments.Service.UnassignEvent | src/modules/admin-cafes/admin-cafes.service.ts:759-795 | closes the cafe's assignments, makes a published cafe a draft and leaves any other status, and takes the agents off duty |
| CafeAssignments.Service.SyncStaff | src/modules/admin-cafes/admin-cafes.service.ts:854-899 | updates one matching assignment, creates one for an active user without, or does nothing when no role is seeded |
| CafeAssignments.Service.SuspendStaff | src/modules/admin-cafes/admin-cafes.service.ts:901-917 | suspends exactly the active cafe assignments of the user for the event |
| CafeAssignments.EffectSound | src/modules/admin-cafes/admin-cafes.service.ts:156-795 | every successful call keeps: a cafe has an active event exactly when it has exactly one open assignment, for that event; published cafes have one; a user is an agent of a cafe once |
| CafeAssignments.ActiveSynced | src/modules/admin-cafes/admin-cafes.service.ts:578-672 | adding or activating an agent keeps every user's duty equal to working on a cafe's active event |
| CafeAssignments.InactiveSynced | src/modules/admin-cafes/admin-cafes.service.ts:637-690 | suspending or removing an agent keeps it exactly when no other cafe has the user at work on the same event |
| CafeAssignments.EventSynced | src/modules/admin-cafes/admin-cafes.service.ts:692-795 | changing or clearing a cafe's event keeps it for a user exactly when the user is no agent of the cafe or no other cafe has the user at work on the old event |
| CafeAssignments.StepSynced | src/modules/admin-cafes/admin-cafes.service.ts:156-795 | any call keeps a user in step exactly when it does not clash in one of these ways |
| CafeAssignments.SyncedRows | src/modules/admin-cafes/admin-cafes.service.ts:854-917 | being in step means each cafe assignment is active exactly when its user works on its event |
| CafeAssignments.TwoCafes | src/modules/admin-cafes/admin-cafes.service.ts:674-690 | in sound tables a user of two cafes on one event loses the duty for both when one cafe removes the agent |
| CafeAssignments.RunSound | src/modules/admin-cafes/admin-cafes.service.ts:156-917 | in every state reached from empty tables the tables are sound and no user has two cafe assignments for one event |
| CafeAssignments.RunSynced | src/modules/admin-cafes/admin-cafes.service.ts:156-917 | in every such run a user is in step up to a point exactly when no call until then clashes |
| CafeAssignments.RunOfOneCafe | src/modules/admin-cafes/admin-cafes.service.ts:156-917 | so a user who is an agent of at most one cafe at any time is always in step |
| Totp.ToBase32 | src/common/auth/totp.ts:53-61 | the bit-string loop is the regrouping of eight bits into five |
| Totp.FromBase32 | src/common/auth/totp.ts:63-76 | decoding, with the padding strip, is the regrouping of five bits into eight |
| Totp.DecodeEncode | src/common/auth/totp.ts:53-76 | decoding an encoding gives the bytes back, less the last one unless their number is a multiple of five |
| Totp.EncodeInjective | src/common/auth/totp.ts:53-61 | secrets whose length is a multiple of five, such as 20 bytes, have different encodings |
| Totp.EncodeDecode | src/common/auth/totp.ts:53-76 | encoding a decoding gives the text back, in capitals and stripped, exactly when its characters come in eights |
| Totp.DecodeIgnores | src/common/auth/totp.ts:63-70 | case and characters outside the alphabet do not matter |
| Totp.EncodeExample | src/common/auth/totp.ts:53-61 | an input: the byte 0x66 encodes to M, its high five bits, and the rest is dropped |
| Totp.AlphabetIs | src/common/auth/totp.ts:3 | letters stand for 0 to 25 and the digits from 2 on for 26 to 31 |
| Totp.CharacterIs | src/common/auth/totp.ts:63-70 | what each character of a secret counts for: capital or small letters, the digits 2 to 7, and nothing else |
| Totp.UnpaddedValues | src/common/auth/totp.ts:64 | stripping trailing equals signs changes nothing that counts |
| Totp.CounterLossless | src/common/auth/totp.ts:40-42 | the two 32-bit words hold the counter exactly; writing fails exactly outside 64 bits, so for a negative counter |
| Totp.TruncateReads | src/common/auth/totp.ts:43-48 | truncation reads the four bytes at the low half of the last byte, high byte first, without the top bit |
| Totp.HotpIs | src/common/auth/totp.ts:38-50 | a code is six digits that read as the truncation, modulo a million, of the authentication code of the eight counter bytes under the decoded secret |
| Totp.RfcExample | src/common/auth/totp.ts:43-50 | the example of section 5.4 of RFC 4226 gives 872921 |
| Totp.CodeShape | src/common/auth/totp.ts:45-50 | every code is six digits and reads as the truncated value modulo a million |
| Totp.VerifyTotp | src/common/auth/totp.ts:15-24 | accepts six digits exactly when they are the code of a counter in the window; a window reaching below zero fails |
| Totp.SpacesIgnored | src/common/auth/totp.ts:16 | white space in the code does not matter |
| Totp.AcceptedNearby | src/common/auth/totp.ts:11-24 | a code is accepted at every time at most 30 s away from 30 s on; before that every six-digit code fails |
| LabelMerge.RelabelledKeeps | prisma/backfill-payment-method-labels.ts:57-62 | relabelling a row keeps every total that does not tell the two labels apart |
| LabelMerge.MergedKeeps | prisma/backfill-payment-method-labels.ts:47-56 | so does merging it into the row that has the new key |
| LabelMerge.BackfilledIsGroupBy | prisma/backfill-payment-method-labels.ts:20-65 | the table afterwards is the group-by of the table before over renamed keys |
| LabelMerge.GroupSumsKept | prisma/backfill-payment-method-labels.ts:20-65 | sums per event, day, basis and currency are kept |
| LabelMerge.LegacyPairsWellChosen | prisma/backfill-payment-method-labels.ts:13-23 | no new label of the script is a legacy label, and no legacy label is listed twice |
| LabelMerge.LegacyLabels | prisma/backfill-payment-method-labels.ts:13-23 | what each of the five legacy labels becomes |
| LabelMerge.Backfill.MoveRow | prisma/backfill-payment-method-labels.ts:34-63 | one row is relabelled or merged; keys stay unique and other rows keep theirs |
| LabelMerge.Backfill.RelabelRows | prisma/backfill-payment-method-labels.ts:30-65 | all rows of a legacy label are moved; without any, nothing changes |
| LabelMerge.Backfill.RelabelOrders | prisma/backfill-payment-method-labels.ts:24-28 | every order of a legacy label is relabelled and no other |
| LabelMerge.Backfill.RelabelLeftovers | prisma/backfill-payment-method-labels.ts:67-80 | orders still carrying the prefix are normalised |
| LabelMerge.Backfill.Run | prisma/backfill-payment-method-labels.ts:20-81 | keys stay unique, no legacy label is left, totals are kept, and a second run leaves the table alone |

## Left out

- EventRollups.RollupPass.Rebuild: the vendor-product and named-extra accumulators, whose entries come from imported functions, and the batched inserts after the scan; they bump like the modelled ones.
- Paging.FindMany: the status, event and source filter of the query; the orders given are those it selects, in id order.
- EventRollupTotals.HeadlinesAgree: rounding of binary floating point in `money` and in the ticket net; amounts are exact thousandths here.
- CafeRollups.CafePass.Rebuild: the filter of the query and the final rounding of written rows; lines, promos and tenders are taken to be non-negative, and how a day is written as text is a parameter.
- FooterMenu.Menu.Create: titles, HTML, URLs and the spelling of slugs; a slug arrives normalised.
- TimingPlanner.PlanSessions: display texts, dates that no calendar has, and years before 100, which `Date.UTC` maps elsewhere.
- EventSchedule.Schedule.ApplyTiming: the order in which created sessions are reported, the stored timing document, and advance payments and order lines that refer to deleted holds and stock.
- ThirdPartyVendors.CheckRules: shares that are not numbers, and the float comparison at exactly one hundredth.
- ThirdPartyVendors.Service.ReplaceVendors: what deleting a vendor does to report rows and to references from other events, which the code never makes.
- DailyClosings.Service.CreateClosing: how scope and event are resolved from staff assignments; each call says whether it is in scope. Signatures, PDFs and closing codes.
- DailyClosings.Service.CreateSettlement: status, signature and the resolution of the caller's agents.
- LoginLockout.Lockout.RecordFailure: clocks that differ between Redis and the process, and the trimming and lower-casing of identities, which arrive normalised.
- LoginLockout.RedisRejectsExactly: runs that switch between Redis and memory part way; each form is followed by itself.
- SmtpProbe.Probe.HandleLine: the numeric reading of the first three characters is a parameter; sockets, certificates and base64 of the credentials.
- CafeAssignments.Service.AddAgent: scope checks, user statuses and password hashing; whether a name is taken is an input.
- CafeAssignments.Service.PublishBlockers: the menu, whose count of active items is an input.
- CafeAssignments.RunSound: deletions of events, users and organizations, and staff assignments written by other services; no call of the service makes them.
- CafeAssignments.RunSynced: runs in which neither role is seeded, where nobody is ever on duty, and runs in which seeding changes part way.
- Totp.VerifyTotp: floating-point division of times, constant-time comparison, and upper-casing outside ASCII.
- LabelMerge.Backfill.RelabelLeftovers: how a leftover label is normalised is a parameter; the printed counts.
- Merging of entry-access settings, dashboards, CMS pages, permissions, seeds, mail and payment gateways: easy or library-bound.
- Interleaving of check-then-write methods: only sequences of whole steps are modelled.
