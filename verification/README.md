# Percentes: a verified model

A Dafny model of the parts of Percentes where a wrong step would change what is
spent, started or reported, with proofs of what they promise. Amounts, rates and
ratios are exact; every theorem is about all inputs and, where the program is a
protocol, about every run.

| file | models |
|---|---|
| `Ledger.dfy` | the admission ledger on values: lines, the replayed state, what each operation writes |
| `LedgerState.dfy` | what every replayed state keeps: reservations, charges, prices |
| `LedgerRuns.dfy` | any interleaving of the processes' operations |
| `LedgerCaps.dfy` | what one line adds, the caps, and when they hold over a run |
| `LedgerReading.dfy` | which lines a ledger accepts, said of the lines alone |
| `LedgerDecision.dfy` | exactly what each operation writes, and why what it does not |
| `LedgerMeaning.dfy` | prices, revisions, open admissions, charges and classes of requests read off the log |
| `LedgerBook.dfy` | the state and the file as the classes the processes run |
| `CellStart.dfy` | a cell's check, admit and retry loop among the other processes |
| `Frozen.dfy` | the frozen ledger position and the newest recorded price |
| `Ceiling.dfy` | the ceiling rule and its re-application at a cell's start |
| `Ladder.dfy` | the seeded dispatch ladder |
| `LadderMeaning.dfy` | every dispatch of it, at its step's rate and of its own draw |
| `CeilingMeaning.dfy` | the rule's demands as the traffic a step schedules and what it costs |
| `Edition.dfy` | the exact plan, and what joins plan, ladder, rule and ledger on one log |
| `EditionRuns.dfy` | the edition over whole runs, from a release's first line, and exactly when it fits |
| `Detect.dfy` | bucketing, the recovery detector and its sensitivity sweep |
| `DetectMeaning.dfy` | the verdict on the run's requests and times alone |
| `Incidence.dfy` | the Aalen-Johansen completion incidence and its quantiles |
| `IncidenceMeaning.dfy` | a curve's counts as its observations |
| `RouteLoop.dfy` | a route's cells over its window, under crashes and restarts |
| `Dispatch.dfy` | the dispatch series, the host's sum and the evidence check on it |
| `DispatchMeaning.dfy` | the host's counts as its runs' dispatches |
| `Messages.dfy` | the mock's Messages event writer, its grammar and its reader |
| `Calibrate.dfy` | the calibration ramp and procedure |
| `Prelude.dfy` | options, repeated addition, sums over sets, sorting |

Code that changes state step by step is a class or a method with loops, proved
equal to a function or a predicate; the theorems are lemmas about those.

The ledger's lock makes each operation one atomic step, so any schedule of any
number of processes is a sequence of operations (`Ledger.Run`). The hash of some
lines is a value equal only for equal lines. The random generator is any stream
whose gaps, at the rates a ladder uses, never stop being a nanosecond or more; a
generator that repeats itself, with one such gap, is one (`Ladder.UnboundedExactly`,
`Ladder.PeriodicFeeds`). The clock, the network, a runner's
measurements and the moment a process dies are arbitrary inputs.

The main results:

- **The edition fits.** Over every run of a release from its first line, in which the
  route has no overrun and no dearer price line and its other requests stay within the
  probe allowance, whatever else the processes do and through any crashes of the route's
  loop, no cell is refused at a route cap that the edition test passed at the prices the
  ledger counts at (`EditionRuns.TheRelease`, `Edition.ScheduledCellNeverRefused`). The
  bound is sharp: some such run has a cell refused if and only if the worst edition passes
  the cap (`EditionRuns.RefusesExactly`).
- **The start's own check is no guard of that.** A route priced dear and later cheap
  passes the edition test at its newest price, and `Covers` passes, yet its first cell is
  refused at the route's cap (`EditionRuns.CoveredYetRefused`, with an input in
  `EditionRuns.DearCaseExists`); the same edition test at the ledger's own prices turns it
  away (`EditionRuns.OwnPricesGuard`).
- **The ledger holds its caps.** Every reachable file parses, and a file is a ledger
  exactly when every line continues those before it; each admission is written exactly
  when the ledger with it keeps every cap, and each settlement exactly when its admission
  is open as it says, with the counts it carries; request caps hold in
  every run with no overrun, liability caps until a line raises a recorded price, adds
  hosting or overruns (`LedgerRuns.WriterReaderAgreement`, `LedgerReading.LedgerExactly`,
  `LedgerDecision.AdmitExactly`, `LedgerDecision.SettleExactly`,
  `LedgerCaps.RequestCapsHold`, `LedgerCaps.LiabilityCapsHold`).
- **Check then act is safe.** A cell that starts was admitted at exactly the liability
  its balance check used; it is turned away exactly when its route was priced in
  between, and checks again exactly then; and every way a start ends is exactly the
  finding that causes it (`CellStart.CheckThenAdmit`, `CellStart.AdmittedAsChecked`,
  `CellStart.StartExactly`).
- **The detector finds the first sustained recovery**: the earliest second from which
  every window's requests are good enough, counted from the requests themselves; looser
  settings never worsen a verdict, and a recovery is final
  (`DetectMeaning.VerdictExactly`, `Detect.ScanIsNaive`, `Detect.LooserNoWorse`,
  `Detect.RecoveryIsFinal`).
- **The estimator loses no mass**, reduces to the fraction completed and to
  Kaplan-Meier, and its ceiling is the least upper bound (`Incidence.CurveMass`,
  `Incidence.UncensoredIncidence`, `Incidence.ReducesToKaplanMeier`,
  `Incidence.CeilingIsSharp`).
- **No cell attempt is run twice**, no re-run is withdrawn and only cells that did not
  count are run again, through any crashes (`RouteLoop.PlayKeeps`,
  `RouteLoop.NothingWithdrawn`, `RouteLoop.OnlyFailedRunAgain`).
- **A Messages stream keeps its grammar exactly when every piece has a key.** The
  writer marks "no open block" with the empty key, so a piece under that key opens no
  block it can later close (`Messages.WellFormedIffKeyed`).

## Model

| member | source | states |
|---|---|---|
| LedgerBook.Book.Apply | internal/admission/ledger.go:873-954 | adding an entry in place accepts exactly the entries the replay accepts and leaves the replayed state; a refused entry changes nothing |
| LedgerBook.Book.ApplyAdmit | internal/admission/ledger.go:907-924 | an admit line reserves its requests at its token bounds and opens its admission, or is refused and changes nothing |
| LedgerBook.Book.ApplySettle | internal/admission/ledger.go:926-949 | a settle line closes its open admission and swaps the reservation for the requests sent, or is refused and changes nothing |
| LedgerBook.Read | internal/admission/ledger.go:829-870 | reading a file line by line gives a state exactly when the file parses, and that state |
| LedgerBook.SumCharges | internal/admission/ledger.go:326-348 | the charge summed in any order of token bounds is their worth, and is refused exactly when a non-zero charge has no price |
| LedgerBook.Book.Liability | internal/admission/ledger.go:308-322 | the loop over routes gives hosting and every route's worth, or nothing where one has no price |
| LedgerBook.Book.PositionAt | internal/admission/ledger.go:752-775 | the projected position, or the first of the three reasons there is none |
| LedgerBook.Book.TotalCharged | internal/admission/ledger.go:297-303 | the requests charged over every listed route |
| LedgerBook.LedgerFile.constructor | internal/admission/ledger.go:444-461 | a new ledger is its open line |
| LedgerBook.LedgerFile.Append | internal/admission/ledger.go:543-559 | a line is numbered and chained after the file's whole content |
| LedgerBook.LedgerFile.RecordPrice | internal/admission/ledger.go:635-648 | the file and the result are those of the atomic price operation on the file before |
| LedgerBook.LedgerFile.RecordHosting | internal/admission/ledger.go:652-664 | the file and the result are those of the atomic hosting operation on the file before |
| LedgerBook.LedgerFile.Admit | internal/admission/ledger.go:674-747 | the file and the result are those of the atomic admission, at a checked price revision or not |
| LedgerBook.LedgerFile.Settle | internal/admission/ledger.go:783-805 | the file and the result are those of the atomic settlement on the file before; an overrun is written and returned as such |
| LedgerRuns.BodyAccepted | internal/admission/ledger.go:511-559 | the entry any operation builds from the replayed state is one the replay accepts next |
| LedgerRuns.PerformParses | internal/admission/ledger.go:511-540 | an operation appends at most one line and the ledger still parses |
| LedgerRuns.WriterReaderAgreement | internal/admission/ledger.go:829-954 | from a created ledger, any operations in any order leave a ledger that parses, its lines numbered and chained, only its first opening it |
| LedgerRuns.CreatedParses | internal/admission/ledger.go:190-215 | a created ledger parses exactly when its caps are valid |
| LedgerRuns.BrokenStaysBroken | internal/admission/ledger.go:511-526 | a ledger that does not parse is never written again |
| LedgerState.Conservation | internal/admission/ledger.go:239-263 | on every parsed ledger a route's reserved count is its open admissions' and its charges by token bounds sum to its charge; every non-zero charge has a price, so no liability fails |
| LedgerState.ApplySound | internal/admission/ledger.go:873-954 | one entry keeps reservations, charges, prices, listing and caps consistent |
| LedgerState.ReplayChain | internal/admission/ledger.go:829-870 | every line of a parsed ledger is numbered and carries the hash of exactly the lines before it |
| LedgerCaps.LineEffect | internal/admission/ledger.go:873-954 | exactly how many requests and how much liability one line adds over all routes |
| LedgerCaps.RouteEffect | internal/admission/ledger.go:873-954 | what one line adds to each route: its own amounts to its route, nothing to any other |
| LedgerCaps.ProjectionExact | internal/admission/ledger.go:724-775 | the position an admission projects is the position of the state with its line applied |
| LedgerCaps.AdmitLandsWithinCaps | internal/admission/ledger.go:685-747 | a written admission lands within every request and liability cap, at its recorded position |
| LedgerDecision.AdmitExactly | internal/admission/ledger.go:697-747 | a well asked admission is written exactly when the ledger with it would keep every cap, with its positions before and after; a refusal is one line, names the first reason in the order the ledger asks, and changes nothing else |
| LedgerDecision.NotAsked | internal/admission/ledger.go:674-696 | anything else asked fails or meets a new price, and writes nothing |
| LedgerDecision.SettleExactly | internal/admission/ledger.go:783-828 | a settlement is written exactly when its admission is open as it says and its counts belong to its purpose; then it settles that admission with those counts, swaps each class of its route and its charge, and changes no other; past the reservation it is written and an error |
| LedgerDecision.PriceRecordedExactly | internal/admission/ledger.go:635-648 | a price is recorded exactly when its route and list are in order, zero bounds taking the ledger's own, with what a request then costs |
| LedgerDecision.HostingExactly | internal/admission/ledger.go:652-664 | hosting is recorded exactly when positive and noted, and adds that to the liability and nothing to any route |
| LedgerReading.LedgerExactly | internal/admission/ledger.go:829-954 | a file is a ledger exactly when every line is numbered, chained and fits the lines before it: caps that hold together, prices that cost what their lists say, admissions at the highest price so far, settlements of open admissions |
| LedgerReading.ReadsExactly | internal/admission/ledger.go:873-954 | a line is accepted exactly when it continues the lines before it |
| LedgerReading.PriceExactly | internal/admission/ledger.go:608-630 | a price checks exactly when its route, bounds, decimals, source and date are in order, and is then each side's list price of its tokens |
| LedgerReading.MillionTokens | internal/admission/ledger.go:587-591 | a million input tokens cost the input price, a million output tokens the output price, and tokens cost the same apart as together |
| LedgerReading.SaneExactly | internal/admission/ledger.go:190-215 | caps are valid exactly when none is negative, both token bounds or neither are set, and no route's is over the global one |
| LedgerReading.CapsMeaning | internal/admission/ledger.go:877-886 | the caps a ledger decides by are those its first line opened it with |
| LedgerDecision.ProjectedPosition | internal/admission/ledger.go:752-775 | a projected position is the present one with n requests more, each at the route's highest price |
| LedgerCaps.RequestCapsHold | internal/admission/ledger.go:724-747 | in every run of a created ledger with no overrun the request caps hold |
| LedgerCaps.LiabilityCapsHold | internal/admission/ledger.go:724-747 | liability caps, once held, hold until a line raises a recorded price, adds hosting or overruns |
| LedgerMeaning.RevisionMeaning | internal/admission/ledger.go:361-366 | a route's price revision is the number of its last price line |
| LedgerMeaning.PriceMeaning | internal/admission/ledger.go:352-357 | the price requests are counted at is the highest the log records for the route at their bounds |
| LedgerMeaning.RevisionFixesPrices | internal/admission/ledger.go:361-366 | of two positions of one ledger the revisions agree exactly when no price line lies between, and then so do the prices |
| LedgerMeaning.OpenMeaning | internal/admission/ledger.go:907-949 | the open admissions are exactly the admit lines with no settle line, each as written |
| LedgerMeaning.ChargeMeaning | internal/admission/ledger.go:239-263 | a route's charge at its bounds is the requests sent by its settled admissions and reserved by its open ones |
| LedgerMeaning.ClassMeaning | internal/admission/ledger.go:937-949 | each class of a route's requests is what its settle lines sent in it, a replacement window's apart, and its reserved count what its admit lines reserved and settle lines gave back |
| CellStart.CheckThenAdmit | internal/admission/ledger.go:678-693 | with any operations in between, the checked admission is turned away exactly when the route was priced since, with the ledger unchanged; written, it adds exactly the checked reservation |
| CellStart.CheckedPrice | internal/admission/ledger.go:368-377 | the liability a checked admission adds, in all and to its route, is the reservation the balance check used |
| CellStart.RunStart | cmd/percentes-release/cell.go:127-187 | the check, admit and retry loop among the other processes ends as the start function says, which StartExactly pins |
| CellStart.StartExactly | cmd/percentes-release/cell.go:127-187 | a start checks again if and only if its first check was clear and the route was priced before its admission; its last check then decides: stopped by the clock or the limits, blocked by the operator or the balance, blocked by a second price, stopped by the ledger's first reason, admitted where there is none, and an error only where something cannot be read or is not in order |
| CellStart.AdmittedAsChecked | cmd/percentes-release/cell.go:127-187 | a cell that starts passed every check, the limits at one snapshot of the ledger and the balance for the reservation computed there; its line, of its requests at its bounds, adds exactly that to the liability |
| CellStart.BlockedTwice | cmd/percentes-release/cell.go:174-179 | a cell blocked by the price met a new price in each of its two checks |
| Frozen.FrozenExactly | cmd/percentes-release/ledger.go:69-84 | a checked ledger passes exactly when it extends the frozen one, and gives back the frozen lines |
| Frozen.FrozenThroughRuns | cmd/percentes-release/route.go:319-335 | whatever the processes do after the freeze, a route reads the frozen lines |
| Frozen.StartingPriceKept | cmd/percentes-release/route.go:326-335 | the price line a route starts from is the frozen one, whatever later price lines say |
| Frozen.RoutePrice | cmd/percentes-release/ledger.go:88-101 | the route's price line with the latest retrieval date, the last of equals, or none where it has none |
| Frozen.CheckedIsDated | internal/admission/ledger.go:608-630 | every price line of a checked ledger has a date |
| Ceiling.CeilingRule | internal/admission/ceiling.go:172-237 | every step judged by every test with its binding test named, the admitted steps a prefix, and the top step's rate, cell and edition; refused exactly on an invalid configuration, plan or price |
| Ceiling.AdmissionMono | internal/admission/ceiling.go:303-342 | a step admitted stays admitted at any lower step, looser limits and no dearer price |
| Ceiling.DemandMono | internal/admission/ceiling.go:303-342 | every limit's demand rises with the step's rate and cell and with the price |
| CeilingMeaning.RatesMean | internal/admission/ceiling.go:303-318 | a request limit's demand is the dispatches a step schedules in its window, and a concurrency limit's those begun within one timeout |
| CeilingMeaning.HoldsOne | internal/admission/ceiling.go:303-310 | only one demand is the dispatches of a window |
| CeilingMeaning.MinuteTokens | internal/admission/ceiling.go:311-316 | a minute's token limits count the input, the output or the counting of both of a minute's dispatches |
| CeilingMeaning.DayTokens | internal/admission/ceiling.go:321-322 | a day's token limit counts its requests' tokens |
| CeilingMeaning.SpendMeans | internal/admission/ceiling.go:319-328 | the day's demand is its cells' requests; the spend demands are what the edition, one cell and a window's dispatches cost |
| CeilingMeaning.CostIsWorth | internal/admission/ceiling.go:206-208 | an edition costs what the ledger counts its requests and probes at |
| CeilingMeaning.CellIsLadder | internal/admission/ceiling.go:202-204 | a cell's requests up to a step are the dispatches of a ladder with the plan's counts to that step's end |
| CeilingMeaning.TestsExactly | internal/admission/ceiling.go:210-230 | a step is admitted exactly when twice each demand, or the spend cap's and reload threshold's own, is within its limit, its rate within half a request a second where a limit is unpublished, and the edition within the route's cap |
| CeilingMeaning.TestsInOrder | internal/admission/ceiling.go:210-225 | a step's tests are the limits' in order, the unpublished ones', then the route's cap |
| CeilingMeaning.PricesExactly | internal/admission/ceiling.go:186-193 | the rule's prices are what a request costs at the route's ceiling and at the probe's |
| CeilingMeaning.PlanExactly | internal/admission/ceiling.go:180-185 | a plan fits exactly with a count a step, a day of some of its cells, and nothing negative |
| Ceiling.PricesMono | internal/admission/ledger.go:587-591 | a list price no dearer gives request prices no dearer |
| Ceiling.ProbeNoCheaper | internal/admission/ceiling.go:123-133 | a probe request is never priced under a cell's |
| Ceiling.LimitsStop | cmd/percentes-release/close.go:25-49 | the start keeps the route exactly when every admitted step is still admitted, and otherwise names the lowest lost step |
| Ceiling.LowestLost | cmd/percentes-release/close.go:37-49 | under the lowest lost step all steps stay admitted, from it none; and nothing is lost to looser limits at no dearer price |
| Ladder.Arrivals | internal/loadgen/schedule.go:99-116 | the window's arrival times appended in order, and the draws it read |
| Ladder.BuildLadder | internal/loadgen/schedule.go:76-95 | the warm-up and the steps built in one pass over the generator's stream |
| Ladder.UnboundedExactly | internal/loadgen/schedule.go:99-116 | the gaps of a stream at a rate pass every bound exactly when they never stop being a nanosecond or more |
| Ladder.PeriodicFeeds | internal/loadgen/schedule.go:80-82 | any stream that repeats itself ends every window at each rate where one of its gaps is a nanosecond |
| Ladder.LadderWellFormed | internal/loadgen/schedule.go:54-95 | for any gaps, offsets ascend, steps tile the schedule after the warm-up, each step's offsets lie in its window, windows and drains lie side by side |
| Ladder.DrainsEmpty | internal/loadgen/schedule.go:76-95 | nothing is scheduled in a drain |
| Ladder.CutIsPrefix | cmd/percentes-release/cell.go:34-41 | the ladder of the first k steps is the whole ladder's first k steps and their offsets |
| LadderMeaning.LadderExactly | internal/loadgen/schedule.go:76-116 | every dispatch of a step is at the step's own rate from its own start: each whole period that fits, or each draw's length after the one before to the draw that outlasts the window; each draw is read once, in order |
| LadderMeaning.WarmupExactly | internal/loadgen/schedule.go:83-84 | the warm-up is such a window at the first step's rate, from the epoch and the first draws |
| Edition.ExactPlan | cmd/percentes-release/route.go:372-391 | each planned count is the largest over every cell attempt's seeded ladder, and is some attempt's |
| Edition.CutWithinCell | cmd/percentes-release/route.go:372-391 | a cell's schedule cut at the top step is within the plan's cumulative count there |
| Edition.WorthBound | internal/admission/ledger.go:326-348 | with no overrun a route is worth at most its cells' requests at the cells' price and the others' reservations at the probe's |
| Edition.CellNeverRefused | internal/admission/ledger.go:731-732 | under a route cap that holds the terms' worst edition no cell admission is refused at it |
| Edition.EditionCovers | internal/admission/ceiling.go:200-233 | the cost the edition test asks for is at least the worst edition: every cell one request and its schedule, every other request at the dearer price |
| Edition.RouteCapNeverRefuses | internal/admission/ceiling.go:200-233 | where the edition test passes at the prices the ledger counts at, the route's cap is never the reason a cell is refused |
| Edition.ScheduledCellNeverRefused | internal/admission/ledger.go:731-732 | there one request and an attempt's schedule cut at the top admitted step never pass the route's cap, whatever the seed draws |
| Edition.CoversStays | internal/admission/ceiling.go:137-157 | a verdict the ledger's prices cover stays covered through any operations |
| EditionRuns.StepKeeps | internal/admission/ledger.go:511-559 | every operation a release's terms allow, among any others, leaves the ledger within them |
| EditionRuns.NoCellRefused | internal/admission/ledger.go:731-732 | at no point of any run within the terms is a cell refused at a route cap that holds the worst edition |
| EditionRuns.WorstRefuses | internal/admission/ledger.go:731-732 | a cap under the worst edition is passed by a run within the terms, built step by step |
| EditionRuns.RefusesExactly | internal/admission/ledger.go:724-747 | where only the route's cap can refuse, some run within the terms has a cell refused if and only if the worst edition passes the cap |
| EditionRuns.EditionStarts | cmd/percentes-release/ledger.go:105-117 | a ledger created under the route's cap with its list price recorded at both bounds is within the plan's terms, nothing yet admitted |
| EditionRuns.TheRelease | cmd/percentes-release/route.go:319-347 | from that ledger, with as many cells as the route's loop starts through any crashes, no run within the terms has a cell refused at the cap the edition test passed |
| EditionRuns.CoveredYetRefused | internal/admission/ceiling.go:137-157 | priced dear and then cheap, the newest price passes the edition test and the ledger covers it, and the first scheduled cell is refused at the route's cap |
| EditionRuns.OwnPricesGuard | internal/admission/ceiling.go:200-233 | at the ledger's own prices the edition test fails in every such case |
| EditionRuns.DearCaseExists | cmd/percentes-release/ledger.go:88-101 | there is such a case for every route: a dollar a request, then a hundred-thousandth of one, under a cap of half a dollar |
| Detect.BuildSeries | internal/detect/detect.go:43-79 | one bucket a second, rounding up, each counting exactly the requests intended in it by outcome and objective |
| Detect.WindowSums | internal/detect/detect.go:101-109 | a leading window's sums over what the series holds of it |
| Detect.EntryVerdict | internal/detect/detect.go:115-130 | a candidate is a whole window at or above the bar; unobserved is a cut one whose unobserved part could lift it there |
| Detect.HoldFrom | internal/detect/detect.go:193-208 | a hold is kept, cut short by the series' end, or killed at its first window below the bar |
| Detect.ReDegradations | internal/detect/detect.go:216-233 | episodes that begin below the exit bar and end only at the entry bar are counted once each, wherever the two bars lie |
| Detect.Scan.FallenMeans | internal/detect/detect.go:216-233 | under an exit bar no higher than the entry bar an episode is on exactly from a fall below the one until the next window that meets the other |
| Detect.DetectFrom | internal/detect/detect.go:163-238 | the scan reports the first index held through, or else whether one is open, or else non-recovery, exactly one; with the good runs cancelled before it and its re-degradations |
| DetectMeaning.VerdictExactly | internal/detect/detect.go:163-238 | on the requests and times alone: recovery is reported exactly when some second, starting no sooner than the scan and ending by the timeout, has every window through its hold hold enough requests that count, and at the earliest such second |
| DetectMeaning.ScanExactly | internal/detect/detect.go:173-182 | the scan covers exactly the buckets that start no sooner than it and end by the timeout |
| DetectMeaning.WindowCounts | internal/detect/detect.go:82-109 | a window's sums are the counts of its requests: those on time for the component, and all |
| DetectMeaning.CutExactly | internal/detect/detect.go:115-130 | a cut window is unobserved exactly where nothing of it was seen, it meets the bar so far, or good traffic at the seen load for the rest would lift it there |
| Detect.ScanIsNaive | internal/detect/detect.go:184-237 | the skipping scan's verdict is that of trying every index from scratch |
| Detect.LooserNoWorse | internal/detect/detect.go:163-238 | a lower entry bar, a shorter hold or an earlier scan keeps a recovery, no later, and never turns an unobserved hold into non-recovery |
| Detect.NeverBeforeTheFire | internal/detect/detect.go:171-213 | a recovery is never before its scan's start, so its time is never negative |
| Detect.RecoveryIsFinal | internal/detect/detect.go:163-238 | a reported recovery keeps its time whatever buckets follow |
| Detect.RunWith | internal/detect/detect.go:363-483 | the level before the fault is the given one or that of the buckets before the guard; both baselines' detections, the heal's, each component's and every row of the sweep report their series; the equilibrium is estimated from the plateau before recovery alone; each deficit is summed to its recovery or the timeout |
| Detect.GuardStaysOut | internal/detect/detect.go:374-387 | the level before the fault is the same for any traffic in the buckets that do not end before the guard window |
| DetectMeaning.GuardExactly | internal/detect/detect.go:374-387 | the level is of exactly the buckets that end by one client timeout before the fire, or by the warm-up's end |
| DetectMeaning.LevelExactly | internal/detect/detect.go:242-256 | and is the share that counts of the requests intended there |
| DetectMeaning.GapExactly | internal/detect/detect.go:258-279 | a second's gap is the requests it lacks of the baseline's share |
| Detect.NothingLost | internal/detect/detect.go:258-279 | a deficit is zero exactly when every second with traffic met the baseline |
| Detect.HealLosesMore | internal/detect/detect.go:393-409 | the deficit to the partition-heal recovery is at least that to the raw recovery, and neither is negative |
| Detect.HealIsLater | internal/detect/detect.go:393-409 | a partition-heal recovery is never before the heal nor before the raw recovery |
| Detect.SweepMonotone | internal/detect/detect.go:450-471 | down the sweep's entry bars and holds no verdict worsens, against any baseline |
| Incidence.EstimateIncidence | internal/collect/incidence.go:76-126 | the curve is that of the observations' groups, one a time in order |
| Incidence.GroupsUnique | internal/collect/incidence.go:81-88 | the groups, and so the curve, depend only on the multiset of observations |
| Incidence.CurveMass | internal/collect/incidence.go:90-125 | final completion incidence, error incidence and survival sum to one |
| Incidence.MassIsOne | internal/collect/incidence.go:90-125 | so they do after every group |
| Incidence.CurveShape | internal/collect/incidence.go:112-118 | points rise strictly in time and incidence, to a ceiling of at most one |
| IncidenceMeaning.CurveCounts | internal/collect/incidence.go:90-125 | a curve has all observations and the censored, and at each completion's time a point with the completions, the errors and the observations no earlier |
| Incidence.CeilingIsSharp | internal/collect/incidence.go:155-160 | no continuation of the recurrence passes the ceiling, and one reaches it |
| Incidence.IncidenceAt | internal/collect/incidence.go:164-173 | the incidence of the last point no later than the time |
| Incidence.UncensoredIncidence | internal/collect/incidence.go:66-75 | with nothing censored the incidence at t is the fraction of all observations completed by t |
| Incidence.ReducesToKaplanMeier | internal/collect/incidence.go:8-18 | with no errors the incidence at t is one minus the Kaplan-Meier product to t |
| Incidence.Quantile | internal/collect/incidence.go:134-145 | the first point within the horizon whose incidence reaches q, less the tolerance |
| Incidence.QuantileMonotone | internal/collect/incidence.go:134-145 | a higher quantile is no earlier, and is refused wherever a lower one is |
| Incidence.QuantileInverts | internal/collect/incidence.go:128-145 | a quantile is the first time by which the incidence reaches it, and is refused past the ceiling |
| RouteLoop.Route.State | cmd/percentes-release/route.go:639-696 | records left running become interrupted; the next run is the first unrecorded of attempt 1s and re-runs taken, in start order |
| RouteLoop.Route.WriteNew | cmd/percentes-release/route.go:825-831 | a run already recorded is refused and changes nothing |
| RouteLoop.Route.Pass | cmd/percentes-release/route.go:744-786 | one pass of the loop does the step function's one step, whatever cuts it off, and ends the process as the function says: run out, stopped, failed or dead |
| RouteLoop.Route.Loop | cmd/percentes-release/route.go:744-786 | a process plays its turns up to the first that ends it; it runs out only with nothing left to run, its exit saying whether every cell's final attempt counted |
| RouteLoop.Route.Finish | cmd/percentes-release/route.go:790-807 | true exactly when every cell's attempt 1 counted, or its attempt 2 did |
| RouteLoop.StepKeeps | cmd/percentes-release/route.go:639-696 | a turn keeps the recorded attempt 1s a prefix in start order, loses no record, withdraws no re-run, and records at most one run, new and on time |
| RouteLoop.NextIsNew | cmd/percentes-release/route.go:825-831 | the next run never has a record, so its first write is never refused |
| RouteLoop.PlayKeeps | cmd/percentes-release/route.go:744-786 | over any turns of any processes no cell attempt is recorded twice and each begins on time |
| RouteLoop.NothingWithdrawn | cmd/percentes-release/route.go:674-687 | what is recorded and taken by any point is kept to the end |
| RouteLoop.RouteEnds | internal/schedule/schedule.go:386-407 | a route records at most its cells and two re-runs, so all but that many turns record nothing |
| RouteLoop.Complete | cmd/percentes-release/route.go:739-756 | where the loop ends every cell ran, and one that did not count ran again unless its window held no date or two others had |
| RouteLoop.OnlyFailedRunAgain | cmd/percentes-release/route.go:674-687 | through any crashes a cell is run again only where its attempt 1 ended without counting |
| RouteLoop.NothingRunAgain | cmd/percentes-release/route.go:674-687 | where every attempt 1 counted the records are of attempt 1s alone, and nothing is left exactly when every cell has one |
| RouteLoop.RerunsExactly | internal/schedule/schedule.go:386-407 | the re-runs taken are exactly those of the first two cells, in order, that ended without counting and have a later date |
| RouteLoop.NextIsEarliest | cmd/percentes-release/route.go:688-695 | no unrecorded cell and no unrecorded re-run taken starts before the next run |
| RouteLoop.TurnExactly | cmd/percentes-release/route.go:757-786 | a run left running becomes interrupted, a run over fifteen minutes late is missed, and any other is recorded as its turn left it |
| Dispatch.DispatchSeries.Add | cmd/percentes-release/dispatch.go:41-52 | one dispatch, before the start or past the end alike, adds one to its second over every second up to it |
| Dispatch.NewDispatchSeries | cmd/percentes-release/dispatch.go:56-64 | a finished cell's series is its dispatched requests', one at a time |
| Dispatch.TalliedTallies | cmd/percentes-release/dispatch.go:41-64 | each count is the exact number of dispatches in its second, over just the seconds from the first or the epoch to the last |
| Dispatch.OrderIsImmaterial | cmd/percentes-release/dispatch.go:41-52 | the series is one whatever order dispatches are counted in |
| Dispatch.AddSeries | cmd/percentes-release/dispatch.go:161-170 | a series' counts inside the span are added second by second, and their number returned |
| Dispatch.HostDispatch | cmd/percentes-release/dispatch.go:157-198 | the host's series runs from the second of the start through the second of the end, has no problem the evidence check looks for, and each second is the sum over the runs |
| DispatchMeaning.HostExactly | cmd/percentes-release/dispatch.go:157-198 | a second of the host's series is the dispatches of all its runs in that second |
| DispatchMeaning.SourceExactly | cmd/percentes-release/dispatch.go:161-170 | a source's dispatches are its run's in the series' seconds |
| DispatchMeaning.SentExactly | cmd/percentes-release/dispatch.go:58-62 | each dispatched request counts once, at the epoch and its time; one never dispatched does not |
| Dispatch.DispatchProblems | internal/evidence/cell.go:105-155 | the check reports each problem exactly when the series has it |
| Messages.MessagesWriter.Start | internal/mock/messages.go:42-55 | message_start is written once, before anything else |
| Messages.MessagesWriter.CloseBlock | internal/mock/messages.go:57-71 | an open block is signed if thinking, closed, and the next numbered |
| Messages.MessagesWriter.Write | internal/mock/messages.go:73-94 | a piece opens a block when its key differs from the open one, and is counted |
| Messages.MessagesWriter.End | internal/mock/messages.go:96-124 | the open block is closed, then the finish or the error, then the stop unless the stream is cut |
| Messages.Stream | internal/mock/messages.go:42-124 | a request's events are its pieces' in order and its end's |
| Messages.WellFormedIffKeyed | internal/mock/messages.go:15-17 | a stream keeps the grammar exactly when every piece has a key |
| Messages.CutAnywhere | internal/mock/messages.go:42-124 | a stream cut short at any event has kept the grammar so far |
| Messages.RoundTrip | internal/mock/messages.go:73-94 | reading the events gives back the runs of pieces block by block, and every text in order |
| Messages.StartIsFirst | internal/mock/messages.go:42-55 | message_start is the first event and the only one, whatever the pieces' keys, with the prompt's usage unless the mode reports none there |
| Messages.UsageIsExact | internal/mock/messages.go:107-118 | usage reported at the end is the number of pieces |
| Messages.EndsAsTold | internal/mock/messages.go:96-124 | a stream ends once as it is told: with its error, or with its finish and, where the mode reports it there, the number of pieces; then stops unless it is cut |
| Calibrate.RunRamp | internal/calibrate/calibrate.go:154-222 | for any runner a ramp ends within 1000 steps, never above its ceiling, each step at its own seed and judged; and with no error ends in one of four shapes |
| Calibrate.LambdaMaxIsHighest | internal/calibrate/calibrate.go:100-108 | a valid ramp's lambda_max is the highest rate that passed, its last step failed exactly one fine increment above, and only one other step failed |
| Calibrate.LambdaMaxMeets | internal/calibrate/calibrate.go:60-108 | a valid ramp's lambda_max met every criterion over the settle and measure times asked for or pinned, and the step after it was measured and did not |
| Calibrate.RatesExactly | internal/calibrate/calibrate.go:154-222 | a ramp starts at two requests a second, doubles to the last rate that passed, and rises from it by tenths of it |
| Calibrate.Procedure | internal/calibrate/calibrate.go:251-295 | two ramps, a third exactly where they disagree, and the decided rate and load; invalid exactly by its last ramp; with no error every ramp ends in one of the four shapes |
| Calibrate.SeedsDistinct | internal/calibrate/calibrate.go:146-148 | every step of every ramp has its own seed |
| Calibrate.DecisionIsSound | internal/calibrate/calibrate.go:273-295 | the decided rate is some ramp's; an agreed one is within a tenth of the larger, a median lies between two others |

## Left out

- File and process I/O: locks, sync, JSON, a torn last line, `Bind`'s check of the open line. The lock is an atomic step, the file a sequence of lines.
- SHA-256 and HMAC: a hash is the lines it covers.
- Decimal text: a number is its exact value or no number; `decimalString` is not modelled.
- Float rounding: the published `Demand` floats, the ratios of the detector, the curve's floats and the ramp's rates are exact reals here.
- Text of refusals, problems and reasons; reasons are kept as cases.
- Confidential limits and `CheckPublished`, and the page and report text.
- A refused line's two positions: its reason is kept.
- Usage records are values in a map, not shared records; nothing in the ledger aliases them across routes.
- `sentBefore`, `recordPrice` and the ledger command: reading and listing only.
- The limits refresh, the balance command and the probe enter a cell's start as arbitrary findings; what a started cell sends is the load generator's.
- EditionRuns.RefusesExactly: takes one other request to cost no more than a cell with its schedule, so that a cell is what passes the cap, and starts from a ledger with no request cap whose lines so far reserved all they might, as a release's first line is (`EditionRuns.EditionStarts`).
- Detect.RunWith: leaves out the notes and the backlog drain, which is never measured; a detection not made is none.
- An observation of undefined kind, on which the estimator panics: kinds are a closed type.
- The other statistics of `internal/collect`, its tail intervals among them.
- `label`, `close` and the evidence a cell retains; of a record only its outcome is modelled.
- How the schedule draws dates, slots and seeds: a schedule is any cells in start order whose runs never start together.
- Only one process runs a route at a time.
- The live dispatch series' timing (`ThroughUTC`, waiting) and the whole-release `aggregate`; a series starts on a whole second.
- A cell with no dispatch series at all, which the evidence check reports as such.
- Write errors and aborted writes in the mock; a cut stream is covered as a prefix.
- What a calibration step measures, its progress callbacks and the reference run.
- Host qualification, canaries, monitors, naive sweep, live probes, fault runners and configuration validation.
