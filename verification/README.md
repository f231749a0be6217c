# A verified model of the trading runtime's stateful core

This project models, in Dafny, the algorithms of the APEX trading runtime that keep
state across failures, restarts and concurrent tasks, and proves what they keep. One
module stands for each component; every module is one file.

| module | component |
|---|---|
| `CivilTime`, `TextOrder`, `Doubles` | millisecond timestamps, their fixed-width text, bar closes and calendar months; rounding to 53 bits |
| `KlineWalk`, `Backfill` | the backward walk over a tail-aligned venue, the kline source, catch-up cycles |
| `ParamsText`, `ParamsParser`, `ParamsRoundTrip` | the params text format: scalars, the recursive-descent parser, a printer and the round trip |
| `LedgerChain`, `Positions`, `LedgerWriter` | the hash-chained ledger, positions folded from it, reconciliation, the single writer |
| `OrderStates`, `OrderRuns`, `ExecutionFsm` | the order state machine, alone and in a system of interleaved steps |
| `WireMap`, `Adapter`, `OrderEffect`, `TokenBucket` | the wire tables and filters, idempotent submission with retries, what a submitted order does to the position, rate limiting |
| `PaperLoop` | one trading cycle: due cells, the shared trade budget, the durable close lock |
| `EvidenceVotes`, `ConflictPolicy`, `Fabric` | evidence agreement, the conflict policy, redundancy, fabric assembly |
| `Patterns`, `PatternMeaning` | swing points and the chart-pattern detectors with their mirror images; which bars form each pattern |
| `PartialRepair`, `RepairMeaning` | the governed repair of bars stored before they closed; who is corrected, and with what |
| `RecoveryLog`, `EventBus` | the recovery hash chain, the priority bus |
| `Wrappers`, `Shuffle`, `Sorting` | result types, reorderings, sorting by a preorder |

## How the pieces fit

Where the source changes things step by step, a class or a loop does the same here, and
its contract ties the new state to a pure function or relation of the old one. Runs
(cycles, steps, appends, calls) are sequences folded over that function or relation, and
the main results are lemmas about every run. Faults are arbitrary but given: what the
world does is a parameter, so that a contract says both what a fault may do and that
nothing but a fault does it. A venue may answer anything at any call, reading a frontier,
storing any row, a flush or the accounting may raise, a cell of a cycle may get any plan
and come to any end, a ledger insertion may be
lost or torn between its two tables in the middle of any run, a recovery row may miss the
table or its commit, a decision's cursor row may be lost or torn, a correction may fail,
an attempt may raise before the transport is called, time out, or escape with an exception.

Hashes are parameters. The ledger takes any injective function of the hashed record; the
recovery log takes one that, besides, never gives the empty string; the fabric asks only
that nothing collides among the contents at hand. Decimals and floats are exact reals,
but for the one parser of timestamps whose rounding is modelled. Coroutines are atomic steps between awaits. The
venue is a fixed, strictly ascending sequence of bars that answers with the newest page
at or before the requested end; a bar still open may be answered with any content.

## What the proofs found

These are places where the code does less than its documentation or a first reading
suggests. The code is modelled as it is; the lemmas say exactly where the line runs.

- Removing a middle ledger row is noticed unless its successor declares a link to the
  row before it (`LedgerChain.RemovedRowIsReported`); the price and quantity columns are
  not hashed, so no change to them is noticed (`LedgerChain.MoneyIsNotHashed`).
- An append that fails between its two insertions leaves its row without moving the
  head: the next append then breaks the chain (`LedgerChain.TornIsReported`). Over any run
  the ledger verifies if and only if each append that was not lost names the row it stands
  behind (`LedgerChain.WhenRunIsIntact`); without declared links, if and only if nothing
  was written behind a torn append (`LedgerChain.TearsMustComeLast`). After a tear the
  ledger also shows an order move that was not made. Over any run an intent's logged path ends
  where its machine stands if and only if no move of it was torn, the loop from recovery
  to recovery excepted (`OrderRuns.LoggedPathEndsHere`).
- The ledger's check for a reconciled intent also passes after a torn move into RECONCILED
  and after an outcome whose free exit reason spells that word, and in no other case but
  the intended one (`OrderRuns.CheckMeansReconciled`).
- A detected divergence between ledger and exchange leaves new entries open if the ledger
  was open and one of the correction records could not be written
  (`LedgerWriter.Writer.Reconcile`).
- A machine can change its state while the ledger is blocked if and only if its record was
  queued before the block and names another state (`OrderRuns.MovesUnderBlock`,
  `OrderRuns.BlockedLedgerStopsMachines`).
- An intent can enter the transport a second time if and only if the world broke its call
  off: at some attempt an exception left the loop after nothing but backoff answers
  (`Adapter.EntersOnce`); `Adapter.SentTwice` is such an input. A recorded intent gets its
  recorded answer unless its cell was disabled in the meantime, when it is refused instead
  (`Adapter.RepeatedIntent`).
- A response without any HTTP status passes for a success
  (`WireMap.OnlySuccessIsAlive`).
- The recovery log puts a record into memory before the table. If a row never reached the
  table and a later append was committed, the log no longer verifies after a reload, and
  in no other case: a row whose own commit raised lands with the next one
  (`RecoveryLog.WhenReloadedVerifies`).
- A trade can be submitted a second time for the same cell and close if and only if an
  upsert of the decision cursor raised before the cell's decision was remembered
  (`PaperLoop.WhenTradedTwice`); a decision that only reached the table holds from the
  next restart on (`PaperLoop.RestartRemembers`).
- The whole-format timestamp parser multiplies a float: it is exact on whole seconds and on
  every millisecond between November 2004 and January 2038
  (`CivilTime.RoundTripOnDoubles`), but not on every one (`CivilTime.OneMillisecondShort`).
- The dead band of one part in 10^12 keeps the agreement of normalized evidence away from
  one half; the floor is reached (`EvidenceVotes.AgreementFloor`,
  `EvidenceVotes.FloorIsReached`).
- The exit of a managed position is submitted with an order kind that the order table
  does not hold, so it is never sent (`Adapter.ExitKindIsNeverSent`).
- Agreement of the ledger's reconciliation is stronger than agreement at boot, and does
  not imply it when a symbol is reported in two rows (`Positions.LedgerAndBoot`,
  `Positions.TwoRowsOneSymbol`).
- Disagreement between engines never reaches the hard-conflict threshold
  (`ConflictPolicy.HardConflictOnlyFromTimeframes`), and rising disagreement can loosen
  the output when the evidence is insufficient (`ConflictPolicy.WhenRestrictionIsMonotone`).
- A well-formed flow text on a line of its own is read as itself if and only if it holds
  no colon; otherwise the line is a block entry, brackets and all
  (`ParamsRoundTrip.FlowOnItsOwnLine`).
- A clock that goes back and forth lets more tokens through than the window's bound
  (`TokenBucket.ClockMustNotGoBack`); what bounds them under any clock is the sum of its
  moves forward (`TokenBucket.AnyClockBound`).

## Model

| member | source | states |
|---|---|---|
| `TextOrder.DigitsKeepOrder` | apex/ops/bootstrap_service.py:821-824 | zero-padded numerals of one width compare as text exactly as their numbers compare |
| `CivilTime.IsoRoundTrip` | apex/ops/bootstrap_service.py:821-829 | both parsers, the whole-format one in exact arithmetic and the one that cuts by position, give back the millisecond that was printed |
| `CivilTime.IsoText` | apex/ops/bootstrap_service.py:821-824 | the text of an instant is its seven zero-padded numerals with the marks between |
| `CivilTime.YearsCounted` | apex/ops/bootstrap_service.py:195-219 | the days before a year in closed form, one more for each leap year gone by |
| `CivilTime.OneInstant` | apex/ops/bootstrap_service.py:821-829 | one instant of a leap day, known from elsewhere |
| `CivilTime.RoundTripOnDoubles` | apex/ops/bootstrap_service.py:827-829 | with both of its roundings to a double, the whole-format parser gives the printed instant back on whole seconds and on every millisecond between 2^40 of them and 2^31 seconds |
| `CivilTime.OneMillisecondShort` | apex/ops/bootstrap_service.py:827-829 | the instant 1001 is read as 1000, and as nothing else |
| `Doubles.RecentInstantsComeBack` | apex/ops/bootstrap_service.py:827-829 | between those bounds dividing by a thousand and multiplying again, each rounded to the nearest double, changes nothing |
| `CivilTime.IsoKeepsOrder` | apex/ops/bootstrap_service.py:821-824 | one instant is before another if and only if its text precedes lexicographically |
| `CivilTime.TextMaxIsTimeMax` | apex/ops/bootstrap_service.py:1278-1302 | the greatest text of a timestamp column, parsed, is the greatest time |
| `CivilTime.CloseAfterOpen` | apex/ops/bootstrap_service.py:195-219 | every bar closes strictly after it opens |
| `CivilTime.SpanMeans` | apex/ops/bootstrap_service.py:184-193 | fourteen timeframes are known, each as long as the number and the unit of its name say, but for the calendar month |
| `CivilTime.CloseIsMonotone` | apex/ops/bootstrap_service.py:195-219 | a later open never closes earlier, for fixed spans and for calendar months |
| `CivilTime.MonthsTile` | apex/ops/bootstrap_service.py:195-219 | every instant of a month closes at the first instant of the next, leap years included, so months tile the line |
| `CivilTime.ClosedBarsArePrefix` | apex/ops/bootstrap_service.py:604-617 | the bars closed by any end are a prefix of an ascending history |
| `KlineWalk.OhlcLaw` | apex/ops/bootstrap_service.py:156-178 | a judged row passes exactly when all four prices parse and low and high bracket open and close; the high-below-low test never fires |
| `KlineWalk.FetchWithBackoff` | apex/ops/bootstrap_service.py:774-802 | the walk-level retry is bounded by its slots, retries rate limits only, and returns the venue's own answer to one of its calls |
| `KlineWalk.AbsorbPage` | apex/ops/bootstrap_service.py:673-700 | one page adds every open time to the seen set, keeps exactly the new sane rows and reports the others |
| `KlineWalk.WalkBackward` | apex/ops/bootstrap_service.py:647-711 | terminates for any answers; the history is strictly ascending and sane; against a tail-aligned venue it holds every sane bar from the floor to the end, and every closed insane one is dropped with evidence; it surfaces only after one more rate limit in a row than it has slots, and fails only on the venue's refusal |
| `KlineWalk.WalkIsComplete` | apex/ops/bootstrap_service.py:647-711 | once every position down to the floor was paged, what was collected, sorted, covers the venue |
| `Backfill.KlineSource.BeginCatchUp` | apex/ops/bootstrap_service.py:504-518 | a retry forgets the cached walk and the in-process mark and starts from the store's frontier |
| `Backfill.KlineSource.SetFrontiers` | apex/ops/bootstrap_service.py:521-536 | the hand-over replaces the frontiers and keeps the in-process marks |
| `Backfill.KlineSource.Refresh` | apex/ops/bootstrap_service.py:539-575 | a walk taken for an earlier end is taken again; a failed walk changes no history, and some call's answer says why it failed |
| `Backfill.KlineSource.Serve` | apex/ops/bootstrap_service.py:577-644 | a page is the next rows past the store frontier and the in-process mark that have closed; the cursor strictly advances |
| `Backfill.KlineSource.Call` | apex/ops/bootstrap_service.py:539-644 | one call of the fetcher: refresh, serve, and the marks it moves; it fails on the page limit, an unknown timeframe, a refusal or rate limits beyond the slots, and on nothing else |
| `Backfill.EligibleRows` | apex/ops/bootstrap_service.py:590-617 | the served rows are exactly those of the walk past both marks and closed by the end, in order |
| `Backfill.FrontierIsLastRow` | apex/ops/bootstrap_service.py:1278-1302 | the maximum of the stored timestamps, as text, is the open of the last row of a gap-free cell |
| `Backfill.BootstrapService.Ingest` | apex/ops/bootstrap_service.py:1042-1069 | rows go in one by one, up to the first that the store raises on |
| `Backfill.BootstrapService.CatchUpPage` | apex/ops/bootstrap_service.py:1486-1538 | one page of a cell: it gives up exactly for a cause that the world gave, with a lawful step; an empty page finishes with every closed bar in; otherwise strictly less is left to serve |
| `Backfill.BootstrapService.CatchUpCell` | apex/ops/bootstrap_service.py:1456-1565 | one cell of one cycle, with any fault anywhere: rows are only added, gap-free, all closed; the cell finishes exactly when no cause was met, and then holds every sane closed bar; one that the world gives no cause finishes |
| `Backfill.BootstrapService.CatchUpTimeframe` | apex/ops/bootstrap_service.py:1456-1565 | all cells of one timeframe: one failed cell does not keep the others from their step, and only a cell that met a cause fails |
| `Backfill.BootstrapService.CatchUp` | apex/ops/bootstrap_service.py:1456-1565 | one cycle: which timeframes are visited, that a boundary moves only when no cell of it failed, and that the failed cells met a cause and a visited cell without one did not fail |
| `Backfill.UntroubledHasNoCause` | apex/ops/bootstrap_service.py:1456-1565 | where nothing raises, every answer is a page and the limit is not reached, no cause to fail exists |
| `Backfill.StoreChunk` | apex/ops/bootstrap_service.py:1042-1069 | storing any prefix of the next page keeps the cell gap-free and the walk sufficient |
| `Backfill.RunKeepsRows` | apex/ops/bootstrap_service.py:1456-1565 | over any run of cycles rows are never lost and the cell stays gap-free |
| `Backfill.StoredAfterClose` | apex/ops/bootstrap_service.py:600-644 | a stored bar had closed by the time of some earlier cycle |
| `Backfill.StoredExactlyOnce` | apex/ops/bootstrap_service.py:1456-1565 | a bar is not stored while no cycle has seen it closed, and exactly once, as its final content, from the first finished cycle after its close |
| `Backfill.CyclesAreRuns` | apex/ops/bootstrap_service.py:1456-1565 | what a sequence of whole cycles does to the store is, for each declared cell, a run of that cell |
| `Backfill.EveryBarOnce` | apex/ops/bootstrap_service.py:1456-1565 | over any cycles in any processes a sane bar of a declared cell is stored at most once, never before a cycle saw it closed, and once from the first cycle after its close that checked its cell without failure |
| `Backfill.GapFreeIsPrefix` | apex/ops/bootstrap_service.py:504-644 | for a venue that starts at the deep start, the stored rows are exactly a prefix of its sane bars |
| `ParamsText.StripComment` | apex/config.py:219-231 | the loop over quote flags computes the specification of a comment-free line |
| `ParamsText.SplitFlow` | apex/config.py:424-441 | the loop over quote flags computes the cut at top-level commas |
| `ParamsText.AssignNewKey` | apex/config.py:317-357 | a new key goes to the end of the dictionary |
| `ParamsText.AssignOldKey` | apex/config.py:317-357 | an equal key keeps its place and its spelling and takes the new value |
| `ParamsText.KeysAgree` | apex/config.py:317-357 | which keys are equal: each with itself, true with one, false with zero |
| `ParamsText.IntMeans` | apex/config.py:215-248 | which texts are integer literals, and their value |
| `ParamsText.FloatMeans` | apex/config.py:216-248 | which texts are float literals: sign, digits with a point, exponent, and a point or an exponent at least |
| `ParamsParser.Node` | apex/config.py:283-308 | on every input a node takes at least one line or raises, and leaves a suffix of its lines |
| `ParamsParser.BlockMap` | apex/config.py:317-357 | a block map leaves a suffix of its lines and takes one whenever it starts at a map entry |
| `ParamsParser.BlockSeq` | apex/config.py:359-395 | a block sequence leaves a suffix of its lines and takes one whenever it starts at an item |
| `ParamsParser.ParseFlow` | apex/config.py:397-422 | the loops over a flow map or sequence compute the flow specification, errors included |
| `ParamsParser.YamlSubsetParser.ParseNode` | apex/config.py:283-308 | the position and the outcome of the recursive call are those of the specification, on every input |
| `ParamsParser.YamlSubsetParser.ParseBlockMap` | apex/config.py:317-357 | the loop over `_pos` reads exactly the specified map |
| `ParamsParser.YamlSubsetParser.ParseBlockSeq` | apex/config.py:359-395 | the loop over `_pos` reads exactly the specified sequence |
| `ParamsParser.YamlSubsetParser.ParseAll` | apex/config.py:272-281 | no lines give null, and content left over raises |
| `ParamsRoundTrip.SpellingReads` | apex/config.py:234-248 | every accepted spelling of a scalar, quoted or plain, colons and commas included, is read back as that scalar |
| `ParamsRoundTrip.FlowReads` | apex/config.py:397-441 | the printed flow form of a map or sequence is read back |
| `ParamsRoundTrip.NodeReads` | apex/config.py:283-395 | a block printed at any depth is read back whole, and only it, whatever shallower lines follow |
| `ParamsRoundTrip.ParseOfPrint` | apex/config.py:251-441 | a text that carries the printed lines of a value, in any layout and spelling, with comments and blank lines anywhere, parses to the value |
| `ParamsRoundTrip.RoundTrip` | apex/config.py:251-441 | printing and then parsing is the identity on the whole fragment |
| `ParamsRoundTrip.FlowOnItsOwnLine` | apex/config.py:283-308 | alone on a line, a flow text without a colon is read as a flow node, errors included; one with a colon is a block entry whose key starts with the bracket; a well-formed one is read as itself if and only if it holds no colon |
| `ParamsRoundTrip.UnclosedFailsAlike` | apex/config.py:397-415 | a flow text with a colon that is not well formed can fail alike in both readings |
| `OrderStates.EndsOfTheLine` | apex/execution/fsm.py:106-169 | no edge leads to READY and none leaves RECONCILED |
| `OrderStates.TriggerNamesState` | apex/execution/fsm.py:106-169 | each trigger leads to the state it is named for, from the states that may hear it |
| `LedgerChain.VerifyChain` | apex/ledger/store.py:645-673 | the loop with a running head reports the specified breaks in order |
| `LedgerChain.BreaksAreBroken` | apex/ledger/store.py:645-673 | a break is reported if and only if the row's hash differs or it names no link to the row before |
| `LedgerChain.EveryAppendOnce` | apex/ledger/store.py:314-359 | whatever order appends are applied in and whichever are lost, each applied one appears once, in that order, and the chain stays linked unless one is torn |
| `LedgerChain.WhenRunIsIntact` | apex/ledger/store.py:329-359 | from any intact rows, over any run of landed, lost and torn appends, verification passes if and only if each append not lost names the last row's hash, declared or as its head |
| `LedgerChain.NoneTornIsJoined` | apex/ledger/store.py:329-359 | a run without a torn append meets that condition and verifies intact |
| `LedgerChain.TearsMustComeLast` | apex/ledger/store.py:329-359 | for distinct events without declared links, a run verifies intact if and only if nothing was written behind a torn append |
| `LedgerChain.LinkedIsIntact` | apex/ledger/store.py:329-359 | what the writer wrote verifies intact |
| `LedgerChain.TornIsReported` | apex/ledger/store.py:343-359 | after a torn append the next one is reported exactly unless it declares the torn row or repeats the head |
| `LedgerChain.AlteredRowIsReported` | apex/ledger/store.py:645-673 | a changed payload is reported at its own index and nowhere else |
| `LedgerChain.MoneyIsNotHashed` | apex/ledger/store.py:168-185 | the verdict does not depend on the price and quantity columns |
| `LedgerChain.RemovedRowIsReported` | apex/ledger/store.py:645-673 | exactly when a removed row is noticed, and where |
| `LedgerChain.RemovedRowAlwaysReported` | apex/ledger/store.py:645-673 | a removed middle row is always noticed when its successor declared no links |
| `LedgerChain.CovertRowIsReported` | apex/ledger/store.py:645-673 | a row inserted past the writer anywhere goes unnoticed if and only if it hashes itself, names the row before it and is named by the row behind it |
| `LedgerChain.CovertRowAlwaysReported` | apex/ledger/store.py:645-673 | between two rows it is always noticed when the next one declared no links and it is no copy of the one before |
| `Positions.PositionsFromLedger` | apex/ledger/store.py:525-571 | the loop builds exactly the positions of the ledger's fills, and raises if and only if a side is unmapped |
| `Positions.OneMoreRow` | apex/ledger/store.py:525-571 | one more row moves a symbol's net exactly when it is a fill with both amounts under that symbol, or under none for UNKNOWN, by the quantity its side gives |
| `Positions.TallyConcat` | apex/ledger/store.py:525-571 | positions are a homomorphism over concatenation of fills |
| `Positions.OrderDoesNotMatter` | apex/ledger/store.py:525-571 | reordering the fills changes no amount |
| `Positions.NetIsBoughtLessSold` | apex/ledger/store.py:549-558 | the net quantity is what was bought less what was sold |
| `Positions.ClosingKeepsAverage` | apex/ledger/store.py:556-567 | a closing fill never changes the average entry, wherever it stands |
| `Positions.AverageWithin` | apex/ledger/store.py:559-567 | the average entry lies between the least and the greatest opening price, up to half a unit of the twelfth place |
| `Positions.QuantizedIsNear` | apex/ledger/store.py:559-567 | the average is rounded to the nearest unit of the twelfth place, the even one of two |
| `Positions.FindDeltas` | apex/ledger/store.py:584-607 | the two loops list exactly the divergences, as many as there are, and none if and only if the ledger agrees |
| `Positions.LedgerAndBoot` | apex/execution/fsm.py:1189-1205 | on reports with each symbol once under its internal name, the ledger's reconciliation agrees if and only if the boot one does and every symbol left out is flat |
| `Positions.TwoRowsOneSymbol` | apex/execution/fsm.py:1189-1205 | with two rows for one symbol the ledger can agree while the boot does not |
| `LedgerWriter.Writer.constructor` | apex/ledger/store.py:675-679 | a reopened ledger resumes from its last row's hash |
| `LedgerWriter.Writer.Enqueue` | apex/ledger/store.py:379-422 | admission: closed, untyped and blocked appends raise and queue nothing |
| `LedgerWriter.Writer.ApplyNext` | apex/ledger/store.py:329-359 | the writer's step links at apply time; a failure leaves the head where it was |
| `LedgerWriter.Writer.Append` | apex/ledger/store.py:362-422 | one append with nothing else in flight |
| `LedgerWriter.Writer.AppendFill` | apex/ledger/store.py:435-446 | a repeated fill id returns the recorded row and writes nothing; fill ids stay unique, one call at a time |
| `LedgerWriter.Writer.Reconcile` | apex/ledger/store.py:573-625 | agreement lifts the block; divergence leaves the ledger blocked if and only if it was before or every correction was written; it succeeds exactly when all its records were; only audit rows are added, and positions do not move |
| `LedgerWriter.Writer.RequireReconciled` | apex/ledger/store.py:627-643 | succeeds if and only if the ledger is unblocked and records the intent as reconciled |
| `OrderRuns.LoggedPathEndsHere` | apex/execution/fsm.py:451-494 | under every interleaving and every fault an intent's logged moves form one connected path of legal edges from READY to where its machine stands, if and only if no move of it was torn, the recovery loop excepted |
| `OrderRuns.MovesOnlyWhenWritten` | apex/execution/fsm.py:468-494 | a state changes only on waking after its record was written, along the edge that record names; a lost or torn append moves nothing |
| `OrderRuns.SubmitsAtMostOnce` | apex/execution/fsm.py:106-169 | a machine's path holds at most one submission |
| `OrderRuns.CheckMeansReconciled` | apex/ledger/store.py:627-643 | after any run the ledger's check on records passes exactly for machines that are, or are waking into, RECONCILED, or had a move into it torn, or have another record so marked |
| `OrderRuns.BlockedLedgerStopsMachines` | apex/ledger/store.py:387-393 | while the block stands no machine begins a move; each at most finishes the one already queued |
| `OrderRuns.MovesUnderBlock` | apex/execution/fsm.py:468-494 | under the block some run changes a machine's state if and only if a request of it for another state was queued or written |
| `OrderRuns.QueuedMoveFinishesUnderBlock` | apex/execution/fsm.py:468-494 | such a machine is reachable: a run in which one moves while the ledger is blocked |
| `ExecutionFsm.EveryAnswerApplies` | apex/execution/fsm.py:598-637 | every adapter answer has an edge from SUBMITTING, and from no other state does every answer have one |
| `ExecutionFsm.UnknownLeadsToRecovery` | apex/execution/fsm.py:625-630 | an answer leads to recovery exactly when its outcome is unknown and it is no refusal |
| `ExecutionFsm.AnswerNamesState` | apex/execution/fsm.py:598-637 | a filled order ends in FILLED, and each other answer in the state that names it |
| `ExecutionFsm.Fsm.Advance` | apex/execution/fsm.py:451-494 | the ledger is written before the state moves; an illegal trigger, a blocked ledger or a failed append leaves state and history alone; the logged path stays the machine's exactly unless an admitted move other than the recovery loop was torn |
| `ExecutionFsm.Fsm.AppendPlan` | apex/ledger/store.py:448-460 | the plan's record, under the plan's proposal id, is in the ledger exactly when the ledger is open and the append is not lost, and it changes no logged path, torn or not |
| `ExecutionFsm.Fsm.ApplyAdapterResult` | apex/execution/fsm.py:598-637 | one answer becomes the one move it names, exactly when its record is written, and never one back to READY |
| `ExecutionFsm.Fsm.Announce` | apex/execution/fsm.py:550-570 | the plan's record and then the move to SUBMITTING, or neither state nor adapter changes |
| `ExecutionFsm.Fsm.Submit` | apex/execution/fsm.py:530-596 | nothing is sent unless the machine was READY, the plan passed validation and the first two new ledger rows are its plan record and its move to SUBMITTING; afterwards it is not READY, so an entry is sent at most once |
| `ExecutionFsm.TornMoveBreaksPath` | apex/ledger/store.py:343-359 | a torn append makes the logged path end elsewhere, except on the recovery loop |
| `WireMap.OnlySuccessIsAlive` | apex/execution/toobit_map.py:320-378 | a success is code 0 or 200 with HTTP 200 or no HTTP status; only a success can mean a live or finished order; every class to be reconciled is unknown |
| `WireMap.LatticeLaw` | apex/execution/toobit_map.py:463-493 | quantization gives the greatest multiple of the step not above the value |
| `WireMap.CheckedIsLawful` | apex/execution/toobit_adapter.py:402-474 | an order that passes is on both lattices, never above the request, at the minimum notional or more, never a market order, on the side its direction and phase mean by name, and leveraged by the least of all caps |
| `WireMap.WhenItGoes` | apex/execution/toobit_adapter.py:402-474 | exactly when an order passes the checks, in terms of the request and the filters |
| `WireMap.WhyItStops` | apex/execution/toobit_adapter.py:402-474 | which refusal or error a request that can be priced gets, the first reason first |
| `WireMap.WhatIsRaised` | apex/execution/toobit_adapter.py:402-474 | the errors no price can help: an unknown kind or symbol, a market order, a negative quantity |
| `WireMap.QuantizedIsLattice` | apex/execution/toobit_map.py:463-493 | what is sent is the request cut down to the lattice, by less than one step |
| `WireMap.CodesMean` | apex/execution/toobit_map.py:320-378 | what every class of answer is made of, code by code |
| `WireMap.StatusesMean` | apex/execution/toobit_map.py:320-378 | which order status stands for which outcome |
| `OrderEffect.FillMovesPosition` | apex/execution/toobit_map.py:254-265 | a fill of an entry raises the net position of a long and lowers that of a short, a fill of a flatten the other way, by the quantity filled |
| `OrderEffect.FlattenUndoesEntry` | apex/execution/toobit_map.py:254-265 | an entry and then a flatten of the same direction and quantity leave the net position where it was |
| `OrderEffect.SubmissionMovesPosition` | apex/execution/toobit_adapter.py:402-474 | so does the order that a submission puts on the wire, when it is filled |
| `Adapter.PassLaw` | apex/execution/toobit_adapter.py:623-700 | at most three attempts, and each after the first follows a backoff answer |
| `Adapter.PassEscapes` | apex/execution/toobit_adapter.py:635-700 | an exception leaves the loop if and only if some attempt within the bound raises one after nothing but backoff answers |
| `Adapter.ReplyIsLastAnswer` | apex/execution/toobit_adapter.py:635-729 | what a call returns is what its last attempt was answered |
| `Adapter.KeysAreDistinct` | apex/execution/toobit_map.py:558-572 | no two attempts of one call hash the same key text; each names the intent first and the attempt last |
| `Adapter.SubmitLaw` | apex/execution/toobit_adapter.py:402-474 | the transport is touched only by a call that enters the loop, by at most three copies of one lawful order; results are kept and never replaced |
| `Adapter.RepeatedIntent` | apex/execution/toobit_adapter.py:791-819 | a recorded intent touches nothing and returns the recorded answer, marked as a duplicate, or a refusal if its cell is disabled |
| `Adapter.ExitKindIsNeverSent` | apex/ops/paper_loop.py:833-838 | an order of kind exit is never sent |
| `Adapter.EscapedEntersAgain` | apex/execution/toobit_adapter.py:623-729 | a call that enters escapes exactly when the world breaks it off; then the same call enters again, and otherwise its intent is recorded |
| `Adapter.WhenItEnters` | apex/execution/toobit_adapter.py:402-474 | over any run, a call enters the loop exactly when it is fit, its cell is not disabled, its intent was not recorded before, and every earlier entry of the intent was broken off |
| `Adapter.EntersOnce` | apex/execution/toobit_adapter.py:623-729 | after a call that entered, its intent enters again in some later run if and only if the world broke the call off |
| `Adapter.SentTwice` | apex/execution/toobit_adapter.py:683-684 | a concrete input that puts one intent on the wire twice |
| `Adapter.ToobitAdapter.SubmitOrder` | apex/execution/toobit_adapter.py:402-474 | the imperative submission computes the specified state and result, and the audit trail gains exactly the attempts of a call that was not broken off |
| `Adapter.ToobitAdapter.Attempts` | apex/execution/toobit_adapter.py:623-700 | the retry loop sends once per attempt with a token and collects the specified records |
| `TokenBucket.RefillSplits` | apex/execution/toobit_adapter.py:221-226 | splitting a capped refill into two changes nothing |
| `TokenBucket.StaysSane` | apex/execution/toobit_adapter.py:221-258 | tokens stay between zero and the capacity whatever the clock does |
| `TokenBucket.Conserved` | apex/execution/toobit_adapter.py:221-258 | under any clock, what is taken plus what is left came from what was there and the clock's moves forward |
| `TokenBucket.AnyClockBound` | apex/execution/toobit_adapter.py:221-258 | under any clock, at most the capacity plus the rate times the sum of the clock's moves forward |
| `TokenBucket.WindowBound` | apex/execution/toobit_adapter.py:221-258 | with a clock that does not go back, a window lets through at most the capacity plus the rate times its length |
| `TokenBucket.WhenItTakes` | apex/execution/toobit_adapter.py:221-258 | a request takes a token exactly when the capacity allows one and one is there with what the time has brought |
| `TokenBucket.SpacedGoThrough` | apex/execution/toobit_adapter.py:221-258 | requests with the time of one token between them all get through |
| `TokenBucket.BurstGoesThrough` | apex/execution/toobit_adapter.py:221-258 | a burst takes as many tokens as are there, and no more |
| `TokenBucket.ClockMustNotGoBack` | apex/execution/toobit_adapter.py:221-226 | a concrete run beyond the bound when the clock goes back |
| `TokenBucket.EndpointBucket.Acquire` | apex/execution/toobit_adapter.py:228-258 | an acquisition reads the clock once and then after each bounded wait, takes exactly one token as soon as one is there, or none |
| `PaperLoop.Loop.TakeBudget` | apex/ops/paper_loop.py:527-538 | a slot is reserved exactly while fewer than the maximum are taken |
| `PaperLoop.SlotsNeverExceed` | apex/ops/paper_loop.py:527-646 | at every moment of every interleaving of the cells' stages the slots held are within the maximum, and failed cells hold none |
| `PaperLoop.HowItEnds` | apex/ops/paper_loop.py:545-646 | how a cell ends follows from its plan and its end alone, but for a cell with a plan that may find the budget taken |
| `PaperLoop.RefusedWhenFull` | apex/ops/paper_loop.py:527-538 | a cell with a plan is refused only at a moment when all slots were held |
| `PaperLoop.NobodyStarves` | apex/ops/paper_loop.py:527-538 | when no more cells have a plan than there are slots, each of them gets one |
| `PaperLoop.Loop.RunCells` | apex/ops/paper_loop.py:545-646 | the stages go through such an interleaving, every state of it within the maximum, until each has ended as its plan and its end say, with the failed cells refused |
| `PaperLoop.Loop.RecordAll` | apex/ops/paper_loop.py:1043-1056 | closes are recorded in order, in the table and then in memory, up to the first upsert that raises; failed cells keep theirs |
| `PaperLoop.CursorStore.Upsert` | apex/ops/paper_loop.py:256-268 | an older close never replaces a newer one; a lost row changes nothing, a torn one is written all the same |
| `PaperLoop.Loop.RunCycle` | apex/ops/paper_loop.py:956-1064 | one cycle runs every due cell unless its limit is used up; a cell is in what it sent if and only if its stage was submitted or faulted, as its plan and end say; it sends at most the budget, each cell once and no failed one, and records exactly the decisions before the first upsert that raises |
| `PaperLoop.RunIsWhole` | apex/ops/paper_loop.py:956-1000 | what a cycle runs is all that was due, or as many as its limit allows |
| `PaperLoop.CycleEffect` | apex/ops/paper_loop.py:956-1064 | a cell is remembered at its close if it was decided and is otherwise left as it was, in memory and table alike; neither ever goes back, and the memory never runs ahead of the table |
| `PaperLoop.FailedStaysDue` | apex/ops/paper_loop.py:1043-1056 | a cell that failed its catch-up or preparation is not sent and is due afterwards exactly if it was before |
| `PaperLoop.CursorsNeverGoBack` | apex/ops/paper_loop.py:956-1057 | over any cycles, faults and restarts neither the table's cursors nor what the loop tests against ever decrease |
| `PaperLoop.OneTradePerClose` | apex/ops/paper_loop.py:956-1057 | over any cycles, faults and restarts a trade whose decision was remembered is not sent again for that cell and close; a cycle without a raising upsert remembers all it sent |
| `PaperLoop.WhenTradedTwice` | apex/ops/paper_loop.py:956-1057 | some later history sends the same cell and close again if and only if the decision was not remembered |
| `PaperLoop.RestartRemembers` | apex/ops/paper_loop.py:956-1057 | a decision whose row was written though its upsert raised is not sent again from the next restart on |
| `EvidenceVotes.AgreementAboveHalf` | apex/fabric/context.py:225-259 | evidence of positive weight agrees by more than one half, and neither clamp acts |
| `EvidenceVotes.AgreementFloor` | apex/fabric/context.py:225-259 | evidence agrees completely or by half of (1 + dead band / total weight) at least; under normalized weights never nearer to one half than half the dead band |
| `EvidenceVotes.SplitVoteAgrees` | apex/fabric/context.py:225-259 | one engine voting n+1 against n agrees by (n+1)/(2n+1) while one vote's share reaches the dead band, and completely below it |
| `EvidenceVotes.FloorIsReached` | apex/fabric/context.py:225-259 | the floor is attained, for every n, by such a vote whose share is the dead band itself |
| `EvidenceVotes.FlipKeepsAgreement` | apex/fabric/context.py:225-259 | turning every direction round changes nothing |
| `EvidenceVotes.OpposedEnginesAgree` | apex/fabric/context.py:225-259 | two opposed engines agree completely unless they share a dependency group, and then by all but the lighter one's part of their weight |
| `EvidenceVotes.MatesShareAGroup` | apex/fabric/evidence.py:175-187 | which engines share a group |
| `EvidenceVotes.VoteOrderDoesNotMatter` | apex/fabric/context.py:225-259 | the order in which the votes came changes nothing |
| `EvidenceVotes.ShippedWeighs` | apex/fabric/context.py:136-154 | under the shipped weights any evidence has positive weight |
| `EvidenceVotes.ShippedFloor` | apex/fabric/context.py:136-154 | the shipped weights add up to one, so any evidence agrees by half the dead band more than one half |
| `EvidenceVotes.EvidenceAgreement` | apex/fabric/context.py:225-259 | the loops over engines and groups compute the specified agreement |
| `ConflictPolicy.HardConflictOnlyFromTimeframes` | apex/fabric/conflict.py:133-228 | the policy says hard conflict exactly when the timeframes conflict, or there is no evidence or no weight |
| `ConflictPolicy.HardConflictUnderShippedWeights` | apex/fabric/conflict.py:133-228 | under the shipped weights only the timeframes or an empty set lead there |
| `ConflictPolicy.WhatOutputsMean` | apex/fabric/conflict.py:133-228 | for evidence that carries weight: material conflict exactly at an agreement of 0.65 or less, consensus exactly above it with enough trust and quality and no hard flag |
| `ConflictPolicy.WhenRestrictionIsMonotone` | apex/fabric/conflict.py:213-228 | exactly when rising disagreement never loosens the output |
| `ConflictPolicy.VictimIsSymmetric` | apex/fabric/context.py:535-542 | the victim of a pair does not depend on how the pair is written, is of least quality, and of the lower id on a tie |
| `ConflictPolicy.ApplyRedundancy` | apex/fabric/context.py:545-576 | each correlated pair halves its own victim once, and nothing else changes |
| `ConflictPolicy.OnePair` | apex/fabric/context.py:535-576 | a single pair halves its victim's term exactly when it is correlated beyond 0.85 either way and both terms are present |
| `ConflictPolicy.PairOrderDoesNotMatter` | apex/fabric/context.py:545-576 | the order of the pairs does not matter |
| `ConflictPolicy.HalvedNeverRaises` | apex/fabric/context.py:545-576 | halving never raises a non-negative term |
| `Fabric.Assemble` | apex/fabric/evidence.py:335-403 | the filter loop and the sort compute the specified fabric; it raises exactly on an empty key, a trust outside zero to one or an unknown timeframe |
| `Fabric.EveryInputAccountedFor` | apex/fabric/evidence.py:366-386 | every input is a member or excluded with its reason, exactly one of the two |
| `Fabric.WhoIsIn` | apex/fabric/evidence.py:366-386 | an input is a member exactly when it is in scope, active, not later than the request, resolved to the raw ids if given, and at most five bars old; each other one is listed with the first condition it fails; members stand in order of content id |
| `Fabric.HashIgnoresOrderAndNames` | apex/fabric/evidence.py:260-280 | the hash is the same for any order of the evidence and any ids |
| `Fabric.ReassemblyIsIdentity` | apex/fabric/evidence.py:335-403 | assembling a fabric's own members again gives the same fabric and excludes nothing |
| `Fabric.HashDeterminesContents` | apex/fabric/evidence.py:260-304 | unless contents or bodies at hand collide, equal hashes mean equal member contents in equal order, and the other way round |
| `Fabric.LivesOnlyMoveOn` | apex/fabric/evidence.py:79-135 | a lifecycle never repeats a state, ends at a terminal one, and reaches ACTIVE from CANDIDATE only through CONFIRMED |
| `Fabric.WhatIsGranted` | apex/fabric/evidence.py:79-135 | exactly one stage forward is granted, and from active an end at once |
| `Fabric.WhereLivesLead` | apex/fabric/evidence.py:79-135 | one state can be lived to from another if and only if it is of a later stage |
| `Patterns.FindSwings` | apex/pattern/detect.py:375-392 | the loop appends exactly the fractal extremes |
| `Patterns.ExtremesLaw` | apex/pattern/detect.py:375-392 | the window's maximum and minimum are members that bound every member |
| `Patterns.SwingsAreStable` | apex/pattern/detect.py:375-392 | the swings of a prefix are a prefix of the swings of any extension, and new ones come later |
| `Patterns.DetectDoubleTop` | apex/pattern/detect.py:479-503 | the search loops with early return compute the specified hit |
| `Patterns.DetectShoulders` | apex/pattern/detect.py:531-570 | likewise, for the upright and the inverse form |
| `PatternMeaning.ErrorsMean` | apex/pattern/detect.py:395-435 | a detector raises exactly on a range that is not positive or on a bar with its high below its low |
| `PatternMeaning.DoubleTopMeans` | apex/pattern/detect.py:479-503 | sound and complete over the bars: the hit is the first close below the least low between, by the first neighbouring swing highs within the tolerance with a bar between them; none is reported exactly when no bars qualify |
| `PatternMeaning.DoubleBottomMeans` | apex/pattern/detect.py:506-528 | likewise for neighbouring swing lows |
| `PatternMeaning.ShouldersMean` | apex/pattern/detect.py:531-570 | likewise for three neighbouring swing highs with the middle one on top, the outer ones alike, and a close below half the sum of the swing lows between |
| `PatternMeaning.InverseShouldersMean` | apex/pattern/detect.py:531-570 | likewise the other way up |
| `PatternMeaning.AscendingMeans` | apex/pattern/detect.py:590-626 | likewise for a level enough swing highs touch and none passes, over rising swing lows, and the first close above it |
| `PatternMeaning.DescendingMeans` | apex/pattern/detect.py:590-626 | likewise the other way up |
| `PatternMeaning.RiseMeans` | apex/pattern/detect.py:739-783 | likewise for the last two swing highs and lows, rising and closing in, and the last close below the last low |
| `PatternMeaning.FallMeans` | apex/pattern/detect.py:739-783 | likewise the other way up |
| `Patterns.DetectorsTurn` | apex/pattern/detect.py:479-783 | on any given swings the turned detector finds the turned hit |
| `Patterns.MirrorImage` | apex/pattern/detect.py:479-783 | negating prices and swapping highs and lows turns each of the eight detectors into its opposite, errors included |
| `Patterns.HitsPersist` | apex/pattern/detect.py:479-583 | a double top or bottom or a head and shoulders, once found, is found on every extension |
| `PartialRepair.FindCandidates` | apex/ops/partial_bar_repair.py:281-320 | exactly the closed rows written before close plus five seconds, ordered by symbol, timeframe and open |
| `PartialRepair.CorrectionsAreLawful` | apex/ops/partial_bar_repair.py:424-449 | a correction puts a bar that satisfies the OHLC law in place of a different one, of a closed bar |
| `PartialRepair.RawStore.CorrectRaw` | apex/ops/partial_bar_repair.py:28-31 | the original row stays and is superseded, the corrected row is added; or the store fails and neither happens |
| `PartialRepair.RunRepair` | apex/ops/partial_bar_repair.py:457-524 | the report is the verdict on each candidate; an applied run supersedes exactly the rows to correct and adds exactly one corrected row for each, in candidate order, up to the first correction the store fails at; a dry run leaves the store untouched; only closed bars are asked for |
| `RepairMeaning.WhenCorrected` | apex/ops/partial_bar_repair.py:364-449 | a candidate is corrected, with which values and from where, exactly when its bar closed five seconds ago and the live bar, or else the first evidence entry with its five stored decimals parsed at its own open, is lawful and differs in one of the five |
| `RepairMeaning.WhatVerdictsMean` | apex/ops/partial_bar_repair.py:364-449 | the exact condition of each other verdict, over the world and the values |
| `RepairMeaning.WhoIsCandidate` | apex/ops/partial_bar_repair.py:281-320 | a row with printed times is looked at exactly when it is closed, wanted and was written before its close plus five seconds |
| `RepairMeaning.WhatARunCorrects` | apex/ops/partial_bar_repair.py:457-524 | an applied run supersedes a row, and adds one with exactly those values, if and only if the row is such a candidate; nothing else changes |
| `RepairMeaning.CountsMean` | apex/ops/partial_bar_repair.py:500-516 | each count is of the verdicts of its own kind |
| `PartialRepair.DryRunPredicts` | apex/ops/partial_bar_repair.py:457-524 | the rows an applied run changes are exactly those the verdicts named, and for each the row it adds, in the report's order, holds the values of its verdict |
| `PartialRepair.CandidatesAfter` | apex/ops/partial_bar_repair.py:281-320 | what remains a candidate after an applied run, whole or cut short, is what was one and was not corrected |
| `PartialRepair.SecondRunIsIdle` | apex/ops/partial_bar_repair.py:457-524 | a second applied run corrects nothing and leaves the store as it is |
| `PartialRepair.RunResumes` | apex/ops/partial_bar_repair.py:457-524 | a run cut short anywhere and then a whole one supersede what one whole run would have and leave nothing to correct |
| `PartialRepair.BucketsPartition` | apex/ops/partial_bar_repair.py:500-516 | the counted verdicts partition the report |
| `PartialRepair.OpenBarsAreNotAsked` | apex/ops/partial_bar_repair.py:479-497 | the venue is asked about a candidate if and only if its bar has closed |
| `RecoveryLog.AlwaysVerifies` | apex/ops/watchdog.py:214-257 | any appends keep the log in memory verifying |
| `RecoveryLog.WhenReloadedVerifies` | apex/ops/watchdog.py:183-234 | over any processes, with any insertions and commits failing, the reloaded log verifies if and only if in none of them an append was committed after one whose row was never inserted |
| `RecoveryLog.SessionIsStore` | apex/ops/watchdog.py:214-234 | a row of the open transaction lands with the next commit, in order, and with none is gone |
| `RecoveryLog.HashKnowsLength` | apex/ops/watchdog.py:243-257 | equal recomputed hashes were made of equally many rows |
| `RecoveryLog.NoHashRepeatsItsParent` | apex/ops/watchdog.py:214-234 | no hash of the chain equals the one before it |
| `RecoveryLog.ChangedRowBreaksTheRest` | apex/ops/watchdog.py:243-257 | a changed payload breaks its position and every later one, and no earlier one |
| `RecoveryLog.DroppedRowBreaksTheRest` | apex/ops/watchdog.py:243-257 | a dropped row breaks every later position, and no earlier one |
| `RecoveryLog.StoredHashBreaksItself` | apex/ops/watchdog.py:243-257 | a changed stored hash is noticed at its own position only, and the stored parent is not read |
| `RecoveryLog.Log.Append` | apex/ops/watchdog.py:214-234 | one append chains on the head and moves it, in memory first, then into the transaction, then into the table |
| `RecoveryLog.Log.Verify` | apex/ops/watchdog.py:243-257 | the loop over a running recomputed head lists exactly the broken positions |
| `EventBus.RunLaw` | apex/bus.py:119-184 | in every run: no P1 event is lost, the shared lane's removals and rest are the published ones in order, evictions equal the counter, the bound holds |
| `EventBus.StepLaw` | apex/bus.py:119-184 | one step seen by each lane; a shared event is picked only when the P1 lane is empty |
| `EventBus.EvictionsMakeRoom` | apex/bus.py:128-158 | an eviction takes the oldest shared event, only to make room at the bound |
| `EventBus.PriorityBus.Publish` | apex/bus.py:119-158 | the lane queues, the eviction record and the counter follow the specified step |
| `EventBus.PriorityBus.Dispatch` | apex/bus.py:170-184 | one pick follows the specified step |

## Left out

- HTTP, sockets, signing, SQLite, argument parsing, printing, Telegram and mail: input and output. Tables are maps and sequences, calls are arbitrary answers.
- Random ids, wall clocks and the internals of JSON and SHA-256: parameters.
- Binary floating point, but for the two roundings of one timestamp parser, and the 28-digit decimal context: amounts are exact reals, so sums do not depend on their order.
- `CivilTime.IsoRoundTrip`: takes the whole-format parser in exact arithmetic, where the source multiplies a binary float and cuts; `CivilTime.RoundTripOnDoubles` has the floats and says where the two agree. `Backfill` reads its frontier with the exact parser, as the source does for opens on whole seconds. The printer's own division is taken as exact; its rounding to the microsecond makes it so until about the year 2100.
- Params floats keep their literal text: the value of a float literal, and a float key equal to an integer key, are not modelled; digits are ASCII.
- Error texts and line numbers of the params parser: errors are kinds.
- Dates before 1970 and the error Python raises for a close past the year 9999.
- Backfill quality publishing, progress mirrors, printed summaries, the row-cell mismatch check and the bootstrap `run` path with its resume cursor.
- The boundary of a timeframe at a moment (`latest_close_boundary`) is an arbitrary function of the timeframe.
- Cancellation of a coroutine that waits for its ledger append: its record is written though its machine never wakes. `OrderRuns` has each machine driven by one coroutine that is not cancelled.
- `LedgerWriter.Writer.AppendFill`: states idempotency for calls that do not overlap, because the lookup and the append are separated by awaits in the source.
- `LedgerWriter.Writer.Append` and `LedgerWriter.Writer.Reconcile`: stated with nothing else in flight; appends in flight are in `LedgerChain.EveryAppendOnce` and in `OrderRuns`.
- The audit table's contents, trade-plan and outcome rows beyond their ledger record, upper-casing of fill sides, and the event-id uniqueness and monotonicity flags of the chain report.
- Timeouts, protection orders, management, cancellation and reconciliation of one order beyond their edges in the matrix; rollover, which no plan carries.
- The boot state machine and self-tests, the ladder, plan building.
- Adapter operations other than submission, extra wire parameters, the key text and the audit rows of refusals and repeats, and the response-data fallback that disables a cell when a call names none.
- Waiting in the token bucket is a bounded number of clock readings; the lock and the queue length seen by others are not modelled.
- `PaperLoop.Loop.RunCycle`: what a cell plans before the budget and how its execution ends are parameters, `max_cells_per_cycle` is not negative, and closes are not before 1970; a stage that ends in an exception after the reservation counts as sent, and so does a repeated submission that the adapter's cache would answer; a process that dies before its cursor rows is a cycle whose next upsert was lost, followed by a restart.
- Position management after entry, publishers, storage guard, reports; the scheduler's list of due cells is arbitrary, with each cell at most once.
- Context confidence, whose sigmoid is transcendental, the Pearson coefficient, freshness decay, and the one-scalar form of the redundancy law.
- Range checks on the conflict record's components and the unknown-timeframe error of the policy.
- Symmetrical triangles, flags, quasimodo, rectangles, broadening, the catalogue, and swing anchors supplied by the caller other than through `Patterns.DetectorsTurn`, which takes any swings in ascending order.
- Loading and parsing of evidence files: an entry's parse is part of the fixed world of a repair.
- The bus's subscriber lists and consumers: an event picked counts as delivered.
