# Verified model of the integration's concurrency core

This project models, in Dafny, the parts of the Govee BLE Local integration that decide *when* things
happen, and proves what they promise: the connect gate, the command burst tracker, the poll hold-off,
the poll interval policy and the turn-off deferral. Beside them it models three smaller pieces with an
exact promise of their own: the field test's WebSocket frames and receive loop, the follower of a
strip's segment count, and the self-test's restore.

`dafny verify dfyconfig.toml` checks everything.

## How it is built

Everything in the integration runs on one event loop, so a stretch of code between two suspension
points is one atomic step. For each machine there is

- a datatype for its state and a function for each step (`ConnectGate.dfy`, `Burst.dfy`, `Holdoff.dfy`,
  `Interval.dfy`, `Deferral.dfy`, `Receive.dfy`, `Segments.dfy`, `Restore.dfy`),
- a class with the program's own fields, whose methods work in place, with the program's loops, and are
  each proved to make exactly the step its function describes (`*Object.dfy`),
- where the machine lives on, runs: a trace of states and the events between them, any events in any
  order that the program allows (`IsRun`), with arbitrary answers from outside (radios, signal, clock,
  failures, cancellations),
- the theorems, about every input, every reachable state or every run.

Times are whole milliseconds (seconds in `Interval.dfy`). A ticket of the gate is an object shared by
the gate's map and every admission that carries it; it is modelled as an index into the list of all
tickets ever issued, so that sharing shows.

## What is proved, in short

- **The gate.** `GateVerdicts.VerdictsFit` says of every call in a pass which outcome it gets, from the
  radios read and the outcomes before it. Around it: room on the radios, in terms of the tickets
  themselves (`GateCapacity`), commands before polls and one capped call a radio (`GatePriority`),
  draining (`GateDrain`), which paths count, the serving order and the predicted path (`GateOrder`), the
  queue's order of arrival (`GateQueue`), outcomes when a pass fails or an entry goes (`GateOutcomes`),
  avoided radios, the grace and the release checks (`GateAvoid`), and over every run the conservation of
  tickets and one outcome per call (`GateTickets`), each carrying its own device's ticket (`GateOwners`).
- **The burst.** From the events alone: what each device counts, when a burst is on, when its tail timer
  is armed, which windows are open; a closing window says exactly whether another was open during it.
- **The hold-off.** The cap timer is exact in every reachable state; what becomes of each poll that comes
  due; one hold-off yields exactly one poll if one came due in it; where holds are released as they end
  no deadline is lost, and otherwise exactly when one is (`HoldoffDeadline`).
- **The interval.** From the events alone: each counter, and the interval each event leaves; the clamped
  backoffs equal the capped powers; commands can't keep postponing a poll.
- **The deferral.** Its three counts agree on every run; what a turn-off waits for at any moment is
  described exactly, from the commands started and not ended; the first event to end a wait decides, and
  which events send and which drop (`DeferralEndings`).
- **The WebSocket client.** Frames round-trip, laid out as the standard has them; however a stream is cut
  into chunks, the same messages and pongs come out; what a read that fails does.
- **The segment count.** The stored count in closed form over all pushes; the lights match it, and when
  exactly a push or a setup removes or reloads.
- **The restore.** Every planned action is attempted once; power, scene, colours, brightness and gradual
  flag end as found, or exactly as told where they can't (`RestoreLooks`).

Theorems are stated in terms of what was read, of tickets and of the events so far, not of the functions
the steps are made of, so that a wrong step function contradicts them.

## Findings

- *A hold-off deadline can be lost.* The comments promise that a poll held again still runs
  `POLL_HOLDOFF_MAX_SECONDS` after it first came due. But a cap that fires while another background poll
  is under way is spent without releasing anything, since that poll is to use the held one up; if
  commands then hold that poll off again and it came due later than the held one, the earlier time is
  gone. That needs a poll still held when a later one starts, as for an entry that wasn't loaded when the
  burst ended: `HoldoffDeadline.CapCanBeOvertaken` is such a run, with a return poll first held at 5 s and
  held until 130 s. `HoldoffDeadline.CapFiredThenHeldAgain` says exactly when the deadline survives, and
  `HoldoffDeadline.NoDeadlineLost` that none is lost where each end of a hold-off releases what it held.
- *A one-off poll can demote a kept one.* In the same situation a one-off poll that isn't to be kept runs
  for the kept one too and, should commands hold it off again, is held as an ordinary poll
  (`HoldoffDeadline.DemotedExactly`), which a re-arm drops (`HoldoffDeadline.KeptPollCanBeDropped`).
- *Overlapping turn-offs of one device.* The set of devices whose turn-off is being sent counts a device
  once. It is right only while one turn-off of a device is sent at a time, which the program leaves to
  Home Assistant; an entry that reloads while its old entity still sends one gives two.
  `Deferral.LookWaitsFor` says exactly which devices a look waits for then, and
  `Deferral.OverlappingSendWaitedFor` shows it waiting for one being sent to.
- *Only the last call to give a ticket back counts as failing.* The gate's description says the radio of a
  failed call is checked after the grace; the code queues the check only when that call is also the
  ticket's last holder (`GateAvoid.LastFailureChecked`, `GateWitness.FailureWithoutCheck`), and the grace
  too begins only then. The model follows the code.
- *A zone of several colours comes back with one.* The self-test puts back, for each zone, the colour of
  the first segment read among its own; `RestoreLooks.SegmentEndsAsFound` says that another of its segments
  ends as it was found exactly if it had that colour.

## Model

| member | source | states |
|---|---|---|
| `GateTickets.RunsAreSound` | custom_components/govee_ble_local/connect_gate.py:258-327 | On every run: each ticket counts exactly the calls whose admission carries it and that have not ended, it is in the map exactly while there is one, the queue holds exactly the calls without an outcome (and cancelled ones not yet resumed), and the tick is armed exactly while the queue holds a call. |
| `GateTickets.OneOutcome` | custom_components/govee_ble_local/connect_gate.py:290-307 | On every run a call's outcome, admission or cancellation, is never replaced. |
| `GateTickets.NeverOverwritten` | custom_components/govee_ble_local/connect_gate.py:714-725 | On every run a device's ticket stays in the map until its last holder gave it back: no admission overwrites it. |
| `GateTickets.PumpKeeps` | custom_components/govee_ble_local/connect_gate.py:428-465 | Conservation of tickets survives any pump, one that fails midway included, and the tick is armed after it exactly if calls are left. |
| `GateTickets.ReleaseKeeps` | custom_components/govee_ble_local/connect_gate.py:309-327 | A call that ends, or was cancelled after a pass admitted it and before it resumed, gives back exactly its share. |
| `GateTickets.JudgeKeeps` | custom_components/govee_ble_local/connect_gate.py:489-511 | Judging one call keeps the conservation of tickets and the queue's account of who has no outcome yet. |
| `GateOwners.CarriesOwnTicket` | custom_components/govee_ble_local/connect_gate.py:655-671 | On every run the ticket a call's admission carries is one of the device it called for, and until the call ends the very one the gate keeps for that device: a joined call shares its own device's. |
| `GateOwners.JudgeOwn` | custom_components/govee_ble_local/connect_gate.py:492-511 | Judging one call delivers no ticket but one of its own device, the one out or a new one. |
| `GateTickets.LeaveKeeps` | custom_components/govee_ble_local/connect_gate.py:299-307 | A call cancelled while it waits leaves the queue and takes no share with it. |
| `GateVerdicts.VerdictsFit` | custom_components/govee_ble_local/connect_gate.py:489-511 | Which outcome each call of a pass gets, with which times, and what becomes of the tickets, told from what was read and the outcomes before it: it shares its device's ticket, one holder more, exactly while one is out, from before or from earlier in the pass; else it is unseen, or linked through the first radio listing it, if it needs no connect; else admitted, with a new ticket of its device, exactly if no command goes before it, the best path with a free slot has room and that path counts or every path that counts and is heard better than it scores is idle; else capped after its maximum wait, through the path predicted or the first best heard that counts, on a radio this pass gave no connect; else it waits. A path counts if it is heard at -85 or better, failed fewer than three times and its radio is not avoided; while a device has none, all its paths do. |
| `GateVerdicts.FitFirst` | custom_components/govee_ble_local/connect_gate.py:680-690 | While one of its device's paths is fit, a call given a connect goes through a fit one, unless it is admitted and every fit path heard better than its path scores is idle, or it is capped and its path's radio has a free slot. |
| `GateVerdicts.DecideFits` | custom_components/govee_ble_local/connect_gate.py:626-690 | The same for one decision, given what the earlier ones say; a device whose link is being released is never linked. |
| `GateVerdicts.StateFromVerdicts` | custom_components/govee_ble_local/connect_gate.py:489-511 | After any number of judged calls the tickets out, and the radios closed to capped calls, are exactly those from before and those the outcomes so far gave. |
| `GateCapacity.Capacity` | custom_components/govee_ble_local/connect_gate.py:467-511 | At the end of a pass every radio it admitted a call to has, of our tickets on it issued less than the maximum wait ago, no more for devices it does not list than the free slots it reported and, a proxy, no more not connected than may connect at once, whatever else the pass capped, joined, linked or moved. |
| `GateCapacity.RoomExactly` | custom_components/govee_ble_local/connect_gate.py:692-712 | A radio has room exactly if, of our tickets on it issued less than the maximum wait ago, those for devices it does not list leave one of its free slots (or it reports no count) and, a proxy, neither those not connected nor its connects in progress reach the number that may connect at once. |
| `GateCapacity.JudgeKeepsRoom` | custom_components/govee_ble_local/connect_gate.py:492-511 | Each judged call keeps that for every radio admitted to so far, and keeps every radio given a connect closed to capped calls. |
| `GateCapacity.AdmitWithinLimits` | custom_components/govee_ble_local/connect_gate.py:692-725 | A ticket issued on a radio that has room leaves it within those limits. |
| `GatePriority.CommandsFirst` | custom_components/govee_ble_local/connect_gate.py:489-511 | A poll is admitted in a pass only if no turn-off is deferred and every command waiting at its start was resolved in it, earlier. |
| `GatePriority.OneCapPerRadio` | custom_components/govee_ble_local/connect_gate.py:504-509 | A radio gets at most one capped call in a pass, and none after a call was admitted to it. |
| `GatePriority.PassProgress` | custom_components/govee_ble_local/connect_gate.py:647-653 | A whole pass holding a call that has waited its maximum lets at least one call through. |
| `GatePriority.CommandWaits` | custom_components/govee_ble_local/connect_gate.py:489-503 | At any point of a pass a command counts as waiting exactly if a turn-off is deferred or a command judged so far was sent back. |
| `GateDrain.Drains` | custom_components/govee_ble_local/connect_gate.py:422-465 | Once all waiting calls are past their maximum wait and none arrives, each tick leaves at least one call fewer: after as many ticks as there were calls, each has its outcome. |
| `GateDrain.PumpProgress` | custom_components/govee_ble_local/connect_gate.py:428-465 | A pump, failing or not, gives some waiting call its outcome if one has waited its maximum. |
| `GateDrain.VerdictsDelivered` | custom_components/govee_ble_local/connect_gate.py:510-511 | Every admission a pass decides is what its call's future ends up holding. |
| `GateOutcomes.FailedPumpOutcomes` | custom_components/govee_ble_local/connect_gate.py:448-463 | When reading the scanners fails, wherever it does, each waiting call the pass had admitted keeps that admission and every other goes ahead unjudged, with its wait and no ticket. |
| `GateOutcomes.PassOutcomes` | custom_components/govee_ble_local/connect_gate.py:467-511 | As far as a pass gets, a waiting call has exactly the admission decided for it, or is still waiting. |
| `GateOutcomes.ReleasedOutcomes` | custom_components/govee_ble_local/connect_gate.py:402-411 | When an entry goes, exactly its device's calls without an outcome are released, without a ticket; every other call keeps its outcome or its place. |
| `GateOutcomes.CancelledForGood` | custom_components/govee_ble_local/connect_gate.py:299-307 | On every run a call cancelled while it waits gets no admission and carries no ticket, then or later. |
| `GateOrder.ServingOrder` | custom_components/govee_ble_local/connect_gate.py:485-488 | For any number of calls: commands are judged before polls, turn-offs of devices already off after the other commands, devices with one path that counts before those with several, and otherwise in the order given, which `GateQueue.PumpedInArrivalOrder` says is that of arrival. |
| `GateQueue.QueueInArrivalOrder` | custom_components/govee_ble_local/connect_gate.py:292-303 | On every run the queue holds calls as they called, in the order they did. |
| `GateQueue.PumpedInArrivalOrder` | custom_components/govee_ble_local/connect_gate.py:438 | Every pump judges exactly the queued calls without an outcome, in that order, the one just arrived the last. |
| `GateOrder.UsableAre` | custom_components/govee_ble_local/connect_gate.py:566-583 | The usable paths are those that are fit, all while none is; and there are several exactly if two of them count. |
| `GateOrder.RankedOrder` | custom_components/govee_ble_local/connect_gate.py:595-600 | The ranking holds exactly the device's paths, none outranked by one after it, by score, then by signal; a lone path by its signal alone. |
| `GateOrder.PredictIsBest` | custom_components/govee_ble_local/connect_gate.py:585-604 | The predicted path is the first, in the order the paths come, of the best by score, then by signal, of those whose radio reports a free slot or no count, and there is none exactly if no radio does. |
| `GateOrder.FirstListingIs` | custom_components/govee_ble_local/connect_gate.py:668-671 | A device is listed by the first of its paths whose radio lists it, and by none exactly if no radio does. |
| `GateOrder.BestHeardIsFirstOfBest` | custom_components/govee_ble_local/connect_gate.py:649 | A capped call without a predicted path goes through the first of the best heard of the paths that count. |
| `StableSort.SortOrders` | custom_components/govee_ble_local/connect_gate.py:488 | The sort is ascending and stable: any relation that held down the list still orders elements with equal keys. |
| `StableSort.SortKeepsElements` | custom_components/govee_ble_local/connect_gate.py:488 | The sort keeps every element, as often as it was there. |
| `StableSort.SortedFirst` | custom_components/govee_ble_local/connect_gate.py:595-603 | The first element with a property in the sorted list is, in the list, the first of those with the property that have the least key. |
| `GateAvoid.AvoidanceLasts` | custom_components/govee_ble_local/connect_gate.py:553-563 | On every run a radio avoided until some time stays avoided at least until then, unless a pass sees one of our tickets connected on it: later judgements only extend it. |
| `GateAvoid.AvoidedPathsUnfit` | custom_components/govee_ble_local/connect_gate.py:576-583 | So every pass before then finds the radio avoided still, and every path through it unfit. |
| `GateAvoid.GraceShields` | custom_components/govee_ble_local/connect_gate.py:323-324 | On every run, from the pass pumped as a ticket's last share is given back and for the grace after it, no pass's own stuck check avoids the radio the ticket was on. |
| `GateAvoid.PrepareAvoids` | custom_components/govee_ble_local/connect_gate.py:470-483 | Exactly which radios are avoided once a pass has read: those on a path of a waiting or ticketed device that heard nothing for long, list no device being connected and are out of their grace, newly; those one of our tickets is seen connected on, no longer; the others as before. |
| `GateAvoid.TicketsFollow` | custom_components/govee_ble_local/connect_gate.py:532-551 | A pass moves each live ticket to the first radio that lists its device, connected exactly if nothing connects there and the link is not being released; an unlisted one stays, not connected. |
| `GateAvoid.ChecksDecide` | custom_components/govee_ble_local/connect_gate.py:513-530 | The release checks run so far avoid exactly the radios still stuck: those that did not connect the failed call's device and whose scanner still hears it. |
| `GateAvoid.RunChecksDecide` | custom_components/govee_ble_local/connect_gate.py:440-445 | The checks of a pump, unless reading fails among them, avoid from now exactly the radios for which a check that is due finds its failed call's radio stuck still, and change no other. |
| `GateAvoid.ChecksAlwaysReal` | custom_components/govee_ble_local/connect_gate.py:317-327 | On every run each queued check is of a ticket that was issued. |
| `GateAvoid.PumpKeepsChecks` | custom_components/govee_ble_local/connect_gate.py:440-445 | A pump with a call to judge drops exactly the checks that are due; one without keeps them all. |
| `GateAvoid.LastFailureChecked` | custom_components/govee_ble_local/connect_gate.py:317-327 | In every reachable state, as a call ends its radio's check is queued exactly if the call failed and was the last to hold its ticket. |
| `GateWitness.FailureWithoutCheck` | custom_components/govee_ble_local/connect_gate.py:319-327 | A run in which two calls share a device's ticket and the first fails: no check is queued. |
| `GateAvoid.OthersKeepDeferred` | custom_components/govee_ble_local/connect_gate.py:329-349 | Nothing but its own beginnings and ends changes the count of deferred turn-offs. |
| `GateCounts.CountsExact` | custom_components/govee_ble_local/connect_gate.py:329-374 | On every run the gate counts, for each device, the releases of its link begun and not ended, and the deferred turn-offs begun and not ended. |
| `GateCounts.GracesFromEnds` | custom_components/govee_ble_local/connect_gate.py:319-324 | On every run a grace the gate keeps was begun by a call that gave back the last share of a ticket on that radio, and is to end exactly the grace after that. |
| `GateObject.ConnectGate.Pump` | custom_components/govee_ble_local/connect_gate.py:428-465 | Made in place, checks, pass, failure and re-scheduling are the pump that `GateTickets.PumpKeeps` and `GateDrain.PumpProgress` speak of. |
| `GateObject.ConnectGate.Pass` | custom_components/govee_ble_local/connect_gate.py:467-511 | The pass's loop, in which each admission changes the tickets the next decision reads, is the pass that `GateVerdicts.VerdictsFit` and `GateCapacity.Capacity` speak of, failing where it fails. |
| `GateObject.ConnectGate.JudgeCall` | custom_components/govee_ble_local/connect_gate.py:492-511 | One turn of that loop is the step `GateCapacity.JudgeKeepsRoom` and `GateTickets.JudgeKeeps` speak of. |
| `GateObject.ConnectGate.Decide` | custom_components/govee_ble_local/connect_gate.py:626-671 | A decision, changing the tickets in place, is the one `GateVerdicts.DecideFits` describes. |
| `GateObject.ConnectGate.Admit` | custom_components/govee_ble_local/connect_gate.py:714-725 | The ticket issued in place is the one the admission carries: one holder, not connected, of that device and radio. |
| `GateObject.ConnectGate.RefreshTickets` | custom_components/govee_ble_local/connect_gate.py:532-551 | The loop over the tickets ends, in whatever order it takes them, with each moved to the radio that lists its device and every radio one is connected on no longer avoided (`GateAvoid.PrepareAvoids`). |
| `GateObject.ConnectGate.AvoidStuckRadios` | custom_components/govee_ble_local/connect_gate.py:480-482 | The loop over the radios read avoids exactly the stuck ones out of their grace. |
| `GateObject.ConnectGate.RunChecks` | custom_components/govee_ble_local/connect_gate.py:440-445 | The loop over the due release checks runs each once, as far as reading goes, and keeps the others. |
| `GateObject.ConnectGate.CheckReleased` | custom_components/govee_ble_local/connect_gate.py:513-530 | A failed call's radio is avoided only if it is still stuck, did not connect the device, and still hears it. |
| `GateObject.ConnectGate.Unjudge` | custom_components/govee_ble_local/connect_gate.py:457-463 | The loop that lets the waiting calls go is the one `GateOutcomes.FailedPumpOutcomes` speaks of. |
| `GateObject.ConnectGate.Enqueue` | custom_components/govee_ble_local/connect_gate.py:290-298 | Queueing a call in place is the arrival the runs of `GateTickets.RunsAreSound` are made of. |
| `GateObject.ConnectGate.Leave` | custom_components/govee_ble_local/connect_gate.py:304-307 | So is a call's leaving the queue (`GateTickets.LeaveKeeps`). |
| `GateObject.ConnectGate.Release` | custom_components/govee_ble_local/connect_gate.py:309-327 | And giving a share back, with the grace, the queued check and the pump of the last one (`GateTickets.ReleaseKeeps`). |
| `GateObject.ConnectGate.ReleaseWaiters` | custom_components/govee_ble_local/connect_gate.py:402-411 | The loop over an address's waiting calls is the release `GateOutcomes.ReleasedOutcomes` speaks of. |
| `GateObject.ConnectGate.Schedule` | custom_components/govee_ble_local/connect_gate.py:413-420 | Afterwards the tick is armed exactly if calls wait, whatever it was before. |
| `GateObject.ConnectGate.OnTick` | custom_components/govee_ble_local/connect_gate.py:422-426 | A tick is spent before it pumps: it is armed afterwards only if calls are left. |
| `GateObject.ConnectGate.NoteReleasing` | custom_components/govee_ble_local/connect_gate.py:351-374 | A link being released counts once more; the object returned has not ended the count. |
| `GateObject.EndReleasing.Call` | custom_components/govee_ble_local/connect_gate.py:363-372 | However often it is called, the count is ended once, and the gate pumps then only. |
| `GateObject.ConnectGate.NoteDeferredOff` | custom_components/govee_ble_local/connect_gate.py:329-349 | A deferred turn-off counts once more; the object returned has not ended the count. |
| `GateObject.EndDeferredOff.Call` | custom_components/govee_ble_local/connect_gate.py:341-347 | However often it is called, the count is ended once, and nothing is judged. |
| `Burst.TailAlwaysExact` | custom_components/govee_ble_local/coordinator.py:260-354 | In every reachable state the tail timer is armed exactly when a burst is active and no command runs and no turn-off is deferred, and every count kept is positive; `Burst.CountsExact` says what is counted. |
| `Burst.CountsExact` | custom_components/govee_ble_local/coordinator.py:260-294 | On every run a device counts exactly as many commands as started and have not ended, and as many waiting turn-offs, told from the events alone; it is in the map exactly while there is one. |
| `Counting.OutstandingIs` | custom_components/govee_ble_local/coordinator.py:260-274 | Where every end follows a start of its own, what has started and not ended is the starts less the ends. |
| `Burst.BurstFromEvents` | custom_components/govee_ble_local/coordinator.py:260-354 | On every run, told from the events alone: a burst is on exactly if several devices had a command running or a turn-off waiting at once and none ended since, by the tail firing or by nothing being left with no entry loaded; its tail is armed exactly while every command started has ended and no turn-off waits. |
| `Burst.WindowsExact` | custom_components/govee_ble_local/coordinator.py:245-258 | On every run a window is open exactly if it opened and has not closed since. |
| `Burst.SeveralDevicesActive` | custom_components/govee_ble_local/coordinator.py:296-302 | On every run two devices counted at once mean a burst. |
| `Burst.WindowHistory` | custom_components/govee_ble_local/coordinator.py:245-258 | On every run an open window's flag says exactly whether, at some moment since it opened, another device's window was open too. |
| `BurstObject.CommandBurst.NoteCommandStarted` | custom_components/govee_ble_local/coordinator.py:260-265 | In place, the start of a command as in the runs of `Burst.TailAlwaysExact`; `DeferralObject.CommandStarts` adds what the listeners do. |
| `BurstObject.CommandBurst.NoteCommandFinished` | custom_components/govee_ble_local/coordinator.py:268-274 | In place, its end there: one command of the device less, and the last of all starts the tail; `DeferralObject.CommandEnds` adds what the listeners do. |
| `BurstObject.CommandBurst.NoteDeferredStarted` | custom_components/govee_ble_local/coordinator.py:277-286 | In place, the start of a turn-off's wait there. |
| `BurstObject.CommandBurst.NoteDeferredFinished` | custom_components/govee_ble_local/coordinator.py:288-294 | In place, its end there. |
| `BurstObject.CommandBurst.MaybeStart` | custom_components/govee_ble_local/coordinator.py:296-302 | A burst starts exactly when two devices are involved and none is active (`Burst.SeveralDevicesActive`). |
| `BurstObject.CommandBurst.StartTail` | custom_components/govee_ble_local/coordinator.py:313-324 | Afterwards one tail runs, or, with no entry loaded, none and no burst is active. |
| `BurstObject.CommandBurst.NoteUnload` | custom_components/govee_ble_local/coordinator.py:326-337 | With no entry loaded the tail is gone, and the burst too unless a command runs or a turn-off waits. |
| `BurstObject.CommandBurst.EndBurst` | custom_components/govee_ble_local/coordinator.py:339-343 | In place, the tail's end, which in a run finds nothing running (`Burst.StepKeepsTail`). |
| `HoldoffObject.EndBurst` | custom_components/govee_ble_local/coordinator.py:339-347 | The tail's end with the loop over the loaded entries: each one's held poll is released as in `Holdoff.OneReleaseOnePoll`, unless its own hold-off goes on. |
| `BurstObject.CommandBurst.NoteWindowOpen` | custom_components/govee_ble_local/coordinator.py:245-253 | In place, the opening of a window as in the runs of `Burst.WindowHistory`. |
| `BurstObject.CommandBurst.CloseWindow` | custom_components/govee_ble_local/coordinator.py:255-258 | The flag returned is the window's, of which `Burst.WindowHistory` says what it means; false for a window not open. |
| `Deferral.CountsAgree` | custom_components/govee_ble_local/deferral.py:110-125 | On every run, however each wait ends, the gate's count of deferred turn-offs, the sum of the burst's per-device counts and the number of live waits are one number; none is negative or ended twice. |
| `Deferral.StepKeepsCounted` | custom_components/govee_ble_local/deferral.py:193-224 | Each step of the three machines keeps that, device by device. |
| `Deferral.CommandsExact` | custom_components/govee_ble_local/coordinator.py:260-274 | On every run of the three machines a device counts as commanding exactly while a command to it has started and not ended. |
| `Deferral.WaitsForExactly` | custom_components/govee_ble_local/deferral.py:155-201 | On every run what a turn-off waits for at any moment is exactly the other devices that had, at its look and after every command event since, a command started and not ended and were not set aside (so a command started later never prolongs it); with none left it has its outcome. |
| `Deferral.OutcomeKept` | custom_components/govee_ble_local/deferral.py:239-245 | On every run the first ending of a wait decides: its outcome never changes. |
| `Deferral.FirstEndingDecides` | custom_components/govee_ble_local/deferral.py:218-224 | And its coroutine resumes with it: the turn-off is sent or dropped. |
| `Deferral.OverForGood` | custom_components/govee_ble_local/deferral.py:155-170 | On every run a turn-off once sent, or cancelled wherever it was, is over for good: it waits no more and is not sent again. |
| `DeferralEndings.ResumesAsFirstEnded` | custom_components/govee_ble_local/deferral.py:195-245 | On every run a turn-off that waited resumes as the first event to end its wait says: dropped exactly if that was Home Assistant stopping or a removal of its own entity, sent exactly if it was its cap, a newer call to its entity, or the commands it waited for being done. |
| `DeferralEndings.OutcomeOfFirst` | custom_components/govee_ble_local/deferral.py:195-245 | On every run a wait has no outcome until such an event, and then that event's. |
| `DeferralEndings.RemovedBeforeLook` | custom_components/govee_ble_local/deferral.py:181-185 | On every run a turn-off's look drops it exactly if its entity was removed since it began. |
| `Deferral.OffsExact` | custom_components/govee_ble_local/deferral.py:162-170 | On every run a device is set aside exactly if a sending of a turn-off to it started and none ended since. |
| `Deferral.LookWaitsFor` | custom_components/govee_ble_local/deferral.py:138-141 | On every run a look waits for a device exactly if it is another one with a command started and not ended that is not set aside: so for one a turn-off is being sent to, if another such sending ended meanwhile. |
| `Deferral.LookDecides` | custom_components/govee_ble_local/deferral.py:181-218 | On every run a look that does not drop its turn-off makes it wait exactly if there is a device to wait for, Home Assistant does not stop and its own link is not up; else the turn-off is sent at once. |
| `Deferral.SentNotWaitedFor` | custom_components/govee_ble_local/deferral.py:138-141 | While turn-offs of a device are sent one at a time, none that starts waiting waits for a device one is being sent to. |
| `Deferral.OverlappingSendWaitedFor` | custom_components/govee_ble_local/deferral.py:68-72 | With two of one device sent at once that fails: a run in which a turn-off waits for a device being sent one. |
| `DeferralObject.NoteWaiting` | custom_components/govee_ble_local/deferral.py:110-125 | Both objects, the burst and the gate, count the wait, and neither count is ended (`Deferral.CountsAgree`). |
| `DeferralObject.EndWaiting.Call` | custom_components/govee_ble_local/deferral.py:120-125 | Both counts are one less, the gate's not again if it was ended. |
| `DeferralObject.Wait.CommandsChanged` | custom_components/govee_ble_local/deferral.py:195-201 | The wait set shrinks in place to the devices that still count, and with none left the wait ends with sending, unless it ended (`Deferral.WaitsForExactly`). |
| `DeferralObject.Wait.End` | custom_components/govee_ble_local/deferral.py:239-245 | A later ending changes nothing (`Deferral.OutcomeKept`). |
| `DeferralObject.OffDeferral.Look` | custom_components/govee_ble_local/deferral.py:184-218 | Dropped if the entity was removed since it started, sent at once if nothing is to wait for, else one more wait for exactly the others commanding, counted in both objects: the look of the system's runs, of which the objects stay the parts. |
| `DeferralObject.OffDeferral.Resume` | custom_components/govee_ble_local/deferral.py:219-224 | However the wait ended, it leaves the waits and both counts end, and the turn-off is sent exactly if its outcome says so and it was not cancelled: the resumption, or cancellation, of the system's runs. |
| `DeferralObject.OffDeferral.SendEnds` | custom_components/govee_ble_local/deferral.py:165-170 | Sent or failed, the device is no longer set aside, as in the runs of `Deferral.OffsExact`. |
| `DeferralObject.OffDeferral.Hurry` | custom_components/govee_ble_local/deferral.py:226-230 | Every wait of this entity not ended yet ends with sending, and no other entity's: the hurry of `DeferralEndings.ResumesAsFirstEnded`. |
| `DeferralObject.OffDeferral.Drop` | custom_components/govee_ble_local/deferral.py:232-237 | Every wait of this entity not ended yet ends with dropping, and no other entity's; those yet to look find the removal: the drop of `DeferralEndings.ResumesAsFirstEnded` and `RemovedBeforeLook`. |
| `DeferralObject.Notify` | custom_components/govee_ble_local/coordinator.py:304-311 | The loop over the listeners narrows every wait, in whatever order, to the devices that count then. |
| `DeferralObject.CommandStarts` | custom_components/govee_ble_local/coordinator.py:260-266 | A command's start with its listeners: burst and waits take the step of the system's runs. |
| `DeferralObject.CommandEnds` | custom_components/govee_ble_local/coordinator.py:268-275 | A command's end with its listeners: likewise. |
| `Holdoff.CapAlwaysExact` | custom_components/govee_ble_local/coordinator.py:1138-1174 | In every reachable state the cap timer, if armed, is armed for exactly the first-held time plus the maximum and a poll is held; and while a poll is held with none running it is armed. |
| `Holdoff.OneHoldoffOnePoll` | custom_components/govee_ble_local/coordinator.py:1120-1208 | On every run, if since a hold-off began a poll came due with no update running, and nothing used it up or dropped it, then however many more came due exactly one poll starts as the hold-off ends: it counts from no later than that one, apart if that one was to be kept, and nothing is held any more. |
| `Holdoff.OneReleaseOnePoll` | custom_components/govee_ble_local/coordinator.py:1176-1208 | A release clears every held poll and Home Assistant's timer and starts one poll, which carries the first-held time on, or, released by the cap, runs whatever holds polls off; as Home Assistant stops it only clears them. |
| `Holdoff.DueIsHeld` | custom_components/govee_ble_local/coordinator.py:801-819 | A poll of any kind that comes due with polls held off, and no update running, is held, apart if it is to be kept; its cap is that of the poll held first, or counts from now. A requested one is held during an update too. |
| `Holdoff.DueIsUsedUp` | custom_components/govee_ble_local/coordinator.py:1284-1313 | A scheduled or first poll that comes due during an update is that update: nothing is held or started for it. |
| `Holdoff.DueStarts` | custom_components/govee_ble_local/coordinator.py:1284-1320 | With nothing holding it off its refresh starts, to be held again apart if it is to be kept; a requested one takes the place, and the first-held time, of what is held. |
| `Holdoff.StartsAs` | custom_components/govee_ble_local/coordinator.py:1600-1607 | An update takes the place of a held scheduled poll, leaves one held apart, and knows how to be held again unless the cap released it or no refresh of the coordinator started it: from its first-held time, or from now. |
| `Holdoff.EndsAs` | custom_components/govee_ble_local/coordinator.py:1608-1633 | An update that read the device or failed used up what was held; one held again stands for it, apart if either was, its cap counting from the earlier of their times. |
| `Holdoff.DropsAs` | custom_components/govee_ble_local/coordinator.py:1322-1334 | A re-arm of the timer, or a refresh that reads nothing, drops a held scheduled poll and leaves one held apart with its cap; unloading drops both. |
| `Holdoff.ReleasesNothing` | custom_components/govee_ble_local/coordinator.py:1121-1129 | The end of a hold-off starts nothing while nothing is held, an update runs or commands still hold polls off; the cap, during an update, is only spent. |
| `Holdoff.FlagsExact` | custom_components/govee_ble_local/coordinator.py:1240-1243 | On every run Home Assistant counts as stopping, commands as holding polls off and an update as running exactly as the events so far say. |
| `HoldoffDeadline.NoDeadlineLost` | custom_components/govee_ble_local/coordinator.py:1138-1334 | Where each end of a hold-off releases what it held and each refresh starts as it comes due, no deadline is ever lost: on every such run a poll owed by one stays owed by it until it ran or was dropped. |
| `HoldoffDeadline.DueIsOwed` | custom_components/govee_ble_local/coordinator.py:1138-1161 | On every run a scheduled, first or requested poll that comes due with polls held off and no update running is owed by its due time plus the maximum, apart if it is to be kept. |
| `HoldoffDeadline.DueKeepsDeadline` | custom_components/govee_ble_local/coordinator.py:1138-1334 | So where no deadline is lost it is owed by then until it ran or was dropped. |
| `HoldoffDeadline.DeadlineKept` | custom_components/govee_ble_local/coordinator.py:1591-1633 | On any run a poll owed by a deadline stays owed by it while it is held, released, waits for its place or is held again, until it ran or was dropped, unless its cap fires during an update that came due later, a refresh that came due later starts in its place, or a poll not to be kept runs for it. |
| `HoldoffDeadline.CapFiredThenHeldAgain` | custom_components/govee_ble_local/coordinator.py:1163-1174 | On every run, when the cap of a held poll fires during another's update and that is then held again, whatever else is held meanwhile: the poll is held by its deadline still exactly if that update first came due no later, and apart if it was. |
| `HoldoffDeadline.ReplacedThenHeldAgain` | custom_components/govee_ble_local/coordinator.py:1322-1334 | Likewise for a held scheduled poll that a starting refresh drops. |
| `HoldoffDeadline.DemotedExactly` | custom_components/govee_ble_local/coordinator.py:801-819 | When a one-off poll is requested, a poll held apart is still owed apart, exactly unless the request is not to be kept, nothing holds polls off, no poll runs and nothing else waiting is owed. |
| `HoldoffDeadline.KeptPollCanBeDropped` | custom_components/govee_ble_local/coordinator.py:801-819 | A run in which a turn-on poll runs for a kept one left held, is held off, and a re-arm then drops it: nothing was read. |
| `HoldoffDeadline.CapCanBeOvertaken` | custom_components/govee_ble_local/coordinator.py:1163-1174 | A run in which a return poll first held at 5 s, left held as its hold-off ended, is owed by 125 s and held until 130 s. |
| `Holdoff.CapReleasedRunsOut` | custom_components/govee_ble_local/coordinator.py:1210-1237 | On every run the poll the cap released is, once its update starts, never held again: the update goes on until it reads the device or fails. |
| `HoldoffObject.Coordinator.HoldPoll` | custom_components/govee_ble_local/coordinator.py:1138-1161 | In place, the hold of `Holdoff.CapAlwaysExact`'s runs: a cap already armed stays, a new one counts from the earlier of the given time and now. |
| `HoldoffObject.Coordinator.HoldoffCapReached` | custom_components/govee_ble_local/coordinator.py:1163-1174 | In place, the cap of `HoldoffDeadline.CapFiredThenHeldAgain` and `Holdoff.CapReleasedRunsOut`. |
| `HoldoffObject.Coordinator.ReleasePoll` | custom_components/govee_ble_local/coordinator.py:1176-1208 | In place, the release of `Holdoff.OneReleaseOnePoll`; once Home Assistant stops, the held polls only go. |
| `HoldoffObject.Coordinator.ReleaseHeldPoll` | custom_components/govee_ble_local/coordinator.py:1120-1129 | In place, the end of a hold-off in `Holdoff.OneHoldoffOnePoll`; nothing while commands hold polls off or a poll runs. |
| `HoldoffObject.Coordinator.DropHeldPolls` | custom_components/govee_ble_local/coordinator.py:1261-1274 | Afterwards nothing is held and no cap is armed. |
| `HoldoffObject.Coordinator.UnsubRefresh` | custom_components/govee_ble_local/coordinator.py:1322-1334 | Afterwards no scheduled poll is held or due; one held apart, and its cap, stay. |
| `HoldoffObject.Coordinator.HandleRefreshInterval` | custom_components/govee_ble_local/coordinator.py:1293-1320 | In place, a scheduled poll coming due: that of `Holdoff.DueIsHeld`, `Holdoff.DueIsUsedUp` and `Holdoff.DueStarts`. |
| `HoldoffObject.Coordinator.BackgroundPoll` | custom_components/govee_ble_local/coordinator.py:1276-1291 | In place, the first poll coming due, likewise. |
| `HoldoffObject.Coordinator.RequestPoll` | custom_components/govee_ble_local/coordinator.py:801-819 | In place, a requested poll coming due, likewise, and the request of `HoldoffDeadline.DemotedExactly`. |
| `HoldoffObject.Coordinator.StartUpdate` | custom_components/govee_ble_local/coordinator.py:1600-1607 | In place, the start of `Holdoff.StartsAs`. |
| `HoldoffObject.Coordinator.EndUpdate` | custom_components/govee_ble_local/coordinator.py:1608-1633 | In place, the end of `Holdoff.EndsAs`, Home Assistant's re-arm included. |
| `Interval.PaceAlwaysSound` | custom_components/govee_ble_local/coordinator.py:1496-1587 | In every reachable state there is no interval exactly while the policy polls nothing; else it lies between the base and the maximum and at or above the slow device's floor. |
| `Interval.IntervalExact` | custom_components/govee_ble_local/coordinator.py:1508-1587 | On every run, told from the events alone, the interval each event leaves: after a good poll the base cadence, for a light that is on doubled for each poll since that found it the same, up to its maximum; after a failed one doubled for each failure after the first that was not slow; none while the policy polls nothing; on a move, a command, a flip or a return what the code says; and never below the floor, the base doubled for each slow poll up to three and up to the maximum. |
| `Interval.CountersExact` | custom_components/govee_ble_local/coordinator.py:1725-1865 | On every run the policy is the one last found, and the counters count exactly the failed polls, those that were not slow, the slow polls and the unchanged ones since what starts each over. |
| `Interval.ResetExact` | custom_components/govee_ble_local/coordinator.py:1354-1381 | On every run the streak's one reset is used by the first command that finds failing polls backed off beyond the base cadence, and given back by a poll that succeeds. |
| `Interval.FailureClosedForm` | custom_components/govee_ble_local/coordinator.py:1579-1587 | For every count the clamped backoff is the capped power: the clamp changes nothing. |
| `Interval.FailureStreak` | custom_components/govee_ble_local/coordinator.py:1845-1873 | On every run, after n plain failures in a row a polled device's interval is the capped power for n, floored. |
| `Interval.OnBackoffClosedForm` | custom_components/govee_ble_local/coordinator.py:1561-1565 | On every run a light that stays on and reads the same n polls in a row is polled at the capped power for n. |
| `Interval.CommandRestoresBase` | custom_components/govee_ble_local/coordinator.py:1346-1381 | After a command the next poll comes at the base cadence, floored, for a light that is on, and after failures the first time in a streak; otherwise the interval stays. |
| `Interval.CommandsPostponeOnce` | custom_components/govee_ble_local/coordinator.py:1336-1383 | Once a command landed, the next with the policy unchanged re-arms nothing: a stream of commands postpones the poll once. |
| `Interval.OneResetAStreak` | custom_components/govee_ble_local/coordinator.py:1354-1381 | On every run commands drop the failure backoff at most once until a poll succeeds. |
| `IntervalObject.Coordinator.SetPollInterval` | custom_components/govee_ble_local/coordinator.py:1892-1902 | No interval is ever set below the slow device's floor. |
| `IntervalObject.Coordinator.SetPolicy` | custom_components/govee_ble_local/coordinator.py:1496-1506 | In place, the move to another step, of which it says whether it was one; the on-backoff starts over only then. |
| `IntervalObject.Coordinator.ApplyPolicy` | custom_components/govee_ble_local/coordinator.py:1508-1539 | In place, the re-check of `Interval.PaceAlwaysSound`'s runs; the timer is re-armed exactly if polls are scheduled at an interval other than before. |
| `IntervalObject.Coordinator.RestartOnBackoff` | custom_components/govee_ble_local/coordinator.py:1541-1559 | In place, the on-backoff starting over; the timer is re-armed exactly for a light that is on, not failing, at a backed-off interval. |
| `IntervalObject.Coordinator.HandleCommandSuccess` | custom_components/govee_ble_local/coordinator.py:1336-1383 | In place, the command of `Interval.CommandsPostponeOnce`; with the policy unchanged the timer is re-armed exactly when that says it is. |
| `IntervalObject.Coordinator.HeardAgain` | custom_components/govee_ble_local/coordinator.py:689-694 | In place, the return of `Interval.IntervalExact`. |
| `IntervalObject.Coordinator.NotePollSpeed` | custom_components/govee_ble_local/coordinator.py:1815-1823 | A slow success adds one slow step up to the limit, any other resets them. |
| `IntervalObject.Coordinator.NoteSuccess` | custom_components/govee_ble_local/coordinator.py:1825-1843 | In place, the success of `Interval.IntervalExact`. |
| `IntervalObject.Coordinator.NoteFailure` | custom_components/govee_ble_local/coordinator.py:1845-1869 | In place, the failure of `Interval.IntervalExact`; a slow one adds a slow step instead of a step of the backoff. |
| `Frames.RoundTrip` | tools/ha_field_test/ha_api.py:202-251 | For every opcode below 16, mask, payload below 2^64 bytes and bytes after it, a client frame is read back: FIN, opcode, payload and exactly its length (RFC 6455, sections 5.2 and 5.3). |
| `Frames.FrameLayout` | tools/ha_field_test/ha_api.py:202-215 | A client frame byte by byte: FIN and opcode, the mask bit and the length in one byte or big-endian in the two or eight after it, the key, and the payload with each byte masked by the key's byte whose turn it is (RFC 6455, sections 5.2 and 5.3). |
| `Frames.FrameRead` | tools/ha_field_test/ha_api.py:223-251 | Of any bytes the parser reads a frame exactly if its header, key and payload are all there: FIN, opcode, the length in whichever form, the payload unmasked if the mask bit is set, and how many bytes that took. |
| `Frames.ServerRoundTrip` | tools/ha_field_test/ha_api.py:223-251 | So is an unmasked server frame, a fragment too. |
| `Frames.MoreChangesNothing` | tools/ha_field_test/ha_api.py:223-251 | A whole frame reads the same whatever bytes follow. |
| `Frames.WholeOrNone` | tools/ha_field_test/ha_api.py:223-251 | Of any data that starts with a whole frame, every prefix shorter than the frame reads as none and every other as the frame. |
| `Frames.ShortestForm` | tools/ha_field_test/ha_api.py:205-213 | The length takes its shortest form: no masked frame the parser accepts is shorter for as long a payload. |
| `Frames.NumberRoundTrip` | tools/ha_field_test/ha_api.py:210-213 | A length written in two or eight bytes, most significant first, reads back. |
| `Receive.ReceivesTheStream` | tools/ha_field_test/ha_api.py:362-386 | However a stream is cut into chunks, without timeout or loss, successive calls return the messages, and answer the pings, that decoding all of it at once finds, in order, up to a close. |
| `Receive.ChunkingIndependence` | tools/ha_field_test/ha_api.py:362-386 | So two ways of cutting one stream give the same messages, the same pongs and the same end. |
| `Receive.MessagesArrive` | tools/ha_field_test/ha_api.py:362-386 | Messages a server sends, fragmented or not, with pings anywhere, arrive as they were, each ping answered once, in order (RFC 6455, sections 5.4 and 5.5.3). |
| `Receive.ReceiveReads` | tools/ha_field_test/ha_api.py:362-386 | One call takes exactly the stream's next message, or finds there is none. |
| `Receive.TimeoutLosesFragments` | tools/ha_field_test/ha_api.py:364-370 | A call that times out inside a message drops the fragments it read: the next message lacks exactly those, and is the one sent exactly if they carried nothing. |
| `Receive.TimeoutCutsMessage` | tools/ha_field_test/ha_api.py:364-370 | The message "ab" in two fragments with a timeout between is read as "b". |
| `Receive.FailedReadEnds` | tools/ha_field_test/ha_api.py:334-351 | A read that fails ends the call once no whole message arrived before it: as a timeout, still connected, if nothing came in time; as closed, and not connected, if the connection was lost or closed. What arrives later stays for the next call. |
| `Receive.EndsAs` | tools/ha_field_test/ha_api.py:362-386 | A call leaves a connected client connected exactly if it does not return closed. |
| `ReceiveObject.WebSocketClient.Receive` | tools/ha_field_test/ha_api.py:362-386 | The loop over buffer, fragments, pongs and close is the call `Receive.ReceiveReads` speaks of, for any arrivals, timeouts and losses. |
| `ReceiveObject.WebSocketClient.RecvMore` | tools/ha_field_test/ha_api.py:334-351 | One read of the socket appends what arrived, or says which failure it met; only a failure that ends the connection drops it. |
| `Segments.StoredInClosedForm` | custom_components/govee_ble_local/__init__.py:613-629 | After any pushes the stored count is that of the latest two reads in a row that agree (a repeated stamp is no read, a push without a count breaks the row), or what it was. |
| `Segments.UnsteadyCountsChangeNothing` | custom_components/govee_ble_local/__init__.py:613-639 | While any two reads in a row that agree agree on the stored count, nothing is stored, reloaded or removed: not by counts that change at each read, nor by single bad reads. |
| `Segments.LightsAlwaysMatch` | custom_components/govee_ble_local/__init__.py:539-639 | On every run, once the device reported a count, as many lights were built and none past it is left, or a reload is coming; a device without segments has none. |
| `Segments.CheckActs` | custom_components/govee_ble_local/__init__.py:613-639 | A push reloads the entry exactly if it takes a count other than the stored one that setup did not build, removes lights exactly if setup built as many, and changes nothing else in the registry. |
| `Segments.SetupBuilds` | custom_components/govee_ble_local/__init__.py:539-558 | A setup builds as many lights as the device last reported, else as the library says, none for a device without segments; it removes those past a reported count, or all of a device without segments, and nothing else. |
| `Segments.PastExactly` | custom_components/govee_ble_local/__init__.py:572-580 | A registry entry counts as past those kept exactly if it is a light whose id is the address, "_segment_" and digits that make a number not below it. |
| `Segments.SegmentLightStays` | custom_components/govee_ble_local/__init__.py:572-580 | A segment light goes exactly if its index is past those kept: the ids written are the ids read. |
| `Segments.RemovesExactlyPast` | custom_components/govee_ble_local/__init__.py:562-582 | Removing leaves no segment light past those kept, changes no other entry, and done again removes nothing. |
| `SegmentsObject.SegmentFollower.Check` | custom_components/govee_ble_local/__init__.py:613-639 | In place, the push of `Segments.StoredInClosedForm` and `Segments.CheckActs`. |
| `SegmentsObject.SegmentFollower.RemoveSegmentLights` | custom_components/govee_ble_local/__init__.py:562-582 | The loop leaves exactly the entries that are no segment light past those kept, unchanged. |
| `SegmentsObject.SegmentFollower.SizeSegmentLights` | custom_components/govee_ble_local/__init__.py:539-558 | What setup builds, and has removed, as `Segments.SetupBuilds` says: nothing is removed by a count the device has not reported. |
| `Restore.RestoreEndsAsFound` | custom_components/govee_ble_local/capture.py:383-433 | From any lights the test left, a restore whose power actions all land ends with the fixture's power as read before the test and, unless a fixture with a power command was found off, every zone's that was read. |
| `Restore.ZonesEndAsFound` | custom_components/govee_ble_local/capture.py:403-413 | The zones' part, for any snapshot true of the lights found. |
| `Restore.FixtureEndsAsFound` | custom_components/govee_ble_local/capture.py:383-413 | The fixture's part. |
| `Restore.ColouredLit` | custom_components/govee_ble_local/capture.py:383-433 | Colours, brightness and the gradual flag go to a device whose zones known to have been on are lit again, all of them for a fixture with a power command found on. |
| `RestoreLooks.PlanShows` | custom_components/govee_ble_local/capture.py:357-433 | From any look the test left, a restore whose actions all land leaves the scene playing, or each segment with the colour of its last zone that has one, else segment 0's own, else the whole device's, and the brightness and gradual flag, as the snapshot has them. |
| `RestoreLooks.SnapshotReads` | custom_components/govee_ble_local/capture.py:296-337 | The snapshot holds for each zone the colour of the first segment read among its, or none if none was, and the rest as read. |
| `RestoreLooks.SnapshotReadsSegment0` | custom_components/govee_ble_local/capture.py:282-293 | And the colour and brightness of the first segment read with index 0, or none. |
| `RestoreLooks.LookEndsAsFound` | custom_components/govee_ble_local/capture.py:319-433 | So scene, brightness and gradual flag, where read and the device has them, end as found. |
| `RestoreLooks.SegmentEndsAsFound` | custom_components/govee_ble_local/capture.py:296-380 | A segment of one zone ends with the colour of the first segment read of that zone: as it was found exactly if those two were found alike. |
| `Restore.ErrorsAreTheFailures` | custom_components/govee_ble_local/capture.py:347-354 | The errors are exactly the failures other than not-supported, in the order attempted. |
| `Restore.LabelsTell` | custom_components/govee_ble_local/capture.py:357-413 | No two things put back are reported alike. |
| `RestoreObject.Restore` | custom_components/govee_ble_local/capture.py:416-433 | Every planned action is attempted once, in order, whichever fail, and the errors are those of `Restore.ErrorsAreTheFailures`. |
| `RestoreObject.Restorer.Attempt` | custom_components/govee_ble_local/capture.py:347-354 | One more action was attempted, and the errors are still those of all attempts so far. |
| `RestoreObject.Restorer.RestorePowerOn` | custom_components/govee_ble_local/capture.py:383-400 | The loop over the zones, or the one command, attempts exactly what `Restore.ZonesEndAsFound` has switched on first. |
| `RestoreObject.Restorer.RestoreColour` | custom_components/govee_ble_local/capture.py:357-380 | It attempts the scene alone, or the colours, whole device before segments before zones: what `RestoreLooks.PlanShows` says the effect of. |
| `RestoreObject.Restorer.RestorePowerOff` | custom_components/govee_ble_local/capture.py:403-413 | It attempts exactly what `Restore.ZonesEndAsFound` has switched off last. |

## Left out

- GateAvoid.GraceShields: speaks of the pass's own stuck check, as the code does; a release check that is due still avoids the radio.
- HoldoffDeadline.DeadlineKept: excludes the three events that can lose a deadline; `CapFiredThenHeldAgain`, `ReplacedThenHeldAgain` and `DemotedExactly` beside it say exactly when they do.
- Deferral.SentNotWaitedFor: assumes turn-offs of one device are sent one at a time, without which it is false (`Deferral.OverlappingSendWaitedFor`); `Deferral.LookWaitsFor` is the exact statement.
- Receive.ReceivesTheStream: assumes no timeout; `Receive.TimeoutLosesFragments` says exactly what a timeout changes.
- Restore.FixtureEndsAsFound: for a fixture without a power command assumes that some zone was read lit or every zone was read, since its power is then its zones' and an unread zone is not restored.
- BurstObject.CommandBurst.NoteCommandStarted: the command listeners are told in `DeferralObject.CommandStarts`, where the listeners are.
- BurstObject.CommandBurst.NoteCommandFinished: likewise in `DeferralObject.CommandEnds`.
- BurstObject.CommandBurst.EndBurst: the held polls are released in `HoldoffObject.EndBurst`, where the entries are.
- Frames.RoundTrip: payloads of 2^64 bytes and more, which the printer refuses, are outside its precondition.
- The clock is read once per atomic step; two readings within one step could differ by less than anything here depends on.
- A pass reads each scanner once and holds the reading; the model has one reading per source. The names and log lines of scanners are left out.
- An exception inside a pass is taken to come from reading the scanners: in the release checks, before the pass changes anything, while it views the paths, or after it judged some calls.
- Ticket objects are entries of a list named by their index, not Dafny objects: identity and sharing are modelled, memory is not.
- `async_link_up` (a read of the scanners outside a pass) is a parameter of the deferral's look.
- habluetooth's scoring is an arbitrary score per path and pass; Home Assistant's scanners, debouncer, timers and registries are the contract the code states for them.
- Home Assistant's refresh lock: an update starts only while none runs, for any of the refreshes waiting.
- Whether commands hold polls off is an input of the hold-off, free to change between any two steps; the command counts behind it are the burst's.
- The loop steps a deferred turn-off lets pass are one step in which anything may happen.
- Command listeners of the burst other than the deferral's waits, one that raises, and the zone turn-offs tracked per device, would add only members of the same kind.
- Random jitter (added to the nominal interval for Home Assistant's timer only), availability, diagnostics and logging.
- The release of a device's link after its command window, beyond what the gate and the burst see of it.
- In the WebSocket client: JSON (a message is its bytes), authentication, the upgrade, requests and ids, and a send that fails while answering a ping.
- Unicode digits in a segment light's id, which Python's `isdigit` accepts.
- The self-test's own steps; a device's behaviour in the restore is any that keeps the stated rules (`Restore.Does`, `RestoreLooks.Shows`): the library's own is not part of this model.
- RestoreLooks.SegmentEndsAsFound: a segment no zone colours, or that several zones share, ends as `RestoreLooks.PlanShows` says.
- Entity platforms, config flow, services, the regex redaction and the field test's runner: glue, or outside what is proved here.
