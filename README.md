# SMO queueing engine — a verified Dafny model

This project models the discrete-event engine of a queueing system (SMO) with several request
sources, several service devices and a finite slot buffer. It follows `SMOSystem` in
`src/models/system.py` and the breakpoint bookkeeping of `StepModeController` in
`src/utils/step_mode.py`.

The engine state has these parts:

- the buffer, as two parallel arrays: `BUFN` holds the owning source of each slot, or -1 for an
  empty slot, and `BUFT` holds the arrival time;
- the occupancy counter `INDBUF` and the reject counter `KOTK`;
- the per-source wait totals `TOG`;
- the current packet (`current_packet`, `packet_empty`);
- the virtual clock;
- one `Source` record per arrival process and one `Device` record per server.

One pass of the realization loop works like this:

1. `boos_block` picks the next event: the earliest arrival, or the earliest device finish.
2. The clock moves to that event.
3. `process_event` dispatches it:
   - An arrival goes to the first idle device (`bms32_block`).
   - Otherwise, with all devices busy, it goes to the first empty slot (`bms12_block`).
   - Otherwise it evicts a buffered request (`bms11_block`).
   - A completion releases the device (`bas3_block`). The device then takes a request from the
     buffer under the packet discipline (`bms31_block`), or stays idle.

`run_realization` repeats this until every source has generated the minimum number of requests,
or until 100000 iterations. Its result is computed by `calculate_results`. `run_simulation`
runs one realization per value of tau.

Layout:

- `types.dfy` (module `Types`) holds the value records:
  - `Source` and `Device`;
  - the extended-real `Time`, where `Inf` stands for `float('inf')`;
  - `Config`;
  - `State`, a snapshot of every mutable field of the engine.
- `tally.dfy` (module `Tally`) holds sums over counters and the count of occupied slots.
- `queries.dfy` (module `Queries`) holds the read-only scans:
  - `boos_block`, `find_free_device`, `find_device_to_free`;
  - `find_victim_for_rejection`;
  - the packet choice;
  - the slot scan.
- `blocks.dfy` (module `Blocks`) holds one pure function per block. Each one is written as the
  composition of small steps in the order the source performs them.
- `engine.dfy` (module `Engine`) holds the class `SMOSystem`:
  - its methods update `BUFN`/`BUFT` (arrays) and the other fields in place;
  - each method ensures that the new state, seen as a `State`, is what the matching function of
    `Blocks` computes from the old one;
  - `RunRealization` and `RunSimulation` are the loops, with their invariants. `RunSimulation`
    is proved against `Runs.Sweep`, the state after k realizations in a row.
- `runs.dfy` (module `Runs`) holds `Realize`, the state the event loop ends in as a function of
  the state it starts from and the passes left, and proves what the loop's states are: a run of
  `Step`s that stops at the first state where every source has reached the minimum, or at the
  ceiling. `Sweep` chains realizations as run_simulation does, each reset from the state the
  previous one left.
- `invariants.dfy` (module `Invariants`) proves that every block preserves the engine invariant
  `Inv`:
  - `Wf`: sizes and ranges, and `INDBUF` equals the number of occupied slots and is at most
    the capacity;
  - `Balanced`: conservation of requests;
  - `Timely`: the clock never passes a pending event, and buffered arrival times are not in the
    future;
  - `Waits`: non-negative waits, mirrored in `TOG`;
  - `DevicesOk`: consistent device records.
- `properties.dfy` (module `Properties`) states the behaviour of each block one call at a time.
- `results.dfy` (module `Results`) holds `calculate_results` and the soundness of its record.
- `stepmode.dfy` (module `StepMode`) holds the class `StepModeController`.

The random draws of `generate_interval` and `generate_service_time` come from one oracle stream
`draws: nat -> real`, assumed non-negative. It is consumed in the order the source calls
`random.random()`, and the state counts the draws used so far (`drawn`). Each call of
`step_controller.wait_for_step` is recorded as a `Notice` (event kind and clock) in the state.

The model follows the code as written, also where its comments say otherwise:

- The eviction victim is the occupied slot with the smallest `(source id + 1, arrival time)`, with
  the lowest slot winning ties. When a source-0 request is buffered, it is the one evicted.
- The reject is charged to the arriving source.
- Selection takes the lowest slot of the current packet.
- The packet is source 0 when a source-0 request is buffered, and source 1 otherwise.

## Model

| member | source | states |
|---|---|---|
| Queries.FirstOf | src/models/system.py:249-253 | the scan result is the lowest slot holding the value, or -1 exactly when no slot holds it |
| Engine.SMOSystem.FindSlot | src/models/system.py:374-377 | the loop over BUFN returns the lowest slot holding the value, or -1 (as FirstOf) |
| Queries.FreeDevice | src/models/system.py:187-192 | returns the lowest-indexed idle device, or -1 exactly when every device is busy |
| Queries.FirstMin | src/models/system.py:198-203 | the strict-less scan returns a position of a minimum, before which every time is strictly larger |
| Queries.DeviceToFree | src/models/system.py:194-204 | the released device has the minimal finish time, and the lowest index among equal minima; device 0 when all finish times are infinite |
| Queries.Boos | src/models/system.py:124-138 | the event lies in 1..N+1 and is never 0; an arrival is chosen when the earliest arrival is no later than every finish (arrivals win ties), and the lowest source id wins among equal arrivals; N+1 only when a device finishes strictly before every arrival |
| Queries.BestCandidate | src/models/system.py:356-366 | the head of the stable sort of the occupied slots by (source+1, arrival time): no occupied slot has a smaller key, and every earlier occupied slot has a strictly larger key |
| Queries.Victim | src/models/system.py:354-366 | on a buffer with requests, the victim is occupied and has the minimal (source, arrival) key, with the lowest index winning ties; slot 0 on an empty buffer |
| Queries.NewPacket | src/models/system.py:391-406 | the packet is 0 exactly when a source-0 request is buffered, 1 exactly when something else but no source-0 request is buffered, and -1 exactly when the buffer is empty |
| Tally.SumUpdate | src/models/system.py:223-224 | replacing one counter changes the total by the difference |
| Tally.SourceSums | src/models/system.py:231 | updating one source record changes the generated, processed and rejected totals by that record's differences |
| Tally.DeviceSums | src/models/system.py:297 | updating one device record changes the served total by that record's difference |
| Tally.OccupiedUpdate | src/models/system.py:256-258 | writing one BUFN slot changes the number of occupied slots by the difference of occupancy |
| Tally.OccupiedZero | src/models/system.py:109-111 | no slot is occupied exactly when every BUFN entry is -1 |
| Tally.OccupiedFull | src/models/system.py:179-185 | every slot is occupied exactly when no BUFN entry is -1 |
| Tally.SumZero | src/models/system.py:95-98 | a sum of zero counters is zero |
| Blocks.SelectRequestFrame | src/models/system.py:368-385 | selection changes only the packet, the packet flag and the notices; the slot returned holds the current packet; a buffered request forces a packet other than -1 |
| Blocks.ServeEffect | src/models/system.py:279-298 | serving slot i empties it (BUFN -1, BUFT 0), decrements INDBUF, makes the device busy with that source for a drawn service time, counts one served request on both device and source, and adds the wait to the source's total and to TOG; KOTK, the other devices and the other sources are unchanged |
| Blocks.Bms32Wf | src/models/system.py:325-352 | direct service keeps the state well-formed |
| Blocks.Bms12Wf | src/models/system.py:247-273 | writing to the buffer keeps the state well-formed |
| Blocks.Bms11Wf | src/models/system.py:218-245 | eviction keeps the state well-formed |
| Blocks.BasWf | src/models/system.py:173-185 | arrival routing keeps the state well-formed |
| Blocks.Bms31Wf | src/models/system.py:275-323 | taking a request from the buffer keeps the state well-formed |
| Blocks.Bas3Wf | src/models/system.py:206-216 | device release keeps the state well-formed |
| Blocks.ProcessEventWf | src/models/system.py:140-171 | event dispatch keeps the state well-formed |
| Blocks.StepWf | src/models/system.py:475-490 | one loop pass keeps the state well-formed |
| Invariants.NotifyTimely | src/models/system.py:352 | recording a step-mode notice at the current clock keeps the timing invariant |
| Invariants.InitResets | src/models/system.py:89-122 | from any state, initialize_realization leaves the clock at 0, every source with zero counters and no wait and its next arrival the next draw in source order, every device idle with no occupant, nothing processed and an infinite finish, an empty buffer of the configured size with INDBUF 0, KOTK 0, TOG all zero, the packet unset and flagged empty, and no notices |
| Invariants.InitInv | src/models/system.py:89-122 | from any state with one record per configured source and device, the configured service rate and a capacity of at least 1, the state after initialize_realization satisfies the invariant and its buffer holds no request |
| Invariants.Bms32Inv | src/models/system.py:325-352 | direct service of a due arrival by an idle device preserves the invariant |
| Invariants.Bms32Balanced | src/models/system.py:334-336 | direct service counts one generated and one processed request for the source and one for the device, so conservation holds |
| Invariants.Bms12Inv | src/models/system.py:247-273 | writing a due arrival into a buffer with room preserves the invariant and raises INDBUF by exactly one |
| Invariants.Bms12Balanced | src/models/system.py:255-261 | a write counts one generated request and one more occupied slot, so conservation holds |
| Invariants.Bms11Inv | src/models/system.py:218-245 | eviction on a full buffer preserves the invariant |
| Invariants.OverwriteInv | src/models/system.py:220-232 | overwriting an occupied slot with a due arrival preserves the invariant |
| Invariants.OverwriteBalanced | src/models/system.py:223-231 | an eviction counts one generated request and one reject, with INDBUF unchanged, so conservation holds and KOTK stays the sum of the reject counters |
| Invariants.BasInv | src/models/system.py:173-185 | routing a due arrival preserves the invariant |
| Invariants.SelectNewPacketInv | src/models/system.py:387-416 | choosing a new packet preserves the invariant |
| Invariants.SelectRequestInv | src/models/system.py:368-385 | selecting from the buffer preserves the invariant |
| Invariants.PacketFlagInv | src/models/system.py:376 | clearing the packet-empty flag preserves the invariant |
| Invariants.Bms31Inv | src/models/system.py:275-323 | taking a request from a non-empty buffer onto an idle device preserves the invariant |
| Invariants.ServeInv | src/models/system.py:280-298 | serving an occupied slot preserves the invariant |
| Invariants.ServeTimely | src/models/system.py:284-291 | serving keeps every pending event at or after the clock, and the notices stamped at the clock |
| Invariants.ServeBalanced | src/models/system.py:296-298 | serving moves one request from the buffer to the served counts of source and device, so conservation holds |
| Invariants.Bas3Inv | src/models/system.py:206-216 | releasing a device preserves the invariant |
| Invariants.ProcessEventInv | src/models/system.py:140-171 | dispatching a due arrival or a completion preserves the invariant |
| Invariants.AdvanceInv | src/models/system.py:477-488 | moving the clock to the chosen event never moves it backwards and keeps the invariant |
| Invariants.StepInv | src/models/system.py:475-490 | one loop pass preserves the invariant, and the clock never decreases |
| Invariants.ProcessEventTime | src/models/system.py:140-171 | handling an event does not move the clock |
| Invariants.RunPrefix | src/models/system.py:473-490 | every prefix of a run of the event loop is a run |
| Invariants.RunCons | src/models/system.py:473-490 | a run preceded by the state it is one pass from is a run |
| Invariants.RunInv | src/models/system.py:473-490 | along any run from a state satisfying the invariant, every state satisfies it and the clock never moves backwards from one state to the next |
| Runs.RealizeUnfold | src/models/system.py:473-490 | when not every source has reached the minimum, one more pass is made: the end state with f+1 passes left is that of f passes from the next state |
| Runs.RealizeNext | src/models/system.py:473-490 | the same, for a ceiling written as the successor of f |
| Runs.RealizeInv | src/models/system.py:473-490 | the event loop keeps the invariant, and its clock ends no earlier than it started |
| Runs.RealizeTrace | src/models/system.py:473-490 | the loop's states form a run from the start state to the end state; no state before the last has every source at the minimum; the loop stops before the ceiling only at a state where every source has reached the minimum |
| Runs.TraceCons | src/models/system.py:473-490 | the step case of RealizeTrace: the run from the next state, preceded by the current one, has the same three properties for one more pass |
| Properties.WriteToLowestEmptySlot | src/models/system.py:247-262 | with room in the buffer, the request goes to the lowest empty slot with BUFT its arrival time; no other slot changes; INDBUF rises by one and stays within capacity; the next arrival is drawn from the clock |
| Properties.EvictOnOverflow | src/models/system.py:218-232 | on a full buffer, the slot with the minimal (source, arrival) key, lowest index on ties, is overwritten in place by the arrival; INDBUF is unchanged; KOTK and the arriving source's reject counter each rise by one |
| Properties.EvictsSourceZeroFirst | src/models/system.py:361-365 | when a source-0 request is buffered, the victim is the oldest source-0 request |
| Properties.ArrivalRouting | src/models/system.py:173-185 | an arrival goes to the lowest idle device, which becomes busy with a drawn finish time; with all devices busy it is written to the buffer when INDBUF is below capacity, and evicts otherwise |
| Properties.PacketKept | src/models/system.py:368-377 | for any well-formed state (where a packet flagged empty is always unset) whose set packet still has a buffered request: the packet is kept, and the lowest slot of that packet is returned with nothing else changed |
| Properties.SelectTwoSources | src/models/system.py:368-407 | with at most two sources, selection never returns -1: on a non-empty buffer the slot returned is occupied, holds the current packet and is the lowest such slot; on an empty buffer it is slot 0 |
| Properties.SelectOnEmptyBuffer | src/models/system.py:370-385 | on an empty buffer the packet becomes -1 and the scan returns slot 0, an empty slot |
| Properties.HighSourcesStarve | src/models/system.py:368-402 | when the buffer holds only requests of sources 2 and above, selection returns -1 and the released device stays idle with its old finish time while the buffer keeps its requests |
| Properties.ReleaseToEmptyBuffer | src/models/system.py:206-216 | a device released with an empty buffer becomes idle with no occupant and an infinite finish time, and the new state is the old one with only that device changed |
| Properties.ReleaseSelects | src/models/system.py:275-298 | with at most two sources and a non-empty buffer, releasing a device is serving the slot select_request_from_buffer returns after the release: the lowest slot of the packet it settles on, which is occupied; the state after selection is the released one with only the packet, its flag and the notices changed |
| Properties.ReleaseTakesRequest | src/models/system.py:275-298 | with at most two sources and a non-empty buffer, the released device takes the selected request, in the lowest slot of the packet selection settles on: its slot is emptied, INDBUF falls by one, the device is busy until the clock plus a drawn service time, the wait is non-negative and is charged to that source and to TOG, both served counters rise by one, and KOTK, the other devices and the other sources are unchanged |
| Results.CalculateResults | src/models/system.py:494-535 | one statistics row per source and one per device |
| Results.DivisionBounds | src/models/system.py:498 | KOTK / total_requests is a probability and times the total gives back KOTK |
| Results.ResultsSound | src/models/system.py:494-535 | under the invariant: the reject probability is in [0, 1] and is 0 when nothing was generated; total requests = processed + rejected + still buffered; KOTK is the sum of the reject counters; devices served what sources had served; every mean wait is non-negative; utilization holds exactly when a device served something |
| Results.ResultRows | src/models/system.py:512-532 | row i carries source id i and copies the generated, processed and rejected counters; its mean wait is 0 when nothing was served and otherwise times the served count gives the total wait; device row j carries id j and copies the served count |
| Results.AvgWaitTimesProcessed | src/models/system.py:515 | when a source served something, its mean wait times its served count is its total wait (the case of nothing served, where the mean is 0, is in ResultRows) |
| Engine.SMOSystem.constructor | src/models/system.py:56-87 | one idle source and device record per configured count, every device at the configured service rate, tau at its minimum, no results |
| Engine.SMOSystem.Notify | src/models/system.py:352 | a call of the step-mode hook is appended as a notice |
| Engine.SMOSystem.Put | src/models/system.py:227-228 | slot w receives the source id and its arrival time |
| Engine.SMOSystem.NextArrival | src/models/system.py:261-262 | one more generated request, and the next arrival is the clock plus a draw |
| Engine.SMOSystem.StartService | src/models/system.py:328-331 | the device becomes busy with the source until the clock plus a drawn service time |
| Engine.SMOSystem.CountServed | src/models/system.py:334-335 | device and source each count one more served request |
| Engine.SMOSystem.CountReject | src/models/system.py:223-224 | KOTK and the arriving source's reject counter each rise by one |
| Engine.SMOSystem.ChargeWait | src/models/system.py:285-287 | the wait since arrival is added to the source's total and to TOG |
| Engine.SMOSystem.ResetSources | src/models/system.py:94-99 | every source is reset, and its first arrival is drawn |
| Engine.SMOSystem.ResetDevices | src/models/system.py:102-106 | every device is idle, with no occupant, nothing processed and an infinite finish time |
| Engine.SMOSystem.NewBuffer | src/models/system.py:109-111 | new BUFT and BUFN arrays of the buffer capacity, all slots empty, INDBUF 0 |
| Engine.SMOSystem.ClearCounters | src/models/system.py:114-119 | KOTK is 0, TOG all zero, and the packet is unset |
| Engine.SMOSystem.InitializeRealization | src/models/system.py:89-122 | the state is Init of the old one: clock 0, then sources, devices, buffer and counters reset in that order |
| Engine.SMOSystem.Bms32Block | src/models/system.py:325-352 | in place, the state becomes Bms32 of the old state; the arrays are not replaced |
| Engine.SMOSystem.Bms12Block | src/models/system.py:247-273 | in place, the state becomes Bms12 of the old state |
| Engine.SMOSystem.Bms11Block | src/models/system.py:218-245 | in place, the state becomes Bms11 of the old state |
| Engine.SMOSystem.BasBlock | src/models/system.py:173-185 | in place, the state becomes Bas of the old state |
| Engine.SMOSystem.SelectNewPacket | src/models/system.py:387-416 | the loop collecting buffered sources sets the packet as NewPacket does, with a packet_change notice when a set packet changes |
| Engine.SMOSystem.SelectRequestFromBuffer | src/models/system.py:368-385 | the new state and the returned slot are those of SelectRequest |
| Engine.SMOSystem.RemoveFromBuffer | src/models/system.py:418-423 | an in-range slot is emptied and INDBUF falls by one, floored at 0; an out-of-range index changes nothing |
| Engine.SMOSystem.Bms31Block | src/models/system.py:275-323 | in place, the state becomes Bms31 of the old state |
| Engine.SMOSystem.ServeSlot | src/models/system.py:280-323 | in place, the state becomes Serve of the old state |
| Engine.SMOSystem.Bas3Block | src/models/system.py:206-216 | in place, the state becomes Bas3 of the old state |
| Engine.SMOSystem.ProcessEvent | src/models/system.py:140-171 | in place, the state becomes ProcessEvent of the old state |
| Engine.SMOSystem.StepOnce | src/models/system.py:475-490 | one loop pass: the state becomes Step of the old state |
| Engine.SMOSystem.RunRealization | src/models/system.py:465-492 | the reset state satisfies the invariant, and the final state is Realize of it with the 100000-pass ceiling, i.e. exactly the state the event loop reaches; the result is calculate_results of that state, labelled with tau, and is sound |
| Engine.SMOSystem.EventLoop | src/models/system.py:473-490 | the loop leaves the state Realize of the state it started from, with the invariant kept and the arrays not replaced |
| Engine.SMOSystem.RealizationAt | src/models/system.py:548-552 | tau is set, the state becomes that of a full realization from the reset state, and its calculate_results, labelled with tau and sound, is appended to the result list |
| Engine.SMOSystem.SetTau | src/models/system.py:548 | the current tau is the given one, nothing else changes |
| Engine.SMOSystem.Record | src/models/system.py:552 | the result is appended to the result list, nothing else changes |
| Engine.SMOSystem.RunSimulation | src/models/system.py:537-556 | the returned list is the result list: exactly one sound result per tau from the minimum in steps while tau is at most the maximum, in increasing order; the k-th is calculate_results of the state after k + 1 realizations in a row from the starting state, labelled minimum + k·step, and the engine ends in the state after the last one |
| Engine.SMOSystem.SweepTau | src/models/system.py:548-554 | one pass of the tau loop: the realization continues the sweep, its result is appended, and the next tau is this one plus the step |
| Engine.SweepExtend | src/models/system.py:547-554 | appending the sweep's result for the next tau in range keeps the result list that of the sweep, with one sound result per tau, labelled in order |
| Engine.TausExtend | src/models/system.py:547-554 | appending a sound result for the next tau in range keeps one result per tau, labelled in order, and no more than the number of taus |
| Engine.SweepAppend | src/models/system.py:552 | appending the sweep's next result keeps every result that of its realization |
| Engine.SweepRecord | src/models/system.py:548-552 | a realization from the reset of the state the sweep has reached ends in the sweep's next state, and its calculate_results is the sweep's next result |
| Engine.SweepResultsIndex | src/models/system.py:547-554 | the k-th result of the sweep is calculate_results of the state after k + 1 realizations, labelled with the k-th tau |
| Runs.Sweep | src/models/system.py:547-554 | the state after any number of realizations in a row, each reset by initialize_realization from the state the previous one left, keeps the shape of the configuration |
| Runs.SweepNext | src/models/system.py:547-554 | one more realization of the sweep runs the event loop from the reset of the state the previous ones left, and that reset state satisfies the invariant |
| Engine.TauAtNext | src/models/system.py:554 | adding the step to the k-th tau gives the (k+1)-th |
| Engine.TauCountBound | src/models/system.py:547 | the k-th tau is within the maximum exactly when k is below the number of taus |
| StepMode.StepModeController.constructor | src/utils/step_mode.py:11-15 | step mode is off, no breakpoints, step 0, empty history |
| StepMode.StepModeController.EnableStepMode | src/utils/step_mode.py:28-35 | step mode is on; breakpoints are exactly the given events when there are any, and all seven event kinds otherwise; the history invariant is kept |
| StepMode.StepModeController.DisableStepMode | src/utils/step_mode.py:38-40 | step mode is off; the history invariant is kept |
| StepMode.StepModeController.CheckBreakpoint | src/utils/step_mode.py:43-68 | breaks exactly when step mode is on and the event is a breakpoint; a break raises the step by one and appends exactly one entry numbered with the new step; otherwise nothing changes; the history has one entry per step, entry i numbered i+1 |
| StepMode.StepModeController.WaitForStep | src/utils/step_mode.py:70-79 | the bookkeeping is that of CheckBreakpoint; when it does not break, nothing else happens |
| StepMode.StepModeController.GetEventHistory | src/utils/step_mode.py:195-197 | returns the history, whose length is the current step |
| StepMode.DisabledControllerNeverBreaks | src/utils/step_mode.py:38-55 | after enabling and then disabling, no event of any sequence breaks, and the step and history stay empty |

## Left out

- Random sampling (`generate_interval`, `generate_service_time`, `src/utils/distributions.py`)
  and floating-point rounding. Draws are an oracle stream of non-negative reals, and times are
  exact reals. In particular, the float accumulation of tau is not modelled.
- The constructor models `initialize_system` on a configuration record. The reading of the
  configuration dictionary, the per-source parameters and the `disciplines` entry are left out.
- The capacity is required to be at least 1. With capacity 0, `find_victim_for_rejection`
  returns slot 0 of an empty buffer, and the read of `self.BUFN[victim_index]` at
  `src/models/system.py:221` fails.
- `RunSimulation` requires a positive tau step. With a step of 0 or less, the loop at
  `src/models/system.py:547` never ends while tau is at most the maximum.
- `run_simulation`'s `step_mode` flag and `SMOSystem.enable_step_mode`
  (`src/models/system.py:539-540, 558-560`) are left out. They only forward to
  `StepModeController.EnableStepMode`, which is modelled.
- `Engine.SMOSystem.RunRealization` omits the `event_type == 0` exit
  (`src/models/system.py:479-480`). `Queries.Boos` proves that `boos_block` never returns 0,
  so that branch is dead.
- `device_pointer` (`src/models/system.py:122`) is assigned and never read; it is left out.
- The τ value labels results only. `service_lambda` never depends on it, as in the source; the
  model keeps every device's rate equal to the configured one (part of `Wf`).
- The display payloads: `_get_system_state`, the `event_data` dictionaries, the
  `realization_data` entry of the result, every `print`, `save_results`, and the console side of
  `wait_for_step` (`_display_event_info`, `_display_system_state`, `_show_control_prompt`,
  `input()`, `exit(0)`).
- Step mode during a realization is not linked to the engine. The engine records each
  `wait_for_step` call as a `Notice`, and `StepMode.StepModeController.WaitForStep` models the
  bookkeeping of one call. The `time` of a history entry is passed in, standing for
  `event_data.get('time', 0)`.
- Notices are cleared by `initialize_realization` in the model, so they cover one realization.
  The source keeps no such list.
- `Source` and `Device` (`src/models/system.py:10-46`) are value records held in sequences,
  not shared objects. A device's `current_source` is the occupant's source id.
- `Properties.ReleaseTakesRequest` and `Properties.SelectTwoSources` assume at most two
  sources. With three or more sources, requests of sources 2 and above are never selected
  (`Properties.HighSourcesStarve`). A device released with only such requests buffered stays
  idle, with a finish time equal to the current clock. The next completion event then picks that same
  device again and again without advancing the clock, until the iteration ceiling.
- `Engine.SMOSystem.RunRealization` does not state that the loop ends because every source
  reached the minimum rather than at the ceiling. `Runs.RealizeTrace` states only that an early
  stop implies this. Progress of the clock depends on the draws, which the model does not
  constrain beyond non-negativity.
- `StepMode.StepModeController.WaitForStep` models the call without the control prompt. Its
  frame, which lets only the step counter and the history change, describes that model. In the
  source, a pause reads a command from the console (`src/utils/step_mode.py:182`), and the
  command 'c' turns step mode off (`src/utils/step_mode.py:186-187`), so the real call can also
  change `is_step_mode`. The console side is left out with the rest of the display.
