/** The blocks of SMOSystem as functions from the engine state before a block to the state
    after it. The class Engine.SMOSystem runs the same blocks in place and is proved to agree
    with these functions; Invariants proves what they preserve. */
module Blocks {
  import opened Types
  import opened Tally
  import opened Queries
  import opened StepMode

  /** Iteration ceiling of run_realization. */
  const MAX_ITERATIONS: nat := 100000

  /** Shape of a state the blocks can run on: buffer arrays of the configured (non-zero) size,
      one record per source and per device, every device at the configured service rate, BUFN
      entries that are -1 or a source id, INDBUF equal to the number of occupied slots, and a
      packet that is unset, 0 or 1, and unset whenever it is flagged empty. */
  ghost predicate Wf(c: Config, st: State) {
    && c.capacity >= 1
    && |st.bufSource| == c.capacity
    && |st.bufTime| == c.capacity
    && |st.sources| == c.sourceCount
    && |st.devices| == c.deviceCount
    && (forall j :: 0 <= j < |st.devices| ==> st.devices[j].lambda == c.lambda)
    && |st.tog| == c.sourceCount
    && (forall i :: 0 <= i < |st.bufSource| ==> -1 <= st.bufSource[i] < c.sourceCount)
    && st.occupied == Occupied(st.bufSource)
    && (st.packet == -1 || st.packet == 0 || st.packet == 1)
    && (st.packetEmpty ==> st.packet == -1)
  }

  /** One call of the step-mode hook (wait_for_step), stamped with the current time. */
  function Notify(st: State, kind: string): State {
    st.(notices := st.notices + [Notice(kind, st.time)])
  }

  // The steps the blocks are made of, each a few assignments of the source.

  /** The request of source s is stored in slot w together with its arrival time. */
  function Put(st: State, w: nat, s: nat): State
    requires s < |st.sources| && w < |st.bufSource| && |st.bufTime| == |st.bufSource|
  {
    st.(bufTime := st.bufTime[w := st.sources[s].nextArrival], bufSource := st.bufSource[w := s])
  }

  /** Source s has generated one more request, and its next one is due after a drawn
      interval (generate_interval). */
  function NextArrival(st: State, s: nat, draws: nat -> real): State
    requires s < |st.sources|
  {
    var src := st.sources[s];
    st.(sources := st.sources[s := src.(generated := src.generated + 1,
                                        nextArrival := st.time + draws(st.drawn))],
        drawn := st.drawn + 1)
  }

  /** Device d starts on a request of source sid and is busy until now plus a drawn service
      time (generate_service_time). */
  function StartService(st: State, d: nat, sid: nat, draws: nat -> real): State
    requires d < |st.devices|
  {
    var dev := st.devices[d];
    st.(devices := st.devices[d := dev.(finish := Fin(st.time + draws(st.drawn)), busy := true,
                                        occupant := Some(sid))],
        drawn := st.drawn + 1)
  }

  /** The processed counters of device d and of source sid go up by one. */
  function CountServed(st: State, d: nat, sid: nat): State
    requires d < |st.devices| && sid < |st.sources|
  {
    var dev := st.devices[d];
    var src := st.sources[sid];
    st.(devices := st.devices[d := dev.(processed := dev.processed + 1)],
        sources := st.sources[sid := src.(processed := src.processed + 1)])
  }

  /** KOTK and the rejected count of source s go up by one. */
  function CountReject(st: State, s: nat): State
    requires s < |st.sources|
  {
    var src := st.sources[s];
    st.(rejects := st.rejects + 1, sources := st.sources[s := src.(rejected := src.rejected + 1)])
  }

  /** The wait since `arrival` is added to the total wait of source sid and to TOG[sid]. */
  function ChargeWait(st: State, sid: nat, arrival: real): State
    requires sid < |st.sources| && sid < |st.tog|
  {
    var wait := st.time - arrival;
    var src := st.sources[sid];
    st.(sources := st.sources[sid := src.(totalWait := src.totalWait + wait)],
        tog := st.tog[sid := st.tog[sid] + wait])
  }

  // The blocks.

  /** bms32_block: source s is served at once by idle device d; the service time is drawn
      before the next interval. */
  function Bms32(st: State, s: nat, d: nat, draws: nat -> real): State
    requires s < |st.sources| && d < |st.devices|
  {
    var st1 := CountServed(StartService(st, d, s, draws), d, s);
    Notify(NextArrival(st1, s, draws), DEVICE_START)
  }

  /** bms12_block: the request of source s goes to the lowest empty slot, if there is one. */
  function Bms12(st: State, s: nat, draws: nat -> real): State
    requires s < |st.sources| && |st.bufTime| == |st.bufSource|
  {
    var w := FirstOf(st.bufSource, -1);
    var st1 := if w >= 0 then Put(st, w, s).(occupied := st.occupied + 1) else st;
    Notify(NextArrival(st1, s, draws), BUFFER_WRITE)
  }

  /** bms11_block: on a full buffer the victim slot is overwritten by the request of source s;
      KOTK and the rejected count of the arriving source s go up. */
  function Bms11(st: State, s: nat, draws: nat -> real): State
    requires s < |st.sources| && |st.bufTime| == |st.bufSource| >= 1
  {
    Overwrite(st, Victim(st.bufSource, st.bufTime), s, draws)
  }

  /** The effect of bms11_block once its victim slot v is chosen. */
  function Overwrite(st: State, v: nat, s: nat, draws: nat -> real): State
    requires s < |st.sources| && v < |st.bufSource| && |st.bufTime| == |st.bufSource|
  {
    Notify(NextArrival(Put(CountReject(st, s), v, s), s, draws), BUFFER_REJECT)
  }

  /** bas_block: route an arrival of source s to an idle device, to the buffer, or to eviction. */
  function Bas(c: Config, st: State, s: nat, draws: nat -> real): State
    requires Wf(c, st) && s < |st.sources|
  {
    var f := FreeDevice(st.devices);
    if f >= 0 then Bms32(st, s, f, draws)
    else if st.occupied < c.capacity then Bms12(st, s, draws)
    else Bms11(st, s, draws)
  }

  /** select_new_packet: packet 0 if a source-0 request is buffered, else 1, else unset;
      a change away from a set packet is announced. */
  function SelectNewPacket(st: State): State {
    var p := NewPacket(st.bufSource);
    var st1 := st.(packet := p, packetEmpty := p == -1);
    if st.packet != p && st.packet != -1 then Notify(st1, PACKET_CHANGE) else st1
  }

  /** select_request_from_buffer: keeps the current packet while one of its requests is
      buffered, and returns the lowest slot of the (possibly new) packet, or -1. */
  function SelectRequest(st: State): (State, int) {
    var st1 := if st.packet == -1 || st.packetEmpty then SelectNewPacket(st) else st;
    var i := FirstOf(st.bufSource, st1.packet);
    if i >= 0 then (st1.(packetEmpty := false), i)
    else
      var st2 := SelectNewPacket(st1);
      (st2, FirstOf(st.bufSource, st2.packet))
  }

  /** Facts about a selection needed to read the selected slot: only the packet fields and the
      notices change, and on a non-empty buffer the selected slot holds a request. */
  lemma SelectRequestFrame(c: Config, st: State)
    requires Wf(c, st)
    ensures var (st1, i) := SelectRequest(st);
            && st1 == st.(packet := st1.packet, packetEmpty := st1.packetEmpty, notices := st1.notices)
            && Wf(c, st1)
            && -1 <= i < |st.bufSource|
            && (i >= 0 ==> st.bufSource[i] == st1.packet)
            && ((exists j :: 0 <= j < |st.bufSource| && st.bufSource[j] != -1) ==> st1.packet != -1)
  {
  }

  /** remove_from_buffer: empties slot i and decrements INDBUF, never below zero. */
  function Remove(st: State, i: int): State {
    if 0 <= i < |st.bufSource| && |st.bufTime| == |st.bufSource| then
      st.(bufTime := st.bufTime[i := 0.0],
          bufSource := st.bufSource[i := -1],
          occupied := if st.occupied > 0 then st.occupied - 1 else 0)
    else st
  }

  /** bms31_block: device d takes the selected request; its wait is charged to its source. */
  function Bms31(c: Config, st: State, d: nat, draws: nat -> real): State
    requires Wf(c, st) && d < |st.devices| && st.occupied > 0
  {
    OccupiedZero(st.bufSource);
    SelectRequestFrame(c, st);
    var (st1, i) := SelectRequest(st);
    if i < 0 then st1 else Serve(c, st1, d, i, draws)
  }

  /** The effect of bms31_block once slot i is selected: the wait of the request is added to
      its source's total and to TOG, device d starts on it, the slot is emptied, and the
      processed counters of device and source go up. */
  function Serve(c: Config, st: State, d: nat, i: nat, draws: nat -> real): State
    requires Wf(c, st) && d < |st.devices| && i < |st.bufSource| && st.bufSource[i] >= 0
  {
    var sid: nat := st.bufSource[i];
    var st1 := StartService(ChargeWait(st, sid, st.bufTime[i]), d, sid, draws);
    var st2 := CountServed(Remove(st1, i), d, sid);
    Notify(Notify(st2, BUFFER_SELECT), DEVICE_START)
  }

  /** bms31_block once slot i is selected: the slot is emptied, device d is busy with the
      request's source until now plus the drawn service time, the wait since its arrival is
      added to the source's total and to TOG, and the processed counters of device and source
      go up by one. */
  lemma ServeEffect(c: Config, st: State, d: nat, i: nat, draws: nat -> real)
    requires Wf(c, st) && d < |st.devices| && i < |st.bufSource| && st.bufSource[i] >= 0
    ensures var r := Serve(c, st, d, i, draws);
            var sid := st.bufSource[i];
            var wait := st.time - st.bufTime[i];
            && |r.sources| == |st.sources| && |r.devices| == |st.devices| && |r.tog| == |st.tog|
            && r.bufSource == st.bufSource[i := -1] && r.bufTime == st.bufTime[i := 0.0]
            && r.occupied == (if st.occupied > 0 then st.occupied - 1 else 0)
            && r.devices[d].busy && r.devices[d].occupant == Some(sid)
            && r.devices[d].finish == Fin(st.time + draws(st.drawn))
            && r.devices[d].processed == st.devices[d].processed + 1
            && r.sources[sid].processed == st.sources[sid].processed + 1
            && r.sources[sid].totalWait == st.sources[sid].totalWait + wait
            && r.tog[sid] == st.tog[sid] + wait
            && r.drawn == st.drawn + 1 && r.rejects == st.rejects
            && (forall j :: 0 <= j < |st.devices| && j != d ==> r.devices[j] == st.devices[j])
            && (forall k :: 0 <= k < |st.sources| && k != sid ==> r.sources[k] == st.sources[k])
  {
  }

  /** The first two assignments of bas3_block: device d is no longer busy and serves nothing. */
  function Released(st: State, d: nat): State
    requires d < |st.devices|
  {
    st.(devices := st.devices[d := st.devices[d].(busy := false, occupant := None)])
  }

  /** bas3_block: device d is released; it takes a buffered request or goes idle with an infinite finish time. */
  function Bas3(c: Config, st: State, d: nat, draws: nat -> real): State
    requires Wf(c, st) && d < |st.devices|
  {
    var st1 := Released(st, d);
    if st1.occupied > 0 then Bms31(c, st1, d, draws)
    else st1.(devices := st1.devices[d := st1.devices[d].(finish := Inf)])
  }

  /** process_event: event codes 1..N are arrivals, N + 1 a completion, anything else nothing. */
  function ProcessEvent(c: Config, st: State, e: int, draws: nat -> real): State
    requires Wf(c, st)
    requires e == |st.sources| + 1 ==> |st.devices| > 0
  {
    if 1 <= e <= |st.sources| then Bas(c, Notify(st, ARRIVAL), e - 1, draws)
    else if e == |st.sources| + 1 then Bas3(c, Notify(st, DEVICE_FINISH), DeviceToFree(st.devices), draws)
    else st
  }

  /** Time of the event chosen by boos_block: the arrival time of its source, or the finish
      time of the device it frees. */
  function EventTime(ss: seq<Source>, ds: seq<Device>): real
    requires |ss| > 0
  {
    var e := Boos(ss, ds);
    if e <= |ss| then ss[e - 1].nextArrival else ds[DeviceToFree(ds)].finish.t
  }

  /** One pass of the event loop of run_realization: choose the event, move the clock to it,
      process it. Engine.SMOSystem.RunRealization repeats it. */
  function Step(c: Config, st: State, draws: nat -> real): State
    requires Wf(c, st) && |st.sources| > 0
  {
    var e := Boos(st.sources, st.devices);
    ProcessEvent(c, st.(time := EventTime(st.sources, st.devices)), e, draws)
  }

  /** Every source has generated at least the minimum number of requests. */
  predicate AllReached(ss: seq<Source>, minRequests: int) {
    forall i :: 0 <= i < |ss| ==> ss[i].generated >= minRequests
  }

  /** The states met by the event loop: each one after the first is Step of the one before. */
  ghost predicate IsRun(c: Config, trace: seq<State>, draws: nat -> real) {
    forall k :: 0 <= k < |trace| - 1 ==>
      Wf(c, trace[k]) && |trace[k].sources| > 0 && trace[k + 1] == Step(c, trace[k], draws)
  }

  /** initialize_realization: the clock at 0, sources and devices reset, a new empty buffer. */
  function Init(c: Config, st: State, draws: nat -> real): State {
    ClearCounters(NewBuffer(c, ResetDevices(ResetSources(st.(time := 0.0), draws))))
  }

  /** The source loop of initialize_realization: counters cleared and a first interval drawn
      for each source in order. */
  function ResetSources(st: State, draws: nat -> real): State {
    st.(sources := seq(|st.sources|, i requires 0 <= i < |st.sources| =>
                         Source(0, 0, 0, 0.0, draws(st.drawn + i))),
        drawn := st.drawn + |st.sources|)
  }

  /** The device loop of initialize_realization: every device idle, with nothing processed and
      an infinite finish time. */
  function ResetDevices(st: State): State {
    st.(devices := seq(|st.devices|, j requires 0 <= j < |st.devices| =>
                         st.devices[j].(busy := false, occupant := None, processed := 0,
                                        finish := Inf)))
  }

  /** The buffer part of initialize_realization: new empty BUFN and BUFT of the configured
      size and INDBUF at 0. */
  function NewBuffer(c: Config, st: State): State {
    st.(occupied := 0, bufTime := seq(c.capacity, _ => 0.0), bufSource := seq(c.capacity, _ => -1))
  }

  /** The counter part of initialize_realization: no rejects, TOG cleared, the packet unset;
      the notice record starts afresh. */
  function ClearCounters(st: State): State {
    st.(rejects := 0, tog := seq(|st.sources|, _ => 0.0), packet := -1, packetEmpty := true,
        notices := [])
  }

  // Shape preservation, needed to keep running the blocks.

  lemma Bms32Wf(c: Config, st: State, s: nat, d: nat, draws: nat -> real)
    requires Wf(c, st) && s < |st.sources| && d < |st.devices|
    ensures Wf(c, Bms32(st, s, d, draws))
  {
  }

  lemma Bms12Wf(c: Config, st: State, s: nat, draws: nat -> real)
    requires Wf(c, st) && s < |st.sources|
    ensures Wf(c, Bms12(st, s, draws))
  {
    var w := FirstOf(st.bufSource, -1);
    if w >= 0 {
      OccupiedUpdate(st.bufSource, w, s);
    }
  }

  lemma Bms11Wf(c: Config, st: State, s: nat, draws: nat -> real)
    requires Wf(c, st) && s < |st.sources| && st.occupied >= c.capacity
    ensures Wf(c, Bms11(st, s, draws))
  {
    OccupiedFull(st.bufSource);
    var v := Victim(st.bufSource, st.bufTime);
    OccupiedUpdate(st.bufSource, v, s);
  }

  lemma BasWf(c: Config, st: State, s: nat, draws: nat -> real)
    requires Wf(c, st) && s < |st.sources|
    ensures Wf(c, Bas(c, st, s, draws))
  {
    if FreeDevice(st.devices) < 0 {
      if st.occupied < c.capacity {
        Bms12Wf(c, st, s, draws);
      } else {
        Bms11Wf(c, st, s, draws);
      }
    }
  }

  lemma Bms31Wf(c: Config, st: State, d: nat, draws: nat -> real)
    requires Wf(c, st) && d < |st.devices| && st.occupied > 0
    ensures Wf(c, Bms31(c, st, d, draws))
  {
    OccupiedZero(st.bufSource);
    SelectRequestFrame(c, st);
    var (st1, i) := SelectRequest(st);
    if i >= 0 {
      OccupiedUpdate(st.bufSource, i, -1);
    }
  }

  lemma Bas3Wf(c: Config, st: State, d: nat, draws: nat -> real)
    requires Wf(c, st) && d < |st.devices|
    ensures Wf(c, Bas3(c, st, d, draws))
  {
    var st1 := Released(st, d);
    assert Wf(c, st1);
    if st1.occupied > 0 {
      Bms31Wf(c, st1, d, draws);
    }
  }

  lemma ProcessEventWf(c: Config, st: State, e: int, draws: nat -> real)
    requires Wf(c, st)
    requires e == |st.sources| + 1 ==> |st.devices| > 0
    ensures Wf(c, ProcessEvent(c, st, e, draws))
  {
    if 1 <= e <= |st.sources| {
      BasWf(c, Notify(st, ARRIVAL), e - 1, draws);
    } else if e == |st.sources| + 1 {
      Bas3Wf(c, Notify(st, DEVICE_FINISH), DeviceToFree(st.devices), draws);
    }
  }

  lemma StepWf(c: Config, st: State, draws: nat -> real)
    requires Wf(c, st) && |st.sources| > 0
    ensures Wf(c, Step(c, st, draws))
  {
    var st1 := st.(time := EventTime(st.sources, st.devices));
    assert Wf(c, st1);
    ProcessEventWf(c, st1, Boos(st.sources, st.devices), draws);
  }
}
