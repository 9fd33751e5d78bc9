/** What the blocks preserve: request conservation, the clock never running backwards past a
    pending event, non-negative waits, and consistent device records. */
module Invariants {
  import opened Types
  import opened Tally
  import opened Queries
  import opened StepMode
  import opened Blocks

  /** Conservation of requests: every generated request was served, evicted or is buffered;
      KOTK is the sum of the per-source reject counters; devices served what sources had served. */
  ghost predicate Balanced(st: State) {
    && st.rejects == Sum(Rejected(st.sources))
    && Sum(Generated(st.sources)) == Sum(Processed(st.sources)) + st.rejects + st.occupied
    && Sum(Served(st.devices)) == Sum(Processed(st.sources))
  }

  /** No pending event lies before the clock, every buffered request arrived no later than
      now, empty slots hold time 0, and notices are stamped in non-decreasing order up to now. */
  ghost predicate Timely(st: State) {
    && 0.0 <= st.time
    && (forall i :: 0 <= i < |st.sources| ==> st.time <= st.sources[i].nextArrival)
    && (forall j :: 0 <= j < |st.devices| ==> Le(Fin(st.time), st.devices[j].finish))
    && |st.bufTime| == |st.bufSource|
    && (forall i :: 0 <= i < |st.bufSource| && st.bufSource[i] != -1 ==>
          0.0 <= st.bufTime[i] <= st.time)
    && (forall i :: 0 <= i < |st.bufSource| && st.bufSource[i] == -1 ==> st.bufTime[i] == 0.0)
    && (forall k :: 0 <= k < |st.notices| ==> st.notices[k].time <= st.time)
    && (forall k, l :: 0 <= k < l < |st.notices| ==> st.notices[k].time <= st.notices[l].time)
  }

  /** Accumulated waits are non-negative and TOG mirrors them. */
  ghost predicate Waits(st: State) {
    && |st.tog| == |st.sources|
    && forall i :: 0 <= i < |st.sources| ==>
         0.0 <= st.sources[i].totalWait && st.tog[i] == st.sources[i].totalWait
  }

  /** A device is busy exactly when it has an occupant, and a busy device has a finite finish
      time and serves a real source. */
  ghost predicate DevicesOk(c: Config, st: State) {
    forall j :: 0 <= j < |st.devices| ==>
      && (st.devices[j].busy <==> st.devices[j].occupant.Some?)
      && (st.devices[j].busy ==>
            st.devices[j].finish.Fin? && st.devices[j].occupant.value < c.sourceCount)
  }

  ghost predicate Inv(c: Config, st: State) {
    Wf(c, st) && Balanced(st) && Timely(st) && Waits(st) && DevicesOk(c, st)
  }

  /** An arrival of source s is due: the clock stands at its arrival time. */
  ghost predicate Due(st: State, s: nat) {
    s < |st.sources| && st.sources[s].nextArrival == st.time
  }

  // ---- the blocks one by one ----

  lemma NotifyTimely(st: State, kind: string)
    requires Timely(st)
    ensures Timely(Notify(st, kind))
  {
  }

  /** What initialize_realization leaves, from any state: the clock at 0; every source with
      no requests generated, processed or rejected, no wait, and its next arrival the next draw
      in source order; every device idle, serving nothing, with nothing processed and an
      infinite finish time; an empty buffer of the configured size; KOTK and TOG at zero; the
      packet unset and flagged empty; and no notices. */
  lemma InitResets(c: Config, st: State, draws: nat -> real)
    ensures var r := Init(c, st, draws);
            && r.time == 0.0
            && |r.sources| == |st.sources| && r.drawn == st.drawn + |st.sources|
            && (forall i :: 0 <= i < |r.sources| ==>
                  r.sources[i] == Source(0, 0, 0, 0.0, draws(st.drawn + i)))
            && |r.devices| == |st.devices|
            && (forall j :: 0 <= j < |r.devices| ==>
                  r.devices[j] == Device(st.devices[j].lambda, false, None, 0, Inf))
            && |r.bufSource| == |r.bufTime| == c.capacity && r.occupied == 0
            && (forall k :: 0 <= k < c.capacity ==> r.bufSource[k] == -1 && r.bufTime[k] == 0.0)
            && r.rejects == 0
            && |r.tog| == |st.sources| && (forall i :: 0 <= i < |r.tog| ==> r.tog[i] == 0.0)
            && r.packet == -1 && r.packetEmpty && r.notices == []
  {
  }

  /** initialize_realization establishes the invariant, whatever state it starts from. */
  lemma InitInv(c: Config, st: State, draws: nat -> real)
    requires NonNegative(draws)
    requires c.capacity >= 1
    requires |st.sources| == c.sourceCount && |st.devices| == c.deviceCount
    requires forall j :: 0 <= j < |st.devices| ==> st.devices[j].lambda == c.lambda
    ensures Inv(c, Init(c, st, draws))
    ensures Occupied(Init(c, st, draws).bufSource) == 0
  {
    var r := Init(c, st, draws);
    OccupiedZero(r.bufSource);
    SumZero(Generated(r.sources));
    SumZero(Processed(r.sources));
    SumZero(Rejected(r.sources));
    SumZero(Served(r.devices));
    assert forall i :: 0 <= i < |r.sources| ==> r.sources[i].nextArrival == draws(st.drawn + i);
  }

  lemma Bms32Inv(c: Config, st: State, s: nat, d: nat, draws: nat -> real)
    requires Inv(c, st) && NonNegative(draws) && Due(st, s)
    requires d < |st.devices| && !st.devices[d].busy
    ensures Inv(c, Bms32(st, s, d, draws))
  {
    var r := Bms32(st, s, d, draws);
    assert draws(st.drawn) >= 0.0 && draws(st.drawn + 1) >= 0.0;
    assert r.bufSource == st.bufSource && r.bufTime == st.bufTime && r.occupied == st.occupied;
    assert r.tog == st.tog && r.time == st.time && r.rejects == st.rejects;
    assert Wf(c, r);
    Bms32Balanced(st, s, d, draws);
    assert Timely(r);
    assert Waits(r);
    assert DevicesOk(c, r);
  }

  /** Direct service adds one to generated and to processed on both sides. */
  lemma Bms32Balanced(st: State, s: nat, d: nat, draws: nat -> real)
    requires Balanced(st) && s < |st.sources| && d < |st.devices|
    ensures Balanced(Bms32(st, s, d, draws))
  {
    var r := Bms32(st, s, d, draws);
    var dev := st.devices[d].(finish := Fin(st.time + draws(st.drawn)), busy := true,
                              occupant := Some(s), processed := st.devices[d].processed + 1);
    var src := st.sources[s].(processed := st.sources[s].processed + 1,
                              generated := st.sources[s].generated + 1,
                              nextArrival := st.time + draws(st.drawn + 1));
    assert r.sources == st.sources[s := src] && r.devices == st.devices[d := dev];
    assert r.rejects == st.rejects && r.occupied == st.occupied;
    SourceSums(st.sources, s, src);
    DeviceSums(st.devices, d, dev);
  }

  lemma Bms12Inv(c: Config, st: State, s: nat, draws: nat -> real)
    requires Inv(c, st) && NonNegative(draws) && Due(st, s) && st.occupied < c.capacity
    ensures Inv(c, Bms12(st, s, draws))
    ensures Bms12(st, s, draws).occupied == st.occupied + 1
  {
    var r := Bms12(st, s, draws);
    OccupiedFull(st.bufSource);
    var w := FirstOf(st.bufSource, -1);
    assert w >= 0;
    OccupiedUpdate(st.bufSource, w, s);
    assert draws(st.drawn) >= 0.0;
    assert r.occupied == st.occupied + 1;
    assert Wf(c, r);
    Bms12Balanced(c, st, s, draws);
    assert Timely(r);
    assert Waits(r);
    assert DevicesOk(c, r);
  }

  /** A write to the buffer adds one to generated and one to INDBUF. */
  lemma Bms12Balanced(c: Config, st: State, s: nat, draws: nat -> real)
    requires Wf(c, st) && Balanced(st) && s < |st.sources| && st.occupied < c.capacity
    ensures Balanced(Bms12(st, s, draws))
  {
    OccupiedFull(st.bufSource);
    var w := FirstOf(st.bufSource, -1);
    OccupiedUpdate(st.bufSource, w, s);
    var src := st.sources[s];
    SourceSums(st.sources, s, src.(generated := src.generated + 1,
                                   nextArrival := st.time + draws(st.drawn)));
  }

  lemma Bms11Inv(c: Config, st: State, s: nat, draws: nat -> real)
    requires Inv(c, st) && NonNegative(draws) && Due(st, s) && st.occupied >= c.capacity
    ensures Inv(c, Bms11(st, s, draws))
  {
    OccupiedFull(st.bufSource);
    OverwriteInv(c, st, Victim(st.bufSource, st.bufTime), s, draws);
  }

  lemma OverwriteInv(c: Config, st: State, v: nat, s: nat, draws: nat -> real)
    requires Inv(c, st) && NonNegative(draws) && Due(st, s)
    requires v < |st.bufSource| && st.bufSource[v] != -1
    ensures Inv(c, Overwrite(st, v, s, draws))
  {
    var r := Overwrite(st, v, s, draws);
    OccupiedUpdate(st.bufSource, v, s);
    assert draws(st.drawn) >= 0.0;
    assert r.occupied == st.occupied;
    assert Wf(c, r);
    OverwriteBalanced(c, st, v, s, draws);
    assert Timely(r);
    assert Waits(r);
    assert DevicesOk(c, r);
  }

  /** An eviction adds one to generated and one to KOTK, and leaves INDBUF as it is. */
  lemma OverwriteBalanced(c: Config, st: State, v: nat, s: nat, draws: nat -> real)
    requires Wf(c, st) && Balanced(st) && s < |st.sources|
    requires v < |st.bufSource| && st.bufSource[v] != -1
    ensures Balanced(Overwrite(st, v, s, draws))
  {
    OccupiedUpdate(st.bufSource, v, s);
    var r := Overwrite(st, v, s, draws);
    var src := st.sources[s];
    var src' := src.(rejected := src.rejected + 1, generated := src.generated + 1,
                     nextArrival := st.time + draws(st.drawn));
    assert r.sources == st.sources[s := src'];
    assert r.rejects == st.rejects + 1 && r.occupied == st.occupied;
    SourceSums(st.sources, s, src');
  }

  lemma BasInv(c: Config, st: State, s: nat, draws: nat -> real)
    requires Inv(c, st) && NonNegative(draws) && Due(st, s)
    ensures Inv(c, Bas(c, st, s, draws))
  {
    var f := FreeDevice(st.devices);
    if f >= 0 {
      Bms32Inv(c, st, s, f, draws);
    } else if st.occupied < c.capacity {
      Bms12Inv(c, st, s, draws);
    } else {
      Bms11Inv(c, st, s, draws);
    }
  }

  lemma SelectNewPacketInv(c: Config, st: State)
    requires Inv(c, st)
    ensures Inv(c, SelectNewPacket(st))
  {
    var p := NewPacket(st.bufSource);
    var st1 := st.(packet := p, packetEmpty := p == -1);
    assert Inv(c, st1);
    NotifyTimely(st1, PACKET_CHANGE);
  }

  lemma SelectRequestInv(c: Config, st: State)
    requires Inv(c, st)
    ensures Inv(c, SelectRequest(st).0)
  {
    var st1 := st;
    if st.packet == -1 || st.packetEmpty {
      SelectNewPacketInv(c, st);
      st1 := SelectNewPacket(st);
    }
    if FirstOf(st.bufSource, st1.packet) >= 0 {
      PacketFlagInv(c, st1);
    } else {
      SelectNewPacketInv(c, st1);
    }
  }

  /** Setting the packet-empty flag touches nothing the invariant speaks of. */
  lemma PacketFlagInv(c: Config, st: State)
    requires Inv(c, st)
    ensures Inv(c, st.(packetEmpty := false))
  {
    var r := st.(packetEmpty := false);
    assert Wf(c, r);
    assert Balanced(r);
    assert Timely(r);
  }

  lemma Bms31Inv(c: Config, st: State, d: nat, draws: nat -> real)
    requires Inv(c, st) && NonNegative(draws) && d < |st.devices| && st.occupied > 0
    requires !st.devices[d].busy
    ensures Inv(c, Bms31(c, st, d, draws))
  {
    OccupiedZero(st.bufSource);
    SelectRequestFrame(c, st);
    SelectRequestInv(c, st);
    var (st1, i) := SelectRequest(st);
    if i >= 0 {
      ServeInv(c, st1, d, i, draws);
    }
  }

  lemma ServeInv(c: Config, st: State, d: nat, i: nat, draws: nat -> real)
    requires Inv(c, st) && NonNegative(draws) && d < |st.devices| && !st.devices[d].busy
    requires i < |st.bufSource| && st.bufSource[i] >= 0
    ensures Inv(c, Serve(c, st, d, i, draws))
  {
    var r := Serve(c, st, d, i, draws);
    var sid: nat := st.bufSource[i];
    var wait := st.time - st.bufTime[i];
    assert 0.0 <= wait && draws(st.drawn) >= 0.0;
    OccupiedUpdate(st.bufSource, i, -1);
    assert r.occupied == st.occupied - 1;
    assert Wf(c, r);
    ServeBalanced(c, st, d, i, draws);
    ServeTimely(c, st, d, i, draws);
    assert Waits(r);
    assert DevicesOk(c, r);
  }

  /** Serving from the buffer keeps the clock, empties the slot to time 0, and starts a
      device no earlier than now. */
  lemma ServeTimely(c: Config, st: State, d: nat, i: nat, draws: nat -> real)
    requires Wf(c, st) && Timely(st) && NonNegative(draws) && d < |st.devices|
    requires i < |st.bufSource| && st.bufSource[i] >= 0
    ensures Timely(Serve(c, st, d, i, draws))
  {
    var r := Serve(c, st, d, i, draws);
    ServeEffect(c, st, d, i, draws);
    assert draws(st.drawn) >= 0.0;
    assert r.time == st.time;
    assert forall k :: 0 <= k < |r.sources| ==> r.sources[k].nextArrival == st.sources[k].nextArrival;
    assert forall j :: 0 <= j < |r.devices| && j != d ==> r.devices[j] == st.devices[j];
    assert r.notices == st.notices + [Notice(BUFFER_SELECT, st.time)] + [Notice(DEVICE_START, st.time)];
  }

  /** Taking a buffered request moves it from INDBUF to processed on both sides. */
  lemma ServeBalanced(c: Config, st: State, d: nat, i: nat, draws: nat -> real)
    requires Wf(c, st) && Balanced(st) && d < |st.devices|
    requires i < |st.bufSource| && st.bufSource[i] >= 0
    ensures Balanced(Serve(c, st, d, i, draws))
  {
    var r := Serve(c, st, d, i, draws);
    var sid: nat := st.bufSource[i];
    var wait := st.time - st.bufTime[i];
    OccupiedUpdate(st.bufSource, i, -1);
    var src := st.sources[sid].(totalWait := st.sources[sid].totalWait + wait,
                                processed := st.sources[sid].processed + 1);
    var dev := st.devices[d].(finish := Fin(st.time + draws(st.drawn)), busy := true,
                              occupant := Some(sid), processed := st.devices[d].processed + 1);
    assert r.sources == st.sources[sid := src];
    assert r.devices == st.devices[d := dev];
    SourceSums(st.sources, sid, src);
    DeviceSums(st.devices, d, dev);
  }

  lemma Bas3Inv(c: Config, st: State, d: nat, draws: nat -> real)
    requires Inv(c, st) && NonNegative(draws) && d < |st.devices|
    ensures Inv(c, Bas3(c, st, d, draws))
  {
    var dev := st.devices[d];
    var st1 := Released(st, d);
    DeviceSums(st.devices, d, dev.(busy := false, occupant := None));
    assert Inv(c, st1);
    if st1.occupied > 0 {
      Bms31Inv(c, st1, d, draws);
    } else {
      DeviceSums(st1.devices, d, st1.devices[d].(finish := Inf));
    }
  }

  lemma ProcessEventInv(c: Config, st: State, e: int, draws: nat -> real)
    requires Inv(c, st) && NonNegative(draws)
    requires 1 <= e <= |st.sources| ==> Due(st, e - 1)
    requires e == |st.sources| + 1 ==> |st.devices| > 0
    ensures Inv(c, ProcessEvent(c, st, e, draws))
  {
    if 1 <= e <= |st.sources| {
      NotifyTimely(st, ARRIVAL);
      BasInv(c, Notify(st, ARRIVAL), e - 1, draws);
    } else if e == |st.sources| + 1 {
      NotifyTimely(st, DEVICE_FINISH);
      Bas3Inv(c, Notify(st, DEVICE_FINISH), DeviceToFree(st.devices), draws);
    }
  }

  /** Moving the clock to the chosen event keeps every pending event at or after it. */
  lemma AdvanceInv(c: Config, st: State)
    requires Inv(c, st) && |st.sources| > 0
    ensures st.time <= EventTime(st.sources, st.devices)
    ensures Inv(c, st.(time := EventTime(st.sources, st.devices)))
  {
    var e := Boos(st.sources, st.devices);
    if e > |st.sources| {
      var d := DeviceToFree(st.devices);
      assert Le(Fin(st.time), st.devices[d].finish);
    }
  }

  /** One pass of the event loop keeps the invariant and never moves the clock backwards. */
  lemma StepInv(c: Config, st: State, draws: nat -> real)
    requires Inv(c, st) && NonNegative(draws) && |st.sources| > 0
    ensures Inv(c, Step(c, st, draws))
    ensures st.time <= Step(c, st, draws).time
  {
    AdvanceInv(c, st);
    var st1 := st.(time := EventTime(st.sources, st.devices));
    ProcessEventInv(c, st1, Boos(st.sources, st.devices), draws);
    ProcessEventTime(c, st1, Boos(st.sources, st.devices), draws);
  }

  /** A prefix of a run is a run. */
  lemma RunPrefix(c: Config, trace: seq<State>, n: nat, draws: nat -> real)
    requires IsRun(c, trace, draws) && n <= |trace|
    ensures IsRun(c, trace[..n], draws)
  {
    forall k | 0 <= k < n - 1
      ensures Wf(c, trace[..n][k]) && |trace[..n][k].sources| > 0
      ensures trace[..n][k + 1] == Step(c, trace[..n][k], draws)
    {
      assert trace[..n][k] == trace[k] && trace[..n][k + 1] == trace[k + 1];
    }
  }

  /** A run preceded by the state it is one pass of the loop from is a run. */
  lemma RunCons(c: Config, st: State, rest: seq<State>, draws: nat -> real)
    requires Wf(c, st) && |st.sources| > 0
    requires |rest| > 0 && rest[0] == Step(c, st, draws) && IsRun(c, rest, draws)
    ensures IsRun(c, [st] + rest, draws)
    ensures forall k :: 0 <= k < |rest| ==> ([st] + rest)[k + 1] == rest[k]
  {
    var t := [st] + rest;
    forall k | 0 <= k < |t| - 1
      ensures Wf(c, t[k]) && |t[k].sources| > 0 && t[k + 1] == Step(c, t[k], draws)
    {
      if k > 0 {
        assert t[k] == rest[k - 1] && t[k + 1] == rest[k];
      }
    }
  }

  /** Along a run of the event loop from a state satisfying the invariant, every state
      satisfies it and the clock never moves backwards. */
  lemma {:induction false} RunInv(c: Config, trace: seq<State>, draws: nat -> real)
    requires |trace| > 0 && IsRun(c, trace, draws) && Inv(c, trace[0]) && NonNegative(draws)
    ensures forall k :: 0 <= k < |trace| ==> Inv(c, trace[k])
    ensures forall k :: 0 <= k < |trace| - 1 ==> trace[k].time <= trace[k + 1].time
    decreases |trace|
  {
    if |trace| > 1 {
      var n := |trace| - 1;
      var prefix := trace[..n];
      RunPrefix(c, trace, n, draws);
      RunInv(c, prefix, draws);
      forall k | 0 <= k < n
        ensures Inv(c, trace[k])
      {
        assert prefix[k] == trace[k];
      }
      forall k | 0 <= k < n - 1
        ensures trace[k].time <= trace[k + 1].time
      {
        assert prefix[k] == trace[k] && prefix[k + 1] == trace[k + 1];
      }
      StepInv(c, trace[n - 1], draws);
    }
  }

  /** Processing an event leaves the clock where it is. */
  lemma ProcessEventTime(c: Config, st: State, e: int, draws: nat -> real)
    requires Wf(c, st)
    requires e == |st.sources| + 1 ==> |st.devices| > 0
    ensures ProcessEvent(c, st, e, draws).time == st.time
  {
    if 1 <= e <= |st.sources| {
      var st1 := Notify(st, ARRIVAL);
      assert Bas(c, st1, e - 1, draws).time == st.time;
    } else if e == |st.sources| + 1 {
      var st1 := Notify(st, DEVICE_FINISH);
      var d := DeviceToFree(st.devices);
      var st2 := Released(st1, d);
      assert Wf(c, st2);
      if st2.occupied > 0 {
        OccupiedZero(st2.bufSource);
        SelectRequestFrame(c, st2);
        assert Bms31(c, st2, d, draws).time == st.time;
      }
    }
  }
}
