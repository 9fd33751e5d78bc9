/** SMOSystem, the engine object: its blocks update the buffer arrays BUFN and BUFT, the
    counters INDBUF and KOTK, the packet, the clock and the source and device records in place.
    Each block is proved to produce exactly the state the matching function of Blocks computes,
    so the invariants proved there hold of the object. */
module Engine {
  import opened Types
  import opened Tally
  import opened Queries
  import opened StepMode
  import opened Blocks
  import opened Invariants
  import opened Results
  import opened Runs

  class SMOSystem {
    const config: Config
    /** The stream of random draws: the k-th generated interval or service time. */
    const draws: nat -> real

    var sources: seq<Source>
    var devices: seq<Device>
    /** BUFN: the source of the request in each slot, -1 for an empty slot. */
    var bufSource: array<int>
    /** BUFT: the arrival time of the request in each slot, 0 for an empty slot. */
    var bufTime: array<real>
    /** INDBUF */
    var occupied: nat
    /** KOTK */
    var rejects: nat
    /** TOG */
    var tog: seq<real>
    var packet: int
    var packetEmpty: bool
    var time: real
    var tau: real
    /** Number of draws consumed so far. */
    var drawn: nat
    /** The calls of the step-mode hook during the current realization. */
    var notices: seq<Notice>
    var results: seq<RealizationResult>

    /** The engine state as a value. */
    function View(): State
      reads this, bufSource, bufTime
    {
      State(sources, devices, bufSource[..], bufTime[..], occupied, rejects, tog, packet,
            packetEmpty, time, drawn, notices)
    }

    ghost predicate Valid()
      reads this, bufSource, bufTime
    {
      NonNegative(draws) && Wf(config, View())
    }

    /** initialize_system: one idle record per source and device, tau at its minimum, no
        results yet. The buffer is allocated here already, empty. */
    constructor (config: Config, draws: nat -> real)
      requires NonNegative(draws) && config.capacity >= 1
      ensures Valid()
      ensures this.config == config && this.draws == draws
      ensures sources == seq(config.sourceCount, _ => Source(0, 0, 0, 0.0, 0.0))
      ensures devices == seq(config.deviceCount, _ => Device(config.lambda, false, None, 0, Inf))
      ensures tau == config.tauMin && time == 0.0 && results == [] && drawn == 0
    {
      this.config := config;
      this.draws := draws;
      sources := seq(config.sourceCount, _ => Source(0, 0, 0, 0.0, 0.0));
      devices := seq(config.deviceCount, _ => Device(config.lambda, false, None, 0, Inf));
      bufSource := new int[config.capacity](_ => -1);
      bufTime := new real[config.capacity](_ => 0.0);
      occupied := 0;
      rejects := 0;
      tog := seq(config.sourceCount, _ => 0.0);
      packet := -1;
      packetEmpty := true;
      time := 0.0;
      tau := config.tauMin;
      drawn := 0;
      notices := [];
      results := [];
      new;
      OccupiedZero(bufSource[..]);
    }

    /** One call of the step-mode hook. */
    method Notify(kind: string)
      modifies this`notices
      ensures View() == Blocks.Notify(old(View()), kind)
    {
      notices := notices + [Notice(kind, time)];
    }

    /** Stores the request of source s in slot w. */
    method Put(w: nat, s: nat)
      requires s < |sources| && w < bufSource.Length == bufTime.Length
      modifies bufSource, bufTime
      ensures View() == Blocks.Put(old(View()), w, s)
    {
      bufTime[w] := sources[s].nextArrival;
      bufSource[w] := s;
    }

    /** Counts a generated request of source s and draws its next interval. */
    method NextArrival(s: nat)
      requires s < |sources|
      modifies this`sources, this`drawn
      ensures View() == Blocks.NextArrival(old(View()), s, draws)
    {
      var interval := draws(drawn);
      drawn := drawn + 1;
      sources := sources[s := sources[s].(generated := sources[s].generated + 1,
                                          nextArrival := time + interval)];
    }

    /** Device d starts on a request of source sid, for a drawn service time. */
    method StartService(d: nat, sid: nat)
      requires d < |devices|
      modifies this`devices, this`drawn
      ensures View() == Blocks.StartService(old(View()), d, sid, draws)
    {
      var serviceTime := draws(drawn);
      drawn := drawn + 1;
      devices := devices[d := devices[d].(finish := Fin(time + serviceTime), busy := true,
                                          occupant := Some(sid))];
    }

    /** Counts a served request on device d and on source sid. */
    method CountServed(d: nat, sid: nat)
      requires d < |devices| && sid < |sources|
      modifies this`devices, this`sources
      ensures View() == Blocks.CountServed(old(View()), d, sid)
    {
      devices := devices[d := devices[d].(processed := devices[d].processed + 1)];
      sources := sources[sid := sources[sid].(processed := sources[sid].processed + 1)];
    }

    /** Counts a reject against source s. */
    method CountReject(s: nat)
      requires s < |sources|
      modifies this`rejects, this`sources
      ensures View() == Blocks.CountReject(old(View()), s)
    {
      rejects := rejects + 1;
      sources := sources[s := sources[s].(rejected := sources[s].rejected + 1)];
    }

    /** Charges the wait since `arrival` to source sid and to TOG. */
    method ChargeWait(sid: nat, arrival: real)
      requires sid < |sources| && sid < |tog|
      modifies this`sources, this`tog
      ensures View() == Blocks.ChargeWait(old(View()), sid, arrival)
    {
      var waitTime := time - arrival;
      sources := sources[sid := sources[sid].(totalWait := sources[sid].totalWait + waitTime)];
      tog := tog[sid := tog[sid] + waitTime];
    }

    /** The source loop of initialize_realization: counters cleared and a first interval drawn,
        source by source. */
    method ResetSources()
      modifies this`sources, this`drawn
      ensures View() == Blocks.ResetSources(old(View()), draws)
    {
      var i := 0;
      while i < |sources|
        invariant 0 <= i <= |sources| == |old(sources)|
        invariant drawn == old(drawn) + i
        invariant forall k :: 0 <= k < i ==> sources[k] == Source(0, 0, 0, 0.0, draws(old(drawn) + k))
      {
        var interval := draws(drawn);
        drawn := drawn + 1;
        sources := sources[i := sources[i].(generated := 0, processed := 0, rejected := 0,
                                            totalWait := 0.0, nextArrival := interval)];
        i := i + 1;
      }
      assert sources == Blocks.ResetSources(old(View()), draws).sources;
    }

    /** The device loop of initialize_realization: every device idle with nothing processed. */
    method ResetDevices()
      modifies this`devices
      ensures View() == Blocks.ResetDevices(old(View()))
    {
      var j := 0;
      while j < |devices|
        invariant 0 <= j <= |devices| == |old(devices)|
        invariant forall k :: 0 <= k < j ==>
                    devices[k] == old(devices)[k].(busy := false, occupant := None, processed := 0,
                                                   finish := Inf)
        invariant forall k :: j <= k < |devices| ==> devices[k] == old(devices)[k]
      {
        devices := devices[j := devices[j].(busy := false, occupant := None, processed := 0,
                                            finish := Inf)];
        j := j + 1;
      }
      assert devices == Blocks.ResetDevices(old(View())).devices;
    }

    /** initialize_realization: clock at zero, sources and devices reset, a new empty buffer,
        no rejects, TOG cleared and the packet unset. */
    method InitializeRealization()
      modifies this
      ensures fresh(bufSource) && fresh(bufTime)
      ensures View() == Init(config, old(View()), draws)
      ensures tau == old(tau) && results == old(results)
    {
      ghost var st := View();
      time := 0.0;
      assert View() == st.(time := 0.0);
      ResetSources();
      ResetDevices();
      NewBuffer();
      ClearCounters();
    }

    /** The buffer part of initialize_realization. The old arrays are replaced by new ones,
        as the source assigns new lists. */
    method NewBuffer()
      modifies this`occupied, this`bufTime, this`bufSource
      ensures fresh(bufSource) && fresh(bufTime)
      ensures View() == Blocks.NewBuffer(config, old(View()))
    {
      occupied := 0;
      bufTime := new real[config.capacity](_ => 0.0);
      bufSource := new int[config.capacity](_ => -1);
      assert bufSource[..] == Blocks.NewBuffer(config, old(View())).bufSource;
      assert bufTime[..] == Blocks.NewBuffer(config, old(View())).bufTime;
    }

    /** The counter part of initialize_realization. */
    method ClearCounters()
      modifies this`rejects, this`tog, this`packet, this`packetEmpty, this`notices
      ensures View() == Blocks.ClearCounters(old(View()))
    {
      rejects := 0;
      tog := seq(|sources|, _ => 0.0);
      packet := -1;
      packetEmpty := true;
      notices := [];
    }

    /** bms32_block: source s is served at once by idle device d. */
    method Bms32Block(s: nat, d: nat)
      requires s < |sources| && d < |devices|
      modifies this
      ensures View() == Bms32(old(View()), s, d, draws)
      ensures bufSource == old(bufSource) && bufTime == old(bufTime)
      ensures tau == old(tau) && results == old(results)
    {
      StartService(d, s);
      CountServed(d, s);
      NextArrival(s);
      Notify(DEVICE_START);
    }

    /** The first slot of BUFN holding `p`, or -1: the scan of bms12_block and of
        select_request_from_buffer. */
    method FindSlot(p: int) returns (w: int)
      requires bufSource.Length == config.capacity
      ensures w == FirstOf(bufSource[..], p)
    {
      var i := 0;
      while i < config.capacity
        invariant 0 <= i <= config.capacity
        invariant forall k :: 0 <= k < i ==> bufSource[k] != p
      {
        if bufSource[i] == p {
          return i;
        }
        i := i + 1;
      }
      return -1;
    }

    /** bms12_block: the request of source s goes to the first empty slot, if any. */
    method Bms12Block(s: nat)
      requires bufSource.Length == config.capacity == bufTime.Length && s < |sources|
      modifies this, bufSource, bufTime
      ensures View() == Bms12(old(View()), s, draws)
      ensures bufSource == old(bufSource) && bufTime == old(bufTime)
      ensures tau == old(tau) && results == old(results)
    {
      var writePosition := FindSlot(-1);
      if writePosition >= 0 {
        Put(writePosition, s);
        occupied := occupied + 1;
      }
      NextArrival(s);
      Notify(BUFFER_WRITE);
    }

    /** bms11_block: the victim slot is overwritten by the request of source s. */
    method Bms11Block(s: nat)
      requires bufSource.Length == config.capacity == bufTime.Length >= 1 && s < |sources|
      modifies this, bufSource, bufTime
      ensures View() == Bms11(old(View()), s, draws)
      ensures bufSource == old(bufSource) && bufTime == old(bufTime)
      ensures tau == old(tau) && results == old(results)
    {
      var victimIndex := Victim(bufSource[..], bufTime[..]);
      CountReject(s);
      Put(victimIndex, s);
      NextArrival(s);
      Notify(BUFFER_REJECT);
    }

    /** bas_block */
    method BasBlock(s: nat)
      requires Valid() && s < |sources|
      modifies this, bufSource, bufTime
      ensures View() == Bas(config, old(View()), s, draws)
      ensures bufSource == old(bufSource) && bufTime == old(bufTime)
      ensures tau == old(tau) && results == old(results)
    {
      var freeDevice := FreeDevice(devices);
      if freeDevice >= 0 {
        Bms32Block(s, freeDevice);
      } else if occupied < config.capacity {
        Bms12Block(s);
      } else {
        Bms11Block(s);
      }
    }

    /** select_new_packet */
    method SelectNewPacket()
      requires bufSource.Length == config.capacity
      modifies this`packet, this`packetEmpty, this`notices
      ensures View() == Blocks.SelectNewPacket(old(View()))
    {
      var oldPacket := packet;
      var available: set<int> := {};
      var i := 0;
      while i < config.capacity
        invariant 0 <= i <= config.capacity
        invariant available == set k | 0 <= k < i && bufSource[k] != -1 :: bufSource[k]
      {
        if bufSource[i] != -1 {
          available := available + {bufSource[i]};
        }
        i := i + 1;
      }
      assert available == set k | 0 <= k < |bufSource[..]| && bufSource[..][k] != -1 :: bufSource[..][k];
      if available != {} {
        if 0 in available {
          packet := 0;
        } else {
          packet := 1;
        }
        packetEmpty := false;
      } else {
        packet := -1;
        packetEmpty := true;
      }
      if oldPacket != packet && oldPacket != -1 {
        Notify(PACKET_CHANGE);
      }
    }

    /** select_request_from_buffer: the slot to serve next, or -1. */
    method SelectRequestFromBuffer() returns (index: int)
      requires bufSource.Length == config.capacity
      modifies this`packet, this`packetEmpty, this`notices
      ensures (View(), index) == SelectRequest(old(View()))
    {
      if packet == -1 || packetEmpty {
        SelectNewPacket();
      }
      index := FindSlot(packet);
      if index >= 0 {
        packetEmpty := false;
        return;
      }
      SelectNewPacket();
      index := FindSlot(packet);
    }

    /** remove_from_buffer */
    method RemoveFromBuffer(index: int)
      requires bufSource.Length == config.capacity && bufTime.Length == config.capacity
      modifies this`occupied, bufSource, bufTime
      ensures View() == Remove(old(View()), index)
    {
      if 0 <= index < config.capacity {
        bufTime[index] := 0.0;
        bufSource[index] := -1;
        occupied := if occupied > 0 then occupied - 1 else 0;
      }
    }

    /** bms31_block: device d takes the selected request from the buffer. */
    method Bms31Block(d: nat)
      requires Valid() && d < |devices| && occupied > 0
      modifies this, bufSource, bufTime
      ensures View() == Bms31(config, old(View()), d, draws)
      ensures bufSource == old(bufSource) && bufTime == old(bufTime)
      ensures tau == old(tau) && results == old(results)
    {
      ghost var st := View();
      OccupiedZero(st.bufSource);
      SelectRequestFrame(config, st);
      var selectedIndex := SelectRequestFromBuffer();
      if selectedIndex >= 0 {
        ServeSlot(d, selectedIndex);
      }
    }

    /** The part of bms31_block after the selection: the request in slot i is served by
        device d. */
    method ServeSlot(d: nat, i: nat)
      requires Wf(config, View()) && d < |devices| && i < bufSource.Length && bufSource[i] >= 0
      modifies this, bufSource, bufTime
      ensures View() == Serve(config, old(View()), d, i, draws)
      ensures bufSource == old(bufSource) && bufTime == old(bufTime)
      ensures tau == old(tau) && results == old(results)
    {
      var sourceId: nat := bufSource[i];
      ChargeWait(sourceId, bufTime[i]);
      StartService(d, sourceId);
      RemoveFromBuffer(i);
      CountServed(d, sourceId);
      Notify(BUFFER_SELECT);
      Notify(DEVICE_START);
    }

    /** bas3_block: device d is released. */
    method Bas3Block(d: nat)
      requires Valid() && d < |devices|
      modifies this, bufSource, bufTime
      ensures View() == Bas3(config, old(View()), d, draws)
      ensures bufSource == old(bufSource) && bufTime == old(bufTime)
      ensures tau == old(tau) && results == old(results)
    {
      devices := devices[d := devices[d].(busy := false, occupant := None)];
      if occupied > 0 {
        Bms31Block(d);
      } else {
        devices := devices[d := devices[d].(finish := Inf)];
      }
    }

    /** process_event: 1..N an arrival of source e - 1, N + 1 a completion. */
    method ProcessEvent(e: int)
      requires Valid()
      requires e == |sources| + 1 ==> |devices| > 0
      modifies this, bufSource, bufTime
      ensures View() == Blocks.ProcessEvent(config, old(View()), e, draws)
      ensures bufSource == old(bufSource) && bufTime == old(bufTime)
      ensures tau == old(tau) && results == old(results)
    {
      if 1 <= e <= |sources| {
        Notify(ARRIVAL);
        BasBlock(e - 1);
      } else if e == |sources| + 1 {
        var device := DeviceToFree(devices);
        Notify(DEVICE_FINISH);
        Bas3Block(device);
      }
    }

    /** One pass of the loop of run_realization: boos_block chooses the event, the clock moves
        to it, and process_event handles it. */
    method StepOnce()
      requires Valid() && |sources| > 0
      modifies this, bufSource, bufTime
      ensures View() == Step(config, old(View()), draws)
      ensures bufSource == old(bufSource) && bufTime == old(bufTime)
      ensures tau == old(tau) && results == old(results)
    {
      ghost var st := View();
      var eventType := Boos(sources, devices);
      if 1 <= eventType <= |sources| {
        time := sources[eventType - 1].nextArrival;
      } else {
        var device := DeviceToFree(devices);
        time := devices[device].finish.t;
      }
      assert View() == st.(time := EventTime(st.sources, st.devices));
      ProcessEvent(eventType);
    }

    /** run_realization: reset, then process events until every source has generated the
        minimum or the iteration ceiling is reached; the result is calculate_results of the
        final state. The old buffer arrays are replaced, never written. */
    method RunRealization() returns (result: RealizationResult)
      requires Valid()
      modifies this
      ensures Valid() && fresh(bufSource) && fresh(bufTime)
      ensures Inv(config, Init(config, old(View()), draws))
      ensures View() == Realize(config, Init(config, old(View()), draws), MAX_ITERATIONS, draws)
      ensures result == CalculateResults(View(), tau) && result.tau == tau && Sound(result)
      ensures tau == old(tau) && results == old(results)
    {
      InitInv(config, View(), draws);
      InitializeRealization();
      EventLoop();
      ResultsSound(config, View(), tau);
      result := CalculateResults(View(), tau);
    }

    /** The while loop of run_realization: one pass per event until every source has generated
        the minimum or the iteration ceiling is reached. */
    method EventLoop()
      requires NonNegative(draws) && Inv(config, View())
      modifies this, bufSource, bufTime
      ensures Valid() && bufSource == old(bufSource) && bufTime == old(bufTime)
      ensures Inv(config, View()) && View() == Realize(config, old(View()), MAX_ITERATIONS, draws)
      ensures tau == old(tau) && results == old(results)
    {
      var iteration := 0;
      while !AllReached(sources, config.minRequests) && iteration < MAX_ITERATIONS
        invariant NonNegative(draws) && Inv(config, View())
        invariant bufSource == old(bufSource) && bufTime == old(bufTime)
        invariant 0 <= iteration <= MAX_ITERATIONS
        invariant Realize(config, View(), MAX_ITERATIONS - iteration, draws)
          == Realize(config, old(View()), MAX_ITERATIONS, draws)
        invariant tau == old(tau) && results == old(results)
        decreases MAX_ITERATIONS - iteration
      {
        ghost var prev := View();
        StepOnce();
        StepInv(config, prev, draws);
        iteration := iteration + 1;
      }
    }

    /** Sets the tau of the next realization. */
    method SetTau(t: real)
      modifies this`tau
      ensures tau == t
    {
      tau := t;
    }

    /** Appends one result to the result list. */
    method Record(result: RealizationResult)
      modifies this`results
      ensures results == old(results) + [result]
    {
      results := results + [result];
    }

    /** The body of the tau loop of run_simulation: tau is set, one realization is run and its
        result appended to the result list. */
    method RealizationAt(t: real) returns (result: RealizationResult)
      requires Valid()
      modifies this
      ensures Valid() && tau == t && results == old(results) + [result]
      ensures Inv(config, Init(config, old(View()), draws))
      ensures View() == Realize(config, Init(config, old(View()), draws), MAX_ITERATIONS, draws)
      ensures result == CalculateResults(View(), t) && result.tau == t && Sound(result)
    {
      ghost var before := View();
      SetTau(t);
      assert View() == before;
      result := RunRealization();
      ghost var after := View();
      Record(result);
      assert View() == after;
    }

    /** One pass of the tau loop of run_simulation with tau in range: the realization for it
        continues the sweep from `start`, and its sound result is appended. */
    method SweepTau(ghost start: State, t: real)
      requires Valid() && Wf(config, start) && config.tauStep > 0.0
      requires t == TauAt(config, |results|) && |results| < TauCount(config)
      requires Swept(config, start, results, draws)
      requires View() == Sweep(config, start, |results|, draws)
      modifies this
      ensures Valid() && |results| == |old(results)| + 1
      ensures t + config.tauStep == TauAt(config, |results|)
      ensures Swept(config, start, results, draws)
      ensures View() == Sweep(config, start, |results|, draws)
    {
      ghost var before := results;
      var result := RealizationAt(t);
      SweepRecord(config, start, |before|, result, View(), draws);
      SweepExtend(config, start, before, result, draws);
    }

    /** run_simulation: one realization per tau from the minimum up to the maximum in steps,
        each started from the state the previous one left; the k-th result is calculate_results
        of the state after k + 1 realizations, labelled with the k-th tau. */
    method RunSimulation() returns (rs: seq<RealizationResult>)
      requires Valid() && config.tauStep > 0.0
      modifies this
      ensures Valid() && rs == results
      ensures |rs| == TauCount(config)
      ensures forall k :: 0 <= k < |rs| ==> rs[k].tau == TauAt(config, k) <= config.tauMax
      ensures forall k :: 0 <= k < |rs| ==> Sound(rs[k])
      ensures forall k :: 0 <= k < |rs| ==>
                rs[k] == CalculateResults(Sweep(config, old(View()), k + 1, draws), TauAt(config, k))
      ensures View() == Sweep(config, old(View()), |rs|, draws)
    {
      ghost var start := View();
      results := [];
      var currentTau := config.tauMin;
      while currentTau <= config.tauMax
        invariant Valid() && Wf(config, start)
        invariant currentTau == TauAt(config, |results|) && Swept(config, start, results, draws)
        invariant View() == Sweep(config, start, |results|, draws)
        decreases TauCount(config) - |results|
      {
        TauCountBound(config, |results|);
        SweepTau(start, currentTau);
        currentTau := currentTau + config.tauStep;
      }
      TauCountBound(config, |results|);
      SweepResultsIndex(config, start, results, draws);
      rs := results;
    }
  }

  /** The k-th tau of run_simulation: the minimum plus k steps. */
  function TauAt(c: Config, k: nat): real {
    c.tauMin + k as real * c.tauStep
  }

  /** The number of taus run_simulation runs: those from the minimum up to the maximum. */
  function TauCount(c: Config): nat
    requires c.tauStep > 0.0
  {
    if c.tauMin <= c.tauMax then ((c.tauMax - c.tauMin) / c.tauStep).Floor + 1 else 0
  }

  /** Adding one step to the k-th tau gives the next one. */
  lemma TauAtNext(c: Config, k: nat)
    ensures TauAt(c, k) + c.tauStep == TauAt(c, k + 1)
  {
    assert (k + 1) as real * c.tauStep == k as real * c.tauStep + c.tauStep;
  }

  /** Appending the sweep's result for the next tau in range keeps the results of
      run_simulation those of the sweep, labelled with consecutive taus, all in range and all
      sound. */
  lemma SweepExtend(c: Config, st: State, before: seq<RealizationResult>, r: RealizationResult,
                    draws: nat -> real)
    requires Wf(c, st) && NonNegative(draws) && c.tauStep > 0.0
    requires Swept(c, st, before, draws) && |before| < TauCount(c)
    requires r == SweepResult(c, st, |before|, draws) && r.tau == TauAt(c, |before|) && Sound(r)
    ensures TauAt(c, |before|) + c.tauStep == TauAt(c, |before + [r]|)
    ensures Swept(c, st, before + [r], draws)
  {
    TausExtend(c, before, r);
    SweepAppend(c, st, before, r, draws);
  }

  /** Appending a sound result for the next tau in range keeps the results labelled with
      consecutive taus, all in range and all sound. */
  lemma TausExtend(c: Config, before: seq<RealizationResult>, r: RealizationResult)
    requires c.tauStep > 0.0 && |before| < TauCount(c)
    requires forall k :: 0 <= k < |before| ==> before[k].tau == TauAt(c, k) <= c.tauMax
    requires forall k :: 0 <= k < |before| ==> Sound(before[k])
    requires r.tau == TauAt(c, |before|) && Sound(r)
    ensures TauAt(c, |before|) + c.tauStep == TauAt(c, |before + [r]|)
    ensures |before + [r]| <= TauCount(c)
    ensures forall k :: 0 <= k < |before + [r]| ==> (before + [r])[k].tau == TauAt(c, k) <= c.tauMax
    ensures forall k :: 0 <= k < |before + [r]| ==> Sound((before + [r])[k])
  {
    TauAtNext(c, |before|);
    TauCountBound(c, |before|);
    assert forall k :: 0 <= k < |before| ==> (before + [r])[k] == before[k];
  }

  /** Appending the sweep's next result keeps the results those of the sweep. */
  lemma SweepAppend(c: Config, st: State, before: seq<RealizationResult>, r: RealizationResult,
                    draws: nat -> real)
    requires Wf(c, st) && NonNegative(draws) && SweepResults(c, st, before, draws)
    requires r == SweepResult(c, st, |before|, draws)
    ensures SweepResults(c, st, before + [r], draws)
  {
    EachAtAppend(before, r, k => SweepResult(c, st, k, draws));
  }

  /** What run_simulation has produced from st so far: no more results than taus, each
      labelled with its tau, all sound, and each that of its realization in the sweep. */
  ghost predicate Swept(c: Config, st: State, rs: seq<RealizationResult>, draws: nat -> real)
    requires Wf(c, st) && NonNegative(draws) && c.tauStep > 0.0
  {
    && |rs| <= TauCount(c)
    && (forall k :: 0 <= k < |rs| ==> rs[k].tau == TauAt(c, k) <= c.tauMax)
    && (forall k :: 0 <= k < |rs| ==> Sound(rs[k]))
    && SweepResults(c, st, rs, draws)
  }

  /** The results of run_simulation so far: the k-th is calculate_results of the state after
      k + 1 realizations from st, labelled with the k-th tau. */
  ghost predicate SweepResults(c: Config, st: State, rs: seq<RealizationResult>, draws: nat -> real)
    requires Wf(c, st) && NonNegative(draws)
  {
    EachAt(rs, k => SweepResult(c, st, k, draws))
  }

  /** The result run_simulation records for the k-th tau. */
  function SweepResult(c: Config, st: State, k: nat, draws: nat -> real): RealizationResult
    requires Wf(c, st) && NonNegative(draws)
  {
    CalculateResults(Sweep(c, st, k + 1, draws), TauAt(c, k))
  }

  /** The next realization starts from the reset of the state the sweep has reached and ends in
      the state after one more realization; its result, labelled with the next tau, is the
      sweep's next result. */
  lemma SweepRecord(c: Config, st: State, k: nat, r: RealizationResult, next: State,
                    draws: nat -> real)
    requires Wf(c, st) && NonNegative(draws)
    requires Inv(c, Init(c, Sweep(c, st, k, draws), draws))
    requires next == Realize(c, Init(c, Sweep(c, st, k, draws), draws), MAX_ITERATIONS, draws)
    requires r == CalculateResults(next, TauAt(c, k))
    ensures next == Sweep(c, st, k + 1, draws)
    ensures r == SweepResult(c, st, k, draws)
  {
    SweepNext(c, st, k, draws);
  }

  /** The results of the sweep, one by one: the k-th is calculate_results of the state after
      k + 1 realizations, labelled with the k-th tau. */
  lemma SweepResultsIndex(c: Config, st: State, rs: seq<RealizationResult>, draws: nat -> real)
    requires Wf(c, st) && NonNegative(draws) && SweepResults(c, st, rs, draws)
    ensures forall k :: 0 <= k < |rs| ==> rs[k] == CalculateResults(Sweep(c, st, k + 1, draws), TauAt(c, k))
  {
    EachAtIndex(rs, k => SweepResult(c, st, k, draws));
  }

  /** The k-th element of s is f(k), for every k. */
  ghost predicate EachAt<T>(s: seq<T>, f: nat -> T)
    decreases |s|
  {
    |s| == 0 || (EachAt(s[..|s| - 1], f) && s[|s| - 1] == f(|s| - 1))
  }

  /** Extending s by f of its length keeps every element f of its index. */
  lemma EachAtAppend<T>(s: seq<T>, x: T, f: nat -> T)
    requires EachAt(s, f) && x == f(|s|)
    ensures EachAt(s + [x], f)
  {
    assert (s + [x])[..|s|] == s;
  }

  /** EachAt, element by element. */
  lemma {:induction false} EachAtIndex<T>(s: seq<T>, f: nat -> T)
    requires EachAt(s, f)
    ensures forall k :: 0 <= k < |s| ==> s[k] == f(k)
    decreases |s|
  {
    if |s| > 0 {
      var init := s[..|s| - 1];
      EachAtIndex(init, f);
      assert forall k :: 0 <= k < |init| ==> s[k] == init[k];
    }
  }

  /** The k-th tau is within the range exactly when k is below the number of taus. */
  lemma TauCountBound(c: Config, k: nat)
    requires c.tauStep > 0.0
    ensures TauAt(c, k) <= c.tauMax <==> k < TauCount(c)
  {
    var d := c.tauMax - c.tauMin;
    var q := d / c.tauStep;
    assert q * c.tauStep == d;
    assert (k as real - q) * c.tauStep == k as real * c.tauStep - d;
    if k as real <= q {
      assert (k as real - q) * c.tauStep <= 0.0;
    } else {
      assert (k as real - q) * c.tauStep > 0.0;
    }
  }
}
