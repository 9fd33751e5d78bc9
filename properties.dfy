/** What the blocks of SMOSystem do, stated against the queries that choose their slot or device,
    and what a whole realization guarantees. */
module Properties {
  import opened Types
  import opened Tally
  import opened Queries
  import opened StepMode
  import opened Blocks
  import opened Invariants

  // ---- arrival routing ----

  /** bms12_block: the request takes the lowest empty slot together with its arrival time and
      INDBUF goes up by one; no other slot, no device and not KOTK changes. */
  lemma WriteToLowestEmptySlot(c: Config, st: State, s: nat, draws: nat -> real)
    requires Wf(c, st) && s < |st.sources| && st.occupied < c.capacity
    ensures var r := Bms12(st, s, draws);
            && (exists w :: 0 <= w < |st.bufSource| && st.bufSource[w] == -1
                  && (forall j :: 0 <= j < w ==> st.bufSource[j] != -1)
                  && r.bufSource == st.bufSource[w := s]
                  && r.bufTime == st.bufTime[w := st.sources[s].nextArrival])
            && r.occupied == st.occupied + 1 <= c.capacity
            && r.devices == st.devices && r.rejects == st.rejects
            && r.sources[s].generated == st.sources[s].generated + 1
            && r.sources[s].nextArrival == st.time + draws(st.drawn)
  {
    OccupiedFull(st.bufSource);
    var w := FirstOf(st.bufSource, -1);
    OccupiedUpdate(st.bufSource, w, s);
    var r := Bms12(st, s, draws);
    assert r.bufSource == st.bufSource[w := s];
  }

  /** bms11_block: on a full buffer the evicted slot is the occupied one with the smallest
      (source id, arrival time), the lowest index among equal keys; it is overwritten by the
      arriving request, INDBUF stays, and KOTK and the arriving source's reject count go up by
      one while every other source is untouched. */
  lemma EvictOnOverflow(c: Config, st: State, s: nat, draws: nat -> real)
    requires Wf(c, st) && s < |st.sources| && st.occupied >= c.capacity
    ensures var r := Bms11(st, s, draws);
            var b := st.bufSource;
            && (exists v :: 0 <= v < |b| && b[v] != -1
                  && (forall j :: 0 <= j < |b| && b[j] != -1 ==>
                        b[v] < b[j] || (b[v] == b[j] && st.bufTime[v] <= st.bufTime[j]))
                  && (forall j :: 0 <= j < v && b[j] != -1 ==>
                        b[v] < b[j] || (b[v] == b[j] && st.bufTime[v] < st.bufTime[j]))
                  && r.bufSource == b[v := s]
                  && r.bufTime == st.bufTime[v := st.sources[s].nextArrival])
            && r.occupied == st.occupied && r.occupied == Occupied(r.bufSource)
            && r.rejects == st.rejects + 1
            && r.sources[s].rejected == st.sources[s].rejected + 1
            && r.sources[s].generated == st.sources[s].generated + 1
            && (forall k :: 0 <= k < |st.sources| && k != s ==> r.sources[k] == st.sources[k])
            && r.devices == st.devices
  {
    OccupiedFull(st.bufSource);
    var v := Victim(st.bufSource, st.bufTime);
    OccupiedUpdate(st.bufSource, v, s);
    var src := st.sources[s];
    assert Bms11(st, s, draws).sources
        == st.sources[s := src.(rejected := src.rejected + 1, generated := src.generated + 1,
                                nextArrival := st.time + draws(st.drawn))];
  }

  /** A buffered request of source 0 is always the one evicted first: the highest-priority
      source loses its oldest buffered request. */
  lemma EvictsSourceZeroFirst(b: seq<int>, t: seq<real>)
    requires |t| == |b| >= 1 && forall j :: 0 <= j < |b| ==> b[j] >= -1
    requires exists j :: 0 <= j < |b| && b[j] == 0
    ensures var v := Victim(b, t);
            b[v] == 0 && forall j :: 0 <= j < |b| && b[j] == 0 ==> t[v] <= t[j]
  {
    var v := Victim(b, t);
    var z :| 0 <= z < |b| && b[z] == 0;
    assert !KeyLess(b, t, z, v);
  }

  /** bas_block: an arrival goes to the lowest-indexed idle device, which becomes busy with it
      until now plus the drawn service time; with every device busy it is written to the buffer
      when INDBUF is below capacity and causes an eviction otherwise. */
  lemma ArrivalRouting(c: Config, st: State, s: nat, draws: nat -> real)
    requires Wf(c, st) && s < |st.sources|
    ensures var r := Bas(c, st, s, draws);
            && ((exists j :: 0 <= j < |st.devices| && !st.devices[j].busy) ==>
                  exists d :: 0 <= d < |st.devices| && !st.devices[d].busy
                    && (forall j :: 0 <= j < d ==> st.devices[j].busy)
                    && r.devices[d].busy && r.devices[d].occupant == Some(s)
                    && r.devices[d].finish == Fin(st.time + draws(st.drawn))
                    && r.devices[d].processed == st.devices[d].processed + 1
                    && r.sources[s].processed == st.sources[s].processed + 1
                    && r.bufSource == st.bufSource && r.occupied == st.occupied
                    && r.rejects == st.rejects)
            && ((forall j :: 0 <= j < |st.devices| ==> st.devices[j].busy) ==>
                  r.devices == st.devices
                  && (st.occupied < c.capacity ==>
                        r.occupied == st.occupied + 1 && r.rejects == st.rejects)
                  && (st.occupied >= c.capacity ==>
                        r.occupied == st.occupied && r.rejects == st.rejects + 1))
  {
    var f := FreeDevice(st.devices);
    if f < 0 {
      if st.occupied < c.capacity {
        WriteToLowestEmptySlot(c, st, s, draws);
      } else {
        EvictOnOverflow(c, st, s, draws);
      }
    }
  }

  // ---- packet selection ----

  /** select_request_from_buffer keeps a set packet while one of its requests is buffered and
      returns the lowest slot holding it; nothing else changes. */
  lemma PacketKept(c: Config, st: State)
    requires Wf(c, st) && st.packet != -1
    requires exists j :: 0 <= j < |st.bufSource| && st.bufSource[j] == st.packet
    ensures var (st1, i) := SelectRequest(st);
            && st1 == st
            && 0 <= i < |st.bufSource| && st.bufSource[i] == st.packet
            && forall j :: 0 <= j < i ==> st.bufSource[j] != st.packet
  {
  }

  /** With sources 0 and 1 only, a selection on a non-empty buffer always yields an occupied slot
      of the packet it settles on; the slot is never -1. */
  lemma SelectTwoSources(c: Config, st: State)
    requires Wf(c, st) && c.sourceCount <= 2
    ensures var (st1, i) := SelectRequest(st);
            && 0 <= i < |st.bufSource|
            && st.bufSource[i] == st1.packet
            && ((exists j :: 0 <= j < |st.bufSource| && st.bufSource[j] != -1) ==>
                  st.bufSource[i] != -1 && !st1.packetEmpty)
            && forall j :: 0 <= j < i ==> st.bufSource[j] != st1.packet
  {
    var b := st.bufSource;
    var st1 := if st.packet == -1 || st.packetEmpty then SelectNewPacket(st) else st;
    if FirstOf(b, st1.packet) < 0 {
      var p := NewPacket(b);
      if p == 1 {
        var j :| 0 <= j < |b| && b[j] != -1;
        assert b[j] == 1;
      }
      assert FirstOf(b, p) >= 0;
    }
  }

  /** On an empty buffer a selection returns slot 0, which is empty: the unset packet -1 matches
      the empty-slot mark. bas3_block never selects in that state, since it checks INDBUF first. */
  lemma SelectOnEmptyBuffer(c: Config, st: State)
    requires Wf(c, st) && forall j :: 0 <= j < |st.bufSource| ==> st.bufSource[j] == -1
    ensures SelectRequest(st).1 == 0 && st.bufSource[SelectRequest(st).1] == -1
    ensures SelectRequest(st).0.packet == -1
  {
    assert st.bufSource[0] == -1;
  }

  /** With three or more sources the packet choice only knows 0 and 1: when every buffered
      request comes from a source numbered 2 or more, no slot is selected, the buffer keeps its
      requests, and the released device goes idle with its old finish time. */
  lemma HighSourcesStarve(c: Config, st: State, d: nat, draws: nat -> real)
    requires Wf(c, st) && d < |st.devices|
    requires exists j :: 0 <= j < |st.bufSource| && st.bufSource[j] != -1
    requires forall j :: 0 <= j < |st.bufSource| ==> st.bufSource[j] == -1 || st.bufSource[j] >= 2
    ensures SelectRequest(st).1 == -1
    ensures var r := Bas3(c, st, d, draws);
            && !r.devices[d].busy && r.devices[d].occupant == None
            && r.devices[d].finish == st.devices[d].finish
            && r.bufSource == st.bufSource && r.occupied == st.occupied > 0
            && r.sources == st.sources
  {
    var b := st.bufSource;
    var j :| 0 <= j < |b| && b[j] != -1;
    assert NewPacket(b) == 1;
    assert forall p :: p == 0 || p == 1 ==> FirstOf(b, p) == -1;
    OccupiedZero(b);
    var st1 := Released(st, d);
    assert Wf(c, st1);
    assert SelectRequest(st1).1 == -1;
  }

  // ---- device release ----

  /** bas3_block on an empty buffer: the device goes idle with an infinite finish time and
      nothing else but the device changes. */
  lemma ReleaseToEmptyBuffer(c: Config, st: State, d: nat, draws: nat -> real)
    requires Wf(c, st) && d < |st.devices| && st.occupied == 0
    ensures Bas3(c, st, d, draws)
         == st.(devices := st.devices[d := st.devices[d].(busy := false, occupant := None, finish := Inf)])
    ensures var r := Bas3(c, st, d, draws);
            && !r.devices[d].busy && r.devices[d].occupant == None && r.devices[d].finish == Inf
            && r.devices[d].processed == st.devices[d].processed
            && (forall j :: 0 <= j < |st.devices| && j != d ==> r.devices[j] == st.devices[j])
            && r.bufSource == st.bufSource && r.sources == st.sources && r.drawn == st.drawn
  {
  }

  /** bas3_block on a non-empty buffer with sources 0 and 1: the device takes the request in
      slot i, the slot select_request_from_buffer returns once the device is released, i.e. the
      lowest slot of the packet it settles on. The device is busy with it until now plus the drawn
      service time, the slot is emptied, the request's wait (never negative) is added to its
      source's total and to TOG, and the processed counters of the device and of that source go
      up by one; no other device, no other source and not KOTK changes. */
  lemma ReleaseTakesRequest(c: Config, st: State, d: nat, draws: nat -> real) returns (i: nat)
    requires Inv(c, st) && d < |st.devices| && st.occupied > 0 && c.sourceCount <= 2
    ensures var sel := SelectRequest(Released(st, d));
            && i as int == sel.1 && i < |st.bufSource| && st.bufSource[i] == sel.0.packet
            && forall j :: 0 <= j < i ==> st.bufSource[j] != sel.0.packet
    ensures var r := Bas3(c, st, d, draws);
            var b := st.bufSource;
            && Wf(c, r) && i < |b| && b[i] != -1
            && 0.0 <= st.time - st.bufTime[i]
            && r.bufSource == b[i := -1] && r.bufTime == st.bufTime[i := 0.0]
            && r.occupied == st.occupied - 1
            && r.devices[d].busy && r.devices[d].occupant == Some(b[i] as nat)
            && r.devices[d].finish == Fin(st.time + draws(st.drawn))
            && r.devices[d].processed == st.devices[d].processed + 1
            && r.sources[b[i]].processed == st.sources[b[i]].processed + 1
            && r.sources[b[i]].totalWait == st.sources[b[i]].totalWait + (st.time - st.bufTime[i])
            && r.tog[b[i]] == st.tog[b[i]] + (st.time - st.bufTime[i])
            && r.rejects == st.rejects && r.drawn == st.drawn + 1
            && (forall j :: 0 <= j < |st.devices| && j != d ==> r.devices[j] == st.devices[j])
            && (forall k :: 0 <= k < |st.sources| && k != b[i] ==> r.sources[k] == st.sources[k])
  {
    var st2;
    i, st2 := ReleaseSelects(c, st, d, draws);
    OccupiedUpdate(st.bufSource, i, -1);
    Bas3Wf(c, st, d, draws);
    ServeEffect(c, st2, d, i, draws);
  }

  /** bas3_block on a non-empty buffer with sources 0 and 1 serves slot i of the state st2 that
      select_request_from_buffer leaves once device d is released: i is the lowest slot holding
      the packet it settles on, that slot is occupied, and st2 differs from st only in the
      packet, the notices and the released device's flags. */
  lemma ReleaseSelects(c: Config, st: State, d: nat, draws: nat -> real) returns (i: nat, st2: State)
    requires Wf(c, st) && d < |st.devices| && st.occupied > 0 && c.sourceCount <= 2
    ensures (st2, i as int) == SelectRequest(Released(st, d))
    ensures i < |st.bufSource| && st.bufSource[i] >= 0 && st.bufSource[i] == st2.packet
    ensures forall j :: 0 <= j < i ==> st.bufSource[j] != st2.packet
    ensures st2 == Released(st, d).(packet := st2.packet, packetEmpty := st2.packetEmpty,
                                    notices := st2.notices)
    ensures Wf(c, st2) && |st2.devices| == |st.devices|
    ensures st2.bufSource == st.bufSource && st2.bufTime == st.bufTime && st2.occupied == st.occupied
    ensures st2.sources == st.sources && st2.tog == st.tog && st2.time == st.time
    ensures st2.drawn == st.drawn && st2.devices[d].processed == st.devices[d].processed
    ensures st2.rejects == st.rejects
    ensures forall j :: 0 <= j < |st.devices| && j != d ==> st2.devices[j] == st.devices[j]
    ensures Bas3(c, st, d, draws) == Serve(c, st2, d, i, draws)
  {
    var b := st.bufSource;
    OccupiedZero(b);
    var st1 := Released(st, d);
    assert Wf(c, st1);
    SelectTwoSources(c, st1);
    SelectRequestFrame(c, st1);
    var sel := SelectRequest(st1);
    st2, i := sel.0, sel.1;
  }
}
