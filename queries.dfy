/** The read-only queries of SMOSystem: scans over the buffer and the device list, the victim
    choice for eviction, the packet choice, and the next-event choice of boos_block. */
module Queries {
  import opened Types

  /** Lowest slot whose BUFN entry is `p`, or -1 when there is none (the scans of
      bms12_block for an empty slot and of select_request_from_buffer for the packet). */
  function FirstOf(b: seq<int>, p: int): (r: int)
    ensures -1 <= r < |b|
    ensures r >= 0 ==> b[r] == p && forall j :: 0 <= j < r ==> b[j] != p
    ensures r == -1 <==> forall j :: 0 <= j < |b| ==> b[j] != p
  {
    if |b| == 0 then -1
    else if b[0] == p then 0
    else
      var k := FirstOf(b[1..], p);
      assert forall j :: 1 <= j < |b| ==> b[j] == b[1..][j - 1];
      if k == -1 then -1 else k + 1
  }

  /** Packet chosen by select_new_packet: source 0 when a source-0 request is buffered,
      otherwise 1 when anything is buffered, otherwise -1. */
  function NewPacket(b: seq<int>): (p: int)
    ensures p == -1 || p == 0 || p == 1
    ensures p == -1 <==> forall i :: 0 <= i < |b| ==> b[i] == -1
    ensures p == 0 <==> exists i :: 0 <= i < |b| && b[i] == 0
    ensures p == 1 <==> (exists i :: 0 <= i < |b| && b[i] != -1) && forall i :: 0 <= i < |b| ==> b[i] != 0
  {
    var available := set i | 0 <= i < |b| && b[i] != -1 :: b[i];
    assert forall i :: 0 <= i < |b| && b[i] != -1 ==> b[i] in available;
    if available != {} then
      if 0 in available then 0 else 1
    else -1
  }

  /** The eviction order of find_victim_for_rejection: slot i sorts strictly before slot j
      under the key (source id + 1, arrival time). */
  predicate KeyLess(b: seq<int>, t: seq<real>, i: nat, j: nat)
    requires i < |b| && j < |b| && |t| == |b|
  {
    b[i] + 1 < b[j] + 1 || (b[i] + 1 == b[j] + 1 && t[i] < t[j])
  }

  /** The first occupied slot among the first n whose key is minimal, or -1 when those
      slots are all empty: the head of the stable sort over the candidates. */
  function BestCandidate(b: seq<int>, t: seq<real>, n: nat): (k: int)
    requires |t| == |b| && n <= |b|
    ensures -1 <= k < n
    ensures k == -1 <==> forall j :: 0 <= j < n ==> b[j] == -1
    ensures k >= 0 ==> b[k] != -1
    ensures k >= 0 ==> forall j :: 0 <= j < n && b[j] != -1 ==> !KeyLess(b, t, j, k)
    ensures k >= 0 ==> forall j :: 0 <= j < k && b[j] != -1 ==> KeyLess(b, t, k, j)
  {
    if n == 0 then -1
    else
      var k := BestCandidate(b, t, n - 1);
      if b[n - 1] == -1 then k
      else if k == -1 || KeyLess(b, t, n - 1, k) then n - 1
      else k
  }

  /** Slot evicted on overflow: the occupied slot with the smallest (source id, arrival time),
      the lowest index among equal keys; slot 0 when nothing is buffered. */
  function Victim(b: seq<int>, t: seq<real>): (v: nat)
    requires |t| == |b| >= 1
    ensures v < |b|
    ensures (forall j :: 0 <= j < |b| ==> b[j] == -1) ==> v == 0
    ensures (exists j :: 0 <= j < |b| && b[j] != -1) ==>
              b[v] != -1
              && (forall j :: 0 <= j < |b| && b[j] != -1 ==> !KeyLess(b, t, j, v))
              && (forall j :: 0 <= j < v && b[j] != -1 ==> KeyLess(b, t, v, j))
  {
    var k := BestCandidate(b, t, |b|);
    if k == -1 then 0 else k
  }

  /** Lowest-indexed idle device, or -1 when every device is busy (find_free_device). */
  function FreeDevice(ds: seq<Device>): (r: int)
    ensures -1 <= r < |ds|
    ensures r >= 0 ==> !ds[r].busy && forall j :: 0 <= j < r ==> ds[j].busy
    ensures r == -1 <==> forall j :: 0 <= j < |ds| ==> ds[j].busy
  {
    if |ds| == 0 then -1
    else if !ds[0].busy then 0
    else
      var k := FreeDevice(ds[1..]);
      assert forall j :: 1 <= j < |ds| ==> ds[j] == ds[1..][j - 1];
      if k == -1 then -1 else k + 1
  }

  /** Position of the first smallest time: the left-to-right scan that replaces its candidate
      only on a strictly smaller value. */
  function FirstMin(ts: seq<Time>): (k: nat)
    requires |ts| > 0
    ensures k < |ts|
    ensures forall j :: 0 <= j < |ts| ==> Le(ts[k], ts[j])
    ensures forall j :: 0 <= j < k ==> Lt(ts[k], ts[j])
  {
    if |ts| == 1 then 0
    else
      var n := |ts| - 1;
      var k := FirstMin(ts[..n]);
      assert forall j :: 0 <= j < n ==> ts[j] == ts[..n][j];
      if Lt(ts[n], ts[k]) then n else k
  }

  function Arrivals(ss: seq<Source>): (ts: seq<Time>)
    ensures |ts| == |ss|
  {
    seq(|ss|, i requires 0 <= i < |ss| => Fin(ss[i].nextArrival))
  }

  function Finishes(ds: seq<Device>): (ts: seq<Time>)
    ensures |ts| == |ds|
  {
    seq(|ds|, j requires 0 <= j < |ds| => ds[j].finish)
  }

  /** Device released by a completion event (find_device_to_free): the lowest-indexed device
      with the smallest finish time; device 0 when all of them are idle (all times infinite). */
  function DeviceToFree(ds: seq<Device>): (d: nat)
    requires |ds| > 0
    ensures d < |ds|
    ensures forall j :: 0 <= j < |ds| ==> Le(ds[d].finish, ds[j].finish)
    ensures forall j :: 0 <= j < d ==> Lt(ds[d].finish, ds[j].finish)
    ensures (forall j :: 0 <= j < |ds| ==> ds[j].finish == Inf) ==> d == 0
  {
    var d := FirstMin(Finishes(ds));
    assert forall j :: 0 <= j < |ds| ==> Finishes(ds)[j] == ds[j].finish;
    assert d > 0 ==> Lt(ds[d].finish, ds[0].finish);
    d
  }

  /** Next event (boos_block): k + 1 for an arrival at source k, |ss| + 1 for a completion.
      An arrival is chosen when the earliest arrival is no later than the earliest finish
      (arrivals win ties), and among simultaneous arrivals the lowest source id wins. */
  function Boos(ss: seq<Source>, ds: seq<Device>): (e: nat)
    requires |ss| > 0
    ensures 1 <= e <= |ss| + 1
    ensures e <= |ss| ==>
              (forall i :: 0 <= i < |ss| ==> ss[e - 1].nextArrival <= ss[i].nextArrival)
              && (forall i :: 0 <= i < e - 1 ==> ss[e - 1].nextArrival < ss[i].nextArrival)
              && (forall j :: 0 <= j < |ds| ==> Le(Fin(ss[e - 1].nextArrival), ds[j].finish))
    ensures e == |ss| + 1 ==>
              |ds| > 0
              && ds[DeviceToFree(ds)].finish.Fin?
              && forall i :: 0 <= i < |ss| ==> ds[DeviceToFree(ds)].finish.t < ss[i].nextArrival
  {
    var a := FirstMin(Arrivals(ss));
    assert forall i :: 0 <= i < |ss| ==> Arrivals(ss)[i] == Fin(ss[i].nextArrival);
    var nextDeviceFree := if |ds| == 0 then Inf else ds[DeviceToFree(ds)].finish;
    if Le(Fin(ss[a].nextArrival), nextDeviceFree) then a + 1 else |ss| + 1
  }
}
