/** Counting: sums of counters and the number of occupied buffer slots. */
module Tally {
  import opened Types

  function Sum(xs: seq<nat>): nat {
    if xs == [] then 0 else Sum(xs[..|xs| - 1]) + xs[|xs| - 1]
  }

  /** Replacing one summand changes the sum by the difference. */
  lemma {:induction false} SumUpdate(xs: seq<nat>, i: nat, v: nat)
    requires i < |xs|
    ensures Sum(xs[i := v]) == Sum(xs) - xs[i] + v
  {
    var n := |xs| - 1;
    if i < n {
      assert xs[i := v][..n] == xs[..n][i := v];
      SumUpdate(xs[..n], i, v);
    } else {
      assert xs[i := v][..n] == xs[..n];
    }
  }

  function Generated(ss: seq<Source>): seq<nat> {
    seq(|ss|, i requires 0 <= i < |ss| => ss[i].generated)
  }

  function Processed(ss: seq<Source>): seq<nat> {
    seq(|ss|, i requires 0 <= i < |ss| => ss[i].processed)
  }

  function Rejected(ss: seq<Source>): seq<nat> {
    seq(|ss|, i requires 0 <= i < |ss| => ss[i].rejected)
  }

  function Served(ds: seq<Device>): seq<nat> {
    seq(|ds|, j requires 0 <= j < |ds| => ds[j].processed)
  }

  /** Replacing one source record moves each source total by that record's difference. */
  lemma SourceSums(ss: seq<Source>, i: nat, s: Source)
    requires i < |ss|
    ensures Sum(Generated(ss[i := s])) == Sum(Generated(ss)) - ss[i].generated + s.generated
    ensures Sum(Processed(ss[i := s])) == Sum(Processed(ss)) - ss[i].processed + s.processed
    ensures Sum(Rejected(ss[i := s])) == Sum(Rejected(ss)) - ss[i].rejected + s.rejected
  {
    assert Generated(ss[i := s]) == Generated(ss)[i := s.generated];
    assert Processed(ss[i := s]) == Processed(ss)[i := s.processed];
    assert Rejected(ss[i := s]) == Rejected(ss)[i := s.rejected];
    SumUpdate(Generated(ss), i, s.generated);
    SumUpdate(Processed(ss), i, s.processed);
    SumUpdate(Rejected(ss), i, s.rejected);
  }

  /** Replacing one device record moves the device total by that record's difference. */
  lemma DeviceSums(ds: seq<Device>, j: nat, d: Device)
    requires j < |ds|
    ensures Sum(Served(ds[j := d])) == Sum(Served(ds)) - ds[j].processed + d.processed
  {
    assert Served(ds[j := d]) == Served(ds)[j := d.processed];
    SumUpdate(Served(ds), j, d.processed);
  }

  /** A sum of zero counters is zero. */
  lemma {:induction false} SumZero(xs: seq<nat>)
    requires forall i :: 0 <= i < |xs| ==> xs[i] == 0
    ensures Sum(xs) == 0
  {
    if xs != [] {
      SumZero(xs[..|xs| - 1]);
    }
  }

  /** Number of slots of a BUFN array that hold a request (entry other than -1). */
  function Occupied(b: seq<int>): (n: nat)
    ensures n <= |b|
  {
    if b == [] then 0 else (if b[0] != -1 then 1 else 0) + Occupied(b[1..])
  }

  /** Writing one slot changes the count by what left and what arrived. */
  lemma {:induction false} OccupiedUpdate(b: seq<int>, i: nat, v: int)
    requires i < |b|
    ensures Occupied(b[i := v]) == Occupied(b) - (if b[i] != -1 then 1 else 0) + (if v != -1 then 1 else 0)
  {
    if i == 0 {
      assert b[i := v][1..] == b[1..];
    } else {
      assert b[i := v][1..] == b[1..][i - 1 := v];
      OccupiedUpdate(b[1..], i - 1, v);
    }
  }

  /** The count is zero exactly when every slot is empty. */
  lemma {:induction false} OccupiedZero(b: seq<int>)
    ensures Occupied(b) == 0 <==> forall i :: 0 <= i < |b| ==> b[i] == -1
  {
    if b != [] {
      OccupiedZero(b[1..]);
      assert forall i :: 1 <= i < |b| ==> b[i] == b[1..][i - 1];
    }
  }

  /** The count equals the length exactly when no slot is empty. */
  lemma {:induction false} OccupiedFull(b: seq<int>)
    ensures Occupied(b) == |b| <==> forall i :: 0 <= i < |b| ==> b[i] != -1
  {
    if b != [] {
      OccupiedFull(b[1..]);
      assert forall i :: 1 <= i < |b| ==> b[i] == b[1..][i - 1];
    }
  }
}
