/** `ShellyGen2Thing::onSetProperties`: one relay of the device is set for each call, in turn. */
module Shelly {
  import opened ModArith

  /** The device's relays and the phase whose turn it is; each request is taken to be applied. */
  datatype Device = Device(relays: seq<bool>, phaseToSet: nat)

  function Set(d: Device, states: seq<bool>): Device
    requires d.phaseToSet < |states| == |d.relays|
  {
    Device(d.relays[d.phaseToSet := states[d.phaseToSet]], (d.phaseToSet + 1) % |states|)
  }

  class ShellyGen2Thing {
    var phaseToSet: nat

    constructor ()
      ensures phaseToSet == 0
    {
      phaseToSet := 0;
    }

    /** Returns the request that is fired: which switch, on or off. */
    method OnSetProperties(states: seq<bool>) returns (id: nat, on: bool)
      requires phaseToSet < |states|
      modifies this
      ensures id == old(phaseToSet) && on == states[id]
      ensures forall relays :: |relays| == |states| ==>
                Set(Device(relays, old(phaseToSet)), states) == Device(relays[id := on], phaseToSet)
      ensures phaseToSet < |states|
    {
      id, on := phaseToSet, states[phaseToSet];
      phaseToSet := (phaseToSet + 1) % |states|;
    }
  }

  ghost predicate Fitting(d: Device, calls: seq<seq<bool>>) {
    d.phaseToSet < |d.relays| && forall k :: 0 <= k < |calls| ==> |calls[k]| == |d.relays|
  }

  function SetAll(d: Device, calls: seq<seq<bool>>): (r: Device)
    requires Fitting(d, calls)
    ensures |r.relays| == |d.relays| && r.phaseToSet < |r.relays|
  {
    if calls == [] then d else Set(SetAll(d, calls[..|calls| - 1]), calls[|calls| - 1])
  }

  /** The relay set by call `k`. */
  function Target(d: Device, k: nat): nat
    requires d.phaseToSet < |d.relays|
  {
    Turn(d.phaseToSet + k, |d.relays|)
  }

  lemma {:induction false} NextTarget(d: Device, calls: seq<seq<bool>>)
    requires Fitting(d, calls)
    ensures SetAll(d, calls).phaseToSet == Target(d, |calls|)
  {
    var n := |d.relays|;
    if calls == [] {
      ModUnique(d.phaseToSet, n, 0, d.phaseToSet);
    } else {
      NextTarget(d, calls[..|calls| - 1]);
      TurnSucc(d.phaseToSet + |calls| - 1, n);
    }
  }

  /** The last of the last n calls that sets relay `j`. */
  lemma {:induction false} LastSetter(d: Device, m: nat, j: nat) returns (k: nat)
    requires d.phaseToSet < |d.relays| <= m && j < |d.relays|
    ensures m - |d.relays| <= k < m && Target(d, k) == j
  {
    hide Turn;
    var n := |d.relays|;
    k := m - n;
    if Target(d, k) != j {
      var r := Target(d, k);
      var steps := if j > r then j - r else n - r + j;
      Advance(d.phaseToSet + k, n, steps);
      k := k + steps;
    }
  }

  lemma {:induction false} Advance(a: nat, n: nat, steps: nat)
    requires n > 0 && steps < n
    ensures Turn(a + steps, n) == if Turn(a, n) + steps < n then Turn(a, n) + steps else Turn(a, n) + steps - n
  {
    hide Turn;
    if steps > 0 {
      Advance(a, n, steps - 1);
      TurnSucc(a + steps - 1, n);
    }
  }

  /** Once n calls have been made, each relay holds what one of the last n calls commanded for it. */
  lemma {:induction false} RelayFollows(d: Device, calls: seq<seq<bool>>, k: nat)
    requires Fitting(d, calls) && k < |calls| && |calls| - |d.relays| <= k
    ensures SetAll(d, calls).relays[Target(d, k)] == calls[k][Target(d, k)]
  {
    hide Turn;
    var m := |calls| - 1;
    NextTarget(d, calls[..m]);
    if k < m {
      RelayFollows(d, calls[..m], k);
      TurnsDistinct(d.phaseToSet + k, d.phaseToSet + m, |d.relays|);
    }
  }

  lemma RelayHoldsRecent(d: Device, calls: seq<seq<bool>>, j: nat) returns (k: nat)
    requires Fitting(d, calls) && |calls| >= |d.relays| && j < |d.relays|
    ensures |calls| - |d.relays| <= k < |calls| && SetAll(d, calls).relays[j] == calls[k][j]
  {
    k := LastSetter(d, |calls|, j);
    RelayFollows(d, calls, k);
  }

  /** From any pointer and any relay state, n calls with the same vector leave every relay equal to it. */
  lemma Converges(d: Device, before: seq<seq<bool>>, states: seq<bool>, calls: seq<seq<bool>>)
    requires |calls| == |d.relays| && forall k :: 0 <= k < |calls| ==> calls[k] == states
    requires Fitting(d, before + calls)
    ensures SetAll(d, before + calls).relays == states
  {
    var all := before + calls;
    if calls != [] {
      assert all[|before|] == states;
    }
    forall j | 0 <= j < |d.relays| ensures SetAll(d, all).relays[j] == states[j] {
      var k := RelayHoldsRecent(d, all, j);
      assert all[k] == calls[k - |before|];
    }
  }
}
