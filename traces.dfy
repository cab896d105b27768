/** Any history of setter calls, and what each field holds after it: the value of the last call
    that wrote that field, or the starting value when no call did. */
module Traces {
  import opened Overlay
  import opened GlobalsSpec

  /** The state after the calls in `ops`, first to last. */
  function Run(s: State, ops: seq<Op>): State
    decreases |ops|
  {
    if ops == [] then s else Run(Step(s, ops[0]), ops[1..])
  }

  /** Running one more call at the end is one more Step. */
  lemma {:induction false} RunSnoc(s: State, ops: seq<Op>, op: Op)
    ensures Run(s, ops + [op]) == Step(Run(s, ops), op)
    decreases |ops|
  {
    if ops == [] {
      assert ops + [op] == [op];
    } else {
      assert (ops + [op])[0] == ops[0];
      assert (ops + [op])[1..] == ops[1..] + [op];
      RunSnoc(Step(s, ops[0]), ops[1..], op);
    }
  }

  /** The stored poll interval is the argument of the last setPollRssiIntervalMillis, unvalidated. */
  lemma {:induction false} RunPollLastWrite(s: State, ops: seq<Op>, i: nat)
    requires i < |ops| && ops[i].SetPollRssiIntervalMillis?
    requires forall j :: i < j < |ops| ==> !ops[j].SetPollRssiIntervalMillis?
    ensures Run(s, ops).pollRssiIntervalMillis == ops[i].millis
    decreases |ops|
  {
    var n := |ops|;
    var init := ops[..n - 1];
    assert ops == init + [ops[n - 1]];
    RunSnoc(s, init, ops[n - 1]);
    if i < n - 1 {
      RunPollLastWrite(s, init, i);
    }
  }

  /** Without a setPollRssiIntervalMillis call the stored poll interval keeps its value. */
  lemma {:induction false} RunPollNoWrite(s: State, ops: seq<Op>)
    requires forall j :: 0 <= j < |ops| ==> !ops[j].SetPollRssiIntervalMillis?
    ensures Run(s, ops).pollRssiIntervalMillis == s.pollRssiIntervalMillis
    decreases |ops|
  {
    if ops != [] {
      var n := |ops|;
      var init := ops[..n - 1];
      assert ops == init + [ops[n - 1]];
      RunSnoc(s, init, ops[n - 1]);
      RunPollNoWrite(s, init);
    }
  }

  /** The IP-reachability-disconnect flag is the argument of the last call that set it. */
  lemma {:induction false} RunIpReachabilityLastWrite(s: State, ops: seq<Op>, i: nat)
    requires i < |ops| && ops[i].SetIpReachabilityDisconnectEnabled?
    requires forall j :: i < j < |ops| ==> !ops[j].SetIpReachabilityDisconnectEnabled?
    ensures Run(s, ops).ipReachabilityDisconnectEnabled == ops[i].enabled
    decreases |ops|
  {
    var n := |ops|;
    var init := ops[..n - 1];
    assert ops == init + [ops[n - 1]];
    RunSnoc(s, init, ops[n - 1]);
    if i < n - 1 {
      RunIpReachabilityLastWrite(s, init, i);
    }
  }

  /** Without a call that sets it, the IP-reachability-disconnect flag keeps its value. */
  lemma {:induction false} RunIpReachabilityNoWrite(s: State, ops: seq<Op>)
    requires forall j :: 0 <= j < |ops| ==> !ops[j].SetIpReachabilityDisconnectEnabled?
    ensures Run(s, ops).ipReachabilityDisconnectEnabled == s.ipReachabilityDisconnectEnabled
    decreases |ops|
  {
    if ops != [] {
      var n := |ops|;
      var init := ops[..n - 1];
      assert ops == init + [ops[n - 1]];
      RunSnoc(s, init, ops[n - 1]);
      RunIpReachabilityNoWrite(s, init);
    }
  }

  /** The Bluetooth-connected flag is what the last setBluetoothConnected or
      setBluetoothEnabled(false) left in it; setBluetoothEnabled(true) never counts. */
  lemma {:induction false} RunBluetoothLastWrite(s: State, ops: seq<Op>, i: nat)
    requires i < |ops| && WritesBluetoothConnected(ops[i])
    requires forall j :: i < j < |ops| ==> !WritesBluetoothConnected(ops[j])
    ensures Run(s, ops).bluetoothConnected == BluetoothConnectedWritten(ops[i])
    decreases |ops|
  {
    var n := |ops|;
    var init := ops[..n - 1];
    assert ops == init + [ops[n - 1]];
    RunSnoc(s, init, ops[n - 1]);
    if i < n - 1 {
      RunBluetoothLastWrite(s, init, i);
    }
  }

  /** Without such a call the Bluetooth-connected flag keeps its value. */
  lemma {:induction false} RunBluetoothNoWrite(s: State, ops: seq<Op>)
    requires forall j :: 0 <= j < |ops| ==> !WritesBluetoothConnected(ops[j])
    ensures Run(s, ops).bluetoothConnected == s.bluetoothConnected
    decreases |ops|
  {
    if ops != [] {
      var n := |ops|;
      var init := ops[..n - 1];
      assert ops == init + [ops[n - 1]];
      RunSnoc(s, init, ops[n - 1]);
      RunBluetoothNoWrite(s, init);
    }
  }

  /** After any history that starts with no override in place, the reported poll interval is
      the last value setPollRssiIntervalMillis stored when that value is positive, and the capped
      overlay default when it is not or when no call stored one. */
  lemma {:induction false} RunEffectivePoll(s: State, ops: seq<Op>, configured: Int32)
    requires s.pollRssiIntervalMillis <= 0
    ensures forall i | LastPollWriteAt(ops, i) && ops[i].millis > 0 ::
              EffectivePollInterval(Run(s, ops).pollRssiIntervalMillis, configured) == ops[i].millis
    ensures (forall i | LastPollWriteAt(ops, i) :: ops[i].millis <= 0) ==>
              EffectivePollInterval(Run(s, ops).pollRssiIntervalMillis, configured)
              == Min(configured, MaxPollRssiIntervalMsecs)
  {
    if i :| LastPollWriteAt(ops, i) {
      RunPollLastWrite(s, ops, i);
      forall i' | LastPollWriteAt(ops, i') ensures i' == i {
        LastPollWriteUnique(ops, i, i');
      }
    } else {
      if j :| 0 <= j < |ops| && ops[j].SetPollRssiIntervalMillis? {
        var k := LastPollWriteFrom(ops, j);
        assert false;
      }
      RunPollNoWrite(s, ops);
    }
  }

  /** There is at most one last setPollRssiIntervalMillis call. */
  lemma LastPollWriteUnique(ops: seq<Op>, i: int, i': int)
    requires LastPollWriteAt(ops, i) && LastPollWriteAt(ops, i')
    ensures i == i'
  {
  }

  /** `i` is the index of the last setPollRssiIntervalMillis call in `ops`. */
  predicate LastPollWriteAt(ops: seq<Op>, i: int) {
    0 <= i < |ops| && ops[i].SetPollRssiIntervalMillis? &&
    forall j :: i < j < |ops| ==> !ops[j].SetPollRssiIntervalMillis?
  }

  /** The last setPollRssiIntervalMillis call at or after index `j`, which holds one. */
  function LastPollWriteFrom(ops: seq<Op>, j: nat): (k: nat)
    requires j < |ops| && ops[j].SetPollRssiIntervalMillis?
    ensures j <= k && LastPollWriteAt(ops, k)
    decreases |ops| - j
  {
    if exists m :: j < m < |ops| && ops[m].SetPollRssiIntervalMillis? then
      var m :| j < m < |ops| && ops[m].SetPollRssiIntervalMillis?;
      LastPollWriteFrom(ops, m)
    else
      j
  }
}
