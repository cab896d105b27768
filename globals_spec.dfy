/** The mutable part of WifiGlobals as a value, and what each setter does to it. */
module GlobalsSpec {
  import opened Overlay

  /** Upper bound on the poll interval computed from the overlay default. */
  const MaxPollRssiIntervalMsecs: Int32 := 6000

  /** Value stored in the poll-interval field when no override has been set. */
  const PollRssiIntervalUnset: Int32 := -1

  /** The three fields the setters update. */
  datatype State = State(
    pollRssiIntervalMillis: Int32,
    ipReachabilityDisconnectEnabled: bool,
    bluetoothConnected: bool)

  /** The state of a freshly constructed instance. */
  const Initial: State := State(PollRssiIntervalUnset, true, false)

  /** One call of a state-changing method, with its argument. */
  datatype Op =
    | SetPollRssiIntervalMillis(millis: Int32)
    | SetIpReachabilityDisconnectEnabled(enabled: bool)
    | SetBluetoothEnabled(isEnabled: bool)
    | SetBluetoothConnected(isConnected: bool)

  /** The state after one call. */
  function Step(s: State, op: Op): State {
    match op
    case SetPollRssiIntervalMillis(v) => s.(pollRssiIntervalMillis := v)
    case SetIpReachabilityDisconnectEnabled(e) => s.(ipReachabilityDisconnectEnabled := e)
    case SetBluetoothEnabled(e) => if !e then s.(bluetoothConnected := false) else s
    case SetBluetoothConnected(c) => s.(bluetoothConnected := c)
  }

  /** The poll interval the getter reports: a positive stored override as it is,
      otherwise the overlay default capped at MaxPollRssiIntervalMsecs. */
  function EffectivePollInterval(stored: Int32, configured: Int32): (r: Int32)
    ensures stored > 0 ==> r == stored
    ensures stored <= 0 ==> r <= MaxPollRssiIntervalMsecs && r <= configured
    ensures stored <= 0 ==> r == configured || r == MaxPollRssiIntervalMsecs
  {
    if stored > 0 then stored else Min(configured, MaxPollRssiIntervalMsecs)
  }

  /** Java's Math.min on two ints. */
  function Min(a: Int32, b: Int32): (r: Int32)
    ensures r <= a && r <= b
    ensures r == a || r == b
  {
    if a <= b then a else b
  }

  /** Does this call assign the Bluetooth-connected flag, directly or by the cascade? */
  predicate WritesBluetoothConnected(op: Op) {
    op.SetBluetoothConnected? || op == SetBluetoothEnabled(false)
  }

  /** The value such a call leaves in the Bluetooth-connected flag. */
  function BluetoothConnectedWritten(op: Op): bool
    requires WritesBluetoothConnected(op)
  {
    op.SetBluetoothConnected? && op.isConnected
  }

  /** Disabling Bluetooth clears the connected flag whatever it held, and nothing else changes. */
  lemma BluetoothDisableClearsConnected(s: State)
    ensures !Step(s, SetBluetoothEnabled(false)).bluetoothConnected
    ensures Step(s, SetBluetoothEnabled(false)) == s.(bluetoothConnected := false)
  {
  }

  /** Enabling Bluetooth changes nothing. */
  lemma BluetoothEnableIsNoOp(s: State)
    ensures Step(s, SetBluetoothEnabled(true)) == s
  {
  }

  /** Setting a positive override and reading back yields that override, whatever the overlay says. */
  lemma PollOverrideRoundTrip(s: State, v: Int32, configured: Int32)
    requires v > 0
    ensures EffectivePollInterval(Step(s, SetPollRssiIntervalMillis(v)).pollRssiIntervalMillis, configured) == v
  {
  }

  /** Setting zero or a negative value falls back to the capped overlay default. */
  lemma PollResetRoundTrip(s: State, v: Int32, configured: Int32)
    requires v <= 0
    ensures EffectivePollInterval(Step(s, SetPollRssiIntervalMillis(v)).pollRssiIntervalMillis, configured)
            == Min(configured, MaxPollRssiIntervalMsecs)
  {
  }
}
