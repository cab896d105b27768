/** Global Wi-Fi service state that lives in memory only: three runtime settings that callers
    update, and five feature flags read from the overlay once, when the object is built. */
module Wifi {
  import opened Overlay
  import opened GlobalsSpec

  class WifiGlobals {
    var pollRssiIntervalMillis: Int32
    var ipReachabilityDisconnectEnabled: bool
    var bluetoothConnected: bool

    // Read from the overlay at construction and cached for the life of the object.
    const wpa3SaeUpgradeEnabled: bool
    const wpa3SaeUpgradeOffloadEnabled: bool
    const oweUpgradeEnabled: bool
    const wpa3EnterpriseUpgradeEnabled: bool
    const flushAnqpCacheOnWifiToggleOffEventEnabled: bool

    /** The mutable fields as a value. */
    ghost function Snapshot(): State
      reads this
    {
      State(pollRssiIntervalMillis, ipReachabilityDisconnectEnabled, bluetoothConnected)
    }

    /** Builds the object from the overlay as it is at boot. */
    constructor (res: Resources)
      ensures Snapshot() == Initial
      ensures pollRssiIntervalMillis == PollRssiIntervalUnset
      ensures ipReachabilityDisconnectEnabled && !bluetoothConnected
      ensures wpa3SaeUpgradeEnabled == res.saeUpgradeEnabled
      ensures wpa3SaeUpgradeOffloadEnabled == res.saeUpgradeOffloadEnabled
      ensures oweUpgradeEnabled == res.oweUpgradeEnabled
      ensures wpa3EnterpriseUpgradeEnabled == res.wpa3EnterpriseUpgradeEnabled
      ensures flushAnqpCacheOnWifiToggleOffEventEnabled == res.flushAnqpCacheOnWifiToggleOffEvent
    {
      pollRssiIntervalMillis := PollRssiIntervalUnset;
      ipReachabilityDisconnectEnabled := true;
      bluetoothConnected := false;
      wpa3SaeUpgradeEnabled := res.saeUpgradeEnabled;
      wpa3SaeUpgradeOffloadEnabled := res.saeUpgradeOffloadEnabled;
      oweUpgradeEnabled := res.oweUpgradeEnabled;
      wpa3EnterpriseUpgradeEnabled := res.wpa3EnterpriseUpgradeEnabled;
      flushAnqpCacheOnWifiToggleOffEventEnabled := res.flushAnqpCacheOnWifiToggleOffEvent;
    }

    /** The interval between RSSI polls; `res` is the overlay as it is at the time of the call. */
    method GetPollRssiIntervalMillis(res: Resources) returns (r: Int32)
      ensures r == EffectivePollInterval(pollRssiIntervalMillis, res.pollRssiIntervalMilliseconds)
      ensures pollRssiIntervalMillis > 0 ==> r == pollRssiIntervalMillis
      ensures pollRssiIntervalMillis <= 0 ==> r <= MaxPollRssiIntervalMsecs
    {
      var interval := pollRssiIntervalMillis;
      if interval > 0 {
        r := interval;
      } else {
        r := Min(res.pollRssiIntervalMilliseconds, MaxPollRssiIntervalMsecs);
      }
    }

    /** Stores the interval as given; zero or a negative value restores the overlay default. */
    method SetPollRssiIntervalMillis(newPollIntervalMillis: Int32)
      modifies this
      ensures Snapshot() == Step(old(Snapshot()), Op.SetPollRssiIntervalMillis(newPollIntervalMillis))
      ensures pollRssiIntervalMillis == newPollIntervalMillis
      ensures ipReachabilityDisconnectEnabled == old(ipReachabilityDisconnectEnabled)
      ensures bluetoothConnected == old(bluetoothConnected)
    {
      pollRssiIntervalMillis := newPollIntervalMillis;
    }

    /** Whether losing IP reachability should trigger a disconnect. */
    method GetIpReachabilityDisconnectEnabled() returns (enabled: bool)
      ensures enabled == ipReachabilityDisconnectEnabled
    {
      enabled := ipReachabilityDisconnectEnabled;
    }

    method SetIpReachabilityDisconnectEnabled(enabled: bool)
      modifies this
      ensures Snapshot() == Step(old(Snapshot()), Op.SetIpReachabilityDisconnectEnabled(enabled))
      ensures ipReachabilityDisconnectEnabled == enabled
      ensures pollRssiIntervalMillis == old(pollRssiIntervalMillis)
      ensures bluetoothConnected == old(bluetoothConnected)
    {
      ipReachabilityDisconnectEnabled := enabled;
    }

    /** Bluetooth being turned off while connected sends no disconnect notice, so turning it off
        clears the connected flag; turning it on does not mean a connection exists. */
    method SetBluetoothEnabled(isEnabled: bool)
      modifies this
      ensures Snapshot() == Step(old(Snapshot()), Op.SetBluetoothEnabled(isEnabled))
      ensures !isEnabled ==> !bluetoothConnected
      ensures isEnabled ==> bluetoothConnected == old(bluetoothConnected)
      ensures pollRssiIntervalMillis == old(pollRssiIntervalMillis)
      ensures ipReachabilityDisconnectEnabled == old(ipReachabilityDisconnectEnabled)
    {
      if !isEnabled {
        bluetoothConnected := false;
      }
    }

    method SetBluetoothConnected(isConnected: bool)
      modifies this
      ensures Snapshot() == Step(old(Snapshot()), Op.SetBluetoothConnected(isConnected))
      ensures bluetoothConnected == isConnected
      ensures pollRssiIntervalMillis == old(pollRssiIntervalMillis)
      ensures ipReachabilityDisconnectEnabled == old(ipReachabilityDisconnectEnabled)
    {
      bluetoothConnected := isConnected;
    }

    method IsBluetoothConnected() returns (connected: bool)
      ensures connected == bluetoothConnected
    {
      connected := bluetoothConnected;
    }

    /** Connected MAC randomization support, read from the overlay `res` as it is now, never cached. */
    method IsConnectedMacRandomizationEnabled(res: Resources) returns (supported: bool)
      ensures supported == res.connectedMacRandomizationSupported
    {
      supported := res.connectedMacRandomizationSupported;
    }

    method IsWpa3SaeUpgradeEnabled() returns (enabled: bool)
      ensures enabled == wpa3SaeUpgradeEnabled
    {
      enabled := wpa3SaeUpgradeEnabled;
    }

    method IsWpa3SaeUpgradeOffloadEnabled() returns (enabled: bool)
      ensures enabled == wpa3SaeUpgradeOffloadEnabled
    {
      enabled := wpa3SaeUpgradeOffloadEnabled;
    }

    method IsOweUpgradeEnabled() returns (enabled: bool)
      ensures enabled == oweUpgradeEnabled
    {
      enabled := oweUpgradeEnabled;
    }

    method IsWpa3EnterpriseUpgradeEnabled() returns (enabled: bool)
      ensures enabled == wpa3EnterpriseUpgradeEnabled
    {
      enabled := wpa3EnterpriseUpgradeEnabled;
    }

    method FlushAnqpCacheOnWifiToggleOffEvent() returns (flush: bool)
      ensures flush == flushAnqpCacheOnWifiToggleOffEventEnabled
    {
      flush := flushAnqpCacheOnWifiToggleOffEventEnabled;
    }
  }

  /** The cached flags report the overlay at boot even after the overlay changes, while
      connected MAC randomization follows the overlay of the moment; no setter touches either. */
  method CachedFlagsIgnoreLaterOverlay(boot: Resources, now: Resources, v: Int32)
    returns (sae: bool, saeOffload: bool, owe: bool, wpa3Enterprise: bool, flushAnqp: bool, macRandomization: bool)
    ensures sae == boot.saeUpgradeEnabled && saeOffload == boot.saeUpgradeOffloadEnabled
    ensures owe == boot.oweUpgradeEnabled && wpa3Enterprise == boot.wpa3EnterpriseUpgradeEnabled
    ensures flushAnqp == boot.flushAnqpCacheOnWifiToggleOffEvent
    ensures macRandomization == now.connectedMacRandomizationSupported
  {
    var globals := new WifiGlobals(boot);
    globals.SetPollRssiIntervalMillis(v);
    globals.SetIpReachabilityDisconnectEnabled(false);
    globals.SetBluetoothConnected(true);
    globals.SetBluetoothEnabled(false);
    sae := globals.IsWpa3SaeUpgradeEnabled();
    saeOffload := globals.IsWpa3SaeUpgradeOffloadEnabled();
    owe := globals.IsOweUpgradeEnabled();
    wpa3Enterprise := globals.IsWpa3EnterpriseUpgradeEnabled();
    flushAnqp := globals.FlushAnqpCacheOnWifiToggleOffEvent();
    macRandomization := globals.IsConnectedMacRandomizationEnabled(now);
  }

  /** A fresh object reports the capped overlay default, disconnect-on-reachability-loss on,
      and Bluetooth not connected. */
  method FreshDefaults(res: Resources) returns (interval: Int32, ipDisconnect: bool, btConnected: bool)
    ensures interval == Min(res.pollRssiIntervalMilliseconds, MaxPollRssiIntervalMsecs)
    ensures ipDisconnect && !btConnected
  {
    var globals := new WifiGlobals(res);
    interval := globals.GetPollRssiIntervalMillis(res);
    ipDisconnect := globals.GetIpReachabilityDisconnectEnabled();
    btConnected := globals.IsBluetoothConnected();
  }

  /** Set then get on the poll interval: a positive value comes back as it is, anything else
      yields the capped overlay default of the moment, which never exceeds 6000. */
  method PollIntervalSetThenGet(globals: WifiGlobals, v: Int32, res: Resources) returns (r: Int32)
    modifies globals
    ensures v > 0 ==> r == v
    ensures v <= 0 ==> r == Min(res.pollRssiIntervalMilliseconds, MaxPollRssiIntervalMsecs)
    ensures v <= 0 ==> r <= MaxPollRssiIntervalMsecs
  {
    globals.SetPollRssiIntervalMillis(v);
    r := globals.GetPollRssiIntervalMillis(res);
  }

  /** Connecting, then enabling Bluetooth, keeps the connection; disabling it clears it. */
  method BluetoothCascade(globals: WifiGlobals)
    returns (afterConnect: bool, afterEnable: bool, afterDisable: bool)
    modifies globals
    ensures afterConnect && afterEnable && !afterDisable
  {
    globals.SetBluetoothConnected(true);
    afterConnect := globals.IsBluetoothConnected();
    globals.SetBluetoothEnabled(true);
    afterEnable := globals.IsBluetoothConnected();
    globals.SetBluetoothEnabled(false);
    afterDisable := globals.IsBluetoothConnected();
  }
}
