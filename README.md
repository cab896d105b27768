# WifiGlobals

A model of `WifiGlobals`, the Android Wi-Fi service's holder of in-memory, non-persisted settings.
The object keeps three runtime settings that other parts of the service update:

- the RSSI poll-interval override, where -1 means "unset";
- whether losing IP reachability should cause a disconnect;
- whether Bluetooth is connected.

It also keeps five feature flags. These are read from the device overlay once, at construction:

- WPA3-SAE upgrade;
- WPA3-SAE upgrade offload;
- OWE upgrade;
- WPA3-Enterprise upgrade;
- flushing the ANQP cache when Wi-Fi is toggled off.

Two values are read from the overlay on every call instead:

- the default poll interval, capped at 6000 ms;
- connected-MAC-randomization support.

Files:

- `overlay.dfy` (module `Overlay`): the overlay resources as one immutable value `Resources`, and Java's `int` as the newtype `Int32`.
- `globals_spec.dfy` (module `GlobalsSpec`): the three mutable fields as a value `State`, each state-changing call as an `Op`, the transition `Step`, and the poll-interval rule `EffectivePollInterval`.
- `traces.dfy` (module `Traces`): `Run` applies any sequence of calls. Lemmas prove that after any history each mutable field holds what the last call that wrote it stored. For the Bluetooth flag that includes the clearing cascade of `setBluetoothEnabled(false)`.
- `wifi_globals.dfy` (module `Wifi`): the class `WifiGlobals` itself.
  - Its three mutable fields are `var`s.
  - Its five boot-time flags are `const`s, so no method can change them.
  - Each setter's postcondition states its whole new state and equates it with `Step`. Any sequence of setter calls therefore moves `Snapshot()` as `Traces.Run` does.
  - Four client methods state set-then-get and cascade scenarios over the public API.

The overlay lookups go through an Android `Context`. Each one is replaced by a `Resources` argument:

- the constructor takes the overlay as it is at boot;
- `GetPollRssiIntervalMillis` and `IsConnectedMacRandomizationEnabled` take the overlay as it is at the time of the call.

Nothing is cached for those two.

`setPollRssiIntervalMillis` stores any `int` without validation (`WifiGlobals.java:87-89`), and the getter treats every value ≤ 0 as "unset". The model stores any `Int32`; `Traces.RunPollLastWrite` states that the stored value is exactly the last argument.

## Model

| member | source | states |
|---|---|---|
| `Wifi.WifiGlobals.constructor` | service/java/com/android/server/wifi/WifiGlobals.java:44-71 | a new object has override -1, IP-reachability disconnect on and Bluetooth not connected; the five cached flags equal the boot overlay's values |
| `Wifi.WifiGlobals.GetPollRssiIntervalMillis` | service/java/com/android/server/wifi/WifiGlobals.java:74-84 | returns a positive stored override exactly; otherwise the result is at most 6000 and equals the rule `EffectivePollInterval` applied to the current overlay default |
| `GlobalsSpec.EffectivePollInterval` | service/java/com/android/server/wifi/WifiGlobals.java:74-84 | a positive stored value is the result; for a stored value ≤ 0 the result is at most 6000, at most the overlay default, and equal to one of the two |
| `GlobalsSpec.Min` | service/java/com/android/server/wifi/WifiGlobals.java:79-82 | `Math.min`: the result is at most both arguments and equals one of them |
| `Wifi.WifiGlobals.SetPollRssiIntervalMillis` | service/java/com/android/server/wifi/WifiGlobals.java:87-89 | stores the argument unvalidated; the other two fields are unchanged |
| `Wifi.WifiGlobals.GetIpReachabilityDisconnectEnabled` | service/java/com/android/server/wifi/WifiGlobals.java:92-94 | returns the stored IP-reachability-disconnect flag |
| `Wifi.WifiGlobals.SetIpReachabilityDisconnectEnabled` | service/java/com/android/server/wifi/WifiGlobals.java:97-99 | stores the flag; the other two fields are unchanged |
| `Wifi.WifiGlobals.SetBluetoothEnabled` | service/java/com/android/server/wifi/WifiGlobals.java:102-109 | disabling clears the connected flag whatever it was; enabling changes nothing; the other fields are never touched |
| `Wifi.WifiGlobals.SetBluetoothConnected` | service/java/com/android/server/wifi/WifiGlobals.java:112-114 | stores the connected flag; the other two fields are unchanged |
| `Wifi.WifiGlobals.IsBluetoothConnected` | service/java/com/android/server/wifi/WifiGlobals.java:117-119 | returns the stored connected flag |
| `Wifi.WifiGlobals.IsConnectedMacRandomizationEnabled` | service/java/com/android/server/wifi/WifiGlobals.java:127-130 | returns the value in the overlay passed at the time of the call, not a cached one |
| `Wifi.WifiGlobals.IsWpa3SaeUpgradeEnabled` | service/java/com/android/server/wifi/WifiGlobals.java:137-139 | returns the cached flag, which the constructor took from the boot overlay and no method can change |
| `Wifi.WifiGlobals.IsWpa3SaeUpgradeOffloadEnabled` | service/java/com/android/server/wifi/WifiGlobals.java:146-148 | returns the cached flag, fixed at construction |
| `Wifi.WifiGlobals.IsOweUpgradeEnabled` | service/java/com/android/server/wifi/WifiGlobals.java:155-157 | returns the cached flag, fixed at construction |
| `Wifi.WifiGlobals.IsWpa3EnterpriseUpgradeEnabled` | service/java/com/android/server/wifi/WifiGlobals.java:164-166 | returns the cached flag, fixed at construction |
| `Wifi.WifiGlobals.FlushAnqpCacheOnWifiToggleOffEvent` | service/java/com/android/server/wifi/WifiGlobals.java:173-175 | returns the cached flag, fixed at construction |
| `GlobalsSpec.BluetoothDisableClearsConnected` | service/java/com/android/server/wifi/WifiGlobals.java:102-108 | after disabling Bluetooth the connected flag is false, and only that flag may have changed |
| `GlobalsSpec.BluetoothEnableIsNoOp` | service/java/com/android/server/wifi/WifiGlobals.java:102-109 | enabling Bluetooth leaves the whole state unchanged, including the connected flag |
| `GlobalsSpec.PollOverrideRoundTrip` | service/java/com/android/server/wifi/WifiGlobals.java:74-89 | after setting a positive override, the reported interval is that override, whatever the overlay default |
| `GlobalsSpec.PollResetRoundTrip` | service/java/com/android/server/wifi/WifiGlobals.java:74-89 | after setting 0 or a negative value, the reported interval is `min(overlay default, 6000)` |
| `Traces.RunPollLastWrite` | service/java/com/android/server/wifi/WifiGlobals.java:87-89 | after any history, the stored poll interval is the argument of the last `setPollRssiIntervalMillis` call |
| `Traces.RunPollNoWrite` | service/java/com/android/server/wifi/WifiGlobals.java:87-89 | a history with no `setPollRssiIntervalMillis` call leaves the stored poll interval as it was |
| `Traces.RunIpReachabilityLastWrite` | service/java/com/android/server/wifi/WifiGlobals.java:97-99 | after any history, the IP-reachability-disconnect flag is the argument of the last call that set it |
| `Traces.RunIpReachabilityNoWrite` | service/java/com/android/server/wifi/WifiGlobals.java:97-99 | a history with no such call leaves the flag as it was |
| `Traces.RunBluetoothLastWrite` | service/java/com/android/server/wifi/WifiGlobals.java:102-114 | after any history, the connected flag is what the last `setBluetoothConnected` or `setBluetoothEnabled(false)` left in it; `setBluetoothEnabled(true)` never affects it |
| `Traces.RunBluetoothNoWrite` | service/java/com/android/server/wifi/WifiGlobals.java:102-114 | a history with neither call leaves the connected flag as it was |
| `Traces.RunEffectivePoll` | service/java/com/android/server/wifi/WifiGlobals.java:74-89 | from a state with no override in place, after any history: the reported interval is the last value stored if that value is positive; otherwise, or if no value was stored, it is `min(overlay default, 6000)` |
| `Wifi.CachedFlagsIgnoreLaterOverlay` | service/java/com/android/server/wifi/WifiGlobals.java:127-175 | after construction, one call of each setter and a changed overlay, the five cached getters report the boot overlay; MAC randomization reports the current overlay (that no setter can change the cached flags at all follows from their `const` declarations) |
| `Wifi.FreshDefaults` | service/java/com/android/server/wifi/WifiGlobals.java:44-46 | a fresh object reports the capped overlay default interval, IP-reachability disconnect on, and Bluetooth not connected |
| `Wifi.PollIntervalSetThenGet` | service/java/com/android/server/wifi/WifiGlobals.java:74-89 | set then get on the poll interval: a positive value comes back exactly; anything else yields `min(overlay default, 6000)`, which is never above 6000 |
| `Wifi.BluetoothCascade` | service/java/com/android/server/wifi/WifiGlobals.java:102-119 | connect, then enable Bluetooth: still connected; then disable: not connected |

## Left out

- `dump` (`WifiGlobals.java:178-188`): text output to a `PrintWriter` for diagnostics. It prints a header and eight fields (not the 6000 ms cap), only reads the fields, and has no machine-readable contract.
- `AtomicInteger` / `AtomicBoolean` and `@ThreadSafe`: each field is an ordinary field of a sequential class. The model has no interleavings. The brief window in which a concurrent reader can still see "connected" during `setBluetoothEnabled(false)` is therefore not represented.
- `Context`, `getResources()` and the `R.*` resource keys: the Android framework is not part of this model. The overlay is the `Resources` value passed in. A construction that fails because resources cannot be resolved is not modelled, since the failure is raised by the framework and not handled here.
- The `mContext` field: it is replaced by the `Resources` arguments described above.
