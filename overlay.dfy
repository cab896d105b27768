/** The device overlay that WifiGlobals reads its boot-time and per-call settings from.
    In the system these are Android resources resolved through a Context; here they are
    one immutable value handed to whoever reads them. */
module Overlay {

  /** A Java `int`: the type of the poll interval and of its overlay default. */
  newtype Int32 = x: int | -0x8000_0000 <= x < 0x8000_0000

  /** The overlay values WifiGlobals consults, one field per resource key. */
  datatype Resources = Resources(
    saeUpgradeEnabled: bool,                    // config_wifiSaeUpgradeEnabled
    saeUpgradeOffloadEnabled: bool,             // config_wifiSaeUpgradeOffloadEnabled
    oweUpgradeEnabled: bool,                    // config_wifiOweUpgradeEnabled
    wpa3EnterpriseUpgradeEnabled: bool,         // config_wifiWpa3EnterpriseUpgradeEnabled
    flushAnqpCacheOnWifiToggleOffEvent: bool,   // config_wifiFlushAnqpCacheOnWifiToggleOffEvent
    pollRssiIntervalMilliseconds: Int32,        // config_wifiPollRssiIntervalMilliseconds
    connectedMacRandomizationSupported: bool)   // config_wifi_connected_mac_randomization_supported
}
