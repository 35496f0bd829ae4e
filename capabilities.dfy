/**
 * The two capability interfaces, IControllable (power control) and
 * IMonitorable (status monitoring). Each contributes one protected field and
 * its initial value; the device classes hold these fields themselves and
 * start from the values given here.
 */
module Capabilities {

  /** IControllable's powerState starts switched off. */
  const InitialPowerState: bool := false

  /** IMonitorable's status starts as "Unknown". */
  const InitialStatus: string := "Unknown"
}
