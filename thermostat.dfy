/**
 * SmartThermostat: a device with a power flag, a status text, a current
 * temperature fixed when it is built and a target temperature that can be
 * changed only while the device is powered.
 */
module Thermostat {

  import opened Capabilities
  import Conversions

  const InitialTemperature: real := 20.0
  const InitialTargetTemperature: real := 22.0

  const AdjustingPrefix: string := "Adjusting temperature to "

  /** The status setTemperature records: the prefix and the "%f" text of temp. */
  function TemperatureStatus(temp: real): string {
    AdjustingPrefix + Conversions.FixedText(temp)
  }

  /** The status text carries temp, readable back to within half a millionth. */
  lemma TemperatureStatusReadsBack(temp: real)
    ensures |TemperatureStatus(temp)| > |AdjustingPrefix|
    ensures TemperatureStatus(temp)[..|AdjustingPrefix|] == AdjustingPrefix
    ensures var reading := Conversions.ParseFixed(TemperatureStatus(temp)[|AdjustingPrefix|..]);
      reading.Some? && temp - 0.0000005 <= reading.value <= temp + 0.0000005
  {
    var s := TemperatureStatus(temp);
    assert s[|AdjustingPrefix|..] == Conversions.FixedText(temp);
    Conversions.FixedTextReadsBack(temp);
  }

  class SmartThermostat {
    var powerState: bool
    var status: string
    var temperature: real
    var targetTemperature: real

    /** No operation ever moves the current temperature off its initial value. */
    ghost predicate Valid()
      reads this
    {
      temperature == InitialTemperature
    }

    constructor ()
      ensures Valid()
      ensures powerState == InitialPowerState && status == InitialStatus
      ensures temperature == InitialTemperature && targetTemperature == InitialTargetTemperature
    {
      powerState := InitialPowerState;
      status := InitialStatus;
      temperature := InitialTemperature;
      targetTemperature := InitialTargetTemperature;
    }

    function IsPowered(): bool
      reads this
    {
      powerState
    }

    function GetStatus(): string
      reads this
    {
      status
    }

    function GetCurrentTemperature(): (t: real)
      reads this
      ensures Valid() ==> t == InitialTemperature
    {
      temperature
    }

    function GetTargetTemperature(): real
      reads this
    {
      targetTemperature
    }

    method TurnOn()
      requires Valid()
      modifies this
      ensures Valid()
      ensures IsPowered()
      ensures GetStatus() == old(GetStatus())
      ensures GetCurrentTemperature() == old(GetCurrentTemperature())
      ensures GetTargetTemperature() == old(GetTargetTemperature())
    {
      powerState := true;
    }

    method TurnOff()
      requires Valid()
      modifies this
      ensures Valid()
      ensures !IsPowered()
      ensures GetStatus() == old(GetStatus())
      ensures GetCurrentTemperature() == old(GetCurrentTemperature())
      ensures GetTargetTemperature() == old(GetTargetTemperature())
    {
      powerState := false;
    }

    /** Replaces the status in any power state; nothing else changes. */
    method UpdateStatus(newStatus: string)
      requires Valid()
      modifies this
      ensures Valid()
      ensures GetStatus() == newStatus
      ensures IsPowered() == old(IsPowered())
      ensures GetCurrentTemperature() == old(GetCurrentTemperature())
      ensures GetTargetTemperature() == old(GetTargetTemperature())
    {
      status := newStatus;
    }

    /**
     * While powered, sets the target and records TemperatureStatus(temp);
     * while off, changes nothing. `applied` tells which of the two happened
     * (the source prints "Cannot set temperature: ..." in the second case).
     */
    method SetTemperature(temp: real) returns (applied: bool)
      requires Valid()
      modifies this
      ensures Valid()
      ensures applied == old(IsPowered())
      ensures applied ==> GetTargetTemperature() == temp && GetStatus() == TemperatureStatus(temp)
      ensures applied ==> IsPowered() == old(IsPowered()) && GetCurrentTemperature() == old(GetCurrentTemperature())
      ensures !applied ==> unchanged(this)
    {
      if IsPowered() {
        targetTemperature := temp;
        UpdateStatus(TemperatureStatus(temp));
        applied := true;
      } else {
        applied := false;
      }
    }
  }
}
