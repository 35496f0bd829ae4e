/**
 * The program's main routine: build one thermostat and one light, switch
 * both on, give each a status, set a temperature and a brightness, switch
 * every device off through the power-control view, then read every device's
 * status through the monitoring view.
 */
module Demo {

  import Conversions
  import opened Thermostat
  import opened Light

  /**
   * A device seen through one of its capability interfaces; the source
   * keeps such views in arrays of IControllable* and IMonitorable*.
   */
  datatype Device = ThermostatDevice(thermostat: SmartThermostat) | LightDevice(light: SmartLight) {

    function Object(): object {
      match this
      case ThermostatDevice(t) => t
      case LightDevice(l) => l
    }

    ghost predicate Valid()
      reads Object()
    {
      match this
      case ThermostatDevice(t) => t.Valid()
      case LightDevice(l) => l.Valid()
    }

    /** IControllable::isPowered, dispatched on the variant. */
    function IsPowered(): bool
      reads Object()
    {
      match this
      case ThermostatDevice(t) => t.IsPowered()
      case LightDevice(l) => l.IsPowered()
    }

    /** IMonitorable::getStatus, dispatched on the variant. */
    function GetStatus(): string
      reads Object()
    {
      match this
      case ThermostatDevice(t) => t.GetStatus()
      case LightDevice(l) => l.GetStatus()
    }
  }

  /** IControllable::turnOff, dispatched on the variant. */
  method TurnOffDevice(d: Device)
    requires d.Valid()
    modifies d.Object()
    ensures d.Valid() && !d.IsPowered()
    ensures d.GetStatus() == old(d.GetStatus())
    ensures d.ThermostatDevice? ==> d.thermostat.GetTargetTemperature() == old(d.thermostat.GetTargetTemperature())
    ensures d.LightDevice? ==> d.light.GetBrightness() == MinBrightness
  {
    match d
    case ThermostatDevice(t) => t.TurnOff();
    case LightDevice(l) => l.TurnOff();
  }

  /** Lines 140-153 of main: build both devices, switch them on and configure them. */
  method PrepareDevices() returns (thermostat: SmartThermostat, light: SmartLight)
    ensures fresh(thermostat) && fresh(light)
    ensures thermostat.Valid() && light.Valid()
    ensures thermostat.IsPowered() && light.IsPowered()
    ensures thermostat.GetTargetTemperature() == 24.5
    ensures thermostat.GetStatus() == TemperatureStatus(24.5)
    ensures light.GetBrightness() == 75
    ensures light.GetStatus() == BrightnessStatus(75)
  {
    thermostat := new SmartThermostat();
    light := new SmartLight();

    thermostat.TurnOn();
    light.TurnOn();

    thermostat.UpdateStatus("Operating normally");
    light.UpdateStatus("Full brightness");

    var applied := thermostat.SetTemperature(24.5);
    var outcome := light.SetBrightness(75);
  }

  /** The loop over the IControllable* array: every device ends switched off. */
  method TurnOffAll(devices: seq<Device>)
    requires forall j :: 0 <= j < |devices| ==> devices[j].Valid()
    requires forall j, k :: 0 <= j < k < |devices| ==> devices[j].Object() != devices[k].Object()
    modifies set d | d in devices :: d.Object()
    ensures forall j :: 0 <= j < |devices| ==> devices[j].Valid() && !devices[j].IsPowered()
    ensures forall j :: 0 <= j < |devices| ==> devices[j].GetStatus() == old(devices[j].GetStatus())
    ensures forall j :: 0 <= j < |devices| && devices[j].ThermostatDevice? ==>
      devices[j].thermostat.GetTargetTemperature() == old(devices[j].thermostat.GetTargetTemperature())
  {
    for i := 0 to |devices|
      invariant forall j :: 0 <= j < |devices| ==> devices[j].Valid()
      invariant forall j :: 0 <= j < i ==> !devices[j].IsPowered()
      invariant forall j :: 0 <= j < |devices| ==> devices[j].GetStatus() == old(devices[j].GetStatus())
      invariant forall j :: 0 <= j < |devices| && devices[j].ThermostatDevice? ==>
        devices[j].thermostat.GetTargetTemperature() == old(devices[j].thermostat.GetTargetTemperature())
    {
      TurnOffDevice(devices[i]);
    }
  }

  /** The loop over the IMonitorable* array: the statuses it prints, in order. */
  method ReportStatuses(devices: seq<Device>) returns (reported: seq<string>)
    ensures |reported| == |devices|
    ensures forall j :: 0 <= j < |devices| ==> reported[j] == devices[j].GetStatus()
  {
    reported := [];
    for i := 0 to |devices|
      invariant |reported| == i
      invariant forall j :: 0 <= j < i ==> reported[j] == devices[j].GetStatus()
    {
      reported := reported + [devices[i].GetStatus()];
    }
  }

  /**
   * The whole fixed scenario. `reported` is the sequence of statuses the
   * final loop prints, one per device, in array order.
   */
  method Scenario() returns (thermostat: SmartThermostat, light: SmartLight, reported: seq<string>)
    ensures thermostat.Valid() && light.Valid()
    ensures !thermostat.IsPowered() && !light.IsPowered()
    ensures thermostat.GetCurrentTemperature() == 20.0
    ensures thermostat.GetTargetTemperature() == 24.5
    ensures thermostat.GetStatus() == "Adjusting temperature to 24.500000"
    ensures light.GetBrightness() == 0
    ensures light.GetStatus() == "Brightness set to 75%"
    ensures reported == [thermostat.GetStatus(), light.GetStatus()]
  {
    thermostat, light := PrepareDevices();
    var devices := [ThermostatDevice(thermostat), LightDevice(light)];
    assert devices[0].Object() == thermostat && devices[1].Object() == light;
    assert (set d | d in devices :: d.Object()) == {thermostat, light};
    TurnOffAll(devices);
    assert !devices[0].IsPowered() && !devices[1].IsPowered();
    reported := ReportStatuses(devices);
    ScenarioTexts();
  }

  /** The two status texts the scenario produces, spelled out. */
  lemma ScenarioTexts()
    ensures TemperatureStatus(24.5) == "Adjusting temperature to 24.500000"
    ensures BrightnessStatus(75) == "Brightness set to 75%"
  {
    assert Conversions.RoundHalfEven(24500000.0) == 24500000;
    assert Conversions.NatText(24) == "24";
    assert Conversions.PadDigits(500000, 6) == "500000";
    assert Conversions.NatText(75) == "75";
  }
}
