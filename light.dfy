/**
 * SmartLight: a device with a power flag, a status text and a brightness in
 * [0, 100] that power-on sets to full, power-off sets to zero, and
 * setBrightness changes only while powered and only to a level in range.
 */
module Light {

  import opened Capabilities
  import Conversions

  const MinBrightness: int := 0
  const MaxBrightness: int := 100
  const InitialBrightness: int := 0

  /** Which branch setBrightness takes, in the source's order of tests. */
  datatype BrightnessOutcome =
    | Applied       // powered and 0 <= level <= 100: the level is stored
    | PoweredOff    // "Cannot set brightness: device is powered off"
    | InvalidLevel  // "Invalid brightness level"

  function BrightnessGuard(powered: bool, level: int): (r: BrightnessOutcome)
    ensures r == Applied <==> powered && MinBrightness <= level <= MaxBrightness
    ensures r == PoweredOff <==> !powered
    ensures r == InvalidLevel <==> powered && (level < MinBrightness || level > MaxBrightness)
  {
    if powered && level >= MinBrightness && level <= MaxBrightness then Applied
    else if !powered then PoweredOff
    else InvalidLevel
  }

  const BrightnessPrefix: string := "Brightness set to "

  /** The status setBrightness records: "Brightness set to <level>%". */
  function BrightnessStatus(level: int): string {
    BrightnessPrefix + Conversions.IntText(level) + "%"
  }

  /** Different levels leave different status texts. */
  lemma BrightnessStatusInjective(a: int, b: int)
    ensures BrightnessStatus(a) == BrightnessStatus(b) ==> a == b
  {
    if BrightnessStatus(a) == BrightnessStatus(b) {
      var sa, sb := BrightnessStatus(a), BrightnessStatus(b);
      assert sa[|BrightnessPrefix|..|sa| - 1] == Conversions.IntText(a);
      assert sb[|BrightnessPrefix|..|sb| - 1] == Conversions.IntText(b);
      Conversions.IntTextInjective(a, b);
    }
  }

  class SmartLight {
    var powerState: bool
    var status: string
    var brightness: int

    /**
     * Brightness stays in range, and an unpowered light is dark: every
     * operation that clears the power flag also zeroes the brightness, and
     * only a powered light accepts a new level.
     */
    ghost predicate Valid()
      reads this
    {
      MinBrightness <= brightness <= MaxBrightness && (!powerState ==> brightness == 0)
    }

    constructor ()
      ensures Valid()
      ensures powerState == InitialPowerState && status == InitialStatus
      ensures brightness == InitialBrightness
    {
      powerState := InitialPowerState;
      status := InitialStatus;
      brightness := InitialBrightness;
    }

    function IsPowered(): (on: bool)
      reads this
      ensures Valid() && !on ==> GetBrightness() == 0
    {
      powerState
    }

    function GetStatus(): string
      reads this
    {
      status
    }

    function GetBrightness(): (level: int)
      reads this
      ensures Valid() ==> MinBrightness <= level <= MaxBrightness
    {
      brightness
    }

    method TurnOn()
      modifies this
      ensures Valid()
      ensures IsPowered() && GetBrightness() == MaxBrightness
      ensures GetStatus() == old(GetStatus())
    {
      powerState := true;
      brightness := MaxBrightness;
    }

    method TurnOff()
      modifies this
      ensures Valid()
      ensures !IsPowered() && GetBrightness() == MinBrightness
      ensures GetStatus() == old(GetStatus())
    {
      powerState := false;
      brightness := MinBrightness;
    }

    /** Replaces the status in any power state; nothing else changes. */
    method UpdateStatus(newStatus: string)
      requires Valid()
      modifies this
      ensures Valid()
      ensures GetStatus() == newStatus
      ensures IsPowered() == old(IsPowered()) && GetBrightness() == old(GetBrightness())
    {
      status := newStatus;
    }

    /**
     * Stores an in-range level and records BrightnessStatus(level) when
     * powered; otherwise changes nothing. `outcome` tells which of the three
     * branches ran (the source prints an advisory line in the last two).
     */
    method SetBrightness(level: Conversions.Int32) returns (outcome: BrightnessOutcome)
      requires Valid()
      modifies this
      ensures Valid()
      ensures outcome == BrightnessGuard(old(IsPowered()), level)
      ensures outcome == Applied ==> GetBrightness() == level && GetStatus() == BrightnessStatus(level)
      ensures outcome == Applied ==> IsPowered() == old(IsPowered())
      ensures outcome != Applied ==> unchanged(this)
    {
      if IsPowered() && level >= MinBrightness && level <= MaxBrightness {
        brightness := level;
        UpdateStatus(BrightnessStatus(level));
        outcome := Applied;
      } else if !IsPowered() {
        outcome := PoweredOff;
      } else {
        outcome := InvalidLevel;
      }
    }
  }
}
