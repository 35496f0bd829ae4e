# Smart devices with two capability interfaces — a Dafny model

The program is a demonstration of multiple interface inheritance in C++.
Two abstract interfaces, `IControllable` (power control) and `IMonitorable`
(status monitoring), each hold one protected field: a power flag that starts
`false` and a status text that starts `"Unknown"`. Two device classes
implement both:

- `SmartThermostat` adds a current temperature (20.0, never changed) and a
  target temperature (22.0 at first) that `setTemperature` changes only while
  the device is on, recording the status `"Adjusting temperature to "`
  followed by the temperature as `std::to_string` prints a `double`.
- `SmartLight` adds a brightness. `turnOn` sets it to 100 and `turnOff` sets
  it to 0. `setBrightness` stores a level only when the light is on and the
  level is in [0, 100], and then records `"Brightness set to <level>%"`.
  Otherwise it only prints an advisory line.
- `main` runs one fixed scenario. It builds both devices, switches them on,
  sets their statuses, sets 24.5 degrees and 75 % brightness, switches every
  device off through an array of `IControllable*`, then prints every status
  through an array of `IMonitorable*`.

The Dafny project has five modules:

- `Capabilities` (`capabilities.dfy`) holds the interfaces' initial values.
- `Thermostat` (`thermostat.dfy`) is a class with the source's four fields.
- `Light` (`light.dfy`) is a class with the source's three fields.
- `Demo` (`demo.dfy`) is the scenario. A `Device` datatype with dispatching
  members stands in for the base-class pointers.
- `Conversions` (`conversions.dfy`) models the two `std::to_string`
  overloads the status texts use. Each has a reader for the text and a
  round-trip lemma.

Each mutating method states its whole new state through the query functions
`IsPowered`, `GetStatus`, `GetBrightness`, `GetCurrentTemperature` and
`GetTargetTemperature`. The "nothing changes" branches say
`unchanged(this)`. Each class has an object invariant `Valid()`:

- For the light, brightness stays in [0, 100] and an unpowered light has
  brightness 0. That second part holds because every path that clears the
  power flag also zeroes the brightness, and only a powered light accepts a
  new level.
- For the thermostat, the current temperature stays 20.0.

`setBrightness` and `setTemperature` return nothing in the source. They print
a different line depending on their branch. In the model they return that
branch as a value: a `BrightnessOutcome`, or a `bool` for the thermostat.

## Model

| member | source | states |
|---|---|---|
| `Thermostat.SmartThermostat.constructor` | multiple-inheritance-example.cpp:34-40 | a new thermostat is off, has status "Unknown", current temperature 20.0 and target 22.0, and satisfies its invariant |
| `Thermostat.SmartThermostat.GetCurrentTemperature` | multiple-inheritance-example.cpp:77-79 | on a valid thermostat the current temperature read is always the initial 20.0 |
| `Thermostat.SmartThermostat.TurnOn` | multiple-inheritance-example.cpp:43-46 | afterwards the thermostat is powered; status, current and target temperature are unchanged |
| `Thermostat.SmartThermostat.TurnOff` | multiple-inheritance-example.cpp:48-51 | afterwards the thermostat is unpowered; status, current and target temperature are unchanged |
| `Thermostat.SmartThermostat.UpdateStatus` | multiple-inheritance-example.cpp:62-65 | in either power state, getStatus afterwards returns exactly the new text; power and both temperatures are unchanged |
| `Thermostat.SmartThermostat.SetTemperature` | multiple-inheritance-example.cpp:68-75 | takes effect exactly when powered: then the target is temp and the status is the adjusting text for temp; when off nothing changes; the current temperature never changes |
| `Thermostat.TemperatureStatusReadsBack` | multiple-inheritance-example.cpp:71 | the status setTemperature records is the fixed prefix followed by a text that reads back to temp within half a millionth |
| `Light.SmartLight.constructor` | multiple-inheritance-example.cpp:87-92 | a new light is off, has status "Unknown" and brightness 0, and satisfies its invariant |
| `Light.SmartLight.IsPowered` | multiple-inheritance-example.cpp:107-109 | on a valid light, reading "off" implies brightness 0 |
| `Light.SmartLight.GetBrightness` | multiple-inheritance-example.cpp:133-135 | on a valid light the brightness read lies in [0, 100] |
| `Light.SmartLight.TurnOn` | multiple-inheritance-example.cpp:95-99 | afterwards the light is powered with brightness 100, status unchanged, invariant established |
| `Light.SmartLight.TurnOff` | multiple-inheritance-example.cpp:101-105 | afterwards the light is unpowered with brightness 0, status unchanged, invariant established |
| `Light.SmartLight.UpdateStatus` | multiple-inheritance-example.cpp:116-119 | in either power state, getStatus afterwards returns exactly the new text; power and brightness are unchanged; the invariant is kept |
| `Light.SmartLight.SetBrightness` | multiple-inheritance-example.cpp:122-131 | the branch taken is the guard's verdict on the old power flag and the level; if applied, brightness is the level, status is "Brightness set to <level>%", power unchanged; in both other branches nothing changes; the invariant is kept |
| `Light.BrightnessGuard` | multiple-inheritance-example.cpp:123-129 | the three branches are exclusive and exhaustive: applied iff powered and 0 <= level <= 100, powered-off iff unpowered, invalid iff powered and level out of range |
| `Light.BrightnessStatusInjective` | multiple-inheritance-example.cpp:125 | two levels that leave the same brightness status are equal |
| `Conversions.NatText` | multiple-inheritance-example.cpp:125 | the decimal text of a natural number is a non-empty string of digits whose first digit is 0 only for zero (no leading zeros) |
| `Conversions.NatTextValue` | multiple-inheritance-example.cpp:125 | the decimal text of n denotes n |
| `Conversions.IntText` | multiple-inheritance-example.cpp:125 | std::to_string(int) is non-empty and starts with '-' exactly for negative numbers |
| `Conversions.IntTextRoundTrip` | multiple-inheritance-example.cpp:125 | reading back the text of any integer yields that integer |
| `Conversions.IntTextInjective` | multiple-inheritance-example.cpp:125 | distinct integers have distinct texts |
| `Conversions.PadDigits` | multiple-inheritance-example.cpp:71 | the six-digit fraction part has exactly the requested width and only digits |
| `Conversions.PadDigitsValue` | multiple-inheritance-example.cpp:71 | the zero-padded digits denote the number they were made from |
| `Conversions.RoundHalfEven` | multiple-inheritance-example.cpp:71 | the rounded value is within one half of its argument, and a tie goes to the even integer |
| `Conversions.UnsignedFixedTextValue` | multiple-inheritance-example.cpp:71 | the fixed-point text of a scaled magnitude m reads back to m / 1000000 |
| `Conversions.FixedTextReadsBack` | multiple-inheritance-example.cpp:71 | std::to_string(double) reads back to its argument within half of the sixth decimal, and starts with '-' exactly for negative arguments |
| `Demo.TurnOffDevice` | multiple-inheritance-example.cpp:156-158 | turnOff through the power-control view switches the device off, keeps its status and invariant, keeps a thermostat's target and zeroes a light's brightness |
| `Demo.PrepareDevices` | multiple-inheritance-example.cpp:140-153 | after construction, power-on, status updates, setTemperature(24.5) and setBrightness(75): both on, target 24.5, brightness 75, statuses set by the two setters |
| `Demo.TurnOffAll` | multiple-inheritance-example.cpp:156-159 | the loop over distinct devices leaves every one of them off, with status and thermostat target unchanged |
| `Demo.ReportStatuses` | multiple-inheritance-example.cpp:161-164 | the loop over the monitoring view reports each device's status, in array order |
| `Demo.ScenarioTexts` | multiple-inheritance-example.cpp:71 | the two status texts of the scenario are "Adjusting temperature to 24.500000" and "Brightness set to 75%" |
| `Demo.Scenario` | multiple-inheritance-example.cpp:138-167 | at the end both devices are off, the light's brightness is 0 and its status "Brightness set to 75%", the thermostat's target is 24.5 and its status "Adjusting temperature to 24.500000", and the two statuses are reported in that order |

## Left out

- Console output (every `std::cout` line, including the advisory messages and the final "Device status:" lines) is not produced. The model returns which advisory branch ran, and `Demo.ReportStatuses` returns the statuses the last loop would print.
- Floating point: temperatures are `real`. Every finite `double` is a real, so `Conversions.FixedText` rounds the exact value to six decimals with ties to even, as glibc's `%f` does in the default rounding mode. Negative zero, infinities and NaN have no `real` counterpart. `-0.0` would print as "-0.000000" but is modelled as `0.0`.
- Virtual destructors, the pure-virtual declarations and the subobject layout of multiple inheritance are not modelled. Dafny traits are not used. Each class holds the interface fields itself, starting from the values in `Capabilities`. The base-class pointer arrays in `main` are sequences of a `Device` datatype whose members dispatch on the variant.
- The getters `IsPowered`, `GetStatus` and `GetTargetTemperature` of the thermostat, and `GetStatus` of the light, carry no contract of their own. They are the observation functions that the method contracts are stated in.
- The thermostat's `setTemperature` takes any `real`. The light's `setBrightness` takes a 32-bit `int` (`Conversions.Int32`). No arithmetic is done on either, so no overflow can arise.
- The repository holds a second copy of the program that differs only by a namespace-import directive. That copy is not part of this model.
