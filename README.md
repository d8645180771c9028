# ESP32 course exercises: a Dafny model

This project models the computational core of a set of ESP32 firmware exercises
and states and proves what each of them does:

- **BCD conversion** (`Ejercicio4_proy1`, its template, `Ejercicios3_proy1`'s
  template and `Ejercicio6_proy1`): a 32-bit number becomes its `digits`
  low-order decimal digits, most significant first. The spec is `Bcd.Digits`.
  Proved about it:
  - read-back gives `data mod 10^digits`, and the read-back round-trips in both directions;
  - the positions left of the number are zero, and the last position is the units digit.
- **The printed form** of a BCD array (`printBcdArray`): each digit is printed
  as four bits and a space, and each digit can be read back from its four
  characters.
- **GPIO bit mapping** (`setGpioFromBcd`) and the **multiplexed 3-digit
  display** (`Inicializar`, `MostrarDisplay`). The GPIO driver is a
  `GpioBank` object: a level map, a direction map and a log of every write.
  Its invariant is that the levels are the writes applied in order. The
  methods are proved to append exactly the writes the loops make. From those
  writes the end state follows:
  - data pin `j` holds bit `j` of the units digit;
  - every select pin is off;
  - bits 4..7 never reach a pin.
- **`control_led`** (both variants): the resulting LED state, the parity of
  TOGGLE, and the delays issued. The delays are a log of millisecond arguments.
  Their total is `n_ciclos * periodo`. In the variant with 100 ms steps, the
  total is `periodo` rounded down to a multiple of 100 per cycle.
- **Periodic tasks**: one pass of each task body is one method of a class
  holding the task's globals and the board state it drives (LEDs, display
  writes, UART messages, delays). The key and serial callbacks are methods of
  the same class. This covers:
  - the three distance meters, sharing the 10/20/30 cm classifier `Board.DistanceLeds`;
  - the GSR sensor;
  - the bicycle alarm (`Examen`);
  - the truck scale velocity task (`Recuperatorio`);
  - the ECG playback ring index (`Osciloscopio`). Pass `n` outputs sample `n mod 256`.

The model follows the code wherever the code and the prose around it differ.
In particular:
- Readings exactly equal to a threshold match no test, so the LEDs keep their previous state.
- `Recuperatorio` computes the velocity on `unsigned int`. A reading that grows
  wraps around to about 429490, above the warning threshold. For sensor
  readings, the velocity is otherwise at most 6 and never 8
  (`Recuperatorio.VelocidadWraps`).
- In the `Ejercicios3_proy1` template, `convertToBcdArray` counts down with an
  `int8_t`, so for 129..255 digits the counter starts negative and nothing is
  written (`Ejercicios3Template.Written`).

## Model

| member | source | states |
|---|---|---|
| CInts.ToInt8 | firmware/projects/Ejercicios3_proy1/main/x_template.c:122 | the `int8_t` value of `digits - 1`: congruent mod 256, unchanged below 128, negative from 128 up |
| CInts.SubU32 | firmware/projects/Recuperatorio/main/Recuperatorio.c:137 | `unsigned int` subtraction: congruent to `a - b` mod 2^32, the plain difference when `a >= b`, `2^32 - (b - a)` otherwise |
| Bcd.Digits | firmware/projects/Ejercicio4_proy1/main/Ejercicio4_proy1.c:21-29 | the conversion's result has exactly `n` entries, each a decimal digit 0..9 |
| Bcd.DigitsPrepend | firmware/projects/Ejercicio6_proy1/main/Ejercicio6_proy1.c:45-49 | writing one more digit to the left puts digit `n` of `x`, `(x / 10^n) % 10`, in front of the `n` digits already written |
| Bcd.DigitsHighZero | firmware/projects/Ejercicio4_proy1/main/Ejercicio4_proy1.c:22-24 | once nothing of the number is left, every remaining position is 0, so stopping early and leaving the zero-fill is correct |
| Bcd.ReadBackDigits | firmware/projects/Ejercicio4_proy1/main/Ejercicio4_proy1.c:21-29 | the digits read back as `x mod 10^n`: high-order digits that do not fit are dropped |
| Bcd.DigitsRoundTrip | firmware/projects/Ejercicio4_proy1/main/Ejercicio4_proy1.c:21-29 | a number below `10^n` is recovered exactly from its `n` digits |
| Bcd.DigitsOfReadBack | firmware/projects/Ejercicio4_proy1/main/Ejercicio4_proy1.c:21-29 | conversely, any sequence of decimal digits is the conversion of its own read-back value, which fits in that many digits |
| Bcd.LeadingZeros | firmware/projects/Ejercicio4_proy1/main/Ejercicio4_proy1.c:15-18 | the positions to the left of a number that fits in `k` digits hold 0 |
| Bcd.LastDigitIsUnits | firmware/projects/Ejercicio6_proy1/main/Ejercicio6_proy1.c:45-48 | the last position written, `bcd_number[digits-1]`, is the units digit `x % 10` |
| Gpio.GpioBank.Init | firmware/projects/Ejercicio5_proy1/main/Ejercicio5_proy1.c:45 | `GPIOInit` sets the pin's direction and changes no level and no write |
| Gpio.GpioBank.Write | firmware/projects/Ejercicio5_proy1/main/Ejercicio5_proy1.c:46-51 | `GPIOOn`/`GPIOOff` sets the pin's level, logs the write and keeps the levels equal to the logged writes applied in order |
| Gpio.PinsFollowBits | firmware/projects/Ejercicio5_proy1/main/Ejercicio5_proy1.c:43-53 | with four distinct pins, pin `j` ends on exactly when bit `j` of the digit is 1, and every other pin keeps its level |
| Gpio.HighBitsIgnored | firmware/projects/Ejercicio5_proy1/main/Ejercicio5_proy1.c:43-53 | only the low four bits reach the pins: the value and the value mod 16 make the same writes |
| Ejercicio4Proy1.ConvertToBcdArray | firmware/projects/Ejercicio4_proy1/main/Ejercicio4_proy1.c:9-32 | 0 digits: returns -1 and writes nothing; otherwise returns 0 with the first `digits` entries the digits of `data mod 10^digits`; entries past `digits` untouched |
| Ejercicio4Proy1.PrintBcdArray | firmware/projects/Ejercicio4_proy1/main/Ejercicio4_proy1.c:35-45 | the printed text is the header, each digit's bits 3..0 followed by a space, and a newline |
| Ejercicio4Proy1.NibbleRoundTrip | firmware/projects/Ejercicio4_proy1/main/Ejercicio4_proy1.c:39-41 | the four printed bits of a value below 16 read back as that value |
| Ejercicio4Proy1.DigitsTextAt | firmware/projects/Ejercicio4_proy1/main/Ejercicio4_proy1.c:37-43 | digit `i` is printed at offset `5i` as its four bits, followed by a space at `5i + 4` |
| Ejercicio4Proy1.DigitsTextLength | firmware/projects/Ejercicio4_proy1/main/Ejercicio4_proy1.c:37-43 | five characters are printed per digit |
| Ejercicio4Proy1.PrintedDigitReadsBack | firmware/projects/Ejercicio4_proy1/main/Ejercicio4_proy1.c:35-45 | every decimal digit of the array is recovered from the four characters printed for it, and the whole line has 11 + 5n + 1 characters |
| Ejercicio4Proy1.ExampleTwenty | firmware/projects/Ejercicio4_proy1/main/Ejercicio4_proy1.c:50-57 | the call in `app_main`, 20 in 2 digits, gives [2, 0] |
| Ejercicio4Template.DecimalToBcd | firmware/projects/Ejercicio4_proy1/main/x_template.c:4-20 | the first `digits` entries become the digits of `number mod 10^digits`, the rest untouched, also for 0 digits |
| Ejercicio4Template.ExampleTwentyOne | firmware/projects/Ejercicio4_proy1/main/x_template.c:32-36 | the call in `main`, 21 in 2 digits, gives [2, 1] |
| Ejercicio5Proy1.SetGpioFromBcd | firmware/projects/Ejercicio5_proy1/main/Ejercicio5_proy1.c:40-54 | the four pins are initialised with their directions and written with bits 0..3 of `bcd` in order; the new levels are those writes applied to the old levels |
| Ejercicio5Proy1.ExampleNine | firmware/projects/Ejercicio5_proy1/main/Ejercicio5_proy1.c:58-60 | 9 on GPIO_20..23 leaves GPIO_20 and GPIO_23 on, GPIO_21 and GPIO_22 off |
| Ejercicio6Proy1.ConvertToBcdArray | firmware/projects/Ejercicio6_proy1/main/Ejercicio6_proy1.c:41-50 | filling from the right, the first `digits` entries become the digits of `data mod 10^digits`, the rest untouched |
| Ejercicio6Proy1.Inicializar | firmware/projects/Ejercicio6_proy1/main/Ejercicio6_proy1.c:58-65 | each of the first `iteraciones` pins gets its direction and one off-write, in order |
| Ejercicio6Proy1.DriveDigitBits | firmware/projects/Ejercicio6_proy1/main/Ejercicio6_proy1.c:87-95 | the inner loop writes bits 0..3 of the digit onto the four data pins and leaves the digit shifted right by four |
| Ejercicio6Proy1.MostrarDisplay | firmware/projects/Ejercicio6_proy1/main/Ejercicio6_proy1.c:75-99 | more than 3 digits: nothing happens; otherwise, per digit of `data mod 10^digits`, its four bit writes then a select pulse, and the levels follow those writes |
| Ejercicio6Proy1.InitialisedPinsOff | firmware/projects/Ejercicio6_proy1/main/Ejercicio6_proy1.c:60-64 | every initialised pin ends off |
| Ejercicio6Proy1.InitialisedDirections | firmware/projects/Ejercicio6_proy1/main/Ejercicio6_proy1.c:60-64 | with distinct pins, every initialised pin has its configured direction |
| Ejercicio6Proy1.DisplayWritesAt | firmware/projects/Ejercicio6_proy1/main/Ejercicio6_proy1.c:84-98 | six writes per digit: for digit `i`, bit `j` on `bits[j]`, then `lcd[i]` on, then `lcd[i]` off |
| Ejercicio6Proy1.DisplayWritesLength | firmware/projects/Ejercicio6_proy1/main/Ejercicio6_proy1.c:84-98 | a display of `n` digits makes `6n` writes |
| Ejercicio6Proy1.SelectPinsEndOff | firmware/projects/Ejercicio6_proy1/main/Ejercicio6_proy1.c:96-97 | every pulsed select pin that is not also a data pin ends off |
| Ejercicio6Proy1.DataPinsHoldLastDigit | firmware/projects/Ejercicio6_proy1/main/Ejercicio6_proy1.c:87-97 | after the last digit, the data pins hold that digit's bits |
| Ejercicio6Proy1.DisplayEndState | firmware/projects/Ejercicio6_proy1/main/Ejercicio6_proy1.c:75-99 | with 1..3 digits, the display is left with the units digit of `data` on the data pins and every select pin off |
| Ejercicio6Proy1.ExampleOneTwoThree | firmware/projects/Ejercicio6_proy1/main/Ejercicio6_proy1.c:105-110 | the call in `app_main`, 123 on 3 digits, shows [1, 2, 3] |
| LedCommand.ToggledParity | firmware/projects/Ejercicios3_proy1/main/Ejercicios3_proy1.c:74-87 | toggling `k` times inverts the LED exactly when `k` is odd |
| LedCommand.ControlledLeds | firmware/projects/Ejercicios3_proy1/main/Ejercicios3_proy1.c:37-92 | ON lights, OFF clears and TOGGLE sets the chosen LED to its parity-flipped level; the other LEDs and any LED number outside 1..3 are left alone |
| LedCommand.PeriodDoesNotMatter | firmware/projects/Ejercicios3_proy1/main/Ejercicios3_proy1.c:37-92 | the period never changes the LED state a command leaves |
| LedCommand.EvenToggleRestores | firmware/projects/Ejercicios3_proy1/main/Ejercicios3_proy1.c:72-91 | an even number of toggle cycles leaves all LEDs as they were |
| Board.NegatedChangesOne | firmware/projects/Proyecto2_MedirDistanciaConInterrupciones/main/MedirDistanciaConInterrupciones.c:83-88 | the key callback changes exactly the flag it was registered with |
| Board.NegatedTwice | firmware/projects/Proyecto2_MedirDistanciaConInterrupciones/main/MedirDistanciaConInterrupciones.c:83-88 | pressing the same key twice restores both flags |
| Board.Repeat | firmware/projects/Ejercicios3_proy1/main/Ejercicios3_proy1.c:88-89 | a delay loop of `n` passes issues `n` delays, each of the same length |
| Board.TotalRepeat | firmware/projects/Ejercicios3_proy1/main/Ejercicios3_proy1.c:88-89 | `n` delays of `ms` wait `ms * n` in total |
| Board.TotalCycles | firmware/projects/Ejercicios3_proy1/main/Ejercicios3_proy1.c:74-90 | `i` cycles wait `i` times the wait of one cycle |
| Board.DistanceLeds | firmware/projects/Proyecto2_MedirDistancia/main/MedirDistancia.c:47-69 | off the thresholds, LED_1..LED_3 are on exactly for readings above 10, 20 and 30; at exactly 10, 20 or 30 the LEDs keep their state |
| Board.Classify | firmware/projects/Proyecto2_MedirDistancia/main/MedirDistancia.c:47-69 | the four sequential threshold tests leave the LEDs `DistanceLeds` describes |
| Board.DistanceLedsPrefix | firmware/projects/Proyecto2_MedirDistancia/main/MedirDistancia.c:47-69 | off the thresholds the lit LEDs form a bar: LED_3 only with LED_2, LED_2 only with LED_1 |
| Board.DistanceLedsMonotone | firmware/projects/Proyecto2_MedirDistancia/main/MedirDistancia.c:47-69 | off the thresholds, a farther reading never lights fewer LEDs |
| Ejercicios3Proy1.ControlLed | firmware/projects/Ejercicios3_proy1/main/Ejercicios3_proy1.c:37-92 | the LEDs end as `ControlledLeds` says, and TOGGLE issues `periodo / 100` delays of 100 ms per cycle, also for an invalid LED number |
| Ejercicios3Proy1.ToggleTotalDelay | firmware/projects/Ejercicios3_proy1/main/Ejercicios3_proy1.c:74-90 | TOGGLE waits `n_ciclos * (periodo - periodo % 100)` in total, never more than `n_ciclos * periodo` |
| Ejercicios3Proy1.ExampleToggleTen | firmware/projects/Ejercicios3_proy1/main/Ejercicios3_proy1.c:98-102 | LED_3 toggled 10 times at 500 ms ends as it started, after 10 cycles of five 100 ms delays |
| Ejercicios3Template.ControlLed | firmware/projects/Ejercicios3_proy1/main/x_template.c:51-106 | the LEDs end as `ControlledLeds` says, and TOGGLE issues one delay of `periodo` per cycle |
| Ejercicios3Template.ToggleTotalDelay | firmware/projects/Ejercicios3_proy1/main/x_template.c:102 | TOGGLE waits exactly `n_ciclos * periodo` in total |
| Ejercicios3Template.Written | firmware/projects/Ejercicios3_proy1/main/x_template.c:122 | the `int8_t` counter visits `digits` positions for 1..128 digits and none for 0 or 129..255 |
| Ejercicios3Template.ConvertToBcdArray | firmware/projects/Ejercicios3_proy1/main/x_template.c:120-132 | returns 0; the positions the counter visits get the digits of `data` for that many digits, and every other entry is untouched |
| Ejercicios3Template.ConvertedPrefix | firmware/projects/Ejercicios3_proy1/main/x_template.c:120-132 | for 1..128 digits the written digits are decimal and read back as `data mod 10^digits`; otherwise nothing is written |
| Ejercicios3Template.ExampleTwelveThousand | firmware/projects/Ejercicios3_proy1/main/x_template.c:145-146 | the call in `app_main`, 12345 in 4 digits, gives [2, 3, 4, 5] |
| MedirDistancia.Medidor.constructor | firmware/projects/Proyecto2_MedirDistancia/main/MedirDistancia.c:27-28 | both flags start false, with the LEDs off and nothing written |
| MedirDistancia.Medidor.Tick | firmware/projects/Proyecto2_MedirDistancia/main/MedirDistancia.c:37-77 | when Activate is set, the LEDs follow the classifier and the reading is displayed unless Hold is set; otherwise nothing changes; every pass ends with a 1000 ms delay |
| MedirDistancia.Medidor.LeerTeclas | firmware/projects/Proyecto2_MedirDistancia/main/MedirDistancia.c:83-101 | SWITCH_1 negates Activate, SWITCH_2 negates Hold, any other value neither; each pass ends with a 300 ms delay |
| MedirDistanciaInterrupciones.Medidor.constructor | firmware/projects/Proyecto2_MedirDistanciaConInterrupciones/main/MedirDistanciaConInterrupciones.c:25-26 | Activate starts set and Hold clear |
| MedirDistanciaInterrupciones.Medidor.Tick | firmware/projects/Proyecto2_MedirDistanciaConInterrupciones/main/MedirDistanciaConInterrupciones.c:39-81 | when Activate is set, the LEDs follow the classifier and the reading is displayed unless Hold is set; otherwise nothing changes; the flags are never changed by the task |
| MedirDistanciaInterrupciones.Medidor.LeerTeclas | firmware/projects/Proyecto2_MedirDistanciaConInterrupciones/main/MedirDistanciaConInterrupciones.c:83-88 | the callback negates the flag it was registered with and nothing else |
| MedirDistanciaPuertoSerie.Record | firmware/projects/Proyecto2_MedirDistanciaPuertoSerie/main/MedirDistanciaPuertoSerie.c:83-85 | one report is three strings, the first the distance's number |
| MedirDistanciaPuertoSerie.RecordAtEnd | firmware/projects/Proyecto2_MedirDistanciaPuertoSerie/main/MedirDistanciaPuertoSerie.c:83-92 | after a report is sent, the UART output ends with that report |
| MedirDistanciaPuertoSerie.RecordInjective | firmware/projects/Proyecto2_MedirDistanciaPuertoSerie/main/MedirDistanciaPuertoSerie.c:83-92 | two equal reports name the same distance |
| MedirDistanciaPuertoSerie.Medidor.constructor | firmware/projects/Proyecto2_MedirDistanciaPuertoSerie/main/MedirDistanciaPuertoSerie.c:29-32 | Activate set, Hold clear, both distances 0, nothing sent |
| MedirDistanciaPuertoSerie.Medidor.Tick | firmware/projects/Proyecto2_MedirDistanciaPuertoSerie/main/MedirDistanciaPuertoSerie.c:47-98 | when Activate is set: the LEDs follow the classifier; without Hold the reading is displayed, sent and held; with Hold the held value is sent again; the output always ends with the held value's report |
| MedirDistanciaPuertoSerie.Medidor.LeerTeclas | firmware/projects/Proyecto2_MedirDistanciaPuertoSerie/main/MedirDistanciaPuertoSerie.c:105-110 | the callback negates the flag it was registered with and nothing else |
| MedirDistanciaPuertoSerie.Medidor.LeerPuertoSerie | firmware/projects/Proyecto2_MedirDistanciaPuertoSerie/main/MedirDistanciaPuertoSerie.c:115-129 | 'O' negates Activate and clears Hold, 'H' negates Hold, any other byte changes nothing |
| SensorGsr.Lectura | firmware/projects/SensorGSR/main/SensorGSR.c:74-76 | the value used is the conversion result when Activate is set, 0 otherwise |
| SensorGsr.Gsr.constructor | firmware/projects/SensorGSR/main/SensorGSR.c:45-46 | Activate starts set and Hold clear, nothing sent |
| SensorGsr.Gsr.ConvertirAD | firmware/projects/SensorGSR/main/SensorGSR.c:67-90 | LED_1 ends on exactly when the value is below 250, so always while Activate is clear; the value and "\r" are sent; Hold is never consulted |
| SensorGsr.Gsr.LeerTeclas | firmware/projects/SensorGSR/main/SensorGSR.c:92-97 | the callback negates the flag it was registered with and nothing else |
| Examen.AlarmLeds | firmware/projects/Examen/main/Examen.c:112-138 | off the thresholds, the green LED is always on, the yellow below 5 and the red below 3; at exactly 3 or 5 the LEDs keep their state |
| Examen.WarningsFollowLeds | firmware/projects/Examen/main/Examen.c:112-138 | a warning is sent exactly when the yellow LED is lit, and the danger warning exactly when the red one is |
| Examen.BuzzerSoundsIffWarning | firmware/projects/Examen/main/Examen.c:186-205 | the buzzer toggles exactly when a warning is sent, every 500 ms in danger and every 250 ms in caution |
| Examen.Alarma.constructor | firmware/projects/Examen/main/Examen.c:218-220 | the LEDs start off and nothing has been sent |
| Examen.Alarma.MedirDistancia | firmware/projects/Examen/main/Examen.c:100-142 | a pass sets the LEDs as `AlarmLeds` says and sends exactly the warnings for the reading |
| Examen.Alarma.ControlBuzzer | firmware/projects/Examen/main/Examen.c:179-210 | below 3 or strictly between 3 and 5 the pin is toggled, otherwise switched off, then the task waits 500, 250 or 100 ms |
| Recuperatorio.Velocidad | firmware/projects/Recuperatorio/main/Recuperatorio.c:137 | the velocity is the 32-bit wrapped difference divided by 10000: at most 429496, the plain quotient when the distance did not grow |
| Recuperatorio.VelocidadWraps | firmware/projects/Recuperatorio/main/Recuperatorio.c:132-137 | for sensor readings, the velocity exceeds 8 exactly when the reading grew, in which case it is at least 429490; otherwise it is at most 6 |
| Recuperatorio.NoVelocityEight | firmware/projects/Recuperatorio/main/Recuperatorio.c:143-169 | no pair of sensor readings gives velocity 8, the one value no LED test matches |
| Recuperatorio.ExampleRising | firmware/projects/Recuperatorio/main/Recuperatorio.c:137 | a reading of 6 after 5 gives velocity 429496 |
| Recuperatorio.SpeedLeds | firmware/projects/Recuperatorio/main/Recuperatorio.c:143-169 | off velocity 8: LED_1 at 0, LED_2 strictly between 0 and 8, LED_3 above 8; at 8 the LEDs keep their state |
| Recuperatorio.OneSpeedLed | firmware/projects/Recuperatorio/main/Recuperatorio.c:143-169 | off velocity 8 exactly one LED is lit, and LED_1 exactly when the vehicle is flagged as stopped |
| Recuperatorio.Balanza.constructor | firmware/projects/Recuperatorio/main/Recuperatorio.c:94-96 | the distances, velocity and maximum start at 0 and the vehicle is not flagged as stopped |
| Recuperatorio.Balanza.MedirDistancia | firmware/projects/Recuperatorio/main/Recuperatorio.c:123-172 | the velocity is recomputed only for readings below 10; the maximum never decreases and is always at least the velocity; LEDs and the stopped flag follow the velocity tests |
| Recuperatorio.Balanza.LeerPuertoSerie | firmware/projects/Recuperatorio/main/Recuperatorio.c:235-250 | 'o' opens the barrier, 'c' closes it, any other byte leaves it, and nothing else changes |
| Osciloscopio.EcgSize | firmware/projects/Proyecto2_Osciloscopio/main/Osciloscopio.c:20-37 | the table has `BUFFER_SIZE` = 256 entries |
| Osciloscopio.ReadIndex | firmware/projects/Proyecto2_Osciloscopio/main/Osciloscopio.c:98-103 | the index read is always inside the table and equals `indice mod 256` |
| Osciloscopio.Samples | firmware/projects/Proyecto2_Osciloscopio/main/Osciloscopio.c:93-109 | `k` passes output `k` samples |
| Osciloscopio.SamplesCyclic | firmware/projects/Proyecto2_Osciloscopio/main/Osciloscopio.c:93-109 | pass `m` outputs the sample at `(start + m) mod 256`: playback wraps around the table |
| Osciloscopio.PeriodicPlayback | firmware/projects/Proyecto2_Osciloscopio/main/Osciloscopio.c:93-109 | from index 0, the output repeats with period 256 |
| Osciloscopio.Step | firmware/projects/Proyecto2_Osciloscopio/main/Osciloscopio.c:98-107 | after `n` passes the next pass reads index `n mod 256` and extends the output by that sample |
| Osciloscopio.Reproductor.constructor | firmware/projects/Proyecto2_Osciloscopio/main/Osciloscopio.c:29-40 | the table is the ECG period and `indice` starts at 0 |
| Osciloscopio.Reproductor.ConvertirAAnalogico | firmware/projects/Proyecto2_Osciloscopio/main/Osciloscopio.c:93-109 | a pass outputs the sample at the wrapped index and advances it; pass `n` outputs `ecg[n mod 256]`; `indice` stays in 0..256 |

## Left out

- The board drivers (LED, GPIO, HC-SR04, analog I/O, UART, LCD, switches, timers) are not part of this model. Each driver call is one update of the modelled state, and each sensor or UART reading is a method parameter.
- `UartItoa` formatting is not modelled: a number sent is logged as `Number(n)`.
- FreeRTOS task creation, timer interrupts and `ulTaskNotifyTake` are not modelled. Each task body is one method call per pass, and interleaving between tasks is not modelled.
- `vTaskDelay` is logged by its millisecond argument. The conversion to ticks with `portTICK_PERIOD_MS` is not modelled.
- `app_main` and `main` are modelled only through the example lemmas and the constructors, which record the state they leave.
- The values of `SWITCH_1` and `SWITCH_2` come from the switch driver. `MedirDistancia.Switch1` and `Switch2` take them as 1 and 2.
- The LED levels after `LedsInit` and the GPIO_20 level after `GPIOInit` are set by the drivers. The constructors take them as parameters.
- LEDs are modelled as a three-entry sequence and not through the `LedOn`/`LedOff`/`LedToggle` calls. `LedsOffAll` is modelled as all three entries off.
- `MedirPeso` in `Recuperatorio.c` is not modelled. It uses floating point, indexes past the end of its 50-entry buffer, and loops without end.
- `ConvertirAD` in `Examen.c` is not modelled. It uses a floating-point square root of the accelerometer axes.
- `ConvertirAD` in `Osciloscopio.c` is not modelled. It only reads an analog input and sends the value on the UART; it shares no state with the playback.
- The `printBcdArray` of `Ejercicio4_proy1/main/x_template.c` is not modelled. It uses the `%04b` conversion, which for the digits 0..9 prints the same four characters as `Ejercicio4Proy1.PrintBcdArray`.
- `Ejercicio5_proy1/main/x_template.c` is not part of this model. It does not compile: it calls `GPIOINIT` and calls `setGpioFromBcd()` without arguments. It is a draft of `setGpioFromBcd` that initialises one pin four times.
- The empty `while(n>2)` block in `Ejercicios3_proy1/main/x_template.c` refers to an undeclared `n`, so the file does not compile as written. The model takes the function without that block.
- `Ejercicio6Proy1.MostrarDisplay` with 0 digits declares a zero-length array in C. The model performs no writes in that case.
- Gpio.GpioBank: pins are not checked to be initialised as outputs before they are written.
