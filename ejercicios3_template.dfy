/** Exercise 3, template variant: `control_led` with one delay of `periodo`
    per TOGGLE cycle, and a `convertToBcdArray` whose loop counter is an
    `int8_t`. */
module Ejercicios3Template {
  import opened CInts
  import opened Bcd
  import opened Board
  import opened LedCommand

  /** The delays of a command: one delay of `periodo` per cycle in TOGGLE
      mode, whether or not the LED number is valid; none in the other modes. */
  function Delays(cmd: Command): seq<nat>
  {
    if cmd.mode == Toggle then Repeat(cmd.periodo, cmd.nCiclos) else []
  }

  /** Runs `cmd` on the LEDs `leds` (LED_1 at index 0) and returns the delays
      it waited, in order. */
  method ControlLed(cmd: Command, leds: array<bool>) returns (delays: seq<nat>)
    requires leds.Length == 3
    modifies leds
    ensures leds[..] == ControlledLeds(old(leds[..]), cmd)
    ensures delays == Delays(cmd)
  {
    delays := [];
    if cmd.mode == On {
      if ValidLed(cmd.nLed) {
        leds[cmd.nLed - 1] := true;
      }
    } else if cmd.mode == Off {
      if ValidLed(cmd.nLed) {
        leds[cmd.nLed - 1] := false;
      }
    } else {
      ghost var before := leds[..];
      var i := 0;
      while i < cmd.nCiclos
        invariant 0 <= i <= cmd.nCiclos
        invariant leds[..] == ToggledAt(before, cmd.nLed, i)
        invariant delays == Repeat(cmd.periodo, i)
      {
        if ValidLed(cmd.nLed) {
          leds[cmd.nLed - 1] := !leds[cmd.nLed - 1];
        }
        delays := delays + [cmd.periodo];
        i := i + 1;
      }
    }
  }

  /** In TOGGLE mode the total wait is exactly `n_ciclos * periodo`. */
  lemma ToggleTotalDelay(cmd: Command)
    requires cmd.mode == Toggle
    ensures Total(Delays(cmd)) == cmd.nCiclos * cmd.periodo
  {
    TotalRepeat(cmd.periodo, cmd.nCiclos);
  }

  /** The number of digits the loop writes: `digits` when the `int8_t` start
      value `digits - 1` is non-negative, which is exactly 1..128. */
  function Written(digits: U8): (n: nat)
    ensures n == (if 1 <= digits <= 128 then digits else 0)
  {
    var i := ToInt8(digits - 1);
    if i >= 0 then i + 1 else 0
  }

  /** Fills `bcd_number[digits-1]` down to `bcd_number[0]` with successive
      `data % 10`. The counter is an `int8_t`, so for `digits` of 129 or more
      it starts negative and nothing is written. Always returns 0. */
  method ConvertToBcdArray(data: U32, digits: U8, bcd: array<U8>) returns (r: int)
    requires Written(digits) <= bcd.Length
    modifies bcd
    ensures r == 0
    ensures bcd[..Written(digits)] == Digits(data, Written(digits))
    ensures bcd[Written(digits)..] == old(bcd[Written(digits)..])
  {
    var d: nat := data;
    var i: int := ToInt8(digits - 1);
    ghost var n := Written(digits);
    while i >= 0
      invariant n == 0 ==> i < 0 && bcd[..] == old(bcd[..])
      invariant n > 0 ==> -1 <= i < n
      invariant n > 0 ==> d == data / Pow10(n - 1 - i)
      invariant n > 0 ==> bcd[i + 1..n] == Digits(data, n - 1 - i)
      invariant n > 0 ==> bcd[..i + 1] == old(bcd[..i + 1])
      invariant n > 0 ==> bcd[n..] == old(bcd[n..])
    {
      DigitsPrepend(data, n - 1 - i);
      DivDiv(data, Pow10(n - 1 - i), 10);
      bcd[i] := d % 10;
      assert bcd[i..n] == [d % 10] + bcd[i + 1..n];
      d := d / 10;
      i := i - 1;
    }
    return 0;
  }

  /** With 1..128 digits the whole requested prefix holds digits 0..9 that read
      back as `data mod 10^digits`; with 0 or 129..255 digits the array is
      untouched. */
  lemma ConvertedPrefix(data: U32, digits: U8)
    ensures 1 <= digits <= 128 ==>
      IsDigitSeq(Digits(data, Written(digits))) &&
      ReadBack(Digits(data, Written(digits))) == data % Pow10(digits)
    ensures !(1 <= digits <= 128) ==> Written(digits) == 0
  {
    ReadBackDigits(data, Written(digits));
  }

  /** The example in `app_main`: 12345 in 4 digits keeps the low four,
      [2, 3, 4, 5]. */
  lemma ExampleTwelveThousand()
    ensures Digits(12345, Written(4)) == [2, 3, 4, 5]
  {
  }
}
