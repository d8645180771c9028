/** The LED command of the `control_led` exercises (`struct leds`) and the LED
    state a command leaves, shared by both variants of the exercise. */
module LedCommand {
  import opened CInts

  /** `enum modes`. */
  datatype Mode = On | Off | Toggle

  /** `struct leds`: mode, LED number (1..3 name LED_1..LED_3), number of
      cycles and cycle period in milliseconds. */
  datatype Command = Command(mode: Mode, nLed: U8, nCiclos: U8, periodo: U16)

  /** The LED numbers the `switch` statements have a case for. */
  predicate ValidLed(n: int)
  {
    1 <= n <= 3
  }

  /** The level of a LED toggled `k` times, starting at `b`. */
  function Toggled(b: bool, k: nat): bool
  {
    if k == 0 then b else !Toggled(b, k - 1)
  }

  /** Toggling `k` times inverts the LED iff `k` is odd. */
  lemma {:induction false} ToggledParity(b: bool, k: nat)
    ensures Toggled(b, k) == (b != (k % 2 == 1))
  {
    if k > 0 {
      ToggledParity(b, k - 1);
    }
  }

  /** The LEDs after `i` toggles of LED number `n`: that LED toggled `i`
      times, or nothing changed when `n` is not 1..3. */
  function ToggledAt(leds: seq<bool>, n: int, i: nat): (r: seq<bool>)
    requires |leds| == 3
    ensures |r| == 3
  {
    if ValidLed(n) then leds[n - 1 := Toggled(leds[n - 1], i)] else leds
  }

  /** The LED state a command leaves: ON and OFF set the selected LED, TOGGLE
      flips it once per cycle, and a LED number outside 1..3 changes nothing. */
  function ControlledLeds(leds: seq<bool>, cmd: Command): (r: seq<bool>)
    requires |leds| == 3
    ensures |r| == 3
    ensures !ValidLed(cmd.nLed) ==> r == leds
    ensures forall k :: 0 <= k < 3 && k != cmd.nLed - 1 ==> r[k] == leds[k]
    ensures ValidLed(cmd.nLed) && cmd.mode == On ==> r[cmd.nLed - 1]
    ensures ValidLed(cmd.nLed) && cmd.mode == Off ==> !r[cmd.nLed - 1]
    ensures ValidLed(cmd.nLed) && cmd.mode == Toggle ==>
      r[cmd.nLed - 1] == (leds[cmd.nLed - 1] != (cmd.nCiclos % 2 == 1))
  {
    if !ValidLed(cmd.nLed) then leds
    else
      var k := cmd.nLed - 1;
      match cmd.mode
      case On => leds[k := true]
      case Off => leds[k := false]
      case Toggle => ToggledParity(leds[k], cmd.nCiclos); ToggledAt(leds, cmd.nLed, cmd.nCiclos)
  }

  /** A command with the same mode, LED and cycle count has the same effect on
      the LEDs whatever its period. */
  lemma PeriodDoesNotMatter(leds: seq<bool>, cmd: Command, periodo: U16)
    requires |leds| == 3
    ensures ControlledLeds(leds, cmd.(periodo := periodo)) == ControlledLeds(leds, cmd)
  {
  }

  /** An even number of toggles leaves every LED as it was. */
  lemma EvenToggleRestores(leds: seq<bool>, cmd: Command)
    requires |leds| == 3 && cmd.mode == Toggle && cmd.nCiclos % 2 == 0
    ensures ControlledLeds(leds, cmd) == leds
  {
    if ValidLed(cmd.nLed) {
      var r := ControlledLeds(leds, cmd);
      assert forall k :: 0 <= k < 3 ==> r[k] == leds[k];
    }
  }
}
