/** Exercise 3: `control_led`, which interprets an LED command. In TOGGLE mode
    each cycle waits `periodo` in steps of 100 ms. */
module Ejercicios3Proy1 {
  import opened CInts
  import opened Bcd
  import opened Board
  import opened LedCommand

  /** `temp_periodo`: the length of one delay step, in milliseconds. */
  const TempPeriodo: nat := 100

  /** The delays of one TOGGLE cycle: `periodo / 100` (rounded down) delays
      of 100 ms. */
  function CycleDelays(cmd: Command): seq<nat>
  {
    Repeat(TempPeriodo, cmd.periodo / TempPeriodo)
  }

  /** The delays of a command: in TOGGLE mode one cycle's delays per cycle,
      whether or not the LED number is valid; in the other modes, none. */
  function Delays(cmd: Command): seq<nat>
  {
    if cmd.mode == Toggle then Cycles(CycleDelays(cmd), cmd.nCiclos) else []
  }

  /** Runs `cmd` on the LEDs `leds` (LED_1 at index 0) and returns the delays
      it waited, in order. */
  method ControlLed(cmd: Command, leds: array<bool>) returns (delays: seq<nat>)
    requires leds.Length == 3
    modifies leds
    ensures leds[..] == ControlledLeds(old(leds[..]), cmd)
    ensures delays == Delays(cmd)
  {
    delays := [];
    if cmd.mode == On {
      if ValidLed(cmd.nLed) {
        leds[cmd.nLed - 1] := true;
      }
    } else if cmd.mode == Off {
      if ValidLed(cmd.nLed) {
        leds[cmd.nLed - 1] := false;
      }
    } else {
      ghost var before := leds[..];
      var i := 0;
      while i < cmd.nCiclos
        invariant 0 <= i <= cmd.nCiclos
        invariant leds[..] == ToggledAt(before, cmd.nLed, i)
        invariant delays == Cycles(CycleDelays(cmd), i)
      {
        if ValidLed(cmd.nLed) {
          leds[cmd.nLed - 1] := !leds[cmd.nLed - 1];
        }
        var j := 0;
        while j < cmd.periodo / TempPeriodo
          invariant 0 <= j <= cmd.periodo / TempPeriodo
          invariant delays == Cycles(CycleDelays(cmd), i) + Repeat(TempPeriodo, j)
        {
          delays := delays + [TempPeriodo];
          j := j + 1;
        }
        i := i + 1;
      }
    }
  }

  /** In TOGGLE mode the total wait is `n_ciclos` times `periodo` rounded down
      to a multiple of 100 ms, so up to 99 ms per cycle are lost. */
  lemma ToggleTotalDelay(cmd: Command)
    requires cmd.mode == Toggle
    ensures Total(Delays(cmd)) == cmd.nCiclos * (cmd.periodo - cmd.periodo % TempPeriodo)
    ensures Total(Delays(cmd)) <= cmd.nCiclos * cmd.periodo
  {
    TotalCycles(CycleDelays(cmd), cmd.nCiclos);
    TotalRepeat(TempPeriodo, cmd.periodo / TempPeriodo);
    MulMonotone(cmd.nCiclos, cmd.periodo - cmd.periodo % TempPeriodo, cmd.periodo);
  }

  /** The command in `app_main`: LED_3 toggled 10 times with a 500 ms period
      ends as it started, after 50 delays of 100 ms. */
  lemma ExampleToggleTen(leds: seq<bool>)
    requires |leds| == 3
    ensures var cmd := Command(Toggle, 3, 10, 500);
            ControlledLeds(leds, cmd) == leds && Delays(cmd) == Cycles(Repeat(TempPeriodo, 5), 10)
  {
    EvenToggleRestores(leds, Command(Toggle, 3, 10, 500));
  }
}
