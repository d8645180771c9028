/** Bicycle proximity alarm: the `MedirDistancia` task body (LEDs and warning
    messages) and one pass of the `ControlBuzzer` loop. Distances are in the
    unit the sensor reports. */
module Examen {
  import opened CInts
  import Board
  type Leds = Board.Leds
  type Message = Board.Message

  const DistanciaMinima: nat := 3
  const DistanciaMaxima: nat := 5

  const Peligro: string := "Peligro, vehículo cerca"
  const Precaucion: string := "Precaución, vehículo cerca"

  /** The LEDs after the three threshold tests on `d`: LED_1 (green) whenever
      a test fires, LED_2 below 5 and LED_3 below 3. Readings of exactly 3
      or 5 match no test. */
  function AlarmLeds(d: nat, leds: Leds): (r: Leds)
    ensures d == DistanciaMinima || d == DistanciaMaxima ==> r == leds
    ensures d != DistanciaMinima && d != DistanciaMaxima ==>
      r == [true, d < DistanciaMaxima, d < DistanciaMinima]
  {
    if d < DistanciaMinima then [true, true, true]
    else if d > DistanciaMaxima then [true, false, false]
    else if DistanciaMinima < d < DistanciaMaxima then [true, true, false]
    else leds
  }

  /** The strings sent for reading `d`. */
  function Warnings(d: nat): seq<Message>
  {
    if d < DistanciaMinima then [Board.Text(Peligro), Board.Text("\r\n")]
    else if DistanciaMinima < d < DistanciaMaxima then [Board.Text(Precaucion), Board.Text("\r\n")]
    else []
  }

  /** A warning is sent exactly when LED_2 (the yellow one) is switched on by
      the pass, and the danger warning exactly when LED_3 is. */
  lemma WarningsFollowLeds(d: nat, leds: Leds)
    requires d != DistanciaMinima && d != DistanciaMaxima
    ensures Warnings(d) != [] <==> AlarmLeds(d, leds)[1]
    ensures Warnings(d) != [] && Warnings(d)[0] == Board.Text(Peligro) <==> AlarmLeds(d, leds)[2]
  {
  }

  /** What one pass of `ControlBuzzer` does to the buzzer pin and how long it
      then waits, in milliseconds. */
  datatype BuzzerStep = ToggleAndWait(ms: nat) | OffAndWait(ms: nat)

  function Buzzer(d: nat): BuzzerStep
  {
    if d < DistanciaMinima then ToggleAndWait(500)
    else if DistanciaMinima < d < DistanciaMaxima then ToggleAndWait(250)
    else OffAndWait(100)
  }

  /** The buzzer sounds exactly when a warning is sent, and beeps twice as
      slowly in danger as in caution. */
  lemma BuzzerSoundsIffWarning(d: nat)
    ensures Buzzer(d).ToggleAndWait? <==> Warnings(d) != []
    ensures Buzzer(d).ToggleAndWait? && Buzzer(d).ms == 500 <==> d < DistanciaMinima
  {
  }

  class Alarma {
    var leds: Leds
    /** Every string sent on the connector UART, in order. */
    var uart: seq<Message>
    /** The level of the buzzer pin, GPIO_20. */
    var buzzer: bool
    var delays: seq<nat>

    /** The state `app_main` leaves: LEDs off, nothing sent. The buzzer pin
        level after `GPIOInit` is given as `pin`. */
    constructor (pin: bool)
      ensures leds == Board.AllOff && uart == [] && buzzer == pin && delays == []
    {
      leds, uart, buzzer, delays := Board.AllOff, [], pin, [];
    }

    /** One notified pass of `MedirDistancia`, with `reading` the sensor's
        value. */
    method MedirDistancia(reading: U16)
      modifies this
      ensures leds == AlarmLeds(reading, old(leds))
      ensures uart == old(uart) + Warnings(reading)
      ensures buzzer == old(buzzer) && delays == old(delays)
    {
      var distancia := reading;
      if distancia < DistanciaMinima {
        leds := leds[0 := true][1 := true][2 := true];
        uart := uart + [Board.Text(Peligro)] + [Board.Text("\r\n")];
      }
      if distancia > DistanciaMaxima {
        leds := leds[0 := true][1 := false][2 := false];
      }
      if distancia < DistanciaMaxima && distancia > DistanciaMinima {
        leds := leds[0 := true][1 := true][2 := false];
        uart := uart + [Board.Text(Precaucion)] + [Board.Text("\r\n")];
      }
    }

    /** One pass of the `ControlBuzzer` loop, with `reading` the sensor's
        value: the pin is toggled or switched off, then the task waits. */
    method ControlBuzzer(reading: U16)
      modifies this
      ensures Buzzer(reading).ToggleAndWait? ==> buzzer == !old(buzzer)
      ensures Buzzer(reading).OffAndWait? ==> !buzzer
      ensures delays == old(delays) + [Buzzer(reading).ms]
      ensures leds == old(leds) && uart == old(uart)
    {
      var distancia := reading;
      if distancia < DistanciaMinima {
        buzzer := !buzzer;
        delays := delays + [500];
      } else {
        if distancia < DistanciaMaxima && distancia > DistanciaMinima {
          buzzer := !buzzer;
          delays := delays + [250];
        } else {
          buzzer := false;
          delays := delays + [100];
        }
      }
    }
  }
}
