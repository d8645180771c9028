/** Galvanic skin response sensor: the `ConvertirAD` task body, run once per
    timer notification, and the `LeerTeclas` key callback. */
module SensorGsr {
  import opened CInts
  import opened Board

  /** `TRESHOLD_VALUE`: below it LED_1 is switched on. */
  const Umbral: nat := 250

  /** The value a pass works with: the conversion result when Activate is
      set, 0 otherwise. */
  function Lectura(activate: bool, reading: U16): (v: U16)
    ensures activate ==> v == reading
    ensures !activate ==> v == 0
  {
    if activate then reading else 0
  }

  class Gsr {
    var activate: bool
    var hold: bool
    var leds: Leds
    /** Every string sent to the PC, in order. */
    var uart: seq<Message>

    /** The state `app_main` leaves: Activate set, Hold clear. `LedsInit` sets
        the LEDs as the driver decides, given here as `initial`. */
    constructor (initial: Leds)
      ensures activate && !hold && leds == initial && uart == []
    {
      activate, hold, leds, uart := true, false, initial, [];
    }

    /** One notified pass of `ConvertirAD`, with `reading` the value the
        converter would return. LED_1 ends on exactly when the value is below
        the threshold, so always when Activate is clear; the value and "\r"
        are sent. Hold is never consulted. */
    method ConvertirAD(reading: U16)
      modifies this
      ensures activate == old(activate) && hold == old(hold)
      ensures leds[0] <==> (activate ==> reading < Umbral)
      ensures leds[1] == old(leds[1]) && leds[2] == old(leds[2])
      ensures uart == old(uart) + [Number(Lectura(activate, reading)), Text("\r")]
    {
      var lectura: U16;
      if activate {
        lectura := reading;
      } else {
        lectura := 0;
      }
      if lectura < Umbral {
        leds := leds[0 := true];
      } else {
        leds := leds[0 := false];
      }
      uart := uart + [Number(lectura)] + [Text("\r")];
    }

    /** The key callback: it negates the flag it was registered with. */
    method LeerTeclas(flag: Flag)
      modifies this
      ensures (activate, hold) == Negated(flag, old(activate), old(hold))
      ensures leds == old(leds) && uart == old(uart)
    {
      match flag
      case ActivateFlag => activate := !activate;
      case HoldFlag => hold := !hold;
    }
  }
}
