/** Distance meter driven by a timer and key interrupts: the `MedirDistancia`
    task body, run once per timer notification, and the `LeerTeclas` callback,
    which negates the flag it was registered with. */
module MedirDistanciaInterrupciones {
  import opened CInts
  import opened Board

  class Medidor {
    var activate: bool
    var hold: bool
    var leds: Leds
    /** Every value written to the display, in order. */
    var lcd: seq<U16>

    /** The state `app_main` leaves: Activate set, Hold clear, LEDs off. */
    constructor ()
      ensures activate && !hold && leds == AllOff && lcd == []
    {
      activate, hold, leds, lcd := true, false, AllOff, [];
    }

    /** One notified pass of `MedirDistancia`, with `reading` the sensor's
        value. There is no delay: the timer paces the task. */
    method Tick(reading: U16)
      modifies this
      ensures activate == old(activate) && hold == old(hold)
      ensures old(activate) ==> leds == DistanceLeds(reading, old(leds))
      ensures old(activate) && !old(hold) ==> lcd == old(lcd) + [reading]
      ensures !old(activate) || old(hold) ==> lcd == old(lcd)
      ensures !old(activate) ==> leds == old(leds)
    {
      if activate {
        var distancia := reading;
        leds := Classify(distancia, leds);
        if !hold {
          lcd := lcd + [distancia];
        }
      }
    }

    /** The key callback: SWITCH_1 is registered with `&Activate` and
        SWITCH_2 with `&Hold`; the callback negates the flag it was given. */
    method LeerTeclas(flag: Flag)
      modifies this
      ensures (activate, hold) == Negated(flag, old(activate), old(hold))
      ensures leds == old(leds) && lcd == old(lcd)
    {
      match flag
      case ActivateFlag => activate := !activate;
      case HoldFlag => hold := !hold;
    }
  }
}
