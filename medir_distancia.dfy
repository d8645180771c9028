/** Distance meter with polled keys: the `MedirDistancia` and `LeerTeclas`
    tasks, one loop pass per method. */
module MedirDistancia {
  import opened CInts
  import opened Board

  /** The values `SwitchesRead` reports for SWITCH_1 and SWITCH_2 pressed alone. */
  const Switch1: U8 := 1
  const Switch2: U8 := 2

  /** The delay at the end of each pass of the two tasks, in milliseconds. */
  const PeriodoMedicionMs: nat := 1000
  const PeriodoTeclasMs: nat := 300

  /** The globals `Activate` and `Hold` and the state of the LEDs, the display
      and the delays the tasks issue. */
  class Medidor {
    var activate: bool
    var hold: bool
    var leds: Leds
    /** Every value written to the display, in order. */
    var lcd: seq<U16>
    var delays: seq<nat>

    /** The state `app_main` leaves: both flags false and the LEDs off. */
    constructor ()
      ensures !activate && !hold && leds == AllOff && lcd == [] && delays == []
    {
      activate, hold, leds, lcd, delays := false, false, AllOff, [], [];
    }

    /** One pass of `MedirDistancia`, with `reading` the sensor's value. When
        Activate is set, the LEDs follow the distance classifier and the
        display shows the reading unless Hold is set; every pass ends with a
        1000 ms delay. */
    method Tick(reading: U16)
      modifies this
      ensures activate == old(activate) && hold == old(hold)
      ensures old(activate) ==> leds == DistanceLeds(reading, old(leds))
      ensures old(activate) && !old(hold) ==> lcd == old(lcd) + [reading]
      ensures !old(activate) || old(hold) ==> lcd == old(lcd)
      ensures !old(activate) ==> leds == old(leds)
      ensures delays == old(delays) + [PeriodoMedicionMs]
    {
      if activate {
        var distancia := reading;
        leds := Classify(distancia, leds);
        if !hold {
          lcd := lcd + [distancia];
        }
      }
      delays := delays + [PeriodoMedicionMs];
    }

    /** One pass of `LeerTeclas`, with `teclas` the value `SwitchesRead`
        returned: SWITCH_1 negates Activate, SWITCH_2 negates Hold, any other
        value changes neither; every pass ends with a 300 ms delay. */
    method LeerTeclas(teclas: U8)
      modifies this
      ensures teclas == Switch1 ==> (activate, hold) == Negated(ActivateFlag, old(activate), old(hold))
      ensures teclas == Switch2 ==> (activate, hold) == Negated(HoldFlag, old(activate), old(hold))
      ensures teclas != Switch1 && teclas != Switch2 ==> activate == old(activate) && hold == old(hold)
      ensures leds == old(leds) && lcd == old(lcd)
      ensures delays == old(delays) + [PeriodoTeclasMs]
    {
      if teclas == Switch1 {
        activate := !activate;
      } else if teclas == Switch2 {
        hold := !hold;
      }
      delays := delays + [PeriodoTeclasMs];
    }
  }
}
