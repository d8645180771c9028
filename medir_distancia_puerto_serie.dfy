/** Distance meter that also reports on the serial port: the `MedirDistancia`
    task body with the held value `distancia_hold`, the key callback
    `LeerTeclas` and the serial receive callback `LeerPuertoSerie`. */
module MedirDistanciaPuertoSerie {
  import opened CInts
  import opened Board

  /** The three strings sent for one distance: the number, " cm " and "\r\n". */
  function Record(n: U16): (r: seq<Message>)
    ensures |r| == 3 && r[0] == Number(n)
  {
    [Number(n), Text(" cm "), Text("\r\n")]
  }

  /** Whether `uart` ends with the record of `n`. */
  predicate EndsWithRecord(uart: seq<Message>, n: U16)
  {
    |uart| >= 3 && uart[|uart| - 3..] == Record(n)
  }

  lemma RecordAtEnd(uart: seq<Message>, n: U16)
    ensures EndsWithRecord(uart + Record(n), n)
  {
    assert (uart + Record(n))[|uart|..] == Record(n);
  }

  /** A record names the distance it was built from. */
  lemma RecordInjective(a: U16, b: U16)
    requires Record(a) == Record(b)
    ensures a == b
  {
    assert Record(a)[0] == Record(b)[0];
  }

  class Medidor {
    var activate: bool
    var hold: bool
    var distancia: U16
    var distanciaHold: U16
    var leds: Leds
    /** Every value written to the display, in order. */
    var lcd: seq<U16>
    /** Every string sent to the PC, in order. */
    var uart: seq<Message>

    /** The last distance sent is `distancia_hold`. */
    ghost predicate Valid()
      reads this
    {
      uart == [] || EndsWithRecord(uart, distanciaHold)
    }

    /** The state `app_main` leaves: Activate set, Hold clear, both distances
        0, LEDs off, nothing sent. */
    constructor ()
      ensures Valid()
      ensures activate && !hold && distancia == 0 && distanciaHold == 0
      ensures leds == AllOff && lcd == [] && uart == []
    {
      activate, hold, distancia, distanciaHold := true, false, 0, 0;
      leds, lcd, uart := AllOff, [], [];
    }

    /** One notified pass of `MedirDistancia`, with `reading` the sensor's
        value. When Activate is set the LEDs follow the classifier; without
        Hold the reading is shown, sent and becomes the held value; with Hold
        the held value is sent again and the display is left alone. */
    method Tick(reading: U16)
      requires Valid()
      modifies this
      ensures Valid()
      ensures activate == old(activate) && hold == old(hold)
      ensures old(activate) ==> distancia == reading && leds == DistanceLeds(reading, old(leds))
      ensures old(activate) && !old(hold) ==> distanciaHold == reading && lcd == old(lcd) + [reading]
      ensures old(activate) && old(hold) ==> distanciaHold == old(distanciaHold) && lcd == old(lcd)
      ensures old(activate) ==> uart == old(uart) + Record(distanciaHold)
      ensures !old(activate) ==>
        distancia == old(distancia) && distanciaHold == old(distanciaHold) &&
        leds == old(leds) && lcd == old(lcd) && uart == old(uart)
    {
      if activate {
        distancia := reading;
        leds := Classify(distancia, leds);
        if !hold {
          lcd := lcd + [distancia];
          uart := uart + Record(distancia);
          distanciaHold := distancia;
        } else {
          uart := uart + Record(distanciaHold);
        }
        RecordAtEnd(old(uart), distanciaHold);
      }
    }

    /** The key callback: it negates the flag it was registered with. */
    method LeerTeclas(flag: Flag)
      requires Valid()
      modifies this
      ensures Valid()
      ensures (activate, hold) == Negated(flag, old(activate), old(hold))
      ensures distancia == old(distancia) && distanciaHold == old(distanciaHold)
      ensures leds == old(leds) && lcd == old(lcd) && uart == old(uart)
    {
      match flag
      case ActivateFlag => activate := !activate;
      case HoldFlag => hold := !hold;
    }

    /** The serial receive callback, with `lectura` the byte read: 'O' negates
        Activate and clears Hold, 'H' negates Hold, any other byte changes
        nothing. */
    method LeerPuertoSerie(lectura: U8)
      requires Valid()
      modifies this
      ensures Valid()
      ensures lectura == 'O' as int ==> activate == !old(activate) && !hold
      ensures lectura == 'H' as int ==> activate == old(activate) && hold == !old(hold)
      ensures lectura != 'O' as int && lectura != 'H' as int ==>
        activate == old(activate) && hold == old(hold)
      ensures distancia == old(distancia) && distanciaHold == old(distanciaHold)
      ensures leds == old(leds) && lcd == old(lcd) && uart == old(uart)
    {
      if lectura == 'O' as int {
        activate := !activate;
        hold := false;
      } else if lectura == 'H' as int {
        hold := !hold;
      }
    }
  }
}
