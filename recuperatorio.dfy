/** Truck scale entry: the `MedirDistancia` task body, which estimates the
    approach velocity, keeps its maximum and drives the LEDs, and the serial
    callback `LeerPuertoSerie`, which opens and closes the barrier. */
module Recuperatorio {
  import opened CInts
  import opened Board

  /** `PERIODO_MEDICION_DISTANCIA`, the divisor of the velocity. */
  const PeriodoMedicionDistancia: nat := 10000
  /** Velocity is only recomputed for readings below this distance. */
  const DistanciaMinima: nat := 10
  const VelocidadAdvertencia: int := 8
  const VehiculoDetenido: int := 0

  /** The largest velocity the computation can give: (2^32 - 1) / 10000. */
  const VelocidadTope: nat := 429496

  /** `(distancia_inicial - distancia_final) / PERIODO_MEDICION_DISTANCIA`
      on `unsigned int`: the difference wraps modulo 2^32 before the
      division. */
  function Velocidad(inicial: U32, final: U32): (v: nat)
    ensures v <= VelocidadTope
    ensures inicial >= final ==> v == (inicial - final) / PeriodoMedicionDistancia
    ensures inicial < final ==> v == (U32Modulus - (final - inicial)) / PeriodoMedicionDistancia
  {
    SubU32(inicial, final) / PeriodoMedicionDistancia
  }

  /** For sensor readings (below 2^16), the velocity exceeds the warning
      threshold exactly when the reading grew, through the wrap-around, and is
      at most 6 otherwise. */
  lemma VelocidadWraps(inicial: U32, final: U32)
    requires inicial < 0x1_0000 && final < 0x1_0000
    ensures Velocidad(inicial, final) > VelocidadAdvertencia <==> final > inicial
    ensures final <= inicial ==> Velocidad(inicial, final) <= 6
    ensures final > inicial ==> Velocidad(inicial, final) >= 429490
  {
    if final > inicial {
      assert U32Modulus - (final - inicial) >= U32Modulus - 0xFFFF;
    }
  }

  /** Velocity 8 leaves the LEDs alone, but no pair of sensor readings
      produces it. */
  lemma NoVelocityEight(inicial: U32, final: U32)
    requires inicial < 0x1_0000 && final < 0x1_0000
    ensures Velocidad(inicial, final) != VelocidadAdvertencia
  {
    VelocidadWraps(inicial, final);
  }

  /** Example: a reading of 6 after a reading of 5 gives the largest
      velocity. */
  lemma ExampleRising()
    ensures Velocidad(5, 6) == VelocidadTope
  {
  }

  /** The LEDs after the three velocity tests on `v`, starting from `leds`:
      LED_3 above 8, LED_2 between 0 and 8, LED_1 at 0; 8 matches no test. */
  function SpeedLeds(v: int, leds: Leds): (r: Leds)
    requires v >= 0
    ensures v == VelocidadAdvertencia ==> r == leds
    ensures v != VelocidadAdvertencia ==>
      r == [v == VehiculoDetenido, VehiculoDetenido < v < VelocidadAdvertencia, v > VelocidadAdvertencia]
  {
    if v > VelocidadAdvertencia then [false, false, true]
    else if 0 < v < VelocidadAdvertencia then [false, true, false]
    else if v == VehiculoDetenido then [true, false, false]
    else leds
  }

  /** `vehiculo_detenido` after the same tests. */
  function Stopped(v: int, detenido: bool): bool
  {
    if v == VelocidadAdvertencia then detenido else v == VehiculoDetenido
  }

  /** Off velocity 8, exactly one LED is lit, and LED_1 is lit exactly when
      the vehicle is flagged as stopped. */
  lemma OneSpeedLed(v: int, leds: Leds, detenido: bool)
    requires v >= 0 && v != VelocidadAdvertencia
    ensures LitCount(SpeedLeds(v, leds)) == 1
    ensures SpeedLeds(v, leds)[0] == Stopped(v, detenido)
  {
  }

  class Balanza {
    var distanciaInicial: U32
    var distanciaFinal: U32
    var velocidad: int
    var velocidadMax: int
    var vehiculoDetenido: bool
    var leds: Leds
    /** The level of the barrier pin, GPIO_20. */
    var barrera: bool

    /** The velocity is a value the computation can give and never exceeds
        the recorded maximum; the stored distance is a sensor reading. */
    ghost predicate Valid()
      reads this
    {
      0 <= velocidad <= velocidadMax && velocidad <= VelocidadTope && distanciaFinal < 0x1_0000
    }

    /** The state before the first pass: distances, velocity and maximum 0,
        not stopped. The LED and barrier levels the drivers leave are given. */
    constructor (initial: Leds, pin: bool)
      ensures Valid()
      ensures distanciaInicial == 0 && distanciaFinal == 0
      ensures velocidad == 0 && velocidadMax == 0 && !vehiculoDetenido
      ensures leds == initial && barrera == pin
    {
      distanciaInicial, distanciaFinal := 0, 0;
      velocidad, velocidadMax, vehiculoDetenido := 0, 0, false;
      leds, barrera := initial, pin;
    }

    /** One notified pass of `MedirDistancia`, with `reading` the sensor's
        value. */
    method MedirDistancia(reading: U16)
      requires Valid()
      modifies this
      ensures Valid()
      ensures distanciaInicial == old(distanciaFinal) && distanciaFinal == reading
      ensures reading < DistanciaMinima ==> velocidad == Velocidad(old(distanciaFinal), reading)
      ensures reading >= DistanciaMinima ==> velocidad == old(velocidad)
      ensures velocidadMax >= old(velocidadMax)
      ensures velocidadMax == old(velocidadMax) || velocidadMax == velocidad
      ensures leds == SpeedLeds(velocidad, old(leds))
      ensures vehiculoDetenido == Stopped(velocidad, old(vehiculoDetenido))
      ensures barrera == old(barrera)
    {
      distanciaInicial := distanciaFinal;
      distanciaFinal := reading;
      if distanciaFinal < DistanciaMinima {
        velocidad := SubU32(distanciaInicial, distanciaFinal) / PeriodoMedicionDistancia;
      }
      if velocidad > velocidadMax {
        velocidadMax := velocidad;
      }
      var l := leds;
      if velocidad > VelocidadAdvertencia {
        l := l[0 := false][1 := false][2 := true];
        vehiculoDetenido := false;
      }
      if velocidad > 0 && velocidad < VelocidadAdvertencia {
        l := l[0 := false][1 := true][2 := false];
        vehiculoDetenido := false;
      }
      if velocidad == VehiculoDetenido {
        l := l[0 := true][1 := false][2 := false];
        vehiculoDetenido := true;
      }
      leds := l;
    }

    /** The serial receive callback, with `lectura` the byte read: 'o' opens
        the barrier (pin on), 'c' closes it (pin off), any other byte leaves
        it. */
    method LeerPuertoSerie(lectura: U8)
      requires Valid()
      modifies this
      ensures Valid()
      ensures lectura == 'o' as int ==> barrera
      ensures lectura == 'c' as int ==> !barrera
      ensures lectura != 'o' as int && lectura != 'c' as int ==> barrera == old(barrera)
      ensures distanciaInicial == old(distanciaInicial) && distanciaFinal == old(distanciaFinal)
      ensures velocidad == old(velocidad) && velocidadMax == old(velocidadMax)
      ensures vehiculoDetenido == old(vehiculoDetenido) && leds == old(leds)
    {
      if lectura == 'o' as int {
        barrera := true;
      } else if lectura == 'c' as int {
        barrera := false;
      }
    }
  }
}
