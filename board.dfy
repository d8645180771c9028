/** State of the course board that the exercises drive through its drivers:
    the three LEDs, the messages sent on a UART, the millisecond arguments of
    `vTaskDelay`, and the 10/20/30 cm classifier shared by the distance
    exercises. The drivers themselves are not modelled. */
module Board {
  /** LED_1, LED_2 and LED_3, in that order; `true` is on. */
  type Leds = s: seq<bool> | |s| == 3 witness [false, false, false]

  /** The state `LedsOffAll` leaves. */
  const AllOff: Leds := [false, false, false]

  /** One `UartSendString` call: the decimal text of a number (`UartItoa(n, 10)`)
      or a literal string. */
  datatype Message = Number(n: nat) | Text(s: string)

  /** The global a key callback was registered with: `&Activate` or `&Hold`. */
  datatype Flag = ActivateFlag | HoldFlag

  /** The Activate and Hold flags after a key callback negates `flag`. */
  function Negated(flag: Flag, activate: bool, hold: bool): (bool, bool)
  {
    match flag
    case ActivateFlag => (!activate, hold)
    case HoldFlag => (activate, !hold)
  }

  /** The callback changes exactly the flag it was given. */
  lemma NegatedChangesOne(flag: Flag, activate: bool, hold: bool)
    ensures var (a, h) := Negated(flag, activate, hold);
            (a != activate <==> flag == ActivateFlag) && (h != hold <==> flag == HoldFlag)
  {
  }

  /** Pressing the same key twice restores both flags. */
  lemma NegatedTwice(flag: Flag, activate: bool, hold: bool)
    ensures var (a, h) := Negated(flag, activate, hold);
            Negated(flag, a, h) == (activate, hold)
  {
  }

  // ---------------------------------------------------------------------------
  // Delay logs

  /** `n` delays of `ms` milliseconds each. */
  function Repeat(ms: nat, n: nat): (s: seq<nat>)
    ensures |s| == n
    ensures forall k :: 0 <= k < n ==> s[k] == ms
  {
    if n == 0 then [] else Repeat(ms, n - 1) + [ms]
  }

  /** The total waiting time of a delay log, in milliseconds. */
  function Total(ds: seq<nat>): nat
  {
    if ds == [] then 0 else Total(ds[..|ds| - 1]) + ds[|ds| - 1]
  }

  lemma {:induction false} TotalRepeat(ms: nat, n: nat)
    ensures Total(Repeat(ms, n)) == ms * n
  {
    if n > 0 {
      var s := Repeat(ms, n);
      assert s[..n - 1] == Repeat(ms, n - 1);
      TotalRepeat(ms, n - 1);
      assert ms * n == ms * (n - 1) + ms;
    }
  }

  /** The delays `d` of one cycle, issued for `i` cycles in a row. */
  function Cycles(d: seq<nat>, i: nat): seq<nat>
  {
    if i == 0 then [] else Cycles(d, i - 1) + d
  }

  lemma {:induction false} TotalAppend(a: seq<nat>, b: seq<nat>)
    ensures Total(a + b) == Total(a) + Total(b)
  {
    if b != [] {
      assert (a + b)[..|a + b| - 1] == a + b[..|b| - 1];
      TotalAppend(a, b[..|b| - 1]);
    } else {
      assert a + b == a;
    }
  }

  lemma {:induction false} TotalCycles(d: seq<nat>, i: nat)
    ensures Total(Cycles(d, i)) == i * Total(d)
  {
    if i > 0 {
      TotalCycles(d, i - 1);
      TotalAppend(Cycles(d, i - 1), d);
      assert i * Total(d) == (i - 1) * Total(d) + Total(d);
    }
  }

  // ---------------------------------------------------------------------------
  // The distance classifier of the three MedirDistancia exercises

  const DistanciaMenor: nat := 10
  const DistanciaMedia: nat := 20
  const DistanciaMaxima: nat := 30

  /** The LEDs after the four strict threshold tests on reading `d`, starting
      from `leds`: below 10 all off, then one more LED for each threshold `d`
      exceeds. A reading equal to a threshold matches no test. */
  function DistanceLeds(d: nat, leds: Leds): (r: Leds)
    ensures d == DistanciaMenor || d == DistanciaMedia || d == DistanciaMaxima ==> r == leds
    ensures d != DistanciaMenor && d != DistanciaMedia && d != DistanciaMaxima ==>
      r == [d > DistanciaMenor, d > DistanciaMedia, d > DistanciaMaxima]
  {
    if d < DistanciaMenor then AllOff
    else if DistanciaMenor < d < DistanciaMedia then [true, false, false]
    else if DistanciaMedia < d < DistanciaMaxima then [true, true, false]
    else if d > DistanciaMaxima then [true, true, true]
    else leds
  }

  /** The four threshold tests of the `MedirDistancia` tasks on `distancia`,
      one after the other, starting from the LED state `leds`. */
  method Classify(distancia: nat, leds: Leds) returns (r: Leds)
    ensures r == DistanceLeds(distancia, leds)
  {
    r := leds;
    if distancia < DistanciaMenor {
      r := AllOff;
    }
    if distancia > DistanciaMenor && distancia < DistanciaMedia {
      r := r[0 := true][1 := false][2 := false];
    }
    if distancia > DistanciaMedia && distancia < DistanciaMaxima {
      r := r[0 := true][1 := true][2 := false];
    }
    if distancia > DistanciaMaxima {
      r := r[0 := true][1 := true][2 := true];
    }
  }

  /** The number of LEDs lit. */
  function LitCount(leds: Leds): nat
  {
    (if leds[0] then 1 else 0) + (if leds[1] then 1 else 0) + (if leds[2] then 1 else 0)
  }

  /** Off a threshold, the lit LEDs are a prefix of LED_1, LED_2, LED_3. */
  lemma DistanceLedsPrefix(d: nat, leds: Leds)
    requires d != DistanciaMenor && d != DistanciaMedia && d != DistanciaMaxima
    ensures var r := DistanceLeds(d, leds); (r[1] ==> r[0]) && (r[2] ==> r[1])
  {
  }

  /** Off the thresholds, a farther reading never lights fewer LEDs. */
  lemma DistanceLedsMonotone(d1: nat, d2: nat, l1: Leds, l2: Leds)
    requires d1 != DistanciaMenor && d1 != DistanciaMedia && d1 != DistanciaMaxima
    requires d2 != DistanciaMenor && d2 != DistanciaMedia && d2 != DistanciaMaxima
    requires d1 <= d2
    ensures LitCount(DistanceLeds(d1, l1)) <= LitCount(DistanceLeds(d2, l2))
  {
  }
}
