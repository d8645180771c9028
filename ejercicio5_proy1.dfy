/** Exercise 5: `setGpioFromBcd`, one BCD digit onto four GPIO pins. */
module Ejercicio5Proy1 {
  import opened CInts
  import opened Bcd
  import opened Gpio

  /** Initialises each of the first four configured pins with its direction
      and then drives it with the matching bit of `bcd`, bit 0 first. */
  method SetGpioFromBcd(bcd: U8, confs: seq<GpioConf>, gpio: GpioBank)
    requires |confs| >= 4 && gpio.Valid()
    modifies gpio
    ensures gpio.Valid()
    ensures gpio.log == old(gpio.log) + BitWrites(bcd, confs)
    ensures gpio.level == ApplyWrites(old(gpio.level), BitWrites(bcd, confs))
    ensures gpio.direction == ApplyInits(old(gpio.direction), confs[..4])
  {
    var b: nat := bcd;
    var i := 0;
    ghost var ws := BitWrites(bcd, confs);
    while i < 4
      invariant 0 <= i <= 4
      invariant b == bcd / Pow2(i)
      invariant gpio.Valid() && gpio.startLevel == old(gpio.startLevel)
      invariant gpio.log == old(gpio.log) + ws[..i]
      invariant gpio.direction == ApplyInits(old(gpio.direction), confs[..i])
    {
      gpio.Init(confs[i].pin, confs[i].dir);
      ApplyInitsAppend(old(gpio.direction), confs[..i], confs[i]);
      assert confs[..i + 1] == confs[..i] + [confs[i]];
      assert ws[i] == PinWrite(confs[i].pin, b % 2 == 1);
      gpio.Write(confs[i].pin, b % 2 == 1);
      LogSnoc(old(gpio.log), ws, i);
      DivDiv(bcd, Pow2(i), 2);
      b := b / 2;
      i := i + 1;
    }
    assert ws[..4] == ws;
    ApplyWritesAppend(gpio.startLevel, old(gpio.log), ws);
  }

  /** The example in `app_main`: 9 on GPIO_20..GPIO_23 switches GPIO_20 and
      GPIO_23 on and GPIO_21 and GPIO_22 off. */
  lemma ExampleNine(level: map<Pin, bool>)
    ensures var confs := [GpioConf(20, Output), GpioConf(21, Output), GpioConf(22, Output), GpioConf(23, Output)];
            var after := ApplyWrites(level, BitWrites(9, confs));
            20 in after && 21 in after && 22 in after && 23 in after &&
            after[20] && !after[21] && !after[22] && after[23]
  {
    var confs := [GpioConf(20, Output), GpioConf(21, Output), GpioConf(22, Output), GpioConf(23, Output)];
    PinsFollowBits(level, 9, confs);
    assert confs[0].pin == 20 && confs[3].pin == 23;
    assert Pow2(3) == 8;
  }
}
