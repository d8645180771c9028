/** Exercise 6: a number shown on a 3-digit multiplexed display. Each digit's
    BCD bits go to four shared data pins, then that digit's select pin is
    pulsed on and off. */
module Ejercicio6Proy1 {
  import opened CInts
  import opened Bcd
  import opened Gpio

  /** Fills `bcd[digits-1]` down to `bcd[0]` with successive `data % 10`,
      dividing `data` by 10 after each; with `digits == 0` nothing is written. */
  method ConvertToBcdArray(data: U32, digits: U8, bcd: array<U8>)
    requires digits <= bcd.Length
    modifies bcd
    ensures bcd[..digits] == Digits(data, digits)
    ensures bcd[digits..] == old(bcd[digits..])
  {
    var d: nat := data;
    var i: int := digits - 1;
    while i >= 0
      invariant -1 <= i < digits
      invariant d == data / Pow10(digits - 1 - i)
      invariant bcd[i + 1..digits] == Digits(data, digits - 1 - i)
      invariant bcd[..i + 1] == old(bcd[..i + 1])
      invariant bcd[digits..] == old(bcd[digits..])
    {
      var digito := d % 10;
      DigitsPrepend(data, digits - 1 - i);
      DivDiv(data, Pow10(digits - 1 - i), 10);
      bcd[i] := digito;
      assert bcd[i..digits] == [digito] + bcd[i + 1..digits];
      d := d / 10;
      i := i - 1;
    }
  }

  /** The writes `GPIOOff` makes for each configuration of `confs`, in order. */
  function OffWrites(confs: seq<GpioConf>): (ws: seq<PinWrite>)
  {
    seq(|confs|, k requires 0 <= k < |confs| => PinWrite(confs[k].pin, false))
  }

  /** `Inicializar`: each of the first `iteraciones` pins is initialised with
      its direction and switched off. */
  method Inicializar(confs: seq<GpioConf>, iteraciones: U32, gpio: GpioBank)
    requires iteraciones <= |confs| && gpio.Valid()
    modifies gpio
    ensures gpio.Valid()
    ensures gpio.log == old(gpio.log) + OffWrites(confs[..iteraciones])
    ensures gpio.level == ApplyWrites(old(gpio.level), OffWrites(confs[..iteraciones]))
    ensures gpio.direction == ApplyInits(old(gpio.direction), confs[..iteraciones])
  {
    var i := 0;
    while i < iteraciones
      invariant 0 <= i <= iteraciones
      invariant gpio.Valid() && gpio.startLevel == old(gpio.startLevel)
      invariant gpio.log == old(gpio.log) + OffWrites(confs[..i])
      invariant gpio.direction == ApplyInits(old(gpio.direction), confs[..i])
    {
      gpio.Init(confs[i].pin, confs[i].dir);
      ApplyInitsAppend(old(gpio.direction), confs[..i], confs[i]);
      assert confs[..i + 1] == confs[..i] + [confs[i]];
      gpio.Write(confs[i].pin, false);
      assert OffWrites(confs[..i + 1]) == OffWrites(confs[..i]) + [PinWrite(confs[i].pin, false)];
      i := i + 1;
    }
    ApplyWritesAppend(gpio.startLevel, old(gpio.log), OffWrites(confs[..iteraciones]));
  }

  /** The writes for one digit: its four bits on the data pins, then its
      select pin on and off. */
  function DigitWrites(v: nat, bits: seq<GpioConf>, select: Pin): seq<PinWrite>
    requires |bits| >= 4
  {
    BitWrites(v, bits) + [PinWrite(select, true), PinWrite(select, false)]
  }

  /** The writes for the digits `ds`, digit `i` selected by `lcd[i]`. */
  function DisplayWrites(ds: seq<nat>, bits: seq<GpioConf>, lcd: seq<GpioConf>): seq<PinWrite>
    requires |bits| >= 4 && |ds| <= |lcd|
  {
    if ds == [] then []
    else DisplayWrites(ds[..|ds| - 1], bits, lcd) + DigitWrites(ds[|ds| - 1], bits, lcd[|ds| - 1].pin)
  }

  /** The inner loop of `MostrarDisplay`: drives `bits[j]` with the low bit
      of `bcd[i]` and shifts `bcd[i]` right, four times. */
  method DriveDigitBits(bcd: array<U8>, i: nat, bits: seq<GpioConf>, gpio: GpioBank)
    requires i < bcd.Length && |bits| >= 4 && gpio.Valid()
    modifies bcd, gpio
    ensures gpio.Valid() && gpio.startLevel == old(gpio.startLevel)
    ensures gpio.log == old(gpio.log) + BitWrites(old(bcd[i]), bits)
    ensures gpio.direction == old(gpio.direction)
    ensures bcd[i] == old(bcd[i]) / 16
    ensures forall k :: 0 <= k < bcd.Length && k != i ==> bcd[k] == old(bcd[k])
  {
    ghost var v: nat := bcd[i];
    ghost var ws := BitWrites(v, bits);
    var j := 0;
    while j < 4
      invariant 0 <= j <= 4
      invariant bcd[i] == v / Pow2(j)
      invariant forall k :: 0 <= k < bcd.Length && k != i ==> bcd[k] == old(bcd[k])
      invariant gpio.Valid() && gpio.startLevel == old(gpio.startLevel)
      invariant gpio.log == old(gpio.log) + ws[..j]
      invariant gpio.direction == old(gpio.direction)
    {
      assert ws[j] == PinWrite(bits[j].pin, bcd[i] % 2 == 1);
      gpio.Write(bits[j].pin, bcd[i] % 2 == 1);
      LogSnoc(old(gpio.log), ws, j);
      DivDiv(v, Pow2(j), 2);
      bcd[i] := bcd[i] / 2;
      j := j + 1;
    }
    assert ws[..4] == ws;
    assert Pow2(4) == 16;
  }

  /** `MostrarDisplay`: with more than 3 digits nothing happens; otherwise the
      digits of `data mod 10^digits` are driven out one after another. */
  method MostrarDisplay(data: U32, digits: U8, bits: seq<GpioConf>, lcd: seq<GpioConf>, gpio: GpioBank)
    requires |bits| >= 4 && gpio.Valid()
    requires digits <= 3 ==> digits <= |lcd|
    modifies gpio
    ensures gpio.Valid()
    ensures gpio.direction == old(gpio.direction)
    ensures digits > 3 ==> gpio.log == old(gpio.log) && gpio.level == old(gpio.level)
    ensures digits <= 3 ==>
      gpio.log == old(gpio.log) + DisplayWrites(Digits(data, digits), bits, lcd) &&
      gpio.level == ApplyWrites(old(gpio.level), DisplayWrites(Digits(data, digits), bits, lcd))
  {
    if digits > 3 {
      return;
    }
    var bcd := new U8[digits];
    ConvertToBcdArray(data, digits, bcd);
    ghost var ds: seq<nat> := bcd[..];
    assert ds == bcd[..digits] == Digits(data, digits);
    var i := 0;
    while i < digits
      invariant 0 <= i <= digits
      invariant forall k :: i <= k < digits ==> bcd[k] == ds[k]
      invariant gpio.Valid() && gpio.startLevel == old(gpio.startLevel)
      invariant gpio.log == old(gpio.log) + DisplayWrites(ds[..i], bits, lcd)
      invariant gpio.direction == old(gpio.direction)
    {
      ghost var done := DisplayWrites(ds[..i], bits, lcd);
      DriveDigitBits(bcd, i, bits, gpio);
      gpio.Write(lcd[i].pin, true);
      gpio.Write(lcd[i].pin, false);
      DisplayWritesSnoc(ds, i, bits, lcd);
      SeqAssoc(old(gpio.log), done, BitWrites(ds[i], bits), PinWrite(lcd[i].pin, true), PinWrite(lcd[i].pin, false));
      i := i + 1;
    }
    assert ds[..digits] == ds;
    ApplyWritesAppend(gpio.startLevel, old(gpio.log), DisplayWrites(ds, bits, lcd));
  }

  lemma SeqAssoc<T>(a: seq<T>, b: seq<T>, c: seq<T>, x: T, y: T)
    ensures a + b + c + [x] + [y] == a + (b + c + [x, y])
  {
  }

  lemma DisplayWritesSnoc(ds: seq<nat>, i: nat, bits: seq<GpioConf>, lcd: seq<GpioConf>)
    requires |bits| >= 4 && i < |ds| <= |lcd|
    ensures DisplayWrites(ds[..i + 1], bits, lcd) ==
      DisplayWrites(ds[..i], bits, lcd) + BitWrites(ds[i], bits) + [PinWrite(lcd[i].pin, true), PinWrite(lcd[i].pin, false)]
  {
    assert ds[..i + 1][..i] == ds[..i];
  }

  // ---------------------------------------------------------------------------
  // Properties

  /** Every initialised pin ends off. */
  lemma InitialisedPinsOff(level: map<Pin, bool>, confs: seq<GpioConf>, k: nat)
    requires k < |confs|
    ensures confs[k].pin in ApplyWrites(level, OffWrites(confs))
    ensures !ApplyWrites(level, OffWrites(confs))[confs[k].pin]
  {
    OnlyOffWrites(level, OffWrites(confs), k);
  }

  /** With distinct pins, every initialised pin has its configured direction. */
  lemma InitialisedDirections(dir: map<Pin, IoDir>, confs: seq<GpioConf>, k: nat)
    requires k < |confs| && DistinctPins(confs, |confs|)
    ensures confs[k].pin in ApplyInits(dir, confs)
    ensures ApplyInits(dir, confs)[confs[k].pin] == confs[k].dir
  {
    InitLast(dir, confs, k);
  }

  /** The order of the writes: for digit `i`, its bit j drives `bits[j]`
      (j = 0..3), then `lcd[i]` is switched on and immediately off. */
  lemma {:induction false} DisplayWritesAt(ds: seq<nat>, bits: seq<GpioConf>, lcd: seq<GpioConf>, i: nat)
    requires |bits| >= 4 && |ds| <= |lcd| && i < |ds|
    ensures |DisplayWrites(ds, bits, lcd)| == 6 * |ds|
    ensures forall j :: 0 <= j < 4 ==>
      DisplayWrites(ds, bits, lcd)[6 * i + j] == PinWrite(bits[j].pin, Bit(ds[i], j))
    ensures DisplayWrites(ds, bits, lcd)[6 * i + 4] == PinWrite(lcd[i].pin, true)
    ensures DisplayWrites(ds, bits, lcd)[6 * i + 5] == PinWrite(lcd[i].pin, false)
  {
    var n := |ds|;
    DisplayWritesLength(ds[..n - 1], bits, lcd);
    if i < n - 1 {
      DisplayWritesAt(ds[..n - 1], bits, lcd, i);
    }
  }

  lemma {:induction false} DisplayWritesLength(ds: seq<nat>, bits: seq<GpioConf>, lcd: seq<GpioConf>)
    requires |bits| >= 4 && |ds| <= |lcd|
    ensures |DisplayWrites(ds, bits, lcd)| == 6 * |ds|
  {
    if ds != [] {
      DisplayWritesLength(ds[..|ds| - 1], bits, lcd);
    }
  }

  predicate IsDataPin(bits: seq<GpioConf>, p: Pin)
    requires |bits| >= 4
  {
    exists j :: 0 <= j < 4 && bits[j].pin == p
  }

  /** Every select pin that was pulsed ends off, provided it is not also a
      data pin. */
  lemma {:induction false} SelectPinsEndOff(level: map<Pin, bool>, ds: seq<nat>, bits: seq<GpioConf>, lcd: seq<GpioConf>, k: nat)
    requires |bits| >= 4 && |ds| <= |lcd| && k < |ds|
    requires !IsDataPin(bits, lcd[k].pin)
    ensures lcd[k].pin in ApplyWrites(level, DisplayWrites(ds, bits, lcd))
    ensures !ApplyWrites(level, DisplayWrites(ds, bits, lcd))[lcd[k].pin]
  {
    var n := |ds|;
    var p := lcd[k].pin;
    var prefix := DisplayWrites(ds[..n - 1], bits, lcd);
    var group := DigitWrites(ds[n - 1], bits, lcd[n - 1].pin);
    ApplyWritesAppend(level, prefix, group);
    if lcd[n - 1].pin == p {
      WrittenLast(ApplyWrites(level, prefix), group, 5);
    } else {
      SelectPinsEndOff(level, ds[..n - 1], bits, lcd, k);
      NotWritten(ApplyWrites(level, prefix), group, p);
    }
  }

  /** After the last digit, the data pins hold that digit's bits, provided the
      data pins are distinct and no select pin is a data pin. */
  lemma DataPinsHoldLastDigit(level: map<Pin, bool>, ds: seq<nat>, bits: seq<GpioConf>, lcd: seq<GpioConf>, j: nat)
    requires |bits| >= 4 && DistinctPins(bits, 4) && 1 <= |ds| <= |lcd| && j < 4
    requires forall k :: 0 <= k < |ds| ==> !IsDataPin(bits, lcd[k].pin)
    ensures bits[j].pin in ApplyWrites(level, DisplayWrites(ds, bits, lcd))
    ensures ApplyWrites(level, DisplayWrites(ds, bits, lcd))[bits[j].pin] == Bit(ds[|ds| - 1], j)
  {
    var n := |ds|;
    var prefix := DisplayWrites(ds[..n - 1], bits, lcd);
    var ws := BitWrites(ds[n - 1], bits);
    var sel := [PinWrite(lcd[n - 1].pin, true), PinWrite(lcd[n - 1].pin, false)];
    assert DisplayWrites(ds, bits, lcd) == prefix + ws + sel;
    ApplyWritesAppend(level, prefix + ws, sel);
    ApplyWritesAppend(level, prefix, ws);
    var mid := ApplyWrites(ApplyWrites(level, prefix), ws);
    PinsFollowBits(ApplyWrites(level, prefix), ds[n - 1], bits);
    assert lcd[n - 1].pin != bits[j].pin;
    NotWritten(mid, sel, bits[j].pin);
  }

  /** What a call with 1 <= digits <= 3 leaves behind: the data pins show the
      units digit `data % 10` and every select pin is off. */
  lemma DisplayEndState(level: map<Pin, bool>, data: U32, digits: U8, bits: seq<GpioConf>, lcd: seq<GpioConf>)
    requires 1 <= digits <= 3 && digits <= |lcd| && |bits| >= 4 && DistinctPins(bits, 4)
    requires forall k :: 0 <= k < digits ==> !IsDataPin(bits, lcd[k].pin)
    ensures var after := ApplyWrites(level, DisplayWrites(Digits(data, digits), bits, lcd));
      (forall j :: 0 <= j < 4 ==> bits[j].pin in after && after[bits[j].pin] == Bit(data % 10, j)) &&
      (forall k :: 0 <= k < digits ==> lcd[k].pin in after && !after[lcd[k].pin])
  {
    var ds: seq<nat> := Digits(data, digits);
    LastDigitIsUnits(data, digits);
    forall j | 0 <= j < 4
      ensures bits[j].pin in ApplyWrites(level, DisplayWrites(ds, bits, lcd))
      ensures ApplyWrites(level, DisplayWrites(ds, bits, lcd))[bits[j].pin] == Bit(data % 10, j)
    {
      DataPinsHoldLastDigit(level, ds, bits, lcd, j);
    }
    forall k | 0 <= k < digits
      ensures lcd[k].pin in ApplyWrites(level, DisplayWrites(ds, bits, lcd))
      ensures !ApplyWrites(level, DisplayWrites(ds, bits, lcd))[lcd[k].pin]
    {
      SelectPinsEndOff(level, ds, bits, lcd, k);
    }
  }

  /** The example in `app_main`: 123 on three digits is [1, 2, 3]. */
  lemma ExampleOneTwoThree()
    ensures Digits(123, 3) == [1, 2, 3]
  {
  }
}
