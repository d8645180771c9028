/** GPIO pins as abstract state: a level per pin id, a direction per pin id and
    the log of every level written, in order. The driver itself is not
    modelled; each driver call is one update of this state. */
module Gpio {
  import opened Bcd

  type Pin = nat

  /** `io_t`: 0 is input, 1 is output. */
  datatype IoDir = Input | Output

  /** `gpioConf_t`: a pin and its direction. */
  datatype GpioConf = GpioConf(pin: Pin, dir: IoDir)

  /** One `GPIOOn` (`on` true) or `GPIOOff` (`on` false) call. */
  datatype PinWrite = PinWrite(pin: Pin, on: bool)

  /** The levels after performing the writes `ws` in order. */
  function ApplyWrites(level: map<Pin, bool>, ws: seq<PinWrite>): map<Pin, bool>
  {
    if ws == [] then level
    else ApplyWrites(level, ws[..|ws| - 1])[ws[|ws| - 1].pin := ws[|ws| - 1].on]
  }

  /** The directions after initialising the configurations `cs` in order. */
  function ApplyInits(dir: map<Pin, IoDir>, cs: seq<GpioConf>): map<Pin, IoDir>
  {
    if cs == [] then dir
    else ApplyInits(dir, cs[..|cs| - 1])[cs[|cs| - 1].pin := cs[|cs| - 1].dir]
  }

  /** The four writes that put BCD digit `v` on the pins of `confs`: bit j of
      `v` drives `confs[j].pin`, bit 0 first. */
  function BitWrites(v: nat, confs: seq<GpioConf>): (ws: seq<PinWrite>)
    requires |confs| >= 4
  {
    [PinWrite(confs[0].pin, Bit(v, 0)), PinWrite(confs[1].pin, Bit(v, 1)),
     PinWrite(confs[2].pin, Bit(v, 2)), PinWrite(confs[3].pin, Bit(v, 3))]
  }

  predicate DistinctPins(confs: seq<GpioConf>, n: nat)
    requires n <= |confs|
  {
    forall a, b :: 0 <= a < b < n ==> confs[a].pin != confs[b].pin
  }

  class GpioBank {
    var level: map<Pin, bool>
    var direction: map<Pin, IoDir>
    var log: seq<PinWrite>
    /** The levels before the first logged write. */
    ghost var startLevel: map<Pin, bool>

    /** The levels are the result of the logged writes. */
    ghost predicate Valid()
      reads this
    {
      level == ApplyWrites(startLevel, log)
    }

    constructor ()
      ensures Valid()
      ensures level == map[] && direction == map[] && log == []
    {
      level, direction, log := map[], map[], [];
      startLevel := map[];
    }

    /** `GPIOInit(pin, dir)`. */
    method Init(pin: Pin, dir: IoDir)
      requires Valid()
      modifies this
      ensures Valid() && startLevel == old(startLevel)
      ensures direction == old(direction)[pin := dir]
      ensures level == old(level) && log == old(log)
    {
      direction := direction[pin := dir];
    }

    /** `GPIOOn(pin)` (`on` true) and `GPIOOff(pin)` (`on` false). */
    method Write(pin: Pin, on: bool)
      requires Valid()
      modifies this
      ensures Valid() && startLevel == old(startLevel)
      ensures log == old(log) + [PinWrite(pin, on)]
      ensures level == old(level)[pin := on]
      ensures direction == old(direction)
    {
      ApplyWritesSnoc(startLevel, log, PinWrite(pin, on));
      level := level[pin := on];
      log := log + [PinWrite(pin, on)];
    }
  }

  // ---------------------------------------------------------------------------
  // Lemmas about writes

  lemma {:induction false} ApplyWritesAppend(level: map<Pin, bool>, a: seq<PinWrite>, b: seq<PinWrite>)
    ensures ApplyWrites(level, a + b) == ApplyWrites(ApplyWrites(level, a), b)
  {
    if b != [] {
      var n := |b|;
      assert (a + b)[..|a + b| - 1] == a + b[..n - 1];
      ApplyWritesAppend(level, a, b[..n - 1]);
    } else {
      assert a + b == a;
    }
  }

  lemma ApplyWritesSnoc(level: map<Pin, bool>, ws: seq<PinWrite>, w: PinWrite)
    ensures ApplyWrites(level, ws + [w]) == ApplyWrites(level, ws)[w.pin := w.on]
  {
    assert (ws + [w])[..|ws|] == ws;
  }

  /** Appending the next write of `ws` to a log that ends with its first `j`. */
  lemma LogSnoc(log: seq<PinWrite>, ws: seq<PinWrite>, j: nat)
    requires j < |ws|
    ensures log + ws[..j] + [ws[j]] == log + ws[..j + 1]
  {
    assert ws[..j + 1] == ws[..j] + [ws[j]];
  }

  lemma ApplyInitsAppend(dir: map<Pin, IoDir>, cs: seq<GpioConf>, c: GpioConf)
    ensures ApplyInits(dir, cs + [c]) == ApplyInits(dir, cs)[c.pin := c.dir]
  {
    assert (cs + [c])[..|cs|] == cs;
  }

  /** A pin no write names keeps its level (or stays absent). */
  lemma {:induction false} NotWritten(level: map<Pin, bool>, ws: seq<PinWrite>, p: Pin)
    requires forall m :: 0 <= m < |ws| ==> ws[m].pin != p
    ensures p in ApplyWrites(level, ws) <==> p in level
    ensures p in level ==> ApplyWrites(level, ws)[p] == level[p]
  {
    if ws != [] {
      NotWritten(level, ws[..|ws| - 1], p);
    }
  }

  /** A pin ends at the level of the last write that names it. */
  lemma {:induction false} WrittenLast(level: map<Pin, bool>, ws: seq<PinWrite>, k: nat)
    requires k < |ws|
    requires forall m :: k < m < |ws| ==> ws[m].pin != ws[k].pin
    ensures ws[k].pin in ApplyWrites(level, ws)
    ensures ApplyWrites(level, ws)[ws[k].pin] == ws[k].on
  {
    if k < |ws| - 1 {
      WrittenLast(level, ws[..|ws| - 1], k);
    }
  }

  /** A pin that is only ever switched off, and is switched off at least once,
      ends off. */
  lemma {:induction false} OnlyOffWrites(level: map<Pin, bool>, ws: seq<PinWrite>, k: nat)
    requires k < |ws|
    requires forall m :: 0 <= m < |ws| && ws[m].pin == ws[k].pin ==> !ws[m].on
    ensures ws[k].pin in ApplyWrites(level, ws) && !ApplyWrites(level, ws)[ws[k].pin]
  {
    var n := |ws|;
    if k < n - 1 {
      OnlyOffWrites(level, ws[..n - 1], k);
    }
  }

  /** Same for directions: a pin ends with the direction of the last
      configuration that names it. */
  lemma {:induction false} InitLast(dir: map<Pin, IoDir>, cs: seq<GpioConf>, k: nat)
    requires k < |cs|
    requires forall m :: k < m < |cs| ==> cs[m].pin != cs[k].pin
    ensures cs[k].pin in ApplyInits(dir, cs)
    ensures ApplyInits(dir, cs)[cs[k].pin] == cs[k].dir
  {
    if k < |cs| - 1 {
      InitLast(dir, cs[..|cs| - 1], k);
    }
  }

  // ---------------------------------------------------------------------------
  // Lemmas about the bit mapping

  /** With four distinct pins, pin `confs[j].pin` ends on iff bit j of `v` is 1,
      and every other pin keeps its level. */
  lemma PinsFollowBits(level: map<Pin, bool>, v: nat, confs: seq<GpioConf>)
    requires |confs| >= 4 && DistinctPins(confs, 4)
    ensures forall j :: 0 <= j < 4 ==>
      confs[j].pin in ApplyWrites(level, BitWrites(v, confs)) &&
      ApplyWrites(level, BitWrites(v, confs))[confs[j].pin] == Bit(v, j)
    ensures forall p :: p in level && (forall j :: 0 <= j < 4 ==> confs[j].pin != p) ==>
      p in ApplyWrites(level, BitWrites(v, confs)) &&
      ApplyWrites(level, BitWrites(v, confs))[p] == level[p]
  {
    var ws := BitWrites(v, confs);
    forall j | 0 <= j < 4
      ensures confs[j].pin in ApplyWrites(level, ws) && ApplyWrites(level, ws)[confs[j].pin] == Bit(v, j)
    {
      WrittenLast(level, ws, j);
    }
    forall p | p in level && (forall j :: 0 <= j < 4 ==> confs[j].pin != p)
      ensures p in ApplyWrites(level, ws) && ApplyWrites(level, ws)[p] == level[p]
    {
      NotWritten(level, ws, p);
    }
  }

  lemma DivisorOfSixteen(v: nat, p: nat, e: nat)
    requires p >= 1 && p * e == 16 && e % 2 == 0
    ensures (v / p) % 2 == ((v % 16) / p) % 2
  {
    var a, r := v / 16, v % 16;
    var t := r / p;
    assert r == p * t + r % p;
    MulAssociates(p, e, a);
    MulDistributes(p, e * a, t);
    assert v == p * (e * a + t) + r % p;
    DivModUnique(v, p, e * a + t, r % p);
    var h := e / 2;
    MulAssociates(2, h, a);
    assert e * a + t == 2 * (h * a + t / 2) + t % 2;
    DivModUnique(e * a + t, 2, h * a + t / 2, t % 2);
  }

  lemma BitBelowSixteen(v: nat, j: nat)
    requires j < 4
    ensures Bit(v, j) == Bit(v % 16, j)
  {
    if j == 0 {
      DivisorOfSixteen(v, 1, 16);
    } else if j == 1 {
      DivisorOfSixteen(v, 2, 8);
    } else if j == 2 {
      DivisorOfSixteen(v, 4, 4);
    } else {
      assert Pow2(3) == 8;
      DivisorOfSixteen(v, 8, 2);
    }
  }

  /** Bits 4..7 of the value have no effect on the pins. */
  lemma HighBitsIgnored(v: nat, confs: seq<GpioConf>)
    requires |confs| >= 4
    ensures BitWrites(v, confs) == BitWrites(v % 16, confs)
  {
    BitBelowSixteen(v, 0);
    BitBelowSixteen(v, 1);
    BitBelowSixteen(v, 2);
    BitBelowSixteen(v, 3);
  }
}
