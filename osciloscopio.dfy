/** ECG playback: the `ConvertirAAnalogico` task body, run once per timer
    notification, which sends the next sample of a 256-entry table to the
    analog output and wraps around at the end. */
module Osciloscopio {
  import opened CInts

  /** `BUFFER_SIZE`. */
  const BufferSize: nat := 256

  /** The `ecg` table: one period of an ECG signal, 256 samples. */
  const Ecg: seq<U8> := [
      17, 17, 17, 17, 17, 17, 17, 17, 17, 17, 17, 18, 18, 18, 17, 17,
      17, 17, 17, 17, 17, 18, 18, 18, 18, 18, 18, 18, 17, 17, 16, 16,
      16, 16, 17, 17, 18, 18, 18, 17, 17, 17, 17, 18, 18, 19, 21, 22,
      24, 25, 26, 27, 28, 29, 31, 32, 33, 34, 34, 35, 37, 38, 37, 34,
      29, 24, 19, 15, 14, 15, 16, 17, 17, 17, 16, 15, 14, 13, 13, 13,
      13, 13, 13, 13, 12, 12, 10, 6, 2, 3, 15, 43, 88, 145, 199, 237,
      252, 242, 211, 167, 117, 70, 35, 16, 14, 22, 32, 38, 37, 32, 27, 24,
      24, 26, 27, 28, 28, 27, 28, 28, 30, 31, 31, 31, 32, 33, 34, 36,
      38, 39, 40, 41, 42, 43, 45, 47, 49, 51, 53, 55, 57, 60, 62, 65,
      68, 71, 75, 79, 83, 87, 92, 97, 101, 106, 111, 116, 121, 125, 129, 133,
      136, 138, 139, 140, 140, 139, 137, 133, 129, 123, 117, 109, 101, 92, 84, 77,
      70, 64, 58, 52, 47, 42, 39, 36, 34, 31, 30, 28, 27, 26, 25, 25,
      25, 25, 25, 25, 25, 25, 24, 24, 24, 24, 25, 25, 25, 25, 25, 25,
      25, 24, 24, 24, 24, 24, 24, 24, 24, 23, 23, 22, 22, 21, 21, 21,
      20, 20, 20, 20, 20, 19, 19, 18, 18, 18, 19, 19, 19, 19, 18, 17,
      17, 18, 18, 18, 18, 18, 18, 18, 18, 17, 17, 17, 17, 17, 17, 17
    ]

  lemma EcgSize()
    ensures |Ecg| == BufferSize
  {
  }

  /** The index a pass reads: `indice`, or 0 once it has reached the end. */
  function ReadIndex(indice: int): (r: nat)
    requires 0 <= indice <= BufferSize
    ensures r < BufferSize && r == indice % BufferSize
  {
    if indice == BufferSize then 0 else indice
  }

  /** The samples of `table` that `k` passes output, starting with `indice`
      at `start`. */
  function Samples(table: seq<U8>, start: int, k: nat): (s: seq<U8>)
    requires |table| == BufferSize && 0 <= start <= BufferSize
    ensures |s| == k
    decreases k
  {
    if k == 0 then [] else [table[ReadIndex(start)]] + Samples(table, ReadIndex(start) + 1, k - 1)
  }

  /** Playback is cyclic: pass `m` outputs sample `(start + m) mod 256`. */
  lemma {:induction false} SamplesCyclic(table: seq<U8>, start: int, k: nat)
    requires |table| == BufferSize && 0 <= start <= BufferSize
    ensures forall m :: 0 <= m < k ==> Samples(table, start, k)[m] == table[(start + m) % BufferSize]
    decreases k
  {
    if k > 0 {
      var next := ReadIndex(start) + 1;
      SamplesCyclic(table, next, k - 1);
      forall m | 0 < m < k
        ensures Samples(table, start, k)[m] == table[(start + m) % BufferSize]
      {
        assert Samples(table, start, k)[m] == Samples(table, next, k - 1)[m - 1];
        ShiftMod(start, m);
      }
    }
  }

  lemma ShiftMod(start: int, m: nat)
    requires 0 <= start <= BufferSize && m >= 1
    ensures (ReadIndex(start) + 1 + (m - 1)) % BufferSize == (start + m) % BufferSize
  {
  }

  /** After 256 passes from index 0 the output repeats. */
  lemma PeriodicPlayback(table: seq<U8>, k: nat, m: nat)
    requires |table| == BufferSize && m + BufferSize < k
    ensures Samples(table, 0, k)[m + BufferSize] == Samples(table, 0, k)[m]
  {
    SamplesCyclic(table, 0, k);
    assert (m + BufferSize) % BufferSize == m % BufferSize;
  }

  /** The read index of pass `n` from index 0 is `n mod 256`, and the
      playback of `n + 1` passes extends that of `n` by its sample. */
  lemma Step(table: seq<U8>, n: nat)
    requires |table| == BufferSize
    ensures var indice := if n == 0 then 0 else (n - 1) % BufferSize + 1;
            0 <= indice <= BufferSize && ReadIndex(indice) == n % BufferSize &&
            Samples(table, 0, n + 1) == Samples(table, 0, n) + [table[n % BufferSize]]
  {
    SamplesCyclic(table, 0, n);
    SamplesCyclic(table, 0, n + 1);
    assert Samples(table, 0, n + 1)[..n] == Samples(table, 0, n);
  }

  class Reproductor {
    /** The `ecg` table. It is a constant: no pass can change it. */
    const ecg: seq<U8>
    /** The global `indice`. */
    var indice: int
    /** Every value written to the analog output, in order. */
    var output: seq<U8>

    /** `indice` stays within the table or one past its end, and the output
        so far is the playback of `ecg` from index 0. */
    ghost predicate Valid()
      reads this
    {
      |ecg| == BufferSize &&
      0 <= indice <= BufferSize &&
      output == Samples(ecg, 0, |output|) &&
      indice == (if output == [] then 0 else (|output| - 1) % BufferSize + 1)
    }

    /** The state before the first pass: the table, `indice` 0, nothing
        output. */
    constructor ()
      ensures Valid() && ecg == Ecg && indice == 0 && output == []
    {
      ecg := Ecg;
      indice, output := 0, [];
    }

    /** One notified pass of `ConvertirAAnalogico`: wrap `indice` at the end of
        the table, output the sample it names and advance it. Pass `n`
        (counting from 0) outputs `ecg[n mod 256]`. */
    method ConvertirAAnalogico()
      requires Valid()
      modifies this
      ensures Valid()
      ensures output == old(output) + [ecg[ReadIndex(old(indice))]]
      ensures indice == ReadIndex(old(indice)) + 1
      ensures output[|output| - 1] == ecg[|old(output)| % BufferSize]
    {
      ghost var n := |output|;
      Step(ecg, n);
      if indice == BufferSize {
        indice := 0;
      }
      var dato := ecg[indice];
      output := output + [dato];
      indice := indice + 1;
    }
  }
}
