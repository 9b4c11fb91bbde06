/** The accumulator of source/common/benchmarks.c.  The clock is a parameter: `now` is what now()
    returns. */
module Benchmarks {
  import opened Words

  const INT32_MAX: U64 := 0x7fff_ffff

  datatype Stats = Stats(minimum: U64, maximum: U64, sum: U64, count: Int32)

  const NO_SAMPLES: Stats := Stats(INT32_MAX, 0, 0, 0)

  /** count++, in 32 bits. */
  function Increment(count: Int32): Int32 { if count < 0x7fff_ffff then count + 1 else -0x8000_0000 }

  /** One more sample. */
  function Record(s: Stats, time: U64): Stats {
    Stats(if time < s.minimum then time else s.minimum,
          if time > s.maximum then time else s.maximum,
          Add64(s.sum, time),
          Increment(s.count))
  }

  /** All samples, in the order taken. */
  function Fold(samples: seq<U64>): Stats {
    if samples == [] then NO_SAMPLES
    else Record(Fold(samples[..|samples| - 1]), samples[|samples| - 1])
  }

  lemma FoldAppend(samples: seq<U64>, time: U64)
    ensures Fold(samples + [time]) == Record(Fold(samples), time)
  {
    assert (samples + [time])[..|samples|] == samples;
  }

  function Sum(samples: seq<U64>): nat {
    if samples == [] then 0 else Sum(samples[..|samples| - 1]) + samples[|samples| - 1]
  }

  lemma {:induction false} FoldBounds(samples: seq<U64>)
    ensures forall i :: 0 <= i < |samples| ==> Fold(samples).minimum <= samples[i] <= Fold(samples).maximum
    ensures Fold(samples).minimum <= 0x7fff_ffff
    ensures Fold(samples).minimum == 0x7fff_ffff || Fold(samples).minimum in samples
    ensures Fold(samples).maximum == 0 || Fold(samples).maximum in samples
  {
    if samples != [] {
      var front, last := samples[..|samples| - 1], samples[|samples| - 1];
      FoldBounds(front);
      assert samples == front + [last];
    }
  }

  /** What the fold is.  The minimum is the least sample, or 2^31 - 1 if none is below that; the
      maximum is the greatest, or 0 if there is none. */
  lemma FoldIsSummary(samples: seq<U64>)
    ensures var s := Fold(samples);
            && (forall i :: 0 <= i < |samples| ==> s.minimum <= samples[i] <= s.maximum)
            && (if exists i :: 0 <= i < |samples| && samples[i] < 0x7fff_ffff then s.minimum in samples
                else s.minimum == 0x7fff_ffff)
            && (if samples == [] then s.maximum == 0 else s.maximum in samples)
  {
    FoldBounds(samples);
    if samples != [] { assert samples[0] in samples; }
  }

  /** The number of samples, as far as an int can hold it. */
  lemma {:induction false} FoldCounts(samples: seq<U64>)
    ensures (Fold(samples).count - |samples|) % 0x1_0000_0000 == 0
    ensures |samples| <= 0x7fff_ffff ==> Fold(samples).count == |samples|
  {
    if samples != [] {
      FoldCounts(samples[..|samples| - 1]);
    }
  }

  lemma AddIsModular(x: U64, total: nat, y: U64)
    requires x == total % 0x1_0000_0000_0000_0000
    ensures Add64(x, y) == (total + y) % 0x1_0000_0000_0000_0000
  {
  }

  /** And the sum modulo 2^64. */
  lemma {:induction false} FoldSums(samples: seq<U64>)
    ensures Fold(samples).sum == Sum(samples) % 0x1_0000_0000_0000_0000
  {
    if samples != [] {
      var front, last := samples[..|samples| - 1], samples[|samples| - 1];
      FoldSums(front);
      AddIsModular(Fold(front).sum, Sum(front), last);
    }
  }

  class Benchmarks {
    var totalStart: U64
    var singleStart: U64
    var minimum: U64
    var maximum: U64
    var sum: U64
    var squaredSum: U64
    var count: Int32

    ghost var samples: seq<U64>

    ghost predicate Valid()
      reads this
    {
      Stats(minimum, maximum, sum, count) == Fold(samples)
    }

    /** Storage for a benchmark whose fields have not been set yet. */
    constructor Allocate() {
    }

    /** setup_benchmarks: no samples yet; single_start is not touched. */
    method Setup(now: U64)
      modifies this
      ensures Valid() && samples == [] && totalStart == now && squaredSum == 0
      ensures minimum == 0x7fff_ffff && maximum == 0 && sum == 0 && count == 0
      ensures singleStart == old(singleStart)
    {
      minimum := INT32_MAX;
      maximum := 0;
      sum := 0;
      squaredSum := 0;
      totalStart := now;
      count := 0;
      samples := [];
    }

    /** benchmark: the time since single_start is one more sample. */
    method Benchmark(now: U64)
      requires Valid()
      modifies this`minimum, this`maximum, this`sum, this`count, this`samples
      ensures Valid() && samples == old(samples) + [Sub64(now, singleStart)]
    {
      var time := Sub64(now, singleStart);
      if time < minimum {
        minimum := time;
      }
      if time > maximum {
        maximum := time;
      }
      sum := Add64(sum, time);
      count := Increment(count);
      FoldAppend(samples, time);
      samples := samples + [time];
    }
  }
}
