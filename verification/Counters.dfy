// Samples of SNMP counters that wrap at 2^32 or at 2^64, and the difference of two of them when only the values
// are known and not the width.
module Counters {
  const RANGE32: int := 0x1_0000_0000
  const RANGE64: int := 0x1_0000_0000_0000_0000
  const MAX32 := RANGE32 - 1
  const MAX64 := RANGE64 - 1

  // What an operation can be given: another counter, or any other number.
  datatype Number = Counter(value: int) | Other(value: int) {

    // A number that is no counter passes through a signed 64-bit integer.
    function BigInteger(): int {
      if Counter? then value else LongValue(value)
    }
  }

  // Two's complement: the low 64 bits, read as a signed integer.
  function LongValue(n: int): (long: int)
    ensures -RANGE64 / 2 <= long < RANGE64 / 2
    ensures (long - n) % RANGE64 == 0
  {
    (n + RANGE64 / 2) % RANGE64 - RANGE64 / 2
  }

  datatype CounterValue = CounterValue(value: int) {

    function Delta(other: Number): CounterValue {
      var diff := value - other.BigInteger();
      if diff < 0 then
        var diff32 := diff + MAX32 + 1;
        if diff32 < 0 then CounterValue(diff + MAX64 + 1) else CounterValue(diff32)
      else CounterValue(diff)
    }

    function Add(other: Number): CounterValue {
      CounterValue(value + other.BigInteger())
    }
  }

  ////////// One step of a counter

  datatype Width = Bits32 | Bits64 {
    function Range(): (range: int)
      ensures range > 0
    {
      if Bits32? then RANGE32 else RANGE64
    }

    // What the counter shows after counting `total` events in all.
    function Reading(total: nat): CounterValue {
      CounterValue(total % Range())
    }
  }

  // The difference that is computed for a counter that went from one total to another.
  function Measured(width: Width, before: nat, after: nat): int {
    width.Reading(after).Delta(Counter(width.Reading(before).value)).value
  }

  // When the difference is the number of events: it must be less than the range, and where the reading of a 64-bit
  // counter went down it must not come within 2^32 of the range.
  predicate Guessed(width: Width, before: nat, after: nat) {
    && after - before < width.Range()
    && (width.Bits64? && width.Reading(after).value < width.Reading(before).value ==>
          after - before < RANGE64 - RANGE32)
  }

  lemma Turns(total: nat, range: int) returns (k: nat)
    requires range > 0
    ensures total == k * range + total % range
  {
    k := total / range;
  }

  // How far the readings of two totals are apart, as a multiple of the range.
  lemma Wraps(width: Width, before: nat, after: nat) returns (k: int)
    requires before <= after
    ensures k >= 0
    ensures width.Reading(after).value + k * width.Range() - width.Reading(before).value == after - before
    ensures width.Reading(after).value < width.Reading(before).value ==> k >= 1
  {
    var range := width.Range();
    var m := Turns(before, range);
    var n := Turns(after, range);
    k := n - m;
    assert k * range == n * range - m * range;
    assert k == 0 ==> k * range == 0;
  }

  // The guess never counts too many, never counts below zero, and is right exactly when `Guessed` says so.
  lemma DeltaIsExact(width: Width, before: nat, after: nat)
    requires before <= after
    ensures 0 <= Measured(width, before, after) <= after - before
    ensures Measured(width, before, after) == after - before <==> Guessed(width, before, after)
  {
    var k := Wraps(width, before, after);
  }

  // The bound that does not look at the readings: it is enough for both widths, and it is all there is to ask of a
  // 32-bit counter.
  lemma SmallSteps(width: Width, before: nat, after: nat)
    requires before <= after
    requires after - before < if width.Bits32? then RANGE32 else RANGE64 - RANGE32
    ensures Measured(width, before, after) == after - before
  {
    DeltaIsExact(width, before, after);
  }

  // A wrapped 64-bit step beyond the bound is taken for a wrap of a 32-bit counter, and 2^64 - 2^32 events are lost.
  lemma MistakenWidth(before: nat, after: nat)
    requires RANGE64 - RANGE32 <= after - before < RANGE64
    requires Bits64.Reading(after).value < Bits64.Reading(before).value
    ensures Measured(Bits64, before, after) == after - before - (RANGE64 - RANGE32)
  {
    var k := Wraps(Bits64, before, after);
  }

  // An earlier sample that is handed over as a plain number instead of a counter gives the same difference exactly
  // when it fits a signed 64-bit integer, or when the difference takes the 64-bit branch anyway.
  lemma PlainNumber(c: CounterValue, n: int)
    requires 0 <= c.value < RANGE64 && 0 <= n < RANGE64
    ensures c.Delta(Other(n)) == c.Delta(Counter(n)) <==> n < RANGE64 / 2 || c.value - n < -RANGE32
  {
    assert LongValue(n) == if n < RANGE64 / 2 then n else n - RANGE64;
  }

  ////////// Runs of samples

  ghost predicate Counting(totals: seq<nat>) {
    forall i :: 0 < i < |totals| ==> totals[i - 1] <= totals[i]
  }

  function Readings(width: Width, totals: seq<nat>): (readings: seq<CounterValue>)
    ensures |readings| == |totals|
    ensures forall i :: 0 <= i < |totals| ==> readings[i] == width.Reading(totals[i])
  {
    seq(|totals|, i requires 0 <= i < |totals| => width.Reading(totals[i]))
  }

  // The differences of successive samples, added up.
  function Accumulated(samples: seq<CounterValue>): CounterValue {
    if |samples| < 2 then CounterValue(0)
    else
      var last := |samples| - 1;
      Accumulated(samples[..last]).Add(Counter(samples[last].Delta(Counter(samples[last - 1].value)).value))
  }

  function Increase(totals: seq<nat>): int
    requires |totals| > 0
  {
    totals[|totals| - 1] as int - totals[0]
  }

  // Over every run the sum of the differences is at most the true increase, and equals it exactly when every step
  // was guessed right: a lost step is never made up for by another.
  lemma {:induction false} SumOfDeltas(width: Width, totals: seq<nat>)
    requires |totals| > 0 && Counting(totals)
    ensures 0 <= Accumulated(Readings(width, totals)).value <= Increase(totals)
    ensures Accumulated(Readings(width, totals)).value == Increase(totals)
       <==> forall i :: 0 < i < |totals| ==> Guessed(width, totals[i - 1], totals[i])
  {
    var last := |totals| - 1;
    if last > 0 {
      SumOfDeltas(width, totals[..last]);
      DeltaIsExact(width, totals[last - 1], totals[last]);
      assert Readings(width, totals)[..last] == Readings(width, totals[..last]);
      assert Accumulated(Readings(width, totals)).value
          == Accumulated(Readings(width, totals[..last])).value + Measured(width, totals[last - 1], totals[last]);
      assert totals[..last][last - 1] == totals[last - 1];
      assert forall i :: 0 <= i < last ==> totals[..last][i] == totals[i];
    }
  }
}
