/** The metric abstractions of metrics.go. An averaging metric folds successful samples into a
    running sum and count on every update and, when asked for its value, publishes the rounded
    mean and starts over; a raw metric hands on whatever its collect function returns.
    The sample and collect functions call host libraries, so their answers are inputs here. */
module Metrics {
  import opened Common
  import Decimal
  import Network
  import Cpu
  import Memory

  /** Fractional digits of `strconv.FormatFloat(…, 'f', 2, 64)` in `AverageMetric.GetValue`. */
  const Precision := 2

  /** What the host libraries answer during one update pass. Each sampler reads its own part. */
  datatype Host = Host(
    cpuPercent: Outcome<seq<real>>,
    sensors: Outcome<seq<Cpu.TemperatureStat>>,
    memory: Outcome<real>)

  /** The sample function an averaging metric is built with. */
  datatype Sampler = CpuPercent | ChipsetTemp | RamPercent

  function Sample(s: Sampler, host: Host): Outcome<real> {
    match s
    case CpuPercent => Cpu.GetCPUPercent(host.cpuPercent)
    case ChipsetTemp => Cpu.GetChipsetTemp(host.sensors)
    case RamPercent => Memory.GetRAMPercent(host.memory)
  }

  /** The `sum`/`count` pair of an averaging metric. */
  datatype Accumulator = Accumulator(sum: real, count: int)

  const Empty := Accumulator(0.0, 0)

  /** The state `Update` leaves: a successful sample is added in and counted, a failed one is dropped. */
  function Accumulate(a: Accumulator, s: Outcome<real>): Accumulator {
    if s.Ok() then Accumulator(a.sum + s.value, a.count + 1) else a
  }

  /** The string an average is published as: rounded to tenths, two fractional digits. */
  function FormatAverage(avg: real): string {
    Decimal.FormatTenths(Decimal.RoundTenths(avg), Precision)
  }

  /** What `GetValue` returns together with the state it leaves. */
  datatype Flushed = Flushed(value: Outcome<string>, rest: Accumulator)

  function Flush(name: string, a: Accumulator): Flushed {
    if a.count == 0 then Flushed(Outcome("", Some("no samples for " + name)), a)
    else Flushed(Outcome(FormatAverage(a.sum / (a.count as real)), None), Empty)
  }

  /** The values of the successful samples, in order. */
  function Successes(ss: seq<Outcome<real>>): seq<real> {
    if ss == [] then []
    else
      var last := ss[|ss| - 1];
      Successes(ss[..|ss| - 1]) + (if last.Ok() then [last.value] else [])
  }

  function Sum(xs: seq<real>): real {
    if xs == [] then 0.0 else Sum(xs[..|xs| - 1]) + xs[|xs| - 1]
  }

  function Mean(xs: seq<real>): real
    requires |xs| > 0
  {
    Sum(xs) / (|xs| as real)
  }

  /** The accumulator after a run of updates with the given sample outcomes. */
  function Replay(a: Accumulator, ss: seq<Outcome<real>>): Accumulator {
    if ss == [] then a else Accumulate(Replay(a, ss[..|ss| - 1]), ss[|ss| - 1])
  }

  /** After any run of updates the sum has grown by the successful samples and the count by
      their number: failures leave no trace. */
  lemma {:induction false} ReplayTotals(a: Accumulator, ss: seq<Outcome<real>>)
    ensures Replay(a, ss) == Accumulator(a.sum + Sum(Successes(ss)), a.count + |Successes(ss)|)
  {
    if ss != [] {
      var n := |ss| - 1;
      ReplayTotals(a, ss[..n]);
      var xs := Successes(ss[..n]);
      if ss[n].Ok() {
        assert Successes(ss) == xs + [ss[n].value];
        assert (xs + [ss[n].value])[..|xs|] == xs;
      } else {
        assert Successes(ss) == xs;
      }
    }
  }

  /** Starting from nothing, a value is published exactly when some sample succeeded, it is the
      rounded mean of the successful samples, and the metric is left empty. */
  lemma ReplayThenFlush(name: string, ss: seq<Outcome<real>>)
    ensures |Successes(ss)| > 0 ==>
      Flush(name, Replay(Empty, ss)) == Flushed(Outcome(FormatAverage(Mean(Successes(ss))), None), Empty)
    ensures |Successes(ss)| == 0 ==>
      Flush(name, Replay(Empty, ss)) == Flushed(Outcome("", Some("no samples for " + name)), Empty)
  {
    ReplayTotals(Empty, ss);
  }

  /** The states an averaging metric can be in: a count of zero means nothing has been added. */
  predicate Consistent(a: Accumulator) {
    a.count >= 0 && (a.count == 0 ==> a.sum == 0.0)
  }

  lemma {:induction false} ReplayConsistent(a: Accumulator, ss: seq<Outcome<real>>)
    requires Consistent(a)
    ensures Consistent(Replay(a, ss))
  {
    if ss != [] {
      ReplayConsistent(a, ss[..|ss| - 1]);
    }
  }

  /** `GetValue` always leaves an empty metric behind (having reset it, or having found it
      empty), so a second `GetValue` fails until a sample succeeds, and whatever is published
      next reflects only the samples taken after the first call. */
  lemma NoCarryOver(name: string, a: Accumulator, ss: seq<Outcome<real>>)
    requires Consistent(a)
    ensures Flush(name, a).rest == Empty
    ensures !Flush(name, Flush(name, a).rest).value.Ok()
    ensures Flush(name, Replay(Flush(name, a).rest, ss)) == Flush(name, Replay(Empty, ss))
  {
  }

  /** Three updates sampling 10, 20 and 33 publish "21.00". */
  lemma AverageOfThreeSamples()
    ensures Flush("cpu_utilization_percent",
      Replay(Empty, [Outcome(10.0, None), Outcome(20.0, None), Outcome(33.0, None)])).value
      == Outcome("21.00", None)
  {
    var ss: seq<Outcome<real>> := [Outcome(10.0, None), Outcome(20.0, None), Outcome(33.0, None)];
    var none: seq<Outcome<real>> := [];
    assert ss[..1][..0] == none;
    assert Successes(ss[..1]) == [10.0];
    assert ss[..2][..1] == ss[..1];
    assert Successes(ss[..2]) == [10.0, 20.0];
    assert Successes(ss) == [10.0, 20.0, 33.0];
    assert Mean([10.0, 20.0, 33.0]) == 21.0 by {
      assert [10.0, 20.0, 33.0][..2] == [10.0, 20.0];
      assert [10.0, 20.0][..1] == [10.0];
      assert Sum([10.0, 20.0, 33.0]) == 63.0;
    }
    ReplayThenFlush("cpu_utilization_percent", ss);
    assert FormatAverage(21.0) == "21.00" by {
      assert Decimal.RoundTenths(21.0) == 210 by {
        Decimal.RoundingIsUnique(210.0, 210);
      }
      assert Decimal.FormatUint(21) == "21" by {
        assert Decimal.FormatUint(2) == "2";
        assert Decimal.DigitChar(1) == '1';
      }
      assert Decimal.DigitChar(0) == '0';
      assert Decimal.Zeros(1) == "0";
    }
  }

  /** `AverageMetric`: a named metric whose `sum` and `count` the monitor updates in place. */
  class AverageMetric {
    const name: string
    const sampler: Sampler
    var sum: real
    var count: int
    /** The successful samples folded in since the last successful `GetValue`. */
    ghost var samples: seq<real>

    ghost predicate Valid()
      reads this
    {
      count == |samples| && sum == Sum(samples)
    }

    function State(): Accumulator
      reads this
    {
      Accumulator(sum, count)
    }

    constructor (name: string, sampler: Sampler)
      ensures this.name == name && this.sampler == sampler
      ensures Valid() && samples == [] && State() == Empty
    {
      this.name := name;
      this.sampler := sampler;
      sum := 0.0;
      count := 0;
      samples := [];
    }

    /** Samples once: a success is added to `sum` and counted, a failure changes nothing. */
    method Update(host: Host)
      requires Valid()
      modifies this
      ensures Valid()
      ensures State() == Accumulate(old(State()), Sample(sampler, host))
      ensures samples == if Sample(sampler, host).Ok()
        then old(samples) + [Sample(sampler, host).value] else old(samples)
    {
      var s := Sample(sampler, host);
      if s.Ok() {
        sum := sum + s.value;
        count := count + 1;
        samples := samples + [s.value];
        assert samples[..|samples| - 1] == old(samples);
      }
    }

    /** With no samples, an error and no change; otherwise the formatted mean of the samples,
        and the metric starts over. */
    method GetValue() returns (r: Outcome<string>)
      requires Valid()
      modifies this
      ensures Valid()
      ensures Flushed(r, State()) == Flush(name, old(State()))
      ensures old(samples) == [] ==> r == Outcome("", Some("no samples for " + name)) && unchanged(this)
      ensures old(samples) != [] ==> r == Outcome(FormatAverage(Mean(old(samples))), None)
      ensures samples == []
    {
      if count == 0 {
        return Outcome("", Some("no samples for " + name));
      }
      var avg := sum / (count as real);
      sum := 0.0;
      count := 0;
      samples := [];
      r := Outcome(FormatAverage(avg), None);
    }
  }

  /** `RawMetric`: a name and a collect function (one of the network counters); no state. */
  datatype RawMetric = RawMetric(name: string, collector: Network.Direction) {
    /** Exactly what the collect function returns for the counter query `q`. */
    method GetValue(q: Outcome<seq<Network.IOCounter>>) returns (r: Outcome<string>)
      ensures r == Network.CollectedBytes(q, collector)
    {
      r := Network.CollectBytes(q, collector);
    }
  }

  /** An element of the monitor's metric list: every metric can be sent, and those built as
      averaging metrics can also be updated. */
  datatype Metric = Average(avg: AverageMetric) | Raw(raw: RawMetric) {
    function Name(): string {
      match this
      case Average(m) => m.name
      case Raw(r) => r.name
    }
  }
}
