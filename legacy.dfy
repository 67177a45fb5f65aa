/** The earlier, monolithic monitor of main.go. One map from metric key to a running sum and
    one shared `updateCounter` replace the metric objects; network traffic is reported as a
    rate, computed from the difference between the current counter totals and the totals
    remembered from the previous pass. A send pass publishes `sum / updateCounter` for every
    key, in map order, and resets every key and the counter. */
module Legacy {
  import opened Common
  import Decimal
  import Network
  import Cpu
  import Metrics

  const MqttPort: nat := 1883
  const RoundingPrecision := 1

  /** The five keys `maybeUpdateMetrics` collects under; `Name` is the key string, which
      becomes the end of the topic. */
  datatype Key = TempKey | CpuKey | RamKey | SentKey | ReceivedKey {
    function Name(): string {
      match this
      case TempKey => "k10_temperature_celsius"
      case CpuKey => "cpu_utilization_percent"
      case RamKey => "ram_used_percent"
      case SentKey => "network_mbps_sent"
      case ReceivedKey => "network_mbps_received"
    }
  }

  /** Different keys are published under different topics. */
  lemma TopicsDistinct(prefix: string, a: Key, b: Key)
    requires a != b
    ensures prefix + a.Name() != prefix + b.Name()
  {
    assert (prefix + a.Name())[|prefix|..] == a.Name();
    assert (prefix + b.Name())[|prefix|..] == b.Name();
  }

  /** The keys every completed update pass collects; the CPU key is collected only when the
      percent list is non-empty. */
  const EveryPassKeys := {TempKey, RamKey, SentKey, ReceivedKey}

  // ---------------------------------------------------------------------------------------
  // Sources

  /** `getChipsetTemp`: the temperature of the first "k10temp" sensor, and 0 when the query
      fails, returns nothing or has no such sensor. */
  method GetChipsetTemp(q: Outcome<seq<Cpu.TemperatureStat>>) returns (t: real)
    ensures t == Cpu.GetChipsetTemp(q).value
    ensures (!q.Ok() || forall j :: 0 <= j < |q.value| ==> q.value[j].sensorKey != Cpu.ChipsetSensorKey) ==> t == 0.0
  {
    if !q.Ok() || |q.value| == 0 {
      return 0.0;
    }
    var i := 0;
    while i < |q.value|
      invariant 0 <= i <= |q.value|
      invariant forall j :: 0 <= j < i ==> q.value[j].sensorKey != Cpu.ChipsetSensorKey
    {
      if q.value[i].sensorKey == Cpu.ChipsetSensorKey {
        assert Cpu.ChipsetSensorIndex(q.value) == i;
        return q.value[i].temperature;
      }
      i := i + 1;
    }
    t := 0.0;
  }

  /** Megabits per second from a byte delta: `(total - last) * 8 / 1e6`. */
  function Rate(total: real, last: real): real {
    (total - last) * 8.0 / 1000000.0
  }

  /** What `getNetworkMetrics` reports and remembers. */
  datatype NetworkSample = NetworkSample(mbpsSent: real, mbpsReceived: real, lastBytesSent: real, lastBytesReceived: real)

  /** On a failed or empty counter query, rates of 0 and the remembered totals kept; otherwise
      the rates against the remembered totals, and the new totals remembered. */
  function NetworkDelta(q: Outcome<seq<Network.IOCounter>>, lastSent: real, lastReceived: real): NetworkSample {
    if !q.Ok() || |q.value| == 0 then NetworkSample(0.0, 0.0, lastSent, lastReceived)
    else
      var sent := Network.TotalBytes(q.value, Network.Sent) as real;
      var received := Network.TotalBytes(q.value, Network.Received) as real;
      NetworkSample(Rate(sent, lastSent), Rate(received, lastReceived), sent, received)
  }

  /** A run of `getNetworkMetrics` calls over the counter queries `qs`, starting from the
      remembered totals `lastSent` and `lastReceived`: the rates reported, summed over the run,
      and the totals remembered at its end. */
  function NetworkRun(qs: seq<Outcome<seq<Network.IOCounter>>>, lastSent: real, lastReceived: real): NetworkSample {
    if qs == [] then NetworkSample(0.0, 0.0, lastSent, lastReceived)
    else
      var before := NetworkRun(qs[..|qs| - 1], lastSent, lastReceived);
      var d := NetworkDelta(qs[|qs| - 1], before.lastBytesSent, before.lastBytesReceived);
      NetworkSample(before.mbpsSent + d.mbpsSent, before.mbpsReceived + d.mbpsReceived, d.lastBytesSent, d.lastBytesReceived)
  }

  /** The rates of successive calls add up to the rate between the first remembered totals and
      the last ones: no traffic is counted twice or lost between passes, and a failed or empty
      query neither reports traffic nor loses any. */
  lemma {:induction false} RatesTelescope(qs: seq<Outcome<seq<Network.IOCounter>>>, lastSent: real, lastReceived: real)
    ensures NetworkRun(qs, lastSent, lastReceived).mbpsSent
      == Rate(NetworkRun(qs, lastSent, lastReceived).lastBytesSent, lastSent)
    ensures NetworkRun(qs, lastSent, lastReceived).mbpsReceived
      == Rate(NetworkRun(qs, lastSent, lastReceived).lastBytesReceived, lastReceived)
  {
    if qs != [] {
      RatesTelescope(qs[..|qs| - 1], lastSent, lastReceived);
    }
  }

  // ---------------------------------------------------------------------------------------
  // The accumulator map

  function Lookup(m: map<Key, real>, key: Key): real {
    if key in m then m[key] else 0.0
  }

  /** `metricValues[key] += value`. */
  function Collect(m: map<Key, real>, key: Key, value: real): map<Key, real> {
    m[key := Lookup(m, key) + value]
  }

  /** Collecting adds the value to the key's sum, a missing key counting as 0, and leaves every
      other key and its sum as they were. */
  lemma CollectSpec(m: map<Key, real>, key: Key, value: real)
    ensures Collect(m, key, value).Keys == m.Keys + {key}
    ensures Collect(m, key, value)[key] == Lookup(m, key) + value
    ensures forall k :: k in m && k != key ==> Collect(m, key, value)[k] == m[k]
  {
  }

  /** Collecting twice under one key adds both values. */
  lemma CollectAdds(m: map<Key, real>, key: Key, x: real, y: real)
    ensures Collect(Collect(m, key, x), key, y) == Collect(m, key, x + y)
  {
  }

  /** Collections under different keys do not interfere: their order does not matter. */
  lemma CollectCommutes(m: map<Key, real>, a: Key, x: real, b: Key, y: real)
    requires a != b
    ensures Collect(Collect(m, a, x), b, y) == Collect(Collect(m, b, y), a, x)
  {
  }

  /** A Go float64 division of a sum by an update count of zero gives NaN, +Inf or -Inf, which
      `FormatFloat` renders as these words. */
  function DivisionByZero(value: real): string {
    if value == 0.0 then "NaN" else if value > 0.0 then "+Inf" else "-Inf"
  }

  /** The payload of one key: the mean over the update passes, rounded to tenths and rendered
      with `HWMON_ROUNDING_PRECISION` fractional digits. */
  function Payload(value: real, counter: int): string {
    if counter == 0 then DivisionByZero(value)
    else Decimal.FormatTenths(Decimal.RoundTenths(value / (counter as real)), RoundingPrecision)
  }

  /** A payload after at least one update reads back as the rounded mean, with one digit. */
  lemma PayloadReadsBack(value: real, counter: int)
    requires counter != 0
    ensures Decimal.ParseTenths(Payload(value, counter), RoundingPrecision)
      == Some(Decimal.RoundTenths(value / (counter as real)))
  {
    Decimal.FormatTenthsRoundTrip(Decimal.RoundTenths(value / (counter as real)), RoundingPrecision);
  }

  /** The same rounded mean reaches the broker with one digit less from this monitor than from
      the averaging metrics of `metrics.go`. */
  lemma PayloadPrecisionDiffers(value: real, counter: int)
    requires counter != 0
    ensures Metrics.FormatAverage(value / (counter as real)) == Payload(value, counter) + "0"
  {
    Decimal.PrecisionDiffers(Decimal.RoundTenths(value / (counter as real)));
  }

  /** A message handed to the client: the result of `Publish` is not examined. */
  datatype Message = Message(topic: string, payload: string)

  // ---------------------------------------------------------------------------------------
  // The update pass and its bookkeeping

  /** The sums after the collections that precede the memory query: the chipset temperature,
      then the first CPU percentage if the list has one. */
  function SensorValues(values: map<Key, real>, host: Metrics.Host): map<Key, real> {
    var afterTemp := Collect(values, TempKey, Cpu.GetChipsetTemp(host.sensors).value);
    var cpu := host.cpuPercent.value;
    if |cpu| > 0 then Collect(afterTemp, CpuKey, cpu[0]) else afterTemp
  }

  /** The sums after a completed update pass with network sample `d`. */
  function PassValues(values: map<Key, real>, host: Metrics.Host, d: NetworkSample): map<Key, real> {
    var afterSensors := SensorValues(values, host);
    Collect(Collect(Collect(afterSensors, RamKey, host.memory.value), SentKey, d.mbpsSent), ReceivedKey, d.mbpsReceived)
  }

  /** The values collected under `key` since the last send pass (none for a key not yet seen). */
  function SamplesOf(samples: map<Key, seq<real>>, key: Key): seq<real> {
    if key in samples then samples[key] else []
  }

  /** The record of one `collectMetric` call: `value` joins the key's samples. */
  function Record(samples: map<Key, seq<real>>, key: Key, value: real): map<Key, seq<real>> {
    samples[key := SamplesOf(samples, key) + [value]]
  }

  /** The samples recorded by the collections before the memory query (mirrors `SensorValues`). */
  function SensorSamples(samples: map<Key, seq<real>>, host: Metrics.Host): map<Key, seq<real>> {
    var afterTemp := Record(samples, TempKey, Cpu.GetChipsetTemp(host.sensors).value);
    var cpu := host.cpuPercent.value;
    if |cpu| > 0 then Record(afterTemp, CpuKey, cpu[0]) else afterTemp
  }

  /** The samples recorded by a completed update pass (mirrors `PassValues`). */
  function PassSamples(samples: map<Key, seq<real>>, host: Metrics.Host, d: NetworkSample): map<Key, seq<real>> {
    var afterSensors := SensorSamples(samples, host);
    Record(Record(Record(afterSensors, RamKey, host.memory.value), SentKey, d.mbpsSent), ReceivedKey, d.mbpsReceived)
  }

  /** Every key's running sum is the sum of the values collected under it, and no other keys
      have sums. */
  predicate SumsMatch(values: map<Key, real>, samples: map<Key, seq<real>>) {
    && values.Keys == samples.Keys
    && forall k :: k in samples ==> values[k] == Metrics.Sum(samples[k])
  }

  /** What the monitor keeps true between passes: the sums are the sums of the collected values;
      no key has been collected more often than there were update passes; the keys every pass
      collects have been collected exactly once per pass. */
  predicate Bookkeeping(values: map<Key, real>, counter: int, samples: map<Key, seq<real>>) {
    && counter >= 0
    && SumsMatch(values, samples)
    && (forall k :: k in samples ==> |samples[k]| <= counter)
    && (forall k :: k in EveryPassKeys && counter > 0 ==> k in samples && |samples[k]| == counter)
  }

  /** `collectMetric` keeps each sum equal to the sum of its key's samples. */
  lemma CollectMatches(values: map<Key, real>, samples: map<Key, seq<real>>, key: Key, value: real)
    requires SumsMatch(values, samples)
    ensures SumsMatch(Collect(values, key, value), Record(samples, key, value))
  {
    var xs := SamplesOf(samples, key);
    assert (xs + [value])[..|xs|] == xs;
  }

  /** Recording a value adds one sample to its key and none to any other. */
  lemma RecordLength(samples: map<Key, seq<real>>, key: Key, value: real, k: Key)
    ensures |SamplesOf(Record(samples, key, value), k)| == |SamplesOf(samples, k)| + (if k == key then 1 else 0)
  {
  }

  /** The collections before the memory query keep the sums matched to the samples. */
  lemma SensorRecords(values: map<Key, real>, samples: map<Key, seq<real>>, host: Metrics.Host)
    requires SumsMatch(values, samples)
    ensures SumsMatch(SensorValues(values, host), SensorSamples(samples, host))
  {
    var t := Cpu.GetChipsetTemp(host.sensors).value;
    CollectMatches(values, samples, TempKey, t);
    if |host.cpuPercent.value| > 0 {
      CollectMatches(Collect(values, TempKey, t), Record(samples, TempKey, t), CpuKey, host.cpuPercent.value[0]);
    }
  }

  /** A completed update pass keeps the sums matched to the samples. */
  lemma PassRecords(values: map<Key, real>, samples: map<Key, seq<real>>, host: Metrics.Host, d: NetworkSample)
    requires SumsMatch(values, samples)
    ensures SumsMatch(PassValues(values, host, d), PassSamples(samples, host, d))
  {
    SensorRecords(values, samples, host);
    var v1, s1 := SensorValues(values, host), SensorSamples(samples, host);
    CollectMatches(v1, s1, RamKey, host.memory.value);
    var v2, s2 := Collect(v1, RamKey, host.memory.value), Record(s1, RamKey, host.memory.value);
    CollectMatches(v2, s2, SentKey, d.mbpsSent);
    CollectMatches(Collect(v2, SentKey, d.mbpsSent), Record(s2, SentKey, d.mbpsSent), ReceivedKey, d.mbpsReceived);
  }

  /** A completed update pass adds exactly one sample to each key it collects: every key but the
      CPU key, and the CPU key only when the percent list is non-empty. */
  lemma PassLengths(samples: map<Key, seq<real>>, host: Metrics.Host, d: NetworkSample, k: Key)
    ensures |SamplesOf(PassSamples(samples, host, d), k)| == |SamplesOf(samples, k)|
      + (if k in EveryPassKeys || (k == CpuKey && |host.cpuPercent.value| > 0) then 1 else 0)
  {
    var t := Cpu.GetChipsetTemp(host.sensors).value;
    var s0 := Record(samples, TempKey, t);
    RecordLength(samples, TempKey, t, k);
    var s1 := SensorSamples(samples, host);
    if |host.cpuPercent.value| > 0 {
      RecordLength(s0, CpuKey, host.cpuPercent.value[0], k);
    }
    var s2 := Record(s1, RamKey, host.memory.value);
    RecordLength(s1, RamKey, host.memory.value, k);
    RecordLength(s2, SentKey, d.mbpsSent, k);
    RecordLength(Record(s2, SentKey, d.mbpsSent), ReceivedKey, d.mbpsReceived, k);
  }

  /** A completed update pass keeps the bookkeeping. */
  lemma PassKeepsBookkeeping(values: map<Key, real>, counter: int, samples: map<Key, seq<real>>, host: Metrics.Host, d: NetworkSample)
    requires Bookkeeping(values, counter, samples)
    ensures Bookkeeping(PassValues(values, host, d), counter + 1, PassSamples(samples, host, d))
  {
    PassRecords(values, samples, host, d);
    var s' := PassSamples(samples, host, d);
    forall k | k in s'
      ensures |s'[k]| <= counter + 1
    {
      PassLengths(samples, host, d, k);
    }
    forall k | k in EveryPassKeys
      ensures k in s' && |s'[k]| == counter + 1
    {
      PassLengths(samples, host, d, k);
      assert counter > 0 ==> k in samples;
    }
  }

  /** For every key a pass always collects, what a send pass publishes is the rounded mean of the
      values collected since the last send. */
  lemma PayloadIsMean(values: map<Key, real>, counter: int, samples: map<Key, seq<real>>, k: Key)
    requires Bookkeeping(values, counter, samples) && counter > 0 && k in EveryPassKeys
    ensures k in values && |samples[k]| == counter
    ensures Payload(values[k], counter)
      == Decimal.FormatTenths(Decimal.RoundTenths(Metrics.Mean(samples[k])), RoundingPrecision)
  {
  }

  /** The CPU key is collected only on passes whose percent list was non-empty, but its sum is
      still divided by the number of all passes: a pass without CPU data leaves the CPU key one
      sample further behind `updateCounter`, and the published figure is the sum of the CPU
      samples over all passes, not their mean. */
  lemma CpuKeyMayLag(values: map<Key, real>, counter: int, samples: map<Key, seq<real>>, host: Metrics.Host, d: NetworkSample)
    requires Bookkeeping(values, counter, samples) && |host.cpuPercent.value| == 0
    ensures |SamplesOf(PassSamples(samples, host, d), CpuKey)| == |SamplesOf(samples, CpuKey)| < counter + 1
    ensures forall k :: k in EveryPassKeys ==> |SamplesOf(PassSamples(samples, host, d), k)| == counter + 1
    ensures CpuKey in PassValues(values, host, d) <==> CpuKey in values
    ensures CpuKey in values ==> PassValues(values, host, d)[CpuKey] == values[CpuKey]
    ensures CpuKey in values ==> (Payload(PassValues(values, host, d)[CpuKey], counter + 1)
      == Decimal.FormatTenths(Decimal.RoundTenths(
           Metrics.Sum(PassSamples(samples, host, d)[CpuKey]) / ((counter + 1) as real)), RoundingPrecision))
  {
    PassKeepsBookkeeping(values, counter, samples, host, d);
    PassLengths(samples, host, d, CpuKey);
    forall k | k in EveryPassKeys
      ensures |SamplesOf(PassSamples(samples, host, d), k)| == counter + 1
    {
      PassLengths(samples, host, d, k);
    }
  }

  /** Two update passes, the first sampling 50% CPU and the second getting no CPU data, make the
      next send pass publish "25.0" for the CPU although the only sample was 50. */
  lemma CpuAverageDiluted(host1: Metrics.Host, host2: Metrics.Host, d1: NetworkSample, d2: NetworkSample)
    requires host1.cpuPercent.value == [50.0] && host2.cpuPercent.value == []
    ensures var values := PassValues(PassValues(map[], host1, d1), host2, d2);
      CpuKey in values && Payload(values[CpuKey], 2) == "25.0"
  {
    var values := PassValues(PassValues(map[], host1, d1), host2, d2);
    assert values[CpuKey] == 50.0;
    assert Decimal.RoundTenths(50.0 / 2.0) == 250 by {
      Decimal.RoundingIsUnique(250.0, 250);
    }
    assert Decimal.FormatUint(25) == "25" by {
      assert Decimal.FormatUint(2) == "2";
      assert Decimal.DigitChar(5) == '5';
    }
    assert Decimal.DigitChar(0) == '0';
    assert Decimal.Zeros(0) == "";
  }

  // ---------------------------------------------------------------------------------------
  // The send pass

  /** `published` is one message per key of `values`, in the order `order` (each key once):
      the payload of the key's sum under `prefix + key`. */
  predicate PublishesAll(prefix: string, values: map<Key, real>, counter: int, published: seq<Message>, order: seq<Key>) {
    && |order| == |published|
    && (forall i, j :: 0 <= i < j < |order| ==> order[i] != order[j])
    && (forall k :: k in order <==> k in values)
    && (forall i :: 0 <= i < |order| ==>
          published[i] == Message(prefix + order[i].Name(), Payload(values[order[i]], counter)))
  }

  /** The sums after a send pass: every key kept, every sum zero. */
  function Zeroed(values: map<Key, real>): map<Key, real> {
    map k | k in values :: 0.0
  }

  /** The loop of `maybeSendMetrics` over the sums `values`: publishes the payload of every key
      under `prefix + key`, in an order of the map's choosing (`order`), zeroing each key as it
      goes. */
  method PublishAll(prefix: string, values: map<Key, real>, counter: int)
    returns (published: seq<Message>, zeroed: map<Key, real>, ghost order: seq<Key>)
    ensures zeroed == Zeroed(values)
    ensures PublishesAll(prefix, values, counter, published, order)
  {
    published, zeroed, order := [], values, [];
    var keys := values.Keys;
    while keys != {}
      invariant keys <= values.Keys && zeroed.Keys == values.Keys
      invariant forall k :: k in values ==> zeroed[k] == if k in keys then values[k] else 0.0
      invariant |order| == |published|
      invariant forall i, j :: 0 <= i < j < |order| ==> order[i] != order[j]
      invariant forall k :: k in order <==> k in values && k !in keys
      invariant forall i :: 0 <= i < |order| ==>
        published[i] == Message(prefix + order[i].Name(), Payload(values[order[i]], counter))
      decreases keys
    {
      var key :| key in keys;
      var value := zeroed[key];
      published := published + [Message(prefix + key.Name(), Payload(value, counter))];
      zeroed := zeroed[key := 0.0];
      keys := keys - {key};
      order := order + [key];
    }
  }

  // ---------------------------------------------------------------------------------------
  // The monitor's state from one pass to the next

  /** The fields of a monitor that the two passes change, with the ghost record of samples. */
  datatype State = State(
    values: map<Key, real>, samples: map<Key, seq<real>>, counter: int,
    lastUpdate: int, lastSend: int, lastSent: real, lastReceived: real)

  /** The state after `maybeUpdateMetrics` at `now` when the memory query succeeds: nothing if
      the pass is not due; otherwise every collection of the pass, one more pass counted, the
      network totals replaced and the timer at `now`. */
  function AfterUpdate(s: State, interval: int, now: int, host: Metrics.Host, net: Outcome<seq<Network.IOCounter>>): State {
    if !Due(s.lastUpdate, interval, now) then s
    else
      var d := NetworkDelta(net, s.lastSent, s.lastReceived);
      s.(values := PassValues(s.values, host, d), samples := PassSamples(s.samples, host, d),
         counter := s.counter + 1, lastUpdate := now, lastSent := d.lastBytesSent, lastReceived := d.lastBytesReceived)
  }

  /** The state a failed memory query leaves behind: the first two collections only. */
  function AfterCrash(s: State, host: Metrics.Host): State {
    s.(values := SensorValues(s.values, host), samples := SensorSamples(s.samples, host))
  }

  /** The state after `maybeSendMetrics` at `now`: nothing if the pass is not due; otherwise
      every sum zero, the samples forgotten, the counter reset and the timer at `now`. */
  function AfterSend(s: State, interval: int, now: int): State {
    if !Due(s.lastSend, interval, now) then s
    else s.(values := Zeroed(s.values), samples := map k | k in s.samples :: [], counter := 0, lastSend := now)
  }

  /** An update pass that does not crash keeps the sums equal to the sums of the samples, and
      keeps every sample count within the counter. */
  lemma UpdateKeepsBookkeeping(s: State, interval: int, now: int, host: Metrics.Host, net: Outcome<seq<Network.IOCounter>>)
    requires Bookkeeping(s.values, s.counter, s.samples)
    ensures var s' := AfterUpdate(s, interval, now, host, net);
      Bookkeeping(s'.values, s'.counter, s'.samples)
  {
    if Due(s.lastUpdate, interval, now) {
      PassKeepsBookkeeping(s.values, s.counter, s.samples, host, NetworkDelta(net, s.lastSent, s.lastReceived));
    }
  }

  /** A send pass leaves a state that is consistent again: every sum and every sample list empty. */
  lemma SendKeepsBookkeeping(s: State, interval: int, now: int)
    requires Bookkeeping(s.values, s.counter, s.samples)
    ensures var s' := AfterSend(s, interval, now);
      Bookkeeping(s'.values, s'.counter, s'.samples)
  {
    if Due(s.lastSend, interval, now) {
      var s' := AfterSend(s, interval, now);
      forall k | k in s'.samples
        ensures s'.values[k] == Metrics.Sum(s'.samples[k])
      {
        assert s'.samples[k] == [];
      }
    }
  }

  // ---------------------------------------------------------------------------------------
  // The monitor

  class HwMonitor {
    const prefix: string
    const broker: string
    const credentials: Option<Credentials>
    const updateInterval: int
    const sendInterval: int
    var updateCounter: int
    var metricValues: map<Key, real>
    var lastMetricSend: int
    var lastMetricUpdate: int
    var lastBytesSent: real
    var lastBytesReceived: real
    /** The values collected under each key since the last send pass, in order. */
    ghost var samples: map<Key, seq<real>>

    ghost predicate Valid()
      reads this
    {
      Bookkeeping(metricValues, updateCounter, samples)
    }

    /** The fields the two passes change. */
    ghost function Snapshot(): State
      reads this
    {
      State(metricValues, samples, updateCounter, lastMetricUpdate, lastMetricSend, lastBytesSent, lastBytesReceived)
    }

    /** `NewHwMonitor`: the broker address on port 1883, the login if a user is given, and an
        empty accumulator. */
    constructor (mqttPrefix: string, host: string, user: string, password: string, updateInterval: int, sendInterval: int)
      ensures Valid()
      ensures prefix == mqttPrefix && broker == "tcp://" + host + ":1883"
      ensures credentials == if user != "" then Some(Credentials(user, password)) else None
      ensures this.updateInterval == updateInterval && this.sendInterval == sendInterval
      ensures metricValues == map[] && updateCounter == 0
      ensures lastMetricSend == 0 && lastMetricUpdate == 0 && lastBytesSent == 0.0 && lastBytesReceived == 0.0
    {
      prefix := mqttPrefix;
      broker := "tcp://" + host + ":" + Decimal.FormatUint(MqttPort);
      credentials := if user != "" then Some(Credentials(user, password)) else None;
      this.updateInterval := updateInterval;
      this.sendInterval := sendInterval;
      updateCounter := 0;
      metricValues := map[];
      lastMetricSend := 0;
      lastMetricUpdate := 0;
      lastBytesSent := 0.0;
      lastBytesReceived := 0.0;
      samples := map[];
      assert Decimal.FormatUint(MqttPort) == "1883" by {
        assert Decimal.FormatUint(1) == "1";
        assert Decimal.FormatUint(18) == "18";
        assert Decimal.FormatUint(188) == "188";
      }
    }

    /** `collectMetric`: adds the value to the key's sum; the ghost record notes the value. */
    method CollectMetric(key: Key, value: real)
      modifies this`metricValues, this`samples
      ensures metricValues == Collect(old(metricValues), key, value)
      ensures samples == Record(old(samples), key, value)
    {
      samples := Record(samples, key, value);
      metricValues := metricValues[key := (if key in metricValues then metricValues[key] else 0.0) + value];
    }

    /** `getNetworkMetrics`: sums the counters of every entry the query returns and reports
        the rates against the remembered totals, which it then replaces. */
    method GetNetworkMetrics(q: Outcome<seq<Network.IOCounter>>) returns (mbpsSent: real, mbpsReceived: real)
      modifies this`lastBytesSent, this`lastBytesReceived
      ensures NetworkSample(mbpsSent, mbpsReceived, lastBytesSent, lastBytesReceived)
        == NetworkDelta(q, old(lastBytesSent), old(lastBytesReceived))
    {
      if !q.Ok() || |q.value| == 0 {
        return 0.0, 0.0;
      }
      var stats := q.value;
      var totalBytesSent, totalBytesReceived := 0.0, 0.0;
      var i := 0;
      while i < |stats|
        invariant 0 <= i <= |stats|
        invariant totalBytesSent == Network.TotalBytes(stats[..i], Network.Sent) as real
        invariant totalBytesReceived == Network.TotalBytes(stats[..i], Network.Received) as real
      {
        assert stats[..i + 1][..i] == stats[..i];
        totalBytesSent := totalBytesSent + stats[i].bytesSent as real;
        totalBytesReceived := totalBytesReceived + stats[i].bytesRecv as real;
        i := i + 1;
      }
      assert stats[..|stats|] == stats;
      var bytesSentPerSec := totalBytesSent - lastBytesSent;
      var bytesReceivedPerSec := totalBytesReceived - lastBytesReceived;
      lastBytesSent := totalBytesSent;
      lastBytesReceived := totalBytesReceived;
      mbpsSent := (bytesSentPerSec * 8.0) / 1000000.0;
      mbpsReceived := (bytesReceivedPerSec * 8.0) / 1000000.0;
    }

    /** The first collections of `maybeUpdateMetrics`: the chipset temperature, then the first
        CPU percentage if the returned list has one. */
    method CollectSensors(host: Metrics.Host)
      modifies this`metricValues, this`samples
      ensures metricValues == SensorValues(old(metricValues), host)
      ensures samples == SensorSamples(old(samples), host)
    {
      var temp := GetChipsetTemp(host.sensors);
      CollectMetric(TempKey, temp);
      var cpuPercent := host.cpuPercent.value;
      if |cpuPercent| > 0 {
        CollectMetric(CpuKey, cpuPercent[0]);
      }
    }

    /** The remaining collections of `maybeUpdateMetrics`: the memory percentage, then the two
        network rates. */
    method CollectMemoryAndNetwork(memory: real, net: Outcome<seq<Network.IOCounter>>)
      modifies this`metricValues, this`samples, this`lastBytesSent, this`lastBytesReceived
      ensures
        var d := NetworkDelta(net, old(lastBytesSent), old(lastBytesReceived));
        && metricValues == Collect(Collect(Collect(old(metricValues), RamKey, memory), SentKey, d.mbpsSent), ReceivedKey, d.mbpsReceived)
        && samples == Record(Record(Record(old(samples), RamKey, memory), SentKey, d.mbpsSent), ReceivedKey, d.mbpsReceived)
        && lastBytesSent == d.lastBytesSent && lastBytesReceived == d.lastBytesReceived
    {
      CollectMetric(RamKey, memory);
      var mbpsSent, mbpsReceived := GetNetworkMetrics(net);
      CollectMetric(SentKey, mbpsSent);
      CollectMetric(ReceivedKey, mbpsReceived);
    }

    /** `maybeUpdateMetrics`: when due, collects the chipset temperature, the first CPU
        percentage if the returned list has one (the query's error is discarded: whatever list
        comes back with it is what counts), the memory percentage and the two network rates, counts the pass and moves the timer to `now`.
        The memory query's error is ignored and its nil result dereferenced, so a failed memory
        query ends the process (`crashed`) after the first two collections. */
    method MaybeUpdateMetrics(now: int, host: Metrics.Host, net: Outcome<seq<Network.IOCounter>>)
      returns (fired: bool, crashed: bool)
      requires Valid()
      modifies this`metricValues, this`samples, this`updateCounter, this`lastMetricUpdate
      modifies this`lastBytesSent, this`lastBytesReceived
      ensures fired <==> Due(old(lastMetricUpdate), updateInterval, now)
      ensures crashed <==> fired && !host.memory.Ok()
      ensures crashed ==> Snapshot() == AfterCrash(old(Snapshot()), host)
      ensures !crashed ==> Snapshot() == AfterUpdate(old(Snapshot()), updateInterval, now, host, net) && Valid()
    {
      fired := Due(lastMetricUpdate, updateInterval, now);
      crashed := false;
      if !fired {
        return;
      }
      ghost var s0 := Snapshot();
      ghost var d := NetworkDelta(net, lastBytesSent, lastBytesReceived);
      UpdateKeepsBookkeeping(s0, updateInterval, now, host, net);
      CollectSensors(host);
      if !host.memory.Ok() {
        crashed := true;
        return;
      }
      CollectMemoryAndNetwork(host.memory.value, net);
      updateCounter := updateCounter + 1;
      lastMetricUpdate := now;
      assert metricValues == PassValues(s0.values, host, d);
      assert samples == PassSamples(s0.samples, host, d);
    }

    /** `maybeSendMetrics`: when due, publishes under `prefix + key` the payload of every key,
        in an order of the map's choosing (`order`), zeroes every key, resets the counter and
        moves the timer to `now`. When it does not fire nothing changes. */
    method MaybeSendMetrics(now: int) returns (fired: bool, published: seq<Message>, ghost order: seq<Key>)
      requires Valid()
      modifies this`metricValues, this`samples, this`updateCounter, this`lastMetricSend
      ensures fired <==> Due(old(lastMetricSend), sendInterval, now)
      ensures Snapshot() == AfterSend(old(Snapshot()), sendInterval, now) && Valid()
      ensures fired ==> PublishesAll(prefix, old(metricValues), old(updateCounter), published, order)
      ensures !fired ==> published == []
    {
      fired := Due(lastMetricSend, sendInterval, now);
      published, order := [], [];
      if !fired {
        return;
      }
      published, metricValues, order := PublishAll(prefix, metricValues, updateCounter);
      samples := map k | k in samples :: [];
      updateCounter := 0;
      lastMetricSend := now;
    }

    /** `run`: connects once; a refused connection ends the process (`log.Fatalf`). Otherwise
        the send timer and then the update timer start, at two readings of the clock. */
    method Run(connected: bool, sendStart: int, updateStart: int) returns (exited: bool)
      modifies this`lastMetricSend, this`lastMetricUpdate
      ensures exited <==> !connected
      ensures exited ==> unchanged(this)
      ensures !exited ==> lastMetricSend == sendStart && lastMetricUpdate == updateStart
    {
      if !connected {
        return true;
      }
      exited := false;
      lastMetricSend := sendStart;
      lastMetricUpdate := updateStart;
    }

    /** One iteration of the main loop: the update pass, then, unless it ended the process,
        the send pass over the sums the update pass left. */
    method Tick(updateNow: int, sendNow: int, host: Metrics.Host, net: Outcome<seq<Network.IOCounter>>)
      returns (crashed: bool, published: seq<Message>, ghost order: seq<Key>)
      requires Valid()
      modifies this
      ensures crashed <==> Due(old(lastMetricUpdate), updateInterval, updateNow) && !host.memory.Ok()
      ensures crashed ==> published == [] && Snapshot() == AfterCrash(old(Snapshot()), host)
      ensures !crashed ==>
        var mid := AfterUpdate(old(Snapshot()), updateInterval, updateNow, host, net);
        && Valid()
        && Snapshot() == AfterSend(mid, sendInterval, sendNow)
        && (if Due(mid.lastSend, sendInterval, sendNow) then PublishesAll(prefix, mid.values, mid.counter, published, order)
            else published == [])
    {
      var updated: bool;
      updated, crashed := MaybeUpdateMetrics(updateNow, host, net);
      published, order := [], [];
      if crashed {
        return;
      }
      var sent: bool;
      sent, published, order := MaybeSendMetrics(sendNow);
    }
  }

  /** A send pass that fires before any update pass since the last one divides every sum, which
      is zero, by a zero counter and publishes "NaN" for every key. */
  lemma SendWithoutUpdateIsNaN(values: map<Key, real>, samples: map<Key, seq<real>>)
    requires Bookkeeping(values, 0, samples)
    ensures forall k :: k in values ==> Payload(values[k], 0) == "NaN"
  {
    forall k | k in values
      ensures values[k] == 0.0
    {
      assert samples[k] == [];
    }
  }
}
