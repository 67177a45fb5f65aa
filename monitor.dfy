/** The scheduler of hwmon/monitor.go. A fast update tick samples every averaging metric; a
    slower send tick asks every metric for its value and publishes each value it gets under
    `prefix + name`. Each tick fires once its interval has elapsed and then moves its timer to
    the current time, whatever failed during the pass. The clock, the host libraries' answers
    and the broker's answers to connect and publish are inputs. */
module Monitor {
  import opened Common
  import opened Metrics
  import Network
  import Catalog

  /** One publish of a send pass: topic, payload, and whether the broker acknowledged it. */
  datatype Publication = Publication(topic: string, payload: string, acked: bool)

  /** What a metric of the list looks like to the scheduler: its name and, for an averaging
      metric, its sampler and accumulator. */
  datatype MetricView =
    | AverageView(name: string, sampler: Sampler, acc: Accumulator)
    | RawView(raw: RawMetric)
  {
    function Name(): string {
      match this
      case AverageView(name, _, _) => name
      case RawView(raw) => raw.name
    }
  }

  function ViewOf(m: Metric): MetricView
    reads if m.Average? then {m.avg} else {}
  {
    match m
    case Average(a) => AverageView(a.name, a.sampler, a.State())
    case Raw(r) => RawView(r)
  }

  /** The averaging metrics of a list, the objects its passes update. */
  function AverageObjects(ms: seq<Metric>): set<AverageMetric> {
    set m | m in ms && m.Average? :: m.avg
  }

  /** No averaging metric appears twice in the list. */
  predicate DistinctAverages(ms: seq<Metric>) {
    forall j, k :: 0 <= j < k < |ms| && ms[j].Average? && ms[k].Average? ==> ms[j].avg != ms[k].avg
  }

  ghost predicate AllValid(ms: seq<Metric>)
    reads AverageObjects(ms)
  {
    forall k :: 0 <= k < |ms| && ms[k].Average? ==> ms[k].avg.Valid()
  }

  function ViewsOf(ms: seq<Metric>): (vs: seq<MetricView>)
    reads AverageObjects(ms)
    ensures |vs| == |ms| && forall i :: 0 <= i < |ms| ==> vs[i] == ViewOf(ms[i])
  {
    if ms == [] then [] else ViewsOf(ms[..|ms| - 1]) + [ViewOf(ms[|ms| - 1])]
  }

  // ---------------------------------------------------------------------------------------
  // Splitting the metric list

  /** The updatable metrics of a list: its averaging metrics, in list order. */
  function Updatables(ms: seq<Metric>): seq<AverageMetric> {
    if ms == [] then []
    else
      var last := ms[|ms| - 1];
      Updatables(ms[..|ms| - 1]) + (if last.Average? then [last.avg] else [])
  }

  /** The split keeps the list's order: it distributes over concatenation. */
  lemma {:induction false} UpdatablesAppend(a: seq<Metric>, b: seq<Metric>)
    ensures Updatables(a + b) == Updatables(a) + Updatables(b)
    decreases |b|
  {
    if b == [] {
      assert a + b == a;
    } else {
      var n := |b| - 1;
      assert (a + b)[..|a + b| - 1] == a + b[..n];
      UpdatablesAppend(a, b[..n]);
    }
  }

  /** A metric is updatable exactly when the list holds it as an averaging metric: every
      averaging metric is kept and no raw metric is. */
  lemma {:induction false} UpdatablesMembers(ms: seq<Metric>)
    ensures forall i :: 0 <= i < |Updatables(ms)| ==> Average(Updatables(ms)[i]) in ms
    ensures forall k :: 0 <= k < |ms| && ms[k].Average? ==> ms[k].avg in Updatables(ms)
  {
    if ms != [] {
      var n := |ms| - 1;
      UpdatablesMembers(ms[..n]);
      assert ms == ms[..n] + [ms[n]];
    }
  }

  /** An averaging metric that appears once in the list appears once among its updatables. */
  lemma {:induction false} UpdatablesDistinct(ms: seq<Metric>)
    requires DistinctAverages(ms)
    ensures forall i, j :: 0 <= i < j < |Updatables(ms)| ==> Updatables(ms)[i] != Updatables(ms)[j]
  {
    if ms != [] {
      var n := |ms| - 1;
      UpdatablesDistinct(ms[..n]);
      UpdatablesMembers(ms[..n]);
      if ms[n].Average? {
        var us := Updatables(ms[..n]);
        forall i | 0 <= i < |us|
          ensures us[i] != ms[n].avg
        {
          var k :| 0 <= k < n && ms[..n][k] == Average(us[i]);
          assert ms[k].avg != ms[n].avg;
        }
      }
    }
  }

  /** The loop of `NewHwMonitor` that appends each updatable metric to `updateMetrics`. */
  method SplitUpdatable(metricsList: seq<Metric>) returns (updateMetrics: seq<AverageMetric>)
    ensures updateMetrics == Updatables(metricsList)
  {
    updateMetrics := [];
    var i := 0;
    while i < |metricsList|
      invariant 0 <= i <= |metricsList|
      invariant updateMetrics == Updatables(metricsList[..i])
    {
      assert metricsList[..i + 1][..i] == metricsList[..i];
      if metricsList[i].Average? {
        updateMetrics := updateMetrics + [metricsList[i].avg];
      }
      i := i + 1;
    }
    assert metricsList[..|metricsList|] == metricsList;
  }

  // ---------------------------------------------------------------------------------------
  // The two passes, as functions of the metrics' states

  /** An update pass as seen by one metric: an averaging metric takes one sample, a raw one
      is not updatable. */
  function UpdateView(v: MetricView, host: Host): MetricView {
    match v
    case AverageView(name, sampler, acc) => AverageView(name, sampler, Accumulate(acc, Sample(sampler, host)))
    case RawView(_) => v
  }

  function AfterUpdate(vs: seq<MetricView>, host: Host): (ws: seq<MetricView>)
    ensures |ws| == |vs|
  {
    seq(|vs|, i requires 0 <= i < |vs| => UpdateView(vs[i], host))
  }

  /** What `GetValue` returns for one metric and what the metric looks like afterwards;
      `q` is the counter query a raw metric's collect function makes. */
  datatype Fetched = Fetched(value: Outcome<string>, after: MetricView)

  function Fetch(v: MetricView, q: Outcome<seq<Network.IOCounter>>): Fetched {
    match v
    case AverageView(name, sampler, acc) =>
      var f := Flush(name, acc);
      Fetched(f.value, AverageView(name, sampler, f.rest))
    case RawView(raw) => Fetched(Network.CollectedBytes(q, raw.collector), v)
  }

  /** What `GetValue` returns for each metric of `vs`, `qs[i]` being metric i's counter query. */
  function Values(vs: seq<MetricView>, qs: seq<Outcome<seq<Network.IOCounter>>>): (fs: seq<Outcome<string>>)
    requires |qs| == |vs|
    ensures |fs| == |vs|
  {
    seq(|vs|, i requires 0 <= i < |vs| => Fetch(vs[i], qs[i]).value)
  }

  /** The publishes of a send pass over metrics `vs` whose `GetValue` calls returned `fs`, in
      list order: one per metric whose value is ok, carrying exactly that value under
      `prefix + name`; `acks[i]` is the broker's answer to metric i's publish. */
  function SendPlan(prefix: string, vs: seq<MetricView>, fs: seq<Outcome<string>>, acks: seq<bool>): seq<Publication>
    requires |fs| == |vs| && |acks| == |vs|
  {
    if vs == [] then []
    else
      var n := |vs| - 1;
      SendPlan(prefix, vs[..n], fs[..n], acks[..n])
        + (if fs[n].Ok() then [Publication(prefix + vs[n].Name(), fs[n].value, acks[n])] else [])
  }

  function AfterSend(vs: seq<MetricView>, qs: seq<Outcome<seq<Network.IOCounter>>>): (ws: seq<MetricView>)
    requires |qs| == |vs|
    ensures |ws| == |vs|
  {
    seq(|vs|, i requires 0 <= i < |vs| => Fetch(vs[i], qs[i]).after)
  }

  lemma {:induction false} SendPlanAppend(
    prefix: string,
    vs: seq<MetricView>, fs: seq<Outcome<string>>, acks: seq<bool>,
    vs': seq<MetricView>, fs': seq<Outcome<string>>, acks': seq<bool>)
    requires |fs| == |vs| && |acks| == |vs|
    requires |fs'| == |vs'| && |acks'| == |vs'|
    ensures SendPlan(prefix, vs + vs', fs + fs', acks + acks')
      == SendPlan(prefix, vs, fs, acks) + SendPlan(prefix, vs', fs', acks')
    decreases |vs'|
  {
    if vs' == [] {
      assert vs + vs' == vs && fs + fs' == fs && acks + acks' == acks;
    } else {
      var n := |vs'| - 1;
      var m := |vs + vs'| - 1;
      assert (vs + vs')[..m] == vs + vs'[..n];
      assert (fs + fs')[..m] == fs + fs'[..n];
      assert (acks + acks')[..m] == acks + acks'[..n];
      SendPlanAppend(prefix, vs, fs, acks, vs'[..n], fs'[..n], acks'[..n]);
    }
  }

  /** One more metric extends the plan by its own publish, if any. */
  lemma SendPlanStep(prefix: string, vs: seq<MetricView>, fs: seq<Outcome<string>>, acks: seq<bool>, i: nat)
    requires |fs| == |vs| && |acks| == |vs| && i < |vs|
    ensures SendPlan(prefix, vs[..i + 1], fs[..i + 1], acks[..i + 1])
      == SendPlan(prefix, vs[..i], fs[..i], acks[..i])
        + (if fs[i].Ok() then [Publication(prefix + vs[i].Name(), fs[i].value, acks[i])] else [])
  {
    assert vs[..i + 1][..i] == vs[..i];
    assert fs[..i + 1][..i] == fs[..i];
    assert acks[..i + 1][..i] == acks[..i];
  }

  /** A metric whose `GetValue` fails is skipped and only it: the pass publishes what the
      metrics before it and the metrics after it publish on their own. */
  lemma GetErrorSkipsOnlyThatMetric(
    prefix: string, vs: seq<MetricView>, fs: seq<Outcome<string>>, acks: seq<bool>, i: nat)
    requires |fs| == |vs| && |acks| == |vs| && i < |vs|
    requires !fs[i].Ok()
    ensures SendPlan(prefix, vs, fs, acks)
      == SendPlan(prefix, vs[..i], fs[..i], acks[..i]) + SendPlan(prefix, vs[i + 1..], fs[i + 1..], acks[i + 1..])
  {
    assert vs == vs[..i + 1] + vs[i + 1..];
    assert fs == fs[..i + 1] + fs[i + 1..];
    assert acks == acks[..i + 1] + acks[i + 1..];
    SendPlanAppend(prefix, vs[..i + 1], fs[..i + 1], acks[..i + 1], vs[i + 1..], fs[i + 1..], acks[i + 1..]);
    SendPlanStep(prefix, vs, fs, acks, i);
  }

  /** Failed publishes do not steer the pass: whatever the broker answers, the same topics and
      payloads are attempted in the same order; only the acknowledgements differ. */
  lemma {:induction false} PublishFailuresAreIsolated(
    prefix: string, vs: seq<MetricView>, fs: seq<Outcome<string>>, acks: seq<bool>, acks': seq<bool>)
    requires |fs| == |vs| && |acks| == |vs| && |acks'| == |vs|
    ensures |SendPlan(prefix, vs, fs, acks)| == |SendPlan(prefix, vs, fs, acks')|
    ensures forall i :: 0 <= i < |SendPlan(prefix, vs, fs, acks)| ==>
      SendPlan(prefix, vs, fs, acks)[i].topic == SendPlan(prefix, vs, fs, acks')[i].topic &&
      SendPlan(prefix, vs, fs, acks)[i].payload == SendPlan(prefix, vs, fs, acks')[i].payload
  {
    if vs != [] {
      var n := |vs| - 1;
      PublishFailuresAreIsolated(prefix, vs[..n], fs[..n], acks[..n], acks'[..n]);
    }
  }

  /** When every metric has a value, every metric is published, in list order, under
      `prefix + name`, carrying that value. */
  lemma {:induction false} AllReadyAllPublished(
    prefix: string, vs: seq<MetricView>, fs: seq<Outcome<string>>, acks: seq<bool>)
    requires |fs| == |vs| && |acks| == |vs|
    requires forall i :: 0 <= i < |vs| ==> fs[i].Ok()
    ensures |SendPlan(prefix, vs, fs, acks)| == |vs|
    ensures forall i :: 0 <= i < |vs| ==>
      SendPlan(prefix, vs, fs, acks)[i] == Publication(prefix + vs[i].Name(), fs[i].value, acks[i])
  {
    if vs != [] {
      var n := |vs| - 1;
      AllReadyAllPublished(prefix, vs[..n], fs[..n], acks[..n]);
    }
  }

  /** Update runs before send within a tick, so an averaging metric whose sample succeeded in
      the tick's update pass is published by the tick's send pass, with its new average. */
  lemma FreshSampleIsPublished(
    prefix: string, vs: seq<MetricView>, host: Host,
    qs: seq<Outcome<seq<Network.IOCounter>>>, acks: seq<bool>, k: nat)
    requires |qs| == |vs| && |acks| == |vs| && k < |vs|
    requires vs[k].AverageView? && Consistent(vs[k].acc)
    requires Sample(vs[k].sampler, host).Ok()
    ensures Fetch(AfterUpdate(vs, host)[k], qs[k]).value.Ok()
    ensures Publication(prefix + vs[k].name, Fetch(AfterUpdate(vs, host)[k], qs[k]).value.value, acks[k])
      in SendPlan(prefix, AfterUpdate(vs, host), Values(AfterUpdate(vs, host), qs), acks)
  {
    var ws := AfterUpdate(vs, host);
    var fs := Values(ws, qs);
    assert ws == ws[..k + 1] + ws[k + 1..];
    assert fs == fs[..k + 1] + fs[k + 1..];
    assert acks == acks[..k + 1] + acks[k + 1..];
    SendPlanAppend(prefix, ws[..k + 1], fs[..k + 1], acks[..k + 1], ws[k + 1..], fs[k + 1..], acks[k + 1..]);
    SendPlanStep(prefix, ws, fs, acks, k);
  }

  /** `metric.GetValue()` through the `SendableMetric` interface: an averaging metric flushes
      its accumulator, a raw metric runs its collect function on the counter query `q`. */
  method GetValueOf(metric: Metric, q: Outcome<seq<Network.IOCounter>>) returns (value: Outcome<string>)
    requires metric.Average? ==> metric.avg.Valid()
    modifies if metric.Average? then {metric.avg} else {}
    ensures metric.Average? ==> metric.avg.Valid()
    ensures Fetched(value, ViewOf(metric)) == old(Fetch(ViewOf(metric), q))
  {
    match metric {
      case Average(m) =>
        value := m.GetValue();
      case Raw(r) =>
        value := r.GetValue(q);
    }
  }

  /** One iteration of the send loop: metric `i` is asked for its value, which is published
      when it is ok; only metric `i` changes. */
  method SendOne(
    prefix: string, ms: seq<Metric>, queries: seq<Outcome<seq<Network.IOCounter>>>, acks: seq<bool>,
    ghost before: seq<MetricView>, ghost values: seq<Outcome<string>>, i: nat, published: seq<Publication>)
    returns (published': seq<Publication>)
    requires |queries| == |ms| && |acks| == |ms| && |before| == |ms| && i < |ms|
    requires values == Values(before, queries)
    requires DistinctAverages(ms) && AllValid(ms)
    requires ViewOf(ms[i]) == before[i]
    requires published == SendPlan(prefix, before[..i], values[..i], acks[..i])
    modifies if ms[i].Average? then {ms[i].avg} else {}
    ensures AllValid(ms)
    ensures published' == SendPlan(prefix, before[..i + 1], values[..i + 1], acks[..i + 1])
    ensures ViewOf(ms[i]) == Fetch(before[i], queries[i]).after
    ensures forall k :: 0 <= k < |ms| && k != i ==> ViewOf(ms[k]) == old(ViewOf(ms[k]))
  {
    var metric := ms[i];
    var value := GetValueOf(metric, queries[i]);
    forall k | 0 <= k < |ms| && k != i
      ensures ViewOf(ms[k]) == old(ViewOf(ms[k]))
      ensures ms[k].Average? ==> ms[k].avg.Valid()
    {
      if ms[k].Average? && metric.Average? {
        assert ms[k].avg != metric.avg;
      }
    }
    SendPlanStep(prefix, before, values, acks, i);
    assert values[i] == value;
    assert before[i].Name() == metric.Name();
    published' := published;
    if value.Ok() {
      published' := published + [Publication(prefix + metric.Name(), value.value, acks[i])];
    }
  }

  /** The loop of `maybeSendMetrics` over the metric list `ms`. */
  method SendPass(prefix: string, ms: seq<Metric>, queries: seq<Outcome<seq<Network.IOCounter>>>, acks: seq<bool>)
    returns (published: seq<Publication>)
    requires |queries| == |ms| && |acks| == |ms|
    requires DistinctAverages(ms) && AllValid(ms)
    modifies AverageObjects(ms)
    ensures AllValid(ms)
    ensures published == SendPlan(prefix, old(ViewsOf(ms)), Values(old(ViewsOf(ms)), queries), acks)
    ensures forall k :: 0 <= k < |ms| ==> ViewOf(ms[k]) == Fetch(old(ViewOf(ms[k])), queries[k]).after
  {
    ghost var before := ViewsOf(ms);
    ghost var values := Values(before, queries);
    published := [];
    var i := 0;
    while i < |ms|
      invariant 0 <= i <= |ms|
      invariant AllValid(ms)
      invariant published == SendPlan(prefix, before[..i], values[..i], acks[..i])
      invariant forall k :: 0 <= k < |ms| ==>
        ViewOf(ms[k]) == if k < i then Fetch(before[k], queries[k]).after else before[k]
    {
      published := SendOne(prefix, ms, queries, acks, before, values, i, published);
      i := i + 1;
    }
    assert before[..|before|] == before;
    assert values[..|values|] == values;
    assert acks[..|acks|] == acks;
  }

  // ---------------------------------------------------------------------------------------
  // Connecting

  /** The number of failed connection attempts before the first success (all of them when
      none succeeds). */
  function LeadingFailures(attempts: seq<bool>): (n: nat)
    ensures n <= |attempts|
    ensures forall j :: 0 <= j < n ==> !attempts[j]
    ensures n < |attempts| ==> attempts[n]
  {
    if attempts == [] || attempts[0] then 0 else 1 + LeadingFailures(attempts[1..])
  }

  /** The retry loop of `Run`: connects until an attempt succeeds, backing off after each
      failure. `attempts` are the broker's answers, in order; if none succeeds the loop is
      still retrying when they run out. */
  method ConnectWithRetry(attempts: seq<bool>) returns (connected: bool, failures: nat)
    ensures connected <==> true in attempts
    ensures failures == LeadingFailures(attempts)
  {
    failures := 0;
    while failures < |attempts| && !attempts[failures]
      invariant failures <= |attempts|
      invariant forall j :: 0 <= j < failures ==> !attempts[j]
    {
      failures := failures + 1;
    }
    connected := failures < |attempts|;
    if !connected {
      assert forall j :: 0 <= j < |attempts| ==> !attempts[j];
    }
  }

  /** A broker that refuses twice and then accepts is connected to after two failures. */
  lemma TwoRefusalsThenConnected()
    ensures LeadingFailures([false, false, true]) == 2
  {
    assert [false, false, true][1..] == [false, true];
    assert [false, true][1..] == [true];
  }

  /** The metric list of `NewHwMonitor` as it stands right after construction. */
  const InitialViewList: seq<MetricView> := [
    AverageView("k10_temperature_celsius", ChipsetTemp, Empty),
    AverageView("cpu_utilization_percent", CpuPercent, Empty),
    AverageView("ram_used_percent", RamPercent, Empty),
    RawView(RawMetric("network_total_bytes_sent", Network.Sent)),
    RawView(RawMetric("network_total_bytes_received", Network.Received))]

  /** The metric list of `NewHwMonitor` around its three averaging metrics, in publishing
      order: chipset temperature, CPU and memory, then the two network counters. */
  function MetricList(temp: AverageMetric, cpu: AverageMetric, mem: AverageMetric): seq<Metric> {
    [Average(temp), Average(cpu), Average(mem),
     Raw(Catalog.NewNetworkSentMetric()), Raw(Catalog.NewNetworkReceivedMetric())]
  }

  lemma MetricListObjects(temp: AverageMetric, cpu: AverageMetric, mem: AverageMetric)
    requires temp != cpu && cpu != mem && temp != mem
    requires temp.Valid() && cpu.Valid() && mem.Valid()
    ensures forall o :: o in AverageObjects(MetricList(temp, cpu, mem)) ==> o == temp || o == cpu || o == mem
    ensures DistinctAverages(MetricList(temp, cpu, mem)) && AllValid(MetricList(temp, cpu, mem))
  {
    var ms := MetricList(temp, cpu, mem);
    assert ms[0].avg == temp && ms[1].avg == cpu && ms[2].avg == mem;
  }

  lemma MetricListViews(temp: AverageMetric, cpu: AverageMetric, mem: AverageMetric)
    requires temp.name == "k10_temperature_celsius" && temp.sampler == ChipsetTemp && temp.State() == Empty
    requires cpu.name == "cpu_utilization_percent" && cpu.sampler == CpuPercent && cpu.State() == Empty
    requires mem.name == "ram_used_percent" && mem.sampler == RamPercent && mem.State() == Empty
    ensures ViewsOf(MetricList(temp, cpu, mem)) == InitialViewList
  {
    var ms := MetricList(temp, cpu, mem);
    var vs := ViewsOf(ms);
    assert |vs| == 5;
    assert vs[0] == ViewOf(ms[0]);
    assert vs[1] == ViewOf(ms[1]);
    assert vs[2] == ViewOf(ms[2]);
  }

  /** The metric list of `NewHwMonitor`: three fresh, empty averaging metrics and the two
      network counters. */
  method NewMetricList() returns (metricsList: seq<Metric>)
    ensures fresh(AverageObjects(metricsList))
    ensures DistinctAverages(metricsList) && AllValid(metricsList)
    ensures ViewsOf(metricsList) == InitialViewList
  {
    var temp := Catalog.NewChipsetTempMetric();
    var cpu := Catalog.NewCPUMetric();
    var mem := Catalog.NewMemoryMetric();
    MetricListObjects(temp, cpu, mem);
    MetricListViews(temp, cpu, mem);
    metricsList := MetricList(temp, cpu, mem);
  }

  // ---------------------------------------------------------------------------------------
  // The monitor

  /** `HwMonitor`: the metric list, split into the metrics to send (all of them) and the
      metrics to update (the averaging ones), and the two timers the loop moves forward. */
  class HwMonitor {
    const prefix: string
    const broker: string
    const credentials: Option<Credentials>
    const updateInterval: int
    const sendInterval: int
    const updateMetrics: seq<AverageMetric>
    const sendMetrics: seq<Metric>
    /** The averaging metrics, the objects the passes update. */
    ghost const Repr: set<AverageMetric>
    var lastMetricUpdate: int
    var lastMetricSend: int

    ghost predicate Valid()
      reads this, Repr
    {
      && updateMetrics == Updatables(sendMetrics)
      && Repr == (set m | m in updateMetrics)
      && (forall m :: m in Repr ==> m.Valid())
      && (forall i, j :: 0 <= i < j < |updateMetrics| ==> updateMetrics[i] != updateMetrics[j])
      && DistinctAverages(sendMetrics)
    }

    /** `NewHwMonitor`: the broker address and credentials, the five metrics, and the split of
        the list into send and update metrics. */
    constructor (mqttPrefix: string, host: string, user: string, password: string, updateInterval: int, sendInterval: int)
      ensures Valid() && fresh(Repr)
      ensures prefix == mqttPrefix && broker == "tcp://" + host + ":1883"
      ensures credentials == if user != "" then Some(Credentials(user, password)) else None
      ensures this.updateInterval == updateInterval && this.sendInterval == sendInterval
      ensures ViewsOf(sendMetrics) == InitialViewList
      ensures lastMetricUpdate == 0 && lastMetricSend == 0
    {
      var metricsList := NewMetricList();
      var split := SplitUpdatable(metricsList);
      UpdatablesMembers(metricsList);
      UpdatablesDistinct(metricsList);
      assert forall m :: m in split ==> m in AverageObjects(metricsList);
      prefix := mqttPrefix;
      broker := "tcp://" + host + ":1883";
      credentials := if user != "" then Some(Credentials(user, password)) else None;
      this.updateInterval := updateInterval;
      this.sendInterval := sendInterval;
      updateMetrics := split;
      sendMetrics := metricsList;
      Repr := set m | m in split;
      lastMetricUpdate := 0;
      lastMetricSend := 0;
    }

    /** `maybeUpdateMetrics`: fires exactly when `updateInterval` has elapsed since the last
        update (exact equality fires); it then updates every update metric once, in list
        order, and moves the timer to `now`. When it does not fire nothing changes. */
    method MaybeUpdateMetrics(now: int, host: Host) returns (fired: bool)
      requires Valid()
      modifies Repr, this`lastMetricUpdate
      ensures Valid()
      ensures fired <==> Due(old(lastMetricUpdate), updateInterval, now)
      ensures lastMetricUpdate == NextTimer(old(lastMetricUpdate), updateInterval, now)
      ensures forall j :: 0 <= j < |updateMetrics| ==>
        updateMetrics[j].State() == if fired
          then Accumulate(old(updateMetrics[j].State()), Sample(updateMetrics[j].sampler, host))
          else old(updateMetrics[j].State())
      ensures ViewsOf(sendMetrics) == if fired
        then AfterUpdate(old(ViewsOf(sendMetrics)), host) else old(ViewsOf(sendMetrics))
    {
      fired := Due(lastMetricUpdate, updateInterval, now);
      if !fired {
        return;
      }
      ghost var before := ViewsOf(sendMetrics);
      var i := 0;
      while i < |updateMetrics|
        invariant 0 <= i <= |updateMetrics|
        invariant forall m :: m in Repr ==> m.Valid()
        invariant forall j :: 0 <= j < |updateMetrics| ==>
          updateMetrics[j].State() == if j < i
            then Accumulate(old(updateMetrics[j].State()), Sample(updateMetrics[j].sampler, host))
            else old(updateMetrics[j].State())
      {
        updateMetrics[i].Update(host);
        i := i + 1;
      }
      lastMetricUpdate := now;
      UpdatablesMembers(sendMetrics);
      forall k | 0 <= k < |sendMetrics|
        ensures ViewOf(sendMetrics[k]) == AfterUpdate(before, host)[k]
      {
        if sendMetrics[k].Average? {
          var m := sendMetrics[k].avg;
          assert m in updateMetrics;
          var j :| 0 <= j < |updateMetrics| && updateMetrics[j] == m;
        }
      }
    }

    /** `maybeSendMetrics`: fires exactly when `sendInterval` has elapsed since the last send;
        it then asks every send metric for its value, in list order, skips a metric whose
        `GetValue` fails, publishes every other value under `prefix + name` whatever the
        broker answers, and moves the timer to `now`. When it does not fire nothing changes.
        `queries[i]` is the counter query metric i's collect function makes, `acks[i]` the
        broker's answer to its publish. */
    method MaybeSendMetrics(now: int, queries: seq<Outcome<seq<Network.IOCounter>>>, acks: seq<bool>)
      returns (fired: bool, published: seq<Publication>)
      requires Valid()
      requires |queries| == |sendMetrics| && |acks| == |sendMetrics|
      modifies Repr, this`lastMetricSend
      ensures Valid()
      ensures fired <==> Due(old(lastMetricSend), sendInterval, now)
      ensures lastMetricSend == NextTimer(old(lastMetricSend), sendInterval, now)
      ensures published == if fired then SendPlan(prefix, old(ViewsOf(sendMetrics)), Values(old(ViewsOf(sendMetrics)), queries), acks) else []
      ensures ViewsOf(sendMetrics) == if fired
        then AfterSend(old(ViewsOf(sendMetrics)), queries) else old(ViewsOf(sendMetrics))
    {
      fired := Due(lastMetricSend, sendInterval, now);
      published := [];
      if !fired {
        return;
      }
      UpdatablesMembers(sendMetrics);
      assert AverageObjects(sendMetrics) == Repr;
      ghost var before := ViewsOf(sendMetrics);
      published := SendPass(prefix, sendMetrics, queries, acks);
      forall k | 0 <= k < |sendMetrics|
        ensures ViewsOf(sendMetrics)[k] == AfterSend(before, queries)[k]
      {
      }
      lastMetricSend := now;
    }

    /** `Run`: connects with retry and, once connected, starts both timers (at `updateStart`
        and `sendStart`, two readings of the clock). */
    method Run(attempts: seq<bool>, updateStart: int, sendStart: int) returns (connected: bool, failures: nat)
      modifies this`lastMetricUpdate, this`lastMetricSend
      ensures connected <==> true in attempts
      ensures failures == LeadingFailures(attempts)
      ensures connected ==> lastMetricUpdate == updateStart && lastMetricSend == sendStart
      ensures !connected ==> lastMetricUpdate == old(lastMetricUpdate) && lastMetricSend == old(lastMetricSend)
    {
      connected, failures := ConnectWithRetry(attempts);
      if connected {
        lastMetricUpdate := updateStart;
        lastMetricSend := sendStart;
      }
    }

    /** One iteration of the main loop: the update pass, then the send pass, each reading the
        clock itself. The send pass sees the accumulators the update pass has just changed. */
    method Tick(
      updateNow: int, sendNow: int, host: Host,
      queries: seq<Outcome<seq<Network.IOCounter>>>, acks: seq<bool>)
      returns (updated: bool, sent: bool, published: seq<Publication>)
      requires Valid()
      requires |queries| == |sendMetrics| && |acks| == |sendMetrics|
      modifies Repr, this`lastMetricUpdate, this`lastMetricSend
      ensures Valid()
      ensures updated <==> Due(old(lastMetricUpdate), updateInterval, updateNow)
      ensures sent <==> Due(old(lastMetricSend), sendInterval, sendNow)
      ensures lastMetricUpdate == NextTimer(old(lastMetricUpdate), updateInterval, updateNow)
      ensures lastMetricSend == NextTimer(old(lastMetricSend), sendInterval, sendNow)
      ensures
        var mid := if updated then AfterUpdate(old(ViewsOf(sendMetrics)), host) else old(ViewsOf(sendMetrics));
        && published == (if sent then SendPlan(prefix, mid, Values(mid, queries), acks) else [])
        && ViewsOf(sendMetrics) == if sent then AfterSend(mid, queries) else mid
    {
      updated := MaybeUpdateMetrics(updateNow, host);
      sent, published := MaybeSendMetrics(sendNow, queries, acks);
    }
  }
}
