# gohostmon in Dafny

gohostmon is a small host monitor. It samples the chipset temperature, CPU utilisation, memory
use and network traffic of the machine it runs on, and publishes the figures to an MQTT broker
under `prefix + metric name`. The repository holds two versions of the monitor, and this
project models both.

- **The `hwmon` package** (`hwmon/monitor.go`, `metrics.go`, `network.go`, `hwmon/cpu.go`,
  `hwmon/memory.go`). Five metric objects are built:
  - three *averaging* metrics (chipset temperature, CPU percent, RAM percent). Each folds
    successful samples into a running sum and count, and on `GetValue` publishes the mean,
    rounded to tenths, then starts over;
  - two *raw* metrics, the total bytes sent and received over the physical Ethernet
    interfaces.

  `HwMonitor` splits the list into the metrics to update and the metrics to send. It then runs
  an update pass and a send pass, each gated by its own timer. A metric whose value fails is
  skipped, and a publish that fails is only logged. Connecting to the broker is retried until
  it succeeds.
- **The single-file monitor in `main.go`**. It keeps one map from metric key to running sum
  and one pass counter. The update pass adds the chipset temperature, the first CPU
  percentage (when there is one), the RAM percentage and the two network rates in Mbit/s. The
  send pass publishes `sum / counter` for every key in the map's iteration order, then zeroes
  every key and the counter.

Modules mostly follow the source files. `Common` and `Decimal` hold what several files share, and `Catalog` gathers the metric constructors of `hwmon/cpu.go`, `hwmon/memory.go` and `network.go`:

| module | models |
|---|---|
| `Common` | Go's `(value, error)` pairs (`Outcome`), the interval test `now - last >= interval`, broker credentials |
| `Decimal` | `strconv.FormatUint`, `math.Round(x*10)/10` and `strconv.FormatFloat(…, 'f', p, 64)` on tenths, with parsers that read them back |
| `Network` | `network.go`: the interface filter, the `uint64` byte totals, the raw-metric collect functions |
| `Cpu`, `Memory` | the samplers of `hwmon/cpu.go` and `hwmon/memory.go` |
| `Metrics` | `metrics.go`: the class `AverageMetric` with its accumulator, `RawMetric`, and the specification functions `Accumulate`, `Flush` and `Replay` |
| `Catalog` | the metric constructors `NewCPUMetric`, `NewChipsetTempMetric`, `NewMemoryMetric`, `NewNetworkSentMetric` and `NewNetworkReceivedMetric` |
| `Monitor` | `hwmon/monitor.go`: the class `HwMonitor`, the split of the metric list, the two passes, the connect loop |
| `Legacy` | `main.go`: its own class `HwMonitor` over a key-to-sum map, `getChipsetTemp`, `getNetworkMetrics`, `collectMetric`, the two passes and `run` |

The library answers are parameters of the operations that make the queries:
- `cpu.Percent`, `host.SensorsTemperatures`, `mem.VirtualMemory` and `net.IOCounters`;
- the clock reading `time.Now()`, as an integer `now`;
- the broker's answer to each connect attempt, and, for the `hwmon` monitor only, to each publish.

A metric object is seen through `ViewOf`/`ViewsOf`, which give its name, its sampler and its
`(sum, count)` pair. The two passes of `hwmon/monitor.go` are proved against the functions
`AfterUpdate`, `SendPlan` and `AfterSend` on these views. The lemmas about those functions carry
the properties of the passes.

The `main.go` monitor is seen through `Snapshot`, a `State` of its map, counter, timers and
remembered network totals. Its passes are proved against the functions `Legacy.AfterUpdate`,
`Legacy.AfterCrash` and `Legacy.AfterSend` on that state. A ghost record `samples` keeps, for
each key, the values collected since the last send. The invariant `Bookkeeping` ties each sum
to its samples and each sample count to the pass counter.

## Model

| member | source | states |
|---|---|---|
| Common.NextTimer | hwmon/monitor.go:70-75 | the timer moves to `now` exactly when the interval has elapsed (equality included), stays put otherwise, and never moves backwards |
| Decimal.FormatUint | network.go:54 | the base-10 rendering of a `uint64` is a non-empty string of decimal digits, with no leading zero except for 0 itself |
| Decimal.FormatUintRoundTrip | network.go:54 | reading the base-10 rendering back gives the number |
| Decimal.FormatUintInjective | network.go:54 | different byte totals are published as different strings |
| Decimal.RoundHalfAwayFromZero | metrics.go:48 | `math.Round`: the result is within one half of the argument, and a tie goes away from zero |
| Decimal.RoundingIsUnique | metrics.go:48 | an integer that satisfies the rounding rule for `10x` is the rounded value |
| Decimal.RoundTenthsIdempotent | metrics.go:48 | rounding a value that is already a whole number of tenths gives it back |
| Decimal.FormatTenthsRoundTrip | metrics.go:48 | the fixed-point rendering of a number of tenths, with any number of fractional digits, parses back to that number |
| Decimal.PrecisionDiffers | main.go:137 | for the same value, two fractional digits (`metrics.go:48`) give one more trailing "0" than one digit (`main.go:137`), so the two monitors publish different strings |
| Network.InterfaceFilterExamples | network.go:11-13 | "eth0" and "enp3s0" pass the filter; "lo", "docker0", "veth1234", "tun0", "wlan0" and "en" do not |
| Network.PhysicalTotalAppend | network.go:21-26 | the total over two parts of the query is the sum of their totals |
| Network.PhysicalTotalOrderIndependent | network.go:21-26 | any reordering of the interfaces gives the same total |
| Network.NonPhysicalIgnored | network.go:21-26 | an interface that fails the filter changes no total, wherever it appears |
| Network.TotalPhysicalBytes | network.go:21-27 | the loop returns the sum of the counters of the passing interfaces, wrapped modulo 2^64 |
| Network.GetNetworkBytesSent | network.go:16-28 | a query error gives 0 and that error; otherwise the wrapped total of bytes sent over physical interfaces |
| Network.GetNetworkBytesReceived | network.go:31-43 | a query error gives 0 and that error; otherwise the wrapped total of bytes received over physical interfaces |
| Network.CollectedBytesReadsBack | network.go:49-55 | a successful collect publishes the base-10 rendering of the total, which reads back as that total; a failed one gives "" and the query's error |
| Network.CollectBytes | network.go:49-55 | the collect function returns exactly what the query and the total make of it |
| Cpu.GetCPUPercent | hwmon/cpu.go:11-20 | ok exactly when the query succeeded and is non-empty, then its first element; a query error is passed on with 0; an empty list is the error "no CPU percent data" |
| Cpu.ChipsetSensorIndex | hwmon/cpu.go:28-32 | the index of the first sensor keyed "k10temp", or the list length when there is none |
| Cpu.GetChipsetTemp | hwmon/cpu.go:23-34 | a query error is passed on with 0; otherwise ok exactly when some sensor is keyed "k10temp", with the temperature of the first such sensor; otherwise the error "k10temp sensor not found" |
| Memory.GetRAMPercent | hwmon/memory.go:7-14 | a query error is passed on with 0, otherwise the used percentage |
| Metrics.ReplayTotals | metrics.go:30-38 | after any run of updates the sum has grown by exactly the successful samples and the count by their number; failures leave no trace |
| Metrics.ReplayThenFlush | metrics.go:41-49 | starting empty, a value is published exactly when a sample succeeded; it is the rounded mean of the successful samples, and the metric is left empty; otherwise the error "no samples for <name>" |
| Metrics.ReplayConsistent | metrics.go:30-38 | updates keep the invariant that a count of zero means a sum of zero |
| Metrics.NoCarryOver | metrics.go:45-47 | after `GetValue` the metric is empty, a second `GetValue` fails, and later values reflect only later samples |
| Metrics.AverageOfThreeSamples | metrics.go:45-48 | samples 10, 20 and 33 are published as "21.00" |
| Metrics.AverageMetric.constructor | hwmon/cpu.go:38-41 | a new averaging metric has its name and sampler, no samples, and sum and count 0 |
| Metrics.AverageMetric.Update | metrics.go:30-38 | a successful sample is added to the sum and counted, and appended to the samples so far; a failed sample changes nothing |
| Metrics.AverageMetric.GetValue | metrics.go:41-49 | with no samples, the error "no samples for <name>" and no change; otherwise the formatted mean of the samples so far, and the metric is reset |
| Metrics.RawMetric.GetValue | metrics.go:63-65 | exactly what the collect function returns for the query |
| Catalog.NewCPUMetric | hwmon/cpu.go:37-42 | a fresh, empty averaging metric named "cpu_utilization_percent" over `GetCPUPercent` |
| Catalog.NewChipsetTempMetric | hwmon/cpu.go:45-50 | a fresh, empty averaging metric named "k10_temperature_celsius" over `GetChipsetTemp` |
| Catalog.NewMemoryMetric | hwmon/memory.go:16-22 | a fresh, empty averaging metric named "ram_used_percent" over `GetRAMPercent` |
| Catalog.NewNetworkSentMetric | network.go:46-57 | a raw metric named "network_total_bytes_sent" collecting the bytes sent |
| Catalog.NewNetworkReceivedMetric | network.go:60-71 | a raw metric named "network_total_bytes_received" collecting the bytes received |
| Monitor.UpdatablesAppend | hwmon/monitor.go:48-52 | splitting a concatenated list gives the concatenation of the splits |
| Monitor.UpdatablesMembers | hwmon/monitor.go:48-52 | every update metric is an averaging metric of the list, and every averaging metric of the list is an update metric |
| Monitor.UpdatablesDistinct | hwmon/monitor.go:48-52 | when no averaging metric occurs twice in the list, none occurs twice among the update metrics |
| Monitor.SplitUpdatable | hwmon/monitor.go:46-52 | the loop returns the averaging metrics of the list, in list order |
| Monitor.MetricListObjects | hwmon/monitor.go:37-43 | the averaging metrics of the list are exactly the three new ones, each once, all valid |
| Monitor.MetricListViews | hwmon/monitor.go:37-43 | the list is chipset temperature, CPU and memory (empty, averaging), then bytes sent and received (raw) |
| Monitor.NewMetricList | hwmon/monitor.go:37-43 | a list of fresh metrics, none twice, in that order and state |
| Monitor.SendPlanAppend | hwmon/monitor.go:82-94 | the publishes of a pass over a concatenated list are those of the first part followed by those of the second |
| Monitor.GetErrorSkipsOnlyThatMetric | hwmon/monitor.go:83-87 | a metric whose `GetValue` fails is skipped, and the metrics before and after it publish as they would on their own |
| Monitor.PublishFailuresAreIsolated | hwmon/monitor.go:89-93 | whatever the broker answers, the same topics and payloads are published in the same order |
| Monitor.AllReadyAllPublished | hwmon/monitor.go:82-94 | when every value is ok, every metric is published, in list order, under `prefix + name`, with its value |
| Monitor.FreshSampleIsPublished | hwmon/monitor.go:119-120 | update runs before send, so an averaging metric whose sample succeeded in the tick is published by that tick's send pass |
| Monitor.GetValueOf | hwmon/monitor.go:83 | `GetValue` through the interface: the value and new state are those of the metric's own `GetValue` |
| Monitor.SendOne | hwmon/monitor.go:83-93 | one iteration publishes the metric's value under `prefix + name` when it is ok; only that metric changes |
| Monitor.SendPass | hwmon/monitor.go:82-94 | the loop publishes exactly the send plan of the metrics' states before the pass, and leaves each metric as its `GetValue` does |
| Monitor.LeadingFailures | hwmon/monitor.go:103-111 | the number of refused attempts before the first accepted one |
| Monitor.ConnectWithRetry | hwmon/monitor.go:103-111 | connected exactly when some attempt is accepted, after exactly the refusals before it |
| Monitor.TwoRefusalsThenConnected | hwmon/monitor.go:103-111 | two refusals and then an acceptance connect after two failures |
| Monitor.HwMonitor.constructor | hwmon/monitor.go:27-65 | the broker is `tcp://<host>:1883`; credentials are set only for a non-empty user; the send list is the five metrics in order and the update list their averaging part; the timers start at the zero time |
| Monitor.HwMonitor.MaybeUpdateMetrics | hwmon/monitor.go:68-76 | fires exactly when the interval has elapsed; each update metric then takes one sample, and the timer moves to `now`; otherwise nothing changes |
| Monitor.HwMonitor.MaybeSendMetrics | hwmon/monitor.go:79-97 | fires exactly when the interval has elapsed; publishes the send plan, leaves each metric as its `GetValue` does, and moves the timer to `now`; otherwise publishes nothing and changes nothing |
| Monitor.HwMonitor.Run | hwmon/monitor.go:100-116 | retries until connected, then starts both timers; while no attempt succeeds the timers are untouched |
| Monitor.HwMonitor.Tick | hwmon/monitor.go:118-122 | one loop iteration is the update pass followed by the send pass over the updated metrics |
| Legacy.TopicsDistinct | main.go:136 | different keys are published under different topics |
| Legacy.GetChipsetTemp | main.go:64-75 | the temperature of the first "k10temp" sensor; 0 on a query error, an empty list or no such sensor |
| Legacy.RatesTelescope | main.go:77-102 | over any run of `getNetworkMetrics` calls, failed and empty queries included, the reported rates add up to the rate between the first remembered totals and the totals remembered at the end |
| Legacy.CollectSpec | main.go:104-106 | collecting adds the value to the key's sum, a missing key counting as 0, and leaves every other key unchanged |
| Legacy.CollectAdds | main.go:104-106 | collecting x and then y under one key is collecting x + y |
| Legacy.CollectCommutes | main.go:104-106 | collections under different keys commute |
| Legacy.PayloadReadsBack | main.go:135-137 | with a non-zero counter, the payload is the one-digit rendering of the rounded average and parses back to it |
| Legacy.PayloadPrecisionDiffers | main.go:137 | the same average is published with one more trailing "0" by `metrics.go:48` |
| Legacy.CollectMatches | main.go:104-106 | collecting a value under a key, which also records it as that key's latest sample, keeps every sum equal to the sum of its key's samples |
| Legacy.PassRecords | main.go:110-124 | a completed update pass keeps every sum equal to the sum of its key's samples |
| Legacy.PassLengths | main.go:110-124 | an update pass adds exactly one sample each to temperature, RAM, sent and received. It adds one to the CPU key only when the percent list is non-empty, and none to any other key |
| Legacy.PassKeepsBookkeeping | main.go:108-129 | with the pass counted, each sum is still the sum of its samples, and no key has more samples than the counter. The four keys every pass collects have exactly one sample per pass |
| Legacy.PayloadIsMean | main.go:134-137 | for a key every pass collects, the payload is the mean of the values collected since the last send, rounded to tenths and rendered with one digit |
| Legacy.CpuKeyMayLag | main.go:113-116 | a pass without CPU data adds no CPU sample and leaves the CPU sum unchanged, while the counter and the other keys advance. The CPU payload is the CPU sum divided by the number of all passes, whether or not they had CPU data |
| Legacy.CpuAverageDiluted | main.go:113-116 | a pass sampling 50% CPU and then a pass without CPU data make the send pass publish "25.0" for the CPU |
| Legacy.UpdateKeepsBookkeeping | main.go:108-129 | the state after an update pass that does not crash, due or not, keeps the invariant |
| Legacy.SendKeepsBookkeeping | main.go:131-143 | the state after a send pass, due or not, keeps the invariant, with every sum and every sample list empty when it fired |
| Legacy.PublishAll | main.go:134-139 | every key is published exactly once, in some order, under `prefix + key`, with its payload; every key is zeroed |
| Legacy.HwMonitor.constructor | main.go:43-62 | the broker is `tcp://<host>:1883`; credentials are set only for a non-empty user; an empty map, a zero counter, zero timers and zero remembered totals |
| Legacy.HwMonitor.CollectMetric | main.go:104-106 | the map after is the collection of the value under the key, and the value joins the key's samples |
| Legacy.HwMonitor.GetNetworkMetrics | main.go:77-102 | on a query error or empty list, rates of 0 and the remembered totals kept; otherwise `(total − last)·8/10^6` for each direction, and the totals remembered |
| Legacy.HwMonitor.CollectSensors | main.go:111-116 | collects the chipset temperature, then the first CPU percentage when the list has one, into the sums and the samples |
| Legacy.HwMonitor.CollectMemoryAndNetwork | main.go:118-124 | collects the memory percentage and the two rates of `getNetworkMetrics`, and remembers its new totals |
| Legacy.HwMonitor.MaybeUpdateMetrics | main.go:108-129 | fires exactly when the interval has elapsed. The new state is `AfterUpdate` of the old: temperature, CPU when present, RAM and both rates collected, the pass counted, the network totals replaced, the timer moved. A failed memory query ends the process with only the first two collections (`AfterCrash`). When it does not crash, the invariant is kept |
| Legacy.HwMonitor.MaybeSendMetrics | main.go:131-143 | fires exactly when the interval has elapsed. It then publishes every key once with the payload of `sum/counter`, zeroes all keys, resets the counter and moves the timer (`AfterSend`); otherwise it publishes nothing and changes nothing. The invariant is kept |
| Legacy.HwMonitor.Run | main.go:145-151 | a refused connection ends the process; otherwise the send timer and then the update timer start |
| Legacy.HwMonitor.Tick | main.go:152-156 | crashes exactly when the update pass is due and the memory query fails; it then publishes nothing and leaves the `AfterCrash` state. Otherwise the new state is `AfterSend` of the state the update pass left. When that send pass is due, every key of the updated sums is published once, under `prefix + key`, with its payload over the updated counter; when it is not, nothing is published |
| Legacy.SendWithoutUpdateIsNaN | main.go:135-137 | with no update pass since the last send, every sum is 0 and a send pass publishes "NaN" for every key |

## Left out

- MQTT client: connecting, publishing and `token.Wait` are not modelled, nor are QoS and the retain flag. The `hwmon` monitor's publishes are recorded as `(topic, payload, acknowledged)`, with the broker's answers as inputs. The `main.go` monitor's messages are `(topic, payload)`, because `main.go:137` never examines the result of `Publish`.
- gopsutil: the answers of the library calls are inputs, and the calls themselves are not modelled.
- Clock and sleeps: `time.Now()` is an integer reading, and the 50 ms and 5 s sleeps are not modelled. Go's zero `time.Time`, which the `hwmon` timers hold before `Run`, is 0.
- Logging: every `log.Printf` is omitted. `log.Fatalf` in `run` is modelled as `exited`.
- Main loops: both infinite main loops are modelled as one iteration (`Tick`). `Tick`'s contract gives the state after an iteration as a function of the state before it, so a run of iterations is a composition of those functions.
- Connect retries: the `hwmon` retry loop runs over a finite list of connect answers. When none succeeds, it reports not connected instead of retrying forever.
- Configuration: `main()` and `config.ini` loading are not modelled. Neither is the constant `HWMON_KEEPALIVE_INTERVAL`, which the code never uses.
- Floating point: `float64` is exact `real`, so there is no rounding in sums and divisions and no `−0`. `math.Round` and fixed-point formatting are modelled exactly on the rational value.
- Legacy.HwMonitor.GetNetworkMetrics: does not model the loss of precision when converting `uint64` counters to `float64`.
- Metrics.AverageMetric.Update: does not model overflow of the Go `int` counter `count`.
- Legacy.HwMonitor.MaybeUpdateMetrics: does not model overflow of the `int` counter `updateCounter`.
- Map iteration order: Go's map iteration order in `main.go` is an arbitrary choice, recorded as the ghost `order`.
- Legacy keys: `main.go`'s map keys are five fixed strings, modelled as an enumeration whose `Name` gives each string.
- RawMetric: the collect functions are limited to the two network counters, the only raw metrics the repository builds.
- Memory crash: in `main.go`, a failed memory query is dereferenced as nil. It is modelled as the result `crashed`, after which nothing further happens.
- Publishing precision: `main.go` publishes averages with `HWMON_ROUNDING_PRECISION = 1` fractional digit (`main.go:24`, `main.go:137`). `metrics.go:48` publishes them with 2. The model follows each (`Decimal.PrecisionDiffers`, `Legacy.PayloadPrecisionDiffers`).
