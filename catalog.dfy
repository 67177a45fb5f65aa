/** The metric constructors of hwmon/cpu.go, hwmon/memory.go and network.go: each builds a
    metric with a fixed name around its source. */
module Catalog {
  import opened Metrics
  import Network

  /** `NewCPUMetric`: an empty averaging metric over `GetCPUPercent`. */
  method NewCPUMetric() returns (m: AverageMetric)
    ensures fresh(m) && m.name == "cpu_utilization_percent" && m.sampler == CpuPercent
    ensures m.Valid() && m.samples == [] && m.State() == Empty
  {
    m := new AverageMetric("cpu_utilization_percent", CpuPercent);
  }

  /** `NewChipsetTempMetric`: an empty averaging metric over `GetChipsetTemp`. */
  method NewChipsetTempMetric() returns (m: AverageMetric)
    ensures fresh(m) && m.name == "k10_temperature_celsius" && m.sampler == ChipsetTemp
    ensures m.Valid() && m.samples == [] && m.State() == Empty
  {
    m := new AverageMetric("k10_temperature_celsius", ChipsetTemp);
  }

  /** `NewMemoryMetric`: an empty averaging metric over `GetRAMPercent`. */
  method NewMemoryMetric() returns (m: AverageMetric)
    ensures fresh(m) && m.name == "ram_used_percent" && m.sampler == RamPercent
    ensures m.Valid() && m.samples == [] && m.State() == Empty
  {
    m := new AverageMetric("ram_used_percent", RamPercent);
  }

  /** `NewNetworkSentMetric`: a raw metric collecting the bytes sent. */
  function NewNetworkSentMetric(): (m: RawMetric)
    ensures m.name == "network_total_bytes_sent" && m.collector == Network.Sent
  {
    RawMetric("network_total_bytes_sent", Network.Sent)
  }

  /** `NewNetworkReceivedMetric`: a raw metric collecting the bytes received. */
  function NewNetworkReceivedMetric(): (m: RawMetric)
    ensures m.name == "network_total_bytes_received" && m.collector == Network.Received
  {
    RawMetric("network_total_bytes_received", Network.Received)
  }
}
