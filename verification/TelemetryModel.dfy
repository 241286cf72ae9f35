/** The domain types of common/: metrics, telemetry events and their validity. */
module TelemetryModel {
  import opened Prelude

  /** A `double` by what the program tests about it; signed zeros are one value. */
  datatype Double = Finite(value: real) | Infinite(negative: bool) | NaN

  datatype CpuMetric = CpuMetric(usagePercent: Double)

  datatype MemoryMetric = MemoryMetric(totalBytes: UInt64, availableBytes: UInt64) {
    function UsedBytes(): (used: UInt64)
      ensures used <= totalBytes
      ensures availableBytes <= totalBytes ==> used + availableBytes == totalBytes
      ensures availableBytes >= totalBytes ==> used == 0
    {
      if availableBytes > totalBytes then 0 else totalBytes - availableBytes
    }
  }

  datatype EventPayload = Cpu(cpu: CpuMetric) | Memory(memory: MemoryMetric)

  datatype TelemetryEvent = TelemetryEvent(
    id: string,
    timestamp: Int64,
    deviceId: string,
    processId: Option<UInt32>,
    payload: EventPayload)

  predicate ValidCpu(m: CpuMetric) {
    m.usagePercent.Finite? && 0.0 <= m.usagePercent.value <= 100.0
  }

  predicate ValidMemory(m: MemoryMetric) {
    m.totalBytes > 0 && m.availableBytes <= m.totalBytes
  }

  predicate ValidPayload(p: EventPayload) {
    match p
    case Cpu(m) => ValidCpu(m)
    case Memory(m) => ValidMemory(m)
  }

  predicate IsValid(e: TelemetryEvent) {
    e.id != "" && e.deviceId != "" && ValidPayload(e.payload)
  }
}
