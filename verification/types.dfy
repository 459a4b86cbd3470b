/** The records exchanged by the detection engine: log entries, alerts and the statistics snapshot. */
module Types {

  /** Severity of a log entry or of an alert. */
  datatype LogSeverity = Info | Low | Medium | High | Critical

  /** The kinds of alert; the last two exist in the type but no rule produces them. */
  datatype AlertType = BruteForce | PortScan | SqlInjection | DataExfiltration | MaliciousC2
  {
    /** The human-readable label each kind carries. */
    function Label(): string {
      match this
      case BruteForce => "Brute Force Attempt"
      case PortScan => "Port Scanning"
      case SqlInjection => "SQL Injection Pattern"
      case DataExfiltration => "Abnormal Data Transfer"
      case MaliciousC2 => "Suspected C2 Communication"
    }
  }

  datatype Protocol = Tcp | Udp | Icmp | Http

  datatype Status = Success | Failure | Blocked

  /** One network event; the engine receives one per tick. */
  datatype LogEntry = LogEntry(
    id: string,
    timestamp: string,
    sourceIp: string,
    destIp: string,
    port: int,
    protocol: Protocol,
    payload: string,
    bytes: int,
    status: Status,
    severity: LogSeverity)

  /** An alert raised by a detection rule; `kind` says which rule raised it. */
  datatype Alert = Alert(
    id: string,
    timestamp: string,
    kind: AlertType,
    sourceIp: string,
    severity: LogSeverity,
    description: string,
    involvedLogs: seq<string>)

  /** The running statistics snapshot shown on the dashboard. */
  datatype IDSStats = IDSStats(totalLogs: nat, criticalAlerts: nat, uniqueIps: nat, threatScore: nat)
}
