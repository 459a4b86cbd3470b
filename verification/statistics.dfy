/** The running statistics: updated incrementally from the previous
    snapshot and the new log, never recomputed from history. */
module Statistics {
  import opened Types

  /** The statistics before any log has arrived. */
  const InitialStats := IDSStats(0, 0, 0, 0)

  /** The threat score from the previous snapshot's counters:
      `min(100, floor(critical / (total + 1) * 500) + 10)`, in natural-number
      arithmetic. */
  function ThreatScore(critical: nat, total: nat): (score: nat)
    ensures 10 <= score <= 100
    ensures critical == 0 ==> score == 10
  {
    var raw := critical * 500 / (total + 1) + 10;
    if raw < 100 then raw else 100
  }

  lemma MulMonotone(d: nat, y: int, x: int)
    ensures y <= x ==> d * y <= d * x
  {
    assert d * x - d * y == d * (x - y);
  }

  lemma DivMonotone(a: nat, b: nat, d: nat)
    requires a <= b && d > 0
    ensures a / d <= b / d
  {
    var q1, q2 := a / d, b / d;
    assert d * q1 + a % d == a;
    assert d * q2 + b % d == b;
    assert d * (q2 + 1) == d * q2 + d;
    MulMonotone(d, q2 + 1, q1);
  }

  /** With the total fixed, more critical logs never lower the score. */
  lemma ThreatScoreMonotoneInCritical(c1: nat, c2: nat, total: nat)
    requires c1 <= c2
    ensures ThreatScore(c1, total) <= ThreatScore(c2, total)
  {
    DivMonotone(c1 * 500, c2 * 500, total + 1);
  }

  /** A larger divisor never gives a larger quotient. */
  lemma DivAntitone(n: nat, d1: nat, d2: nat)
    requires 0 < d1 <= d2
    ensures n / d2 <= n / d1
  {
    var q1, q2 := n / d1, n / d2;
    assert d2 * q2 <= n;
    MulMonotone(q2, d1, d2);
    assert d1 * q2 <= n;
    assert d1 * (q1 + 1) > n;
    MulMonotone(d1, q1 + 1, q2);
  }

  /** With the critical count fixed, more logs never raise the score. */
  lemma ThreatScoreAntitoneInTotal(critical: nat, t1: nat, t2: nat)
    requires t1 <= t2
    ensures ThreatScore(critical, t2) <= ThreatScore(critical, t1)
  {
    DivAntitone(critical * 500, t1 + 1, t2 + 1);
  }

  /** The snapshot after one more log: the total grows by one, the critical
      count grows by one exactly for a CRITICAL log, the unique-address count
      is supplied by the tracker, and the score is derived from the previous
      counters. */
  function NextStats(prev: IDSStats, log: LogEntry, uniqueIps: nat): (s: IDSStats)
    ensures s.totalLogs == prev.totalLogs + 1
    ensures s.criticalAlerts == prev.criticalAlerts + 1 <==> log.severity == Critical
    ensures s.criticalAlerts == prev.criticalAlerts <==> log.severity != Critical
    ensures s.uniqueIps == uniqueIps
    ensures s.threatScore == ThreatScore(prev.criticalAlerts, prev.totalLogs)
    ensures prev.criticalAlerts <= prev.totalLogs ==> s.criticalAlerts <= s.totalLogs
  {
    IDSStats(
      prev.totalLogs + 1,
      prev.criticalAlerts + (if log.severity == Critical then 1 else 0),
      uniqueIps,
      ThreatScore(prev.criticalAlerts, prev.totalLogs))
  }
}
