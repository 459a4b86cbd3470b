/** One tick of the engine: record the log, update the statistics and the
    chart, run detection, and prepend whatever alerts it raised. */
module Engine {
  import opened Types
  import opened History
  import opened Tracker
  import opened Rules
  import opened Statistics

  /** Capacity of the newest-first log history. */
  const MaxLogs: nat := 50
  /** Capacity of the newest-first alert list. */
  const MaxAlerts: nat := 10
  /** Capacity of the oldest-first traffic chart series. */
  const MaxChartPoints: nat := 20

  /** One point of the traffic chart: a display time label and a volume figure. */
  datatype ChartPoint = ChartPoint(time: string, volume: int)

  /** Everything one tick receives from outside: the new log, the clock
      reading, the ids and timestamps for alerts, and the chart point. */
  datatype Tick = Tick(log: LogEntry, now: int, stamps: Stamps, point: ChartPoint)

  /** The engine's whole state between ticks. */
  datatype State = State(
    logs: seq<LogEntry>,
    alerts: seq<Alert>,
    stats: IDSStats,
    chart: seq<ChartPoint>,
    tracker: Table)

  /** An alert one of the three rules can raise. */
  predicate IsRuleAlert(a: Alert) {
    && |a.involvedLogs| == 1
    && Rank(a.kind) <= 2
    && a.severity == SeverityOf(a.kind)
  }

  /** What holds between ticks. */
  predicate Valid(s: State) {
    && TrackerInRange(s.tracker)
    && |s.alerts| <= MaxAlerts
    && AlertsFromRules(s.alerts)
    && |s.logs| == Min(MaxLogs, s.stats.totalLogs)
    && |s.chart| <= MaxChartPoints
    && s.stats.criticalAlerts <= s.stats.totalLogs
    && s.stats.uniqueIps == |s.tracker.Keys|
    && (s.stats.totalLogs == 0 ==> s.stats.threatScore == 0)
    && (s.stats.totalLogs > 0 ==> 10 <= s.stats.threatScore <= 100)
  }

  /** The state before the first tick: everything empty, all counters zero. */
  function Init(): (s: State)
    ensures Valid(s)
    ensures s.stats.totalLogs == 0 && s.stats.threatScore == 0
  {
    State([], [], InitialStats, [], map[])
  }

  /** The alerts detection raises on this tick, in rule order. */
  function Fired(s: State, tick: Tick): seq<Alert> {
    Detect(s.tracker, tick.log, tick.now, tick.stamps).fired
  }

  /** One tick. The unique-address count reads the tracker after this tick's
      log has been recorded, so it includes the log's own source. */
  function Step(s: State, tick: Tick): (s': State)
    ensures s'.stats.totalLogs == s.stats.totalLogs + 1
    ensures s'.tracker.Keys == s.tracker.Keys + {tick.log.sourceIp}
  {
    var d := Detect(s.tracker, tick.log, tick.now, tick.stamps);
    State(
      Prepend(tick.log, s.logs, MaxLogs),
      PrependBatch(s.alerts, d.fired, MaxAlerts),
      NextStats(s.stats, tick.log, |d.tracker.Keys|),
      Append(s.chart, tick.point, MaxChartPoints),
      d.tracker)
  }

  /** The log history gains the new log at the front and loses its oldest
      entry beyond capacity. */
  lemma StepLogs(s: State, tick: Tick)
    ensures var s' := Step(s, tick);
      && |s'.logs| == Min(MaxLogs, |s.logs| + 1)
      && s'.logs[0] == tick.log
      && s'.logs[1..] == s.logs[..|s'.logs| - 1]
  {
    var logs := Prepend(tick.log, s.logs, MaxLogs);
    assert Step(s, tick).logs == logs;
  }

  /** The chart gains the new point at the back and loses its oldest point
      beyond capacity. */
  lemma StepChart(s: State, tick: Tick)
    ensures var s' := Step(s, tick);
      && |s'.chart| == Min(MaxChartPoints, |s.chart| + 1)
      && s'.chart[|s'.chart| - 1] == tick.point
      && s'.chart[..|s'.chart| - 1] == s.chart[|s.chart| + 1 - |s'.chart|..]
  {
    var chart := Append(s.chart, tick.point, MaxChartPoints);
    assert Step(s, tick).chart == chart;
  }

  /** The counters: one more log, one more critical log exactly when this
      log is CRITICAL, the unique-address count equal to the tracker's size
      and never smaller than before, and the score taken from the previous
      counters. */
  lemma StepStatistics(s: State, tick: Tick)
    requires s.stats.uniqueIps == |s.tracker.Keys|
    ensures var s' := Step(s, tick);
      && s'.stats.totalLogs == s.stats.totalLogs + 1
      && s'.stats.criticalAlerts == s.stats.criticalAlerts + (if tick.log.severity == Critical then 1 else 0)
      && s'.stats.uniqueIps == |s'.tracker.Keys|
      && s'.stats.uniqueIps >= s.stats.uniqueIps
      && s'.stats.threatScore == ThreatScore(s.stats.criticalAlerts, s.stats.totalLogs)
  {
    var s' := Step(s, tick);
    assert s.tracker.Keys <= s'.tracker.Keys;
    SubsetCardinality(s.tracker.Keys, s'.tracker.Keys);
  }

  lemma SubsetCardinality<T>(a: set<T>, b: set<T>)
    requires a <= b
    ensures |a| <= |b|
  {
    assert b == a + (b - a);
  }

  /** The tracker changes only at the log's source address. */
  lemma StepTracker(s: State, tick: Tick)
    ensures var s' := Step(s, tick);
      && (forall ip :: ip in s.tracker && ip != tick.log.sourceIp ==> s'.tracker[ip] == s.tracker[ip])
      && s'.tracker[tick.log.sourceIp].lastSeen == tick.now
  {
  }

  /** The alert list after a tick is what prepending each raised alert in
      turn, truncating to capacity every time, produces. */
  lemma StepAlertsOneAtATime(s: State, tick: Tick)
    ensures Step(s, tick).alerts == PrependAll(s.alerts, Fired(s, tick), MaxAlerts)
  {
    PrependAllIsBatch(s.alerts, Fired(s, tick), MaxAlerts);
  }

  /** On a bounded list, the alert list after a tick is this tick's alerts,
      newest (last raised) first, in front of the previous list, cut to
      capacity. */
  lemma StepAlerts(s: State, tick: Tick)
    requires |s.alerts| <= MaxAlerts
    ensures Step(s, tick).alerts == Take(Reverse(Fired(s, tick)) + s.alerts, MaxAlerts)
  {
    if Fired(s, tick) == [] {
      assert Reverse(Fired(s, tick)) + s.alerts == s.alerts;
    }
  }

  predicate TrackerInRange(t: Table) {
    forall ip :: ip in t ==> t[ip].attempts < BruteForceThreshold && |t[ip].ports| <= PortScanLimit
  }

  predicate AlertsFromRules(alerts: seq<Alert>) {
    forall k :: 0 <= k < |alerts| ==> IsRuleAlert(alerts[k])
  }

  /** Detection keeps every failed-login counter below the threshold and
      every port set within the limit. */
  lemma DetectKeepsTrackerInRange(t: Table, log: LogEntry, now: int, stamps: Stamps)
    requires TrackerInRange(t)
    ensures TrackerInRange(Detect(t, log, now, stamps).tracker)
  {
    var ip := log.sourceIp;
    DetectBruteForce(t, log, now, stamps);
    DetectPortScan(t, log, now, stamps);
    var prior := Lookup(t, ip, now);
    assert |prior.ports + {log.port}| <= |prior.ports| + 1;
  }

  /** Prepending rule alerts to a list of rule alerts leaves only rule alerts. */
  lemma BatchKeepsRuleAlerts(alerts: seq<Alert>, fired: seq<Alert>)
    requires AlertsFromRules(alerts) && AlertsFromRules(fired)
    ensures AlertsFromRules(PrependBatch(alerts, fired, MaxAlerts))
  {
    if fired != [] {
      var r := PrependBatch(alerts, fired, MaxAlerts);
      forall k | 0 <= k < |r|
        ensures IsRuleAlert(r[k])
      {
        TakeReverseIndex(fired, alerts, MaxAlerts, k);
      }
    }
  }

  /** Only rule alerts ever enter the alert list. */
  lemma StepKeepsRuleAlerts(s: State, tick: Tick)
    requires AlertsFromRules(s.alerts)
    ensures AlertsFromRules(Step(s, tick).alerts)
  {
    DetectFiredShape(s.tracker, tick.log, tick.now, tick.stamps);
    BatchKeepsRuleAlerts(s.alerts, Fired(s, tick));
  }

  /** Every tick keeps the state valid: counters below their thresholds,
      lists within capacity, statistics consistent with the tracker. */
  lemma StepPreservesValid(s: State, tick: Tick)
    requires Valid(s)
    ensures Valid(Step(s, tick))
  {
    DetectKeepsTrackerInRange(s.tracker, tick.log, tick.now, tick.stamps);
    StepAlerts(s, tick);
    StepKeepsRuleAlerts(s, tick);
  }

  /** When several rules fire on one log, the list gains them newest first:
      a SQL-injection alert lands at index 0, ahead of the others. */
  lemma SqlInjectionAlertFirst(s: State, tick: Tick)
    requires |s.alerts| <= MaxAlerts
    requires IsSqlInjection(tick.log.payload)
    ensures |Step(s, tick).alerts| > 0
    ensures Step(s, tick).alerts[0] == CheckSqlInjection(tick.log, tick.stamps.sqlInjection).value
    ensures Step(s, tick).alerts[0].kind == SqlInjection
    ensures Step(s, tick).alerts[0].involvedLogs == [tick.log.id]
  {
    var fired := Fired(s, tick);
    StepAlerts(s, tick);
    DetectSqlInjection(s.tracker, tick.log, tick.now, tick.stamps);
    DetectFiredShape(s.tracker, tick.log, tick.now, tick.stamps);
    TakeReverseIndex(fired, s.alerts, MaxAlerts, 0);
  }

  /** The alerts of one tick sit at the front of the list in reverse rule
      order (SQL injection, then port scan, then brute force). */
  lemma StepAlertOrder(s: State, tick: Tick)
    requires |s.alerts| <= MaxAlerts
    ensures var alerts := Step(s, tick).alerts;
      && |alerts| >= Min(|Fired(s, tick)|, MaxAlerts)
      && forall j, k :: 0 <= j < k < Min(|Fired(s, tick)|, MaxAlerts) ==>
           Rank(alerts[j].kind) > Rank(alerts[k].kind)
  {
    var fired := Fired(s, tick);
    StepAlerts(s, tick);
    DetectFiredShape(s.tracker, tick.log, tick.now, tick.stamps);
    ReversedBatchLeads(fired, s.alerts);
  }

  /** A batch in increasing rule order, prepended in reverse, leads the
      capped list in decreasing rule order. */
  lemma ReversedBatchLeads(fired: seq<Alert>, xs: seq<Alert>)
    requires forall j, k :: 0 <= j < k < |fired| ==> Rank(fired[j].kind) < Rank(fired[k].kind)
    ensures |Take(Reverse(fired) + xs, MaxAlerts)| >= Min(|fired|, MaxAlerts)
    ensures forall j, k :: 0 <= j < k < Min(|fired|, MaxAlerts) ==>
      Rank(Take(Reverse(fired) + xs, MaxAlerts)[j].kind) > Rank(Take(Reverse(fired) + xs, MaxAlerts)[k].kind)
  {
    var alerts := Take(Reverse(fired) + xs, MaxAlerts);
    forall j, k | 0 <= j < k < Min(|fired|, MaxAlerts)
      ensures Rank(alerts[j].kind) > Rank(alerts[k].kind)
    {
      TakeReverseIndex(fired, xs, MaxAlerts, j);
      TakeReverseIndex(fired, xs, MaxAlerts, k);
    }
  }

  /** In range, the brute-force counter runs modulo the threshold: a failed
      login advances it by one, and the alert fires exactly on the fifth
      failed login, when the counter was at four. */
  lemma DetectBruteForceInRange(t: Table, log: LogEntry, now: int, stamps: Stamps)
    requires TrackerInRange(t)
    ensures var d := Detect(t, log, now, stamps);
      var k := AttemptsOf(t, log.sourceIp);
      && (HasKind(d.fired, BruteForce) <==> IsFailedLogin(log) && k == BruteForceThreshold - 1)
      && AttemptsOf(d.tracker, log.sourceIp) == if IsFailedLogin(log) then (k + 1) % BruteForceThreshold else k
  {
    var ip := log.sourceIp;
    var k := AttemptsOf(t, ip);
    assert k < BruteForceThreshold;
    assert Lookup(t, ip, now).attempts == k;
    DetectBruteForce(t, log, now, stamps);
    var d := Detect(t, log, now, stamps);
    assert AttemptsOf(d.tracker, ip) == d.tracker[ip].attempts;
    WrapStep(k, BruteForceThreshold);
  }

  /** Quotient and remainder are the only ones: any `q * b + r` with
      `r < b` splits `m` the way `/` and `%` do. */
  lemma DivModUnique(m: nat, b: nat, q: nat, r: nat)
    requires b > 0 && r < b
    requires m == b * q + r
    ensures m / b == q && m % b == r
  {
    var q0, r0 := m / b, m % b;
    assert m == b * q0 + r0;
    MulMonotone(b, q + 1, q0);
    MulMonotone(b, q0 + 1, q);
    assert b * (q + 1) == b * q + b;
    assert b * (q0 + 1) == b * q0 + b;
  }

  /** A remainder below the bound advanced by one: it moves up, or wraps to
      zero from `b - 1`. */
  lemma WrapStep(r: nat, b: nat)
    requires r < b
    ensures (r + 1) % b == if r == b - 1 then 0 else r + 1
  {
    if r == b - 1 {
      DivModUnique(r + 1, b, 1, 0);
    } else {
      DivModUnique(r + 1, b, 0, r + 1);
    }
  }

  /** In range, the port-scan alert fires exactly when a new port brings the
      set to sixteen; the set then starts over empty. */
  lemma DetectPortScanInRange(t: Table, log: LogEntry, now: int, stamps: Stamps)
    requires TrackerInRange(t)
    ensures var d := Detect(t, log, now, stamps);
      var prior := PortsOf(t, log.sourceIp);
      var after := PortsOf(d.tracker, log.sourceIp);
      && (HasKind(d.fired, PortScan) <==> log.port !in prior && |prior| == PortScanLimit)
      && (log.port in prior ==> after == prior)
      && (log.port !in prior ==> |after| == (|prior| + 1) % (PortScanLimit + 1))
      && after <= prior + {log.port}
  {
    var ip := log.sourceIp;
    DetectPortScan(t, log, now, stamps);
    var d := Detect(t, log, now, stamps);
    var prior := PortsOf(t, ip);
    assert Lookup(t, ip, now).ports == prior;
    assert PortsOf(d.tracker, ip) == d.tracker[ip].ports;
    if log.port in prior {
      assert prior + {log.port} == prior;
    } else {
      assert |prior + {log.port}| == |prior| + 1;
      WrapStep(|prior|, PortScanLimit + 1);
    }
  }

  /** A source's first log can raise no brute-force and no port-scan alert;
      only the stateless SQL-injection rule can fire on it. */
  lemma FirstSightingOnlySql(s: State, tick: Tick)
    requires tick.log.sourceIp !in s.tracker
    ensures !HasKind(Fired(s, tick), BruteForce)
    ensures !HasKind(Fired(s, tick), PortScan)
    ensures Step(s, tick).tracker[tick.log.sourceIp].ports == {tick.log.port}
    ensures Step(s, tick).tracker[tick.log.sourceIp].attempts == (if IsFailedLogin(tick.log) then 1 else 0)
  {
    DetectBruteForce(s.tracker, tick.log, tick.now, tick.stamps);
    DetectPortScan(s.tracker, tick.log, tick.now, tick.stamps);
  }
}
