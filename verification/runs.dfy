/** Whole runs of the engine: a sequence of ticks fed one after another,
    and what the per-tick guarantees add up to over many ticks. */
module Runs {
  import opened Types
  import opened Text
  import opened History
  import opened Tracker
  import opened Rules
  import opened Statistics
  import opened Engine

  /** The state after feeding `ticks` to the engine in order, starting from `s`. */
  function Run(s: State, ticks: seq<Tick>): State
    decreases |ticks|
  {
    if ticks == [] then s else Step(Run(s, ticks[..|ticks| - 1]), ticks[|ticks| - 1])
  }

  /** How many of the ticks carry a CRITICAL log. */
  function CriticalCount(ticks: seq<Tick>): nat
    decreases |ticks|
  {
    if ticks == [] then 0
    else CriticalCount(ticks[..|ticks| - 1]) + (if ticks[|ticks| - 1].log.severity == Critical then 1 else 0)
  }

  /** The source addresses of the ticks' logs. */
  function Sources(ticks: seq<Tick>): set<string> {
    set i | 0 <= i < |ticks| :: ticks[i].log.sourceIp
  }

  /** The destination ports of the ticks' logs. */
  function PortsSeen(ticks: seq<Tick>): set<int> {
    set i | 0 <= i < |ticks| :: ticks[i].log.port
  }

  /** The log history a run builds from `logs`, one prepend per tick. */
  function LogsAfter(logs: seq<LogEntry>, ticks: seq<Tick>): seq<LogEntry>
    decreases |ticks|
  {
    if ticks == [] then logs
    else Prepend(ticks[|ticks| - 1].log, LogsAfter(logs, ticks[..|ticks| - 1]), MaxLogs)
  }

  /** The chart a run builds from `chart`, one append per tick. */
  function ChartAfter(chart: seq<ChartPoint>, ticks: seq<Tick>): seq<ChartPoint>
    decreases |ticks|
  {
    if ticks == [] then chart
    else Append(ChartAfter(chart, ticks[..|ticks| - 1]), ticks[|ticks| - 1].point, MaxChartPoints)
  }

  /** The tracker a run builds from `t`, one detection pass per tick. */
  function TrackerAfter(t: Table, ticks: seq<Tick>): Table
    decreases |ticks|
  {
    if ticks == [] then t
    else
      var tick := ticks[|ticks| - 1];
      Detect(TrackerAfter(t, ticks[..|ticks| - 1]), tick.log, tick.now, tick.stamps).tracker
  }

  /** The log history, the chart and the tracker each evolve on their own:
      the history depends only on the logs, the chart only on the points and
      the tracker only on the detection passes. */
  lemma {:induction false} RunProjections(s: State, ticks: seq<Tick>)
    ensures Run(s, ticks).logs == LogsAfter(s.logs, ticks)
    ensures Run(s, ticks).chart == ChartAfter(s.chart, ticks)
    ensures Run(s, ticks).tracker == TrackerAfter(s.tracker, ticks)
    decreases |ticks|
  {
    if ticks != [] {
      RunProjections(s, ticks[..|ticks| - 1]);
    }
  }

  /** The alerts a tick raises after a run depend only on the tracker the
      run built. */
  lemma RunFired(s: State, ticks: seq<Tick>, tick: Tick)
    ensures Fired(Run(s, ticks), tick) == Detect(TrackerAfter(s.tracker, ticks), tick.log, tick.now, tick.stamps).fired
  {
    RunProjections(s, ticks);
  }

  /** Validity holds after any number of ticks. */
  lemma {:induction false} RunPreservesValid(s: State, ticks: seq<Tick>)
    requires Valid(s)
    ensures Valid(Run(s, ticks))
    decreases |ticks|
  {
    if ticks != [] {
      var before := ticks[..|ticks| - 1];
      RunPreservesValid(s, before);
      StepPreservesValid(Run(s, before), ticks[|ticks| - 1]);
    }
  }

  lemma SourcesSnoc(ticks: seq<Tick>)
    requires ticks != []
    ensures Sources(ticks) == Sources(ticks[..|ticks| - 1]) + {ticks[|ticks| - 1].log.sourceIp}
  {
    var before := ticks[..|ticks| - 1];
    forall ip | ip in Sources(ticks)
      ensures ip in Sources(before) + {ticks[|ticks| - 1].log.sourceIp}
    {
      var i :| 0 <= i < |ticks| && ticks[i].log.sourceIp == ip;
      if i < |before| {
        assert before[i] == ticks[i];
      }
    }
    forall ip | ip in Sources(before)
      ensures ip in Sources(ticks)
    {
      var i :| 0 <= i < |before| && before[i].log.sourceIp == ip;
      assert ticks[i] == before[i];
    }
    assert ticks[|ticks| - 1].log.sourceIp in Sources(ticks);
  }

  lemma PortsSeenSnoc(ticks: seq<Tick>)
    requires ticks != []
    ensures PortsSeen(ticks) == PortsSeen(ticks[..|ticks| - 1]) + {ticks[|ticks| - 1].log.port}
  {
    var before := ticks[..|ticks| - 1];
    forall p | p in PortsSeen(ticks)
      ensures p in PortsSeen(before) + {ticks[|ticks| - 1].log.port}
    {
      var i :| 0 <= i < |ticks| && ticks[i].log.port == p;
      if i < |before| {
        assert before[i] == ticks[i];
      }
    }
    forall p | p in PortsSeen(before)
      ensures p in PortsSeen(ticks)
    {
      var i :| 0 <= i < |before| && before[i].log.port == p;
      assert ticks[i] == before[i];
    }
    assert ticks[|ticks| - 1].log.port in PortsSeen(ticks);
  }

  /** From the initial state, the counters count: one log per tick, one
      critical log per CRITICAL tick, and one tracked (and counted) address
      per distinct source address seen. */
  lemma {:induction false} RunCounters(ticks: seq<Tick>)
    ensures var s := Run(Init(), ticks);
      && s.stats.totalLogs == |ticks|
      && s.stats.criticalAlerts == CriticalCount(ticks)
      && s.tracker.Keys == Sources(ticks)
      && s.stats.uniqueIps == |Sources(ticks)|
    decreases |ticks|
  {
    if ticks == [] {
      assert Sources(ticks) == {};
    } else {
      var before := ticks[..|ticks| - 1];
      RunCounters(before);
      StepStatistics(Run(Init(), before), ticks[|ticks| - 1]);
      SourcesSnoc(ticks);
    }
  }

  /** `logs` are the logs of the last ticks, newest first. */
  predicate NewestFirst(logs: seq<LogEntry>, ticks: seq<Tick>) {
    && |logs| <= |ticks|
    && forall i :: 0 <= i < |logs| ==> logs[i] == ticks[|ticks| - 1 - i].log
  }

  /** `chart` holds the points of the last ticks, oldest first. */
  predicate OldestFirst(chart: seq<ChartPoint>, ticks: seq<Tick>) {
    && |chart| <= |ticks|
    && forall i :: 0 <= i < |chart| ==> chart[i] == ticks[|ticks| - |chart| + i].point
  }

  /** Prepending the last tick's log to the newest-first logs of the earlier
      ticks, and cutting, gives the newest-first logs of all the ticks. */
  lemma NewestFirstStep(prev: seq<LogEntry>, logs: seq<LogEntry>, ticks: seq<Tick>)
    requires ticks != [] && NewestFirst(prev, ticks[..|ticks| - 1])
    requires 0 < |logs| <= |prev| + 1
    requires logs[0] == ticks[|ticks| - 1].log && logs[1..] == prev[..|logs| - 1]
    ensures NewestFirst(logs, ticks)
  {
    var before := ticks[..|ticks| - 1];
    forall i | 0 <= i < |logs|
      ensures logs[i] == ticks[|ticks| - 1 - i].log
    {
      if i > 0 {
        assert logs[i] == logs[1..][i - 1] == prev[i - 1];
        assert before[|before| - 1 - (i - 1)] == ticks[|ticks| - 1 - i];
      }
    }
  }

  /** Appending the last tick's point to the oldest-first points of the
      earlier ticks, and cutting at the front, gives the oldest-first points
      of all the ticks. */
  lemma OldestFirstStep(prev: seq<ChartPoint>, chart: seq<ChartPoint>, ticks: seq<Tick>)
    requires ticks != [] && OldestFirst(prev, ticks[..|ticks| - 1])
    requires 0 < |chart| <= |prev| + 1
    requires chart[|chart| - 1] == ticks[|ticks| - 1].point
    requires chart[..|chart| - 1] == prev[|prev| + 1 - |chart|..]
    ensures OldestFirst(chart, ticks)
  {
    var before := ticks[..|ticks| - 1];
    forall i | 0 <= i < |chart|
      ensures chart[i] == ticks[|ticks| - |chart| + i].point
    {
      if i < |chart| - 1 {
        assert chart[i] == chart[..|chart| - 1][i] == prev[|prev| + 1 - |chart| + i];
        assert before[|before| - |prev| + (|prev| + 1 - |chart| + i)] == ticks[|ticks| - |chart| + i];
      }
    }
  }

  /** From an empty history, the history holds the logs of the last ticks,
      newest first, up to its capacity. */
  lemma {:induction false} LogsAfterNewestFirst(ticks: seq<Tick>)
    ensures |LogsAfter([], ticks)| == Min(MaxLogs, |ticks|)
    ensures NewestFirst(LogsAfter([], ticks), ticks)
    decreases |ticks|
  {
    if ticks != [] {
      var before := ticks[..|ticks| - 1];
      LogsAfterNewestFirst(before);
      NewestFirstStep(LogsAfter([], before), LogsAfter([], ticks), ticks);
    }
  }

  /** From an empty chart, the chart holds the points of the last ticks,
      oldest first, up to its capacity. */
  lemma {:induction false} ChartAfterOldestFirst(ticks: seq<Tick>)
    ensures |ChartAfter([], ticks)| == Min(MaxChartPoints, |ticks|)
    ensures OldestFirst(ChartAfter([], ticks), ticks)
    decreases |ticks|
  {
    if ticks != [] {
      var before := ticks[..|ticks| - 1];
      ChartAfterOldestFirst(before);
      OldestFirstStep(ChartAfter([], before), ChartAfter([], ticks), ticks);
    }
  }

  /** From the initial state, the log history holds the most recent logs,
      newest first, up to its capacity, and the chart the most recent
      points, oldest first, up to its capacity. */
  lemma RunHistories(ticks: seq<Tick>)
    ensures |Run(Init(), ticks).logs| == Min(MaxLogs, |ticks|)
    ensures NewestFirst(Run(Init(), ticks).logs, ticks)
    ensures |Run(Init(), ticks).chart| == Min(MaxChartPoints, |ticks|)
    ensures OldestFirst(Run(Init(), ticks).chart, ticks)
  {
    RunProjections(Init(), ticks);
    LogsAfterNewestFirst(ticks);
    ChartAfterOldestFirst(ticks);
  }

  /** `n` modulo `b`, counted by repeated subtraction: the position of a
      counter that wraps at `b` after `n` steps from zero. */
  function Mod(n: nat, b: nat): nat
    requires b > 0
    decreases n
  {
    if n < b then n else Mod(n - b, b)
  }

  /** Repeated subtraction agrees with Euclidean remainder. */
  lemma {:induction false} ModIsRemainder(n: nat, b: nat)
    requires b > 0
    ensures Mod(n, b) == n % b
    decreases n
  {
    if n < b {
      DivModUnique(n, b, 0, n);
    } else {
      ModIsRemainder(n - b, b);
      var q, r := (n - b) / b, (n - b) % b;
      assert n - b == b * q + r;
      assert n == b * (q + 1) + r;
      DivModUnique(n, b, q + 1, r);
    }
  }

  /** One more step of a counter that wraps at `b`: it advances, or wraps
      to zero exactly when it stood one short of the bound. */
  lemma {:induction false} ModStep(m: nat, b: nat)
    requires b > 0
    ensures Mod(m + 1, b) == if Mod(m, b) == b - 1 then 0 else Mod(m, b) + 1
    decreases m
  {
    if m + 1 < b {
    } else if m + 1 == b {
      assert Mod(m + 1 - b, b) == 0;
    } else {
      ModStep(m - b, b);
      assert m + 1 - b == (m - b) + 1;
    }
  }

  /** Detection passes keep every counter and port set in range. */
  lemma {:induction false} TrackerAfterInRange(t: Table, ticks: seq<Tick>)
    requires TrackerInRange(t)
    ensures TrackerInRange(TrackerAfter(t, ticks))
    decreases |ticks|
  {
    if ticks != [] {
      var tick := ticks[|ticks| - 1];
      TrackerAfterInRange(t, ticks[..|ticks| - 1]);
      DetectKeepsTrackerInRange(TrackerAfter(t, ticks[..|ticks| - 1]), tick.log, tick.now, tick.stamps);
    }
  }

  /** One failed login from `ip` seen as the `n`-th of a run: the counter
      moves from `Mod(n - 1, 5)` to `Mod(n, 5)`, and the alert fires exactly when
      that completes a round of five. */
  lemma BruteForceTick(t: Table, log: LogEntry, now: int, stamps: Stamps, ip: string, m: nat, n: nat)
    requires TrackerInRange(t)
    requires log.sourceIp == ip && n == m + 1
    requires IsFailedLogin(log)
    requires AttemptsOf(t, ip) == Mod(m, BruteForceThreshold)
    ensures AttemptsOf(Detect(t, log, now, stamps).tracker, ip) == Mod(n, BruteForceThreshold)
    ensures HasKind(Detect(t, log, now, stamps).fired, BruteForce) <==> Mod(n, BruteForceThreshold) == 0
  {
    DetectBruteForceInRange(t, log, now, stamps);
    WrapStep(Mod(m, BruteForceThreshold), BruteForceThreshold);
    ModStep(m, BruteForceThreshold);
  }

  /** One new port from `ip` seen as the `n`-th of a run: the set grows
      from `Mod(n - 1, 16)` to `Mod(n, 16)` ports, and the alert fires exactly when
      that completes a round of sixteen. */
  lemma PortScanTick(t: Table, log: LogEntry, now: int, stamps: Stamps, ip: string, m: nat, n: nat)
    requires TrackerInRange(t)
    requires log.sourceIp == ip && n == m + 1
    requires log.port !in PortsOf(t, ip)
    requires |PortsOf(t, ip)| == Mod(m, PortScanLimit + 1)
    ensures |PortsOf(Detect(t, log, now, stamps).tracker, ip)| == Mod(n, PortScanLimit + 1)
    ensures PortsOf(Detect(t, log, now, stamps).tracker, ip) <= PortsOf(t, ip) + {log.port}
    ensures HasKind(Detect(t, log, now, stamps).fired, PortScan) <==> Mod(n, PortScanLimit + 1) == 0
  {
    DetectPortScanInRange(t, log, now, stamps);
    WrapStep(Mod(m, PortScanLimit + 1), PortScanLimit + 1);
    ModStep(m, PortScanLimit + 1);
  }

  /** The failed logins from one address. */
  predicate FailedLoginsFrom(ticks: seq<Tick>, ip: string) {
    forall i :: 0 <= i < |ticks| ==> ticks[i].log.sourceIp == ip && IsFailedLogin(ticks[i].log)
  }

  lemma FailedLoginsPrefix(ticks: seq<Tick>, ip: string, j: nat)
    requires j <= |ticks| && FailedLoginsFrom(ticks, ip)
    ensures FailedLoginsFrom(ticks[..j], ip)
  {
    forall i | 0 <= i < j
      ensures ticks[..j][i] == ticks[i]
    {
    }
  }

  /** Failed logins from one address, starting from a counter of `k`:
      after `n` of them the counter reads `(k + n) % 5`. */
  lemma {:induction false} BruteForceTrace(t: Table, ticks: seq<Tick>, ip: string, n: nat)
    requires TrackerInRange(t)
    requires FailedLoginsFrom(ticks, ip)
    requires n == AttemptsOf(t, ip) + |ticks|
    ensures AttemptsOf(TrackerAfter(t, ticks), ip) == Mod(n, BruteForceThreshold)
    decreases |ticks|
  {
    var k := AttemptsOf(t, ip);
    if ticks == [] {
      assert k < BruteForceThreshold by {
        if ip in t {
        }
      }
    } else {
      var before := ticks[..|ticks| - 1];
      var tick := ticks[|ticks| - 1];
      FailedLoginsPrefix(ticks, ip, |ticks| - 1);
      var m := n - 1;
      BruteForceTrace(t, before, ip, m);
      TrackerAfterInRange(t, before);
      BruteForceTick(TrackerAfter(t, before), tick.log, tick.now, tick.stamps, ip, m, n);
    }
  }

  /** A run of failed logins from one address: starting from a counter of
      `k`, after `n` of them the counter reads `(k + n) % 5`. */
  lemma BruteForceRun(s: State, ticks: seq<Tick>, ip: string, n: nat)
    requires Valid(s)
    requires FailedLoginsFrom(ticks, ip)
    requires n == AttemptsOf(s.tracker, ip) + |ticks|
    ensures AttemptsOf(Run(s, ticks).tracker, ip) == Mod(n, BruteForceThreshold)
  {
    RunProjections(s, ticks);
    BruteForceTrace(s.tracker, ticks, ip, n);
  }

  /** In failed logins from one address whose counter started at `k`, the
      pass over the tick at index `j` raises a brute-force alert exactly
      when `k + j + 1` is a multiple of five. */
  lemma BruteForceTraceFiresAt(t: Table, ticks: seq<Tick>, ip: string, j: nat, n: nat)
    requires TrackerInRange(t)
    requires FailedLoginsFrom(ticks, ip)
    requires j < |ticks|
    requires n == AttemptsOf(t, ip) + j + 1
    ensures HasKind(Detect(TrackerAfter(t, ticks[..j]), ticks[j].log, ticks[j].now, ticks[j].stamps).fired, BruteForce)
      <==> Mod(n, BruteForceThreshold) == 0
  {
    var tick := ticks[j];
    var m := n - 1;
    FailedLoginsPrefix(ticks, ip, j);
    BruteForceTrace(t, ticks[..j], ip, m);
    TrackerAfterInRange(t, ticks[..j]);
    BruteForceTick(TrackerAfter(t, ticks[..j]), tick.log, tick.now, tick.stamps, ip, m, n);
  }

  /** In a run of failed logins from one address whose counter started at
      `k`, the brute-force alert fires on the tick at index `j` exactly when
      `k + j + 1` is a multiple of five: on every fifth failed login. */
  lemma BruteForceFiresAt(s: State, ticks: seq<Tick>, ip: string, j: nat, n: nat)
    requires Valid(s)
    requires FailedLoginsFrom(ticks, ip)
    requires j < |ticks|
    requires n == AttemptsOf(s.tracker, ip) + j + 1
    ensures HasKind(Fired(Run(s, ticks[..j]), ticks[j]), BruteForce) <==> Mod(n, BruteForceThreshold) == 0
  {
    RunFired(s, ticks[..j], ticks[j]);
    BruteForceTraceFiresAt(s.tracker, ticks, ip, j, n);
  }

  /** Logs from one address, each to a port that address has neither on
      record in `t` when the run starts nor used earlier in the run. */
  predicate NewPortsFrom(t: Table, ticks: seq<Tick>, ip: string)
    decreases |ticks|
  {
    ticks == [] ||
    (&& NewPortsFrom(t, ticks[..|ticks| - 1], ip)
     && ticks[|ticks| - 1].log.sourceIp == ip
     && ticks[|ticks| - 1].log.port !in PortsOf(t, ip) + PortsSeen(ticks[..|ticks| - 1]))
  }

  /** Up to any tick the ports are new, and that tick's port is neither on
      record at the start nor used earlier in the run. */
  lemma {:induction false} NewPortsPrefix(t: Table, ticks: seq<Tick>, ip: string, j: nat)
    requires j < |ticks| && NewPortsFrom(t, ticks, ip)
    ensures NewPortsFrom(t, ticks[..j], ip)
    ensures ticks[j].log.sourceIp == ip
    ensures ticks[j].log.port !in PortsOf(t, ip) + PortsSeen(ticks[..j])
    decreases |ticks|
  {
    var before := ticks[..|ticks| - 1];
    if j < |before| {
      NewPortsPrefix(t, before, ip, j);
      assert before[..j] == ticks[..j];
      assert before[j] == ticks[j];
    } else {
      assert before == ticks[..j];
    }
  }

  /** The recursive reading agrees with the direct one: every log comes
      from `ip`, none names a port on record at the start, and no two name
      the same port. */
  lemma {:induction false} NewPortsIffDistinct(t: Table, ticks: seq<Tick>, ip: string)
    ensures NewPortsFrom(t, ticks, ip) <==>
      && (forall i :: 0 <= i < |ticks| ==> ticks[i].log.sourceIp == ip)
      && (forall i :: 0 <= i < |ticks| ==> ticks[i].log.port !in PortsOf(t, ip))
      && (forall i, j :: 0 <= i < j < |ticks| ==> ticks[i].log.port != ticks[j].log.port)
    decreases |ticks|
  {
    if ticks != [] {
      var before := ticks[..|ticks| - 1];
      var last := ticks[|ticks| - 1].log;
      NewPortsIffDistinct(t, before, ip);
      assert forall i :: 0 <= i < |before| ==> before[i] == ticks[i];
      assert last.port in PortsSeen(before) <==> exists i :: 0 <= i < |before| && ticks[i].log.port == last.port;
    }
  }

  lemma NotInSubset<T>(x: T, a: set<T>, b: set<T>)
    requires a <= b && x !in b
    ensures x !in a
  {
  }

  /** New ports from one address, starting from `k` recorded ports: after
      `n` of them the set holds `(k + n) % 16` ports, all drawn from the
      starting set and the run's ports. */
  lemma {:induction false} PortScanTrace(t: Table, ticks: seq<Tick>, ip: string, n: nat)
    requires TrackerInRange(t)
    requires NewPortsFrom(t, ticks, ip)
    requires n == |PortsOf(t, ip)| + |ticks|
    ensures |PortsOf(TrackerAfter(t, ticks), ip)| == Mod(n, PortScanLimit + 1)
    ensures PortsOf(TrackerAfter(t, ticks), ip) <= PortsOf(t, ip) + PortsSeen(ticks)
    decreases |ticks|
  {
    var k := |PortsOf(t, ip)|;
    if ticks == [] {
      assert k <= PortScanLimit by {
        if ip in t {
        }
      }
    } else {
      var before := ticks[..|ticks| - 1];
      var tick := ticks[|ticks| - 1];
      var prior := TrackerAfter(t, before);
      assert |before| == |ticks| - 1;
      NewPortsPrefix(t, ticks, ip, |ticks| - 1);
      var m := n - 1;
      PortScanTrace(t, before, ip, m);
      TrackerAfterInRange(t, before);
      NotInSubset(tick.log.port, PortsOf(prior, ip), PortsOf(t, ip) + PortsSeen(before));
      PortScanTick(prior, tick.log, tick.now, tick.stamps, ip, m, n);
      PortsSeenSnoc(ticks);
    }
  }

  /** A run of logs to new ports from one address: starting from `k`
      recorded ports, after `n` of them the set holds `(k + n) % 16` ports,
      all drawn from the starting set and the run's ports. */
  lemma PortScanRun(s: State, ticks: seq<Tick>, ip: string, n: nat)
    requires Valid(s)
    requires NewPortsFrom(s.tracker, ticks, ip)
    requires n == |PortsOf(s.tracker, ip)| + |ticks|
    ensures |PortsOf(Run(s, ticks).tracker, ip)| == Mod(n, PortScanLimit + 1)
    ensures PortsOf(Run(s, ticks).tracker, ip) <= PortsOf(s.tracker, ip) + PortsSeen(ticks)
  {
    RunProjections(s, ticks);
    PortScanTrace(s.tracker, ticks, ip, n);
  }

  /** In new ports from one address that started with `k` ports on
      record, the pass over the tick at index `j` raises a port-scan alert
      exactly when `k + j + 1` is a multiple of sixteen. */
  lemma PortScanTraceFiresAt(t: Table, ticks: seq<Tick>, ip: string, j: nat, n: nat)
    requires TrackerInRange(t)
    requires NewPortsFrom(t, ticks, ip)
    requires j < |ticks|
    requires n == |PortsOf(t, ip)| + j + 1
    ensures HasKind(Detect(TrackerAfter(t, ticks[..j]), ticks[j].log, ticks[j].now, ticks[j].stamps).fired, PortScan)
      <==> Mod(n, PortScanLimit + 1) == 0
  {
    var tick := ticks[j];
    var before := ticks[..j];
    var prior := TrackerAfter(t, before);
    NewPortsPrefix(t, ticks, ip, j);
    var m := n - 1;
    PortScanTrace(t, before, ip, m);
    TrackerAfterInRange(t, before);
    NotInSubset(tick.log.port, PortsOf(prior, ip), PortsOf(t, ip) + PortsSeen(before));
    PortScanTick(prior, tick.log, tick.now, tick.stamps, ip, m, n);
  }

  /** In a run of new ports from one address that started with `k` ports on
      record, the port-scan alert fires on the tick at index `j` exactly when
      `k + j + 1` is a multiple of sixteen: whenever the set reaches sixteen. */
  lemma PortScanFiresAt(s: State, ticks: seq<Tick>, ip: string, j: nat, n: nat)
    requires Valid(s)
    requires NewPortsFrom(s.tracker, ticks, ip)
    requires j < |ticks|
    requires n == |PortsOf(s.tracker, ip)| + j + 1
    ensures HasKind(Fired(Run(s, ticks[..j]), ticks[j]), PortScan) <==> Mod(n, PortScanLimit + 1) == 0
  {
    RunFired(s, ticks[..j], ticks[j]);
    PortScanTraceFiresAt(s.tracker, ticks, ip, j, n);
  }

  /** Five failed logins from an address never seen before: the first four
      raise no brute-force alert, the fifth raises one, and the counter is
      back at zero. */
  lemma FiveFailedLogins(s: State, ticks: seq<Tick>, ip: string)
    requires Valid(s)
    requires ip !in s.tracker
    requires |ticks| == 5
    requires FailedLoginsFrom(ticks, ip)
    ensures forall j :: 0 <= j < 4 ==> !HasKind(Fired(Run(s, ticks[..j]), ticks[j]), BruteForce)
    ensures HasKind(Fired(Run(s, ticks[..4]), ticks[4]), BruteForce)
    ensures AttemptsOf(Run(s, ticks).tracker, ip) == 0
  {
    forall j | 0 <= j < 4
      ensures !HasKind(Fired(Run(s, ticks[..j]), ticks[j]), BruteForce)
    {
      BruteForceFiresAt(s, ticks, ip, j, j + 1);
    }
    BruteForceFiresAt(s, ticks, ip, 4, 5);
    BruteForceRun(s, ticks, ip, 5);
  }

  /** Sixteen distinct ports from an address never seen before: the first
      fifteen raise no port-scan alert, the sixteenth raises one, and the
      port set is empty again. */
  lemma SixteenPorts(s: State, ticks: seq<Tick>, ip: string)
    requires Valid(s)
    requires ip !in s.tracker
    requires |ticks| == 16
    requires forall i :: 0 <= i < |ticks| ==> ticks[i].log.sourceIp == ip
    requires forall i, j :: 0 <= i < j < |ticks| ==> ticks[i].log.port != ticks[j].log.port
    ensures forall j :: 0 <= j < 15 ==> !HasKind(Fired(Run(s, ticks[..j]), ticks[j]), PortScan)
    ensures HasKind(Fired(Run(s, ticks[..15]), ticks[15]), PortScan)
    ensures PortsOf(Run(s, ticks).tracker, ip) == {}
  {
    NewPortsIffDistinct(s.tracker, ticks, ip);
    forall j | 0 <= j < 15
      ensures !HasKind(Fired(Run(s, ticks[..j]), ticks[j]), PortScan)
    {
      PortScanFiresAt(s, ticks, ip, j, j + 1);
    }
    PortScanFiresAt(s, ticks, ip, 15, 16);
    PortScanRun(s, ticks, ip, 16);
  }

  /** A classic tautology payload: it holds the pattern `or 1=1` once
      lower-cased, so it counts as an injection. */
  lemma TautologyIsInjection()
    ensures IsSqlInjection("SELECT * FROM users WHERE id=1 OR 1=1")
  {
    var low := Lower("SELECT * FROM users WHERE id=1 OR 1=1");
    assert low[31..37] == "or 1=1";
    assert OccursAt(low, SqlPatterns[1], 31);
  }

  /** The quote of that payload in its alert: the first thirty characters
      followed by an ellipsis. */
  lemma TautologyQuote()
    ensures Take("SELECT * FROM users WHERE id=1 OR 1=1", QuotedPayloadLength) + "..."
      == "SELECT * FROM users WHERE id=1..."
  {
  }

  /** A classic tautology injection is caught and reported first: its alert
      heads the list and quotes the opening thirty characters of the payload. */
  lemma TautologyInjectionReported(s: State, tick: Tick)
    requires |s.alerts| <= MaxAlerts
    requires tick.log.payload == "SELECT * FROM users WHERE id=1 OR 1=1"
    ensures |Step(s, tick).alerts| > 0
    ensures Step(s, tick).alerts[0].kind == SqlInjection
    ensures Contains(Step(s, tick).alerts[0].description, "SELECT * FROM users WHERE id=1...")
  {
    TautologyIsInjection();
    TautologyQuote();
    SqlInjectionAlertFirst(s, tick);
    SqlDescriptionQuotesPayload(tick.log, tick.stamps.sqlInjection);
  }
}
