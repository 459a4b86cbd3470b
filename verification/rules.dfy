/** The three detection rules and the per-log detection pass that runs them
    in their fixed order: brute force, port scan, SQL injection. */
module Rules {
  import opened Wrappers
  import opened Types
  import opened Text
  import opened History
  import opened Tracker

  /** Failed logins from one address that raise a brute-force alert. */
  const BruteForceThreshold: nat := 5
  /** The largest distinct-port set an address may have without a port-scan alert. */
  const PortScanLimit: nat := 15
  /** The case-insensitive substring that marks a login attempt. */
  const LoginMarker: string := "login"
  /** Case-insensitive substrings that mark a payload as SQL injection. */
  const SqlPatterns: seq<string> := ["union select", "or 1=1", "--", "xp_cmdshell"]
  /** How much of the payload a SQL-injection description quotes. */
  const QuotedPayloadLength: nat := 30

  /** The id and ISO timestamp a rule stamps on the alert it creates. */
  datatype Stamp = Stamp(id: string, timestamp: string)

  /** One stamp per rule, used only by a rule that fires. */
  datatype Stamps = Stamps(bruteForce: Stamp, portScan: Stamp, sqlInjection: Stamp)

  /** A rule's effect: the activity record afterwards and the alert, if any. */
  datatype Outcome = Outcome(activity: Activity, alert: Option<Alert>)

  /** The result of one detection pass: the tracker afterwards and the alerts
      raised, in the order the rules raised them. */
  datatype Detection = Detection(tracker: Table, fired: seq<Alert>)

  /** A failed login: the lower-cased payload mentions "login" and the status is FAILURE. */
  predicate IsFailedLogin(log: LogEntry): (b: bool)
    ensures b ==> log.status == Failure && |log.payload| >= |LoginMarker|
  {
    Contains(Lower(log.payload), LoginMarker) && log.status == Failure
  }

  /** Some SQL-injection pattern occurs in the lower-cased payload. */
  predicate IsSqlInjection(payload: string): (b: bool)
    ensures b ==> |payload| >= 2
  {
    assert forall k :: 0 <= k < |SqlPatterns| ==> |SqlPatterns[k]| >= 2;
    exists k :: 0 <= k < |SqlPatterns| && Contains(Lower(payload), SqlPatterns[k])
  }

  /** The severity each rule gives its alerts. */
  function SeverityOf(kind: AlertType): LogSeverity {
    if kind == PortScan then High else Critical
  }

  /** The position of a kind's rule in the evaluation order. */
  function Rank(kind: AlertType): nat {
    match kind
    case BruteForce => 0
    case PortScan => 1
    case SqlInjection => 2
    case DataExfiltration => 3
    case MaliciousC2 => 4
  }

  predicate HasKind(alerts: seq<Alert>, kind: AlertType) {
    exists k :: 0 <= k < |alerts| && alerts[k].kind == kind
  }

  lemma HasKindConcat(xs: seq<Alert>, ys: seq<Alert>, kind: AlertType)
    ensures HasKind(xs + ys, kind) <==> HasKind(xs, kind) || HasKind(ys, kind)
  {
    if HasKind(xs + ys, kind) {
      var k :| 0 <= k < |xs + ys| && (xs + ys)[k].kind == kind;
      if k >= |xs| {
        assert ys[k - |xs|].kind == kind;
      }
    }
    if HasKind(xs, kind) {
      var k :| 0 <= k < |xs| && xs[k].kind == kind;
      assert (xs + ys)[k].kind == kind;
    }
    if HasKind(ys, kind) {
      var k :| 0 <= k < |ys| && ys[k].kind == kind;
      assert (xs + ys)[|xs| + k].kind == kind;
    }
  }

  /** The alerts of a detection pass by rule, as built from the three outcomes. */
  lemma HasKindParts(o1: Option<Alert>, o2: Option<Alert>, o3: Option<Alert>, kind: AlertType)
    ensures HasKind(ToSeq(o1) + ToSeq(o2) + ToSeq(o3), kind) <==>
      (o1.Some? && o1.value.kind == kind) || (o2.Some? && o2.value.kind == kind) || (o3.Some? && o3.value.kind == kind)
  {
    HasKindConcat(ToSeq(o1) + ToSeq(o2), ToSeq(o3), kind);
    HasKindConcat(ToSeq(o1), ToSeq(o2), kind);
    assert HasKind(ToSeq(o1), kind) <==> o1.Some? && o1.value.kind == kind;
    assert HasKind(ToSeq(o2), kind) <==> o2.Some? && o2.value.kind == kind;
    assert HasKind(ToSeq(o3), kind) <==> o3.Some? && o3.value.kind == kind;
  }

  /** Brute-force rule: a failed login bumps the counter; reaching the
      threshold raises a CRITICAL alert and resets the counter. */
  function CheckBruteForce(log: LogEntry, a: Activity, st: Stamp): (o: Outcome)
    ensures o.activity.ports == a.ports && o.activity.lastSeen == a.lastSeen
    ensures !IsFailedLogin(log) ==> o == Outcome(a, None)
    ensures IsFailedLogin(log) && a.attempts + 1 < BruteForceThreshold ==>
      o.activity.attempts == a.attempts + 1 && o.alert == None
    ensures IsFailedLogin(log) && a.attempts + 1 >= BruteForceThreshold ==>
      && o.activity.attempts == 0
      && o.alert.Some?
      && o.alert.value.kind == BruteForce
      && o.alert.value.severity == Critical
      && o.alert.value.sourceIp == log.sourceIp
      && o.alert.value.involvedLogs == [log.id]
    ensures o.activity.attempts < BruteForceThreshold || o.activity.attempts == a.attempts
  {
    if IsFailedLogin(log) then
      var attempts := a.attempts + 1;
      if attempts >= BruteForceThreshold then
        Outcome(a.(attempts := 0),
                Some(Alert(st.id, st.timestamp, BruteForce, log.sourceIp, Critical,
                           BruteForceDescription(log.sourceIp, attempts), [log.id])))
      else
        Outcome(a.(attempts := attempts), None)
    else
      Outcome(a, None)
  }

  /** Port-scan rule: more than the limit of distinct ports raises a HIGH
      alert and empties the port set. */
  function CheckPortScan(log: LogEntry, a: Activity, st: Stamp): (o: Outcome)
    ensures o.activity.attempts == a.attempts && o.activity.lastSeen == a.lastSeen
    ensures |a.ports| <= PortScanLimit ==> o == Outcome(a, None)
    ensures |a.ports| > PortScanLimit ==>
      && o.activity.ports == {}
      && o.alert.Some?
      && o.alert.value.kind == PortScan
      && o.alert.value.severity == High
      && o.alert.value.sourceIp == log.sourceIp
      && o.alert.value.involvedLogs == [log.id]
    ensures |o.activity.ports| <= PortScanLimit
  {
    if |a.ports| > PortScanLimit then
      Outcome(a.(ports := {}),
              Some(Alert(st.id, st.timestamp, PortScan, log.sourceIp, High,
                         PortScanDescription(log.sourceIp, |a.ports|), [log.id])))
    else
      Outcome(a, None)
  }

  /** The fixed text of a brute-force description, before and after the address. */
  const BruteForcePrefix: string := "Multiple failed authentication attempts detected from "
  const BruteForceCountLabel: string := ". Current count: "
  /** The fixed text of a port-scan description, around the address and the port count. */
  const PortScanPrefix: string := "Source "
  const PortScanCountLabel: string := " contacted "
  const PortScanSuffix: string := " distinct ports in a short period. Possible mapping activity."
  /** The fixed text of a SQL-injection description, around the address and the quote. */
  const SqlPrefix: string := "SQL Injection pattern detected in payload from "
  const SqlQuoteOpen: string := ": \""
  const SqlQuoteClose: string := "...\""

  /** The description a brute-force alert carries: the address and the counter. */
  function BruteForceDescription(ip: string, count: nat): (r: string)
    ensures NamesCount(r, BruteForcePrefix + ip + BruteForceCountLabel, count, "")
  {
    var r := BruteForcePrefix + ip + BruteForceCountLabel + NatToString(count);
    RenderedCountReadsBack(BruteForcePrefix + ip + BruteForceCountLabel, count, "");
    assert r + "" == r;
    r
  }

  /** The description a port-scan alert carries: the address and the distinct-port count. */
  function PortScanDescription(ip: string, count: nat): (r: string)
    ensures NamesCount(r, PortScanPrefix + ip + PortScanCountLabel, count, PortScanSuffix)
  {
    RenderedCountReadsBack(PortScanPrefix + ip + PortScanCountLabel, count, PortScanSuffix);
    PortScanPrefix + ip + PortScanCountLabel + NatToString(count) + PortScanSuffix
  }

  /** The description a SQL-injection alert carries: the source address and
      the first characters of the payload as received. */
  function SqlDescription(ip: string, payload: string): (r: string)
    ensures OccursAt(r, ip, |SqlPrefix|)
    ensures OccursAt(r, Take(payload, QuotedPayloadLength) + "...", |SqlPrefix + ip + SqlQuoteOpen|)
    ensures |r| == |SqlPrefix + ip + SqlQuoteOpen| + Min(|payload|, QuotedPayloadLength) + |SqlQuoteClose|
  {
    var head := SqlPrefix + ip + SqlQuoteOpen;
    var quoted := Take(payload, QuotedPayloadLength) + "...";
    var r := head + quoted + "\"";
    assert r[|SqlPrefix|..|SqlPrefix| + |ip|] == ip;
    assert r[|head|..|head| + |quoted|] == quoted;
    assert r == SqlPrefix + ip + SqlQuoteOpen + Take(payload, QuotedPayloadLength) + SqlQuoteClose;
    r
  }

  /** SQL-injection rule: stateless; raises a CRITICAL alert exactly when a
      pattern occurs in the payload, whatever the tracker holds. */
  function CheckSqlInjection(log: LogEntry, st: Stamp): (r: Option<Alert>)
    ensures r.Some? <==> IsSqlInjection(log.payload)
    ensures r.Some? ==>
      && r.value.kind == SqlInjection
      && r.value.severity == Critical
      && r.value.sourceIp == log.sourceIp
      && r.value.involvedLogs == [log.id]
  {
    if IsSqlInjection(log.payload) then
      Some(Alert(st.id, st.timestamp, SqlInjection, log.sourceIp, Critical,
                 SqlDescription(log.sourceIp, log.payload), [log.id]))
    else
      None
  }

  /** One detection pass over a log: touch the tracker, then run the three
      rules in order on the touched record. */
  function Detect(t: Table, log: LogEntry, now: int, stamps: Stamps): (d: Detection)
    ensures d.tracker.Keys == t.Keys + {log.sourceIp}
    ensures forall ip :: ip in t && ip != log.sourceIp ==> d.tracker[ip] == t[ip]
    ensures d.tracker[log.sourceIp].lastSeen == now
  {
    var touched := Touch(t, log.sourceIp, log.port, now);
    var bf := CheckBruteForce(log, touched[log.sourceIp], stamps.bruteForce);
    var ps := CheckPortScan(log, bf.activity, stamps.portScan);
    var sql := CheckSqlInjection(log, stamps.sqlInjection);
    Detection(touched[log.sourceIp := ps.activity], ToSeq(bf.alert) + ToSeq(ps.alert) + ToSeq(sql))
  }

  /** Every alert of a pass names the log and its source, carries its rule's
      severity and comes from one of the three rules, at most one per rule,
      in rule order. */
  lemma DetectFiredShape(t: Table, log: LogEntry, now: int, stamps: Stamps)
    ensures var fired := Detect(t, log, now, stamps).fired;
      && |fired| <= 3
      && (forall k :: 0 <= k < |fired| ==>
            && fired[k].involvedLogs == [log.id]
            && fired[k].sourceIp == log.sourceIp
            && fired[k].severity == SeverityOf(fired[k].kind)
            && Rank(fired[k].kind) <= 2)
      && (forall j, k :: 0 <= j < k < |fired| ==> Rank(fired[j].kind) < Rank(fired[k].kind))
  {
    var ip := log.sourceIp;
    var touched := Touch(t, ip, log.port, now);
    var bf := CheckBruteForce(log, touched[ip], stamps.bruteForce);
    var ps := CheckPortScan(log, bf.activity, stamps.portScan);
    var sql := CheckSqlInjection(log, stamps.sqlInjection);
    var d := Detect(t, log, now, stamps);
    assert d.tracker == touched[ip := ps.activity];
    var a1, a2, a3 := ToSeq(bf.alert), ToSeq(ps.alert), ToSeq(sql);
    assert d.fired == a1 + a2 + a3;
    forall k | 0 <= k < |d.fired|
      ensures d.fired[k].involvedLogs == [log.id] && d.fired[k].sourceIp == log.sourceIp
      ensures d.fired[k].severity == SeverityOf(d.fired[k].kind)
      ensures Rank(d.fired[k].kind) == if k < |a1| then 0 else if k < |a1| + |a2| then 1 else 2
    {
      if k < |a1| {
        assert d.fired[k] == a1[k];
      } else if k < |a1| + |a2| {
        assert d.fired[k] == a2[k - |a1|];
      } else {
        assert d.fired[k] == a3[k - |a1| - |a2|];
      }
    }
  }

  /** Brute force: the counter moves only on a failed login, and the alert
      fires exactly when the incremented counter reaches the threshold, which
      also resets it. */
  lemma DetectBruteForce(t: Table, log: LogEntry, now: int, stamps: Stamps)
    ensures var d := Detect(t, log, now, stamps);
      var prior := Lookup(t, log.sourceIp, now);
      && (HasKind(d.fired, BruteForce) <==> IsFailedLogin(log) && prior.attempts + 1 >= BruteForceThreshold)
      && d.tracker[log.sourceIp].attempts ==
           if !IsFailedLogin(log) then prior.attempts
           else if prior.attempts + 1 >= BruteForceThreshold then 0
           else prior.attempts + 1
  {
    var ip := log.sourceIp;
    var touched := Touch(t, ip, log.port, now);
    var bf := CheckBruteForce(log, touched[ip], stamps.bruteForce);
    var ps := CheckPortScan(log, bf.activity, stamps.portScan);
    var sql := CheckSqlInjection(log, stamps.sqlInjection);
    var d := Detect(t, log, now, stamps);
    assert d.tracker == touched[ip := ps.activity];
    assert d.fired == ToSeq(bf.alert) + ToSeq(ps.alert) + ToSeq(sql);
    HasKindParts(bf.alert, ps.alert, sql, BruteForce);
  }

  /** Port scan: the port joins the set, and the alert fires exactly when the
      grown set exceeds the limit, which also empties it. */
  lemma DetectPortScan(t: Table, log: LogEntry, now: int, stamps: Stamps)
    ensures var d := Detect(t, log, now, stamps);
      var seen := Lookup(t, log.sourceIp, now).ports + {log.port};
      && (HasKind(d.fired, PortScan) <==> |seen| > PortScanLimit)
      && d.tracker[log.sourceIp].ports == if |seen| > PortScanLimit then {} else seen
  {
    var ip := log.sourceIp;
    var touched := Touch(t, ip, log.port, now);
    var bf := CheckBruteForce(log, touched[ip], stamps.bruteForce);
    var ps := CheckPortScan(log, bf.activity, stamps.portScan);
    var sql := CheckSqlInjection(log, stamps.sqlInjection);
    var d := Detect(t, log, now, stamps);
    assert d.tracker == touched[ip := ps.activity];
    assert d.fired == ToSeq(bf.alert) + ToSeq(ps.alert) + ToSeq(sql);
    HasKindParts(bf.alert, ps.alert, sql, PortScan);
  }

  /** SQL injection: the alert fires exactly when a pattern matches, whatever
      the tracker holds, and it is the last alert of the pass. */
  lemma DetectSqlInjection(t: Table, log: LogEntry, now: int, stamps: Stamps)
    ensures var fired := Detect(t, log, now, stamps).fired;
      && (HasKind(fired, SqlInjection) <==> IsSqlInjection(log.payload))
      && (IsSqlInjection(log.payload) ==> fired[|fired| - 1] == CheckSqlInjection(log, stamps.sqlInjection).value)
  {
    var ip := log.sourceIp;
    var touched := Touch(t, ip, log.port, now);
    var bf := CheckBruteForce(log, touched[ip], stamps.bruteForce);
    var ps := CheckPortScan(log, bf.activity, stamps.portScan);
    var sql := CheckSqlInjection(log, stamps.sqlInjection);
    var d := Detect(t, log, now, stamps);
    assert d.tracker == touched[ip := ps.activity];
    assert d.fired == ToSeq(bf.alert) + ToSeq(ps.alert) + ToSeq(sql);
    HasKindParts(bf.alert, ps.alert, sql, SqlInjection);
    var early := ToSeq(bf.alert) + ToSeq(ps.alert);
    assert d.fired == early + ToSeq(sql);
  }

  /** A SQL-injection alert quotes the first characters of the payload as
      received (not lower-cased), followed by an ellipsis. */
  lemma SqlDescriptionQuotesPayload(log: LogEntry, st: Stamp)
    requires IsSqlInjection(log.payload)
    ensures Contains(CheckSqlInjection(log, st).value.description,
                     Take(log.payload, QuotedPayloadLength) + "...")
  {
    var head := SqlPrefix + log.sourceIp + SqlQuoteOpen;
    var d := CheckSqlInjection(log, st).value.description;
    assert OccursAt(d, Take(log.payload, QuotedPayloadLength) + "...", |head|);
  }

  /** `d` reads as `head`, then a non-empty run of decimal digits whose value
      is `count`, then `tail`. */
  predicate NamesCount(d: string, head: string, count: nat, tail: string) {
    && |head| + |tail| < |d|
    && d[..|head|] == head
    && d[|d| - |tail|..] == tail
    && (forall k :: |head| <= k < |d| - |tail| ==> IsDigit(d[k]))
    && DigitsValue(d[|head|..|d| - |tail|]) == count
  }

  /** The description of `head + NatToString(count) + tail` names `count`. */
  lemma RenderedCountReadsBack(head: string, count: nat, tail: string)
    ensures NamesCount(head + NatToString(count) + tail, head, count, tail)
  {
    var n := NatToString(count);
    var d := head + n + tail;
    assert d[..|head|] == head;
    assert d[|d| - |tail|..] == tail;
    assert d[|head|..|d| - |tail|] == n;
    NatToStringRoundTrip(count);
  }

  /** A brute-force alert names its source and ends with the counter value
      that reached the threshold, written in decimal. */
  lemma BruteForceAlertNamesCount(log: LogEntry, a: Activity, st: Stamp)
    requires IsFailedLogin(log) && a.attempts + 1 >= BruteForceThreshold
    ensures Contains(CheckBruteForce(log, a, st).alert.value.description, log.sourceIp)
    ensures NamesCount(CheckBruteForce(log, a, st).alert.value.description,
                       BruteForcePrefix + log.sourceIp + BruteForceCountLabel, a.attempts + 1, "")
  {
    var d := CheckBruteForce(log, a, st).alert.value.description;
    assert d[..|BruteForcePrefix + log.sourceIp|] == BruteForcePrefix + log.sourceIp;
    assert d[|BruteForcePrefix|..|BruteForcePrefix| + |log.sourceIp|] == log.sourceIp;
    assert OccursAt(d, log.sourceIp, |BruteForcePrefix|);
  }

  /** A port-scan alert names its source and the number of distinct ports
      seen, written in decimal. */
  lemma PortScanAlertNamesCount(log: LogEntry, a: Activity, st: Stamp)
    requires |a.ports| > PortScanLimit
    ensures Contains(CheckPortScan(log, a, st).alert.value.description, log.sourceIp)
    ensures NamesCount(CheckPortScan(log, a, st).alert.value.description,
                       PortScanPrefix + log.sourceIp + PortScanCountLabel, |a.ports|, PortScanSuffix)
  {
    var d := CheckPortScan(log, a, st).alert.value.description;
    assert d[..|PortScanPrefix + log.sourceIp|] == PortScanPrefix + log.sourceIp;
    assert d[|PortScanPrefix|..|PortScanPrefix| + |log.sourceIp|] == log.sourceIp;
    assert OccursAt(d, log.sourceIp, |PortScanPrefix|);
  }

  /** An empty payload matches neither the login test nor any SQL pattern. */
  lemma EmptyPayloadNeverMatches(log: LogEntry)
    requires log.payload == []
    ensures !IsFailedLogin(log)
    ensures !IsSqlInjection(log.payload)
  {
    forall k | 0 <= k < |SqlPatterns|
      ensures !Contains(Lower(log.payload), SqlPatterns[k])
    {
      EmptyContainsNothing(SqlPatterns[k]);
    }
    EmptyContainsNothing(LoginMarker);
  }

  /** Both substring rules ignore letter case: a payload and its lower-cased
      form are judged alike. */
  lemma RulesIgnoreCase(log: LogEntry)
    ensures IsFailedLogin(log) <==> IsFailedLogin(log.(payload := Lower(log.payload)))
    ensures IsSqlInjection(log.payload) <==> IsSqlInjection(Lower(log.payload))
  {
    LowerIdempotent(log.payload);
  }
}
