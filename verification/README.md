# Intrusion-detection tick pipeline

This project models the core of a browser dashboard that simulates network traffic and raises intrusion alerts.
Every two seconds the dashboard receives one log entry and does five things:

- it prepends the entry to a log history capped at 50;
- it updates the running statistics (total logs, critical logs, unique source addresses, threat score);
- it appends a point to a traffic chart capped at 20;
- it records the entry's source address and port in a per-address activity tracker;
- it runs three detection rules in a fixed order: brute force, port scan, SQL injection.

A rule that fires prepends an alert to an alert list capped at 10.

The model has these modules:

- `Types` holds the records.
- `Tracker` holds the activity table.
- `Rules` holds the three rules and one detection pass, `Detect`.
- `Statistics` holds the counters and the threat score.
- `History` holds the capped lists.
- `Engine` holds one tick, `Step`, and the invariant `Valid` it preserves.
- `Runs` holds whole runs, `Run`, and what many ticks add up to.

The brute-force counter runs modulo 5, and the port set fills up to 16 and then empties.
`Runs` counts these with `Mod`, a remainder computed by repeated subtraction.
`Runs.ModIsRemainder` proves that it equals Dafny's `%`.

Everything a tick takes from outside is one `Tick` value:

- the log;
- the clock reading `now`;
- one id/timestamp `Stamp` per rule;
- the chart point.

The unique-address count is read from the tracker after this tick's log has been recorded.
It therefore includes the log's own source: after any run from the initial state it equals the number of distinct source addresses seen (`Runs.RunCounters`).
This reading follows React 18 batching of the tick's state updates: the statistics updater runs at render, after the detection pass has updated the tracker.

## Model

| member | source | states |
|---|---|---|
| Tracker.Touch | App.tsx:30-36 | the address gets a record if it had none (no attempts, no ports); its port joins its port set and `lastSeen` becomes `now`; every other address keeps its record |
| Rules.CheckBruteForce | App.tsx:38-54 | only a failed login (lower-cased payload contains "login", status FAILURE) moves the counter; below 5 it adds one and raises nothing; on reaching 5 it raises a CRITICAL brute-force alert for this source naming only this log, and resets the counter to 0; ports and `lastSeen` untouched; the alert's description is stated by `Rules.BruteForceAlertNamesCount` |
| Rules.CheckPortScan | App.tsx:56-69 | with more than 15 distinct ports it raises a HIGH port-scan alert for this source naming only this log and empties the set; otherwise the record is unchanged and nothing is raised; afterwards the set never exceeds 15; the alert's description is stated by `Rules.PortScanAlertNamesCount` |
| Rules.CheckSqlInjection | App.tsx:71-84 | an alert exists exactly when one of the four patterns occurs in the lower-cased payload; it is CRITICAL, of kind SQL injection, for this source, naming only this log |
| Text.Lower | App.tsx:39-73 | the result has the input's length, each character is the lower-case form of the one at its position, and no upper-case ASCII letter remains |
| Rules.IsFailedLogin | App.tsx:39 | a failed login has status FAILURE and a payload at least as long as "login" |
| Rules.IsSqlInjection | App.tsx:72-73 | a payload judged an injection has at least two characters, the length of the shortest pattern "--" |
| Text.NatToString | App.tsx:48-64 | a count is written as a non-empty run of decimal digits with no leading zero |
| Text.NatToStringRoundTrip | App.tsx:48-64 | reading the written digits back as a decimal number gives the count |
| Rules.RenderedCountReadsBack | App.tsx:48-64 | a text made of fixed words around a written count can be split back into the words and a digit run whose value is the count |
| Rules.BruteForceDescription | App.tsx:48 | the description is the fixed sentence and address, followed by digits whose value is the given count |
| Rules.PortScanDescription | App.tsx:64 | the description is the fixed opening and address, then digits whose value is the port count, then the fixed closing sentence |
| Rules.SqlDescription | App.tsx:80 | the address occurs right after the fixed opening, the first 30 payload characters plus "..." occur after it, and the length is accounted for exactly |
| Rules.BruteForceAlertNamesCount | App.tsx:48 | a brute-force alert's description contains the source address and ends with the counter value reached (the attempts before plus one), readable back as that number |
| Rules.PortScanAlertNamesCount | App.tsx:64 | a port-scan alert's description contains the source address and names the distinct-port count, readable back as that number |
| Rules.Detect | App.tsx:26-85 | the tracker gains the log's source, keeps every other address's record, and stamps the source with `now` |
| Rules.DetectFiredShape | App.tsx:26-85 | one pass raises at most three alerts, at most one per rule, in rule order; each names this log and source and carries its rule's severity |
| Rules.DetectBruteForce | App.tsx:39-54 | in a pass, the brute-force alert fires exactly when a failed login brings the counter to 5, and the counter ends at 0, +1 or unchanged accordingly |
| Rules.DetectPortScan | App.tsx:34-69 | the port joins the set first; the alert fires exactly when the grown set exceeds 15, which also empties it |
| Rules.DetectSqlInjection | App.tsx:72-84 | the SQL alert fires exactly when a pattern matches, whatever the tracker holds, and is the last alert of the pass |
| Rules.SqlDescriptionQuotesPayload | App.tsx:80 | a SQL alert's description contains the first 30 characters of the original payload followed by "..." |
| Rules.EmptyPayloadNeverMatches | App.tsx:39-73 | an empty payload is neither a failed login nor an injection |
| Rules.RulesIgnoreCase | App.tsx:39-73 | a payload and its lower-cased form are judged alike by both substring rules |
| Statistics.ThreatScore | App.tsx:96 | the score lies between 10 and 100, and is exactly 10 when there were no critical logs |
| Statistics.ThreatScoreMonotoneInCritical | App.tsx:96 | with the total fixed, more critical logs never lower the score |
| Statistics.ThreatScoreAntitoneInTotal | App.tsx:96 | with the critical count fixed, more logs never raise the score |
| Statistics.NextStats | App.tsx:92-97 | total grows by one; critical grows by one exactly for a CRITICAL log and otherwise stays; the unique count is the given tracker size; the score comes from the previous counters; critical ≤ total is kept |
| History.Prepend | App.tsx:91 | the new element is at the front, the previous list follows cut to the capacity, and the length is min(cap, n+1) |
| History.Append | App.tsx:99-102 | the new element is at the back, preceded by the newest of the previous list, and the length is min(cap, n+1) |
| History.PrependAllIsBatch | App.tsx:51-83 | prepending each alert in turn with a cut after each equals prepending the whole batch reversed and cutting once |
| Engine.Init | App.tsx:13-24 | the initial state is valid and has zero logs and a zero score |
| Engine.Step | App.tsx:91-104 | one tick adds exactly one log to the total and adds the log's source to the tracker's addresses |
| Engine.StepLogs | App.tsx:91 | the log history gains the new log at the front and keeps the previous newest entries up to 50 |
| Engine.StepChart | App.tsx:99-102 | the chart gains the new point at the back and keeps the previous newest points up to 20 |
| Engine.StepStatistics | App.tsx:92-97 | total +1, critical +1 exactly for a CRITICAL log, unique count equals the tracker's size and never drops, score from the previous counters |
| Engine.StepTracker | App.tsx:30-36 | only the log's source record changes, and it is stamped with `now` |
| Engine.StepAlertsOneAtATime | App.tsx:51-83 | the alert list after a tick is what prepending each raised alert in turn, cutting to 10 each time, produces |
| Engine.StepAlerts | App.tsx:51-83 | the alert list is this tick's alerts, last raised first, ahead of the previous list, cut to 10 |
| Engine.StepAlertOrder | App.tsx:38-84 | the tick's alerts lead the list in reverse rule order: SQL injection, then port scan, then brute force |
| Engine.ReversedBatchLeads | App.tsx:51-83 | alerts raised in increasing rule order and prepended one by one lead the capped list in decreasing rule order |
| Engine.SqlInjectionAlertFirst | App.tsx:72-83 | an injected payload puts its SQL alert at index 0, naming this log |
| Engine.StepKeepsRuleAlerts | App.tsx:42-83 | the alert list only ever holds alerts of the three rules with their severities and one involved log |
| Engine.DetectKeepsTrackerInRange | App.tsx:39-69 | after a pass every counter is below 5 and every port set holds at most 15 ports |
| Engine.StepPreservesValid | App.tsx:91-104 | every tick keeps the lists within capacity, counters in range, critical ≤ total, the unique count equal to the tracker size and the score in [10,100] once a log was seen |
| Engine.DetectBruteForceInRange | App.tsx:39-54 | a failed login advances the counter modulo 5, and the alert fires exactly when it stood at 4 |
| Engine.DetectPortScanInRange | App.tsx:34-69 | a new port grows the set modulo 16 and fires exactly when the set held 15; a known port leaves the set alone |
| Engine.FirstSightingOnlySql | App.tsx:30-69 | a source's first log raises no brute-force or port-scan alert; its record holds just this port and one or zero attempts |
| Runs.RunProjections | App.tsx:91-104 | over a run, the log history, the chart and the tracker each evolve on their own |
| Runs.RunPreservesValid | App.tsx:87-105 | validity holds after any number of ticks |
| Runs.RunCounters | App.tsx:92-95 | from the initial state, total = number of ticks, critical = number of CRITICAL logs, tracked addresses = distinct sources seen = unique count |
| Runs.RunHistories | App.tsx:91-102 | from the initial state, the history holds the last min(50, n) logs newest first and the chart the last min(20, n) points oldest first |
| Runs.BruteForceTrace | App.tsx:39-54 | n failed logins from one address move its counter from k to (k + n) mod 5 |
| Runs.BruteForceRun | App.tsx:39-54 | the same over engine runs |
| Runs.BruteForceFiresAt | App.tsx:41-52 | in a run of failed logins, the alert fires on the tick at index j exactly when k + j + 1 is a multiple of 5 |
| Runs.NewPortsIffDistinct | App.tsx:34-36 | logs to "new ports" are exactly logs from one address whose ports are pairwise distinct and not already recorded |
| Runs.PortScanTrace | App.tsx:34-69 | n logs to new ports move the address's set size from k to (k + n) mod 16, all drawn from the old set and the run's ports |
| Runs.PortScanRun | App.tsx:34-69 | the same over engine runs |
| Runs.PortScanFiresAt | App.tsx:57-68 | in a run of new ports, the alert fires on the tick at index j exactly when k + j + 1 is a multiple of 16 |
| Runs.FiveFailedLogins | App.tsx:39-54 | five failed logins from a fresh address: no alert on the first four, an alert on the fifth, counter back at 0 |
| Runs.SixteenPorts | App.tsx:34-69 | sixteen distinct ports from a fresh address: no alert on the first fifteen, an alert on the sixteenth, port set empty again |
| Runs.TautologyIsInjection | App.tsx:72-73 | "... OR 1=1" counts as an injection |
| Runs.TautologyInjectionReported | App.tsx:72-83 | that payload's alert heads the list and quotes "SELECT * FROM users WHERE id=1..." |

## Left out

- Rendering, the dashboard components and the interval timer are left out. A run is a sequence of ticks.
- The AI-summary service is left out: it is a network call outside the pipeline.
- The random log and chart-point generator is left out. Logs and points are inputs of each tick.
- Clock readings, random alert ids and ISO timestamps are left out. They arrive in `Tick.now` and `Tick.stamps`.
- DataExfiltration and MaliciousC2 exist as alert kinds, but no rule raises them, so no property concerns them.
- Tracker.Touch: address strings that name inherited object properties ("__proto__", "constructor", "toString", …) are not modelled.
  - The source's `!ipActivityRef.current[ip]` test is false for them, so no record is created.
  - `activity.ports.add` then throws, no rule runs, and `Object.keys` never counts the address.
  - The model treats every address string as an ordinary key: it creates a record, counts it, and runs the rules.
- Rules.SqlDescription: the quote takes the first 30 characters of the payload as Dafny `char`s, which are Unicode scalar values. `slice(0, 30)` counts UTF-16 code units. The two differ only for payloads with characters outside the Basic Multilingual Plane.
- Statistics.ThreatScore: the score uses natural-number division `c * 500 / (t + 1)`, not double-precision `floor(c / (t + 1) * 500)`.
  - Only pairs with critical ≤ total can occur.
  - For those pairs the two formulas agree whenever the total is below 2,000,000.
  - Larger totals are not covered.
- Text.Lower: lower-casing is ASCII only. This is exact for these rules. The only non-ASCII characters that lower-case into ASCII are U+0130 and U+212A, and neither can complete "login" or any of the SQL patterns.
- Engine.Step: the unique-address count read after insertion assumes React 18 batching. With a legacy root the statistics updater would run before the detection pass, and the count would lag one tick for a new address.
