/** The per-source activity tracker: one record per source address ever
    seen, created lazily and never removed. */
module Tracker {

  /** What the engine remembers about one source address. */
  datatype Activity = Activity(attempts: nat, ports: set<int>, lastSeen: int)

  /** The tracker, keyed by source address. */
  type Table = map<string, Activity>

  /** The record a first sighting creates: no attempts and no ports yet. */
  function Fresh(now: int): Activity {
    Activity(0, {}, now)
  }

  /** The record the tick starts from: the stored one, or a fresh one. */
  function Lookup(t: Table, ip: string, now: int): (a: Activity)
    ensures ip in t ==> a == t[ip]
    ensures ip !in t ==> a.attempts == 0 && a.ports == {}
  {
    if ip in t then t[ip] else Fresh(now)
  }

  /** Registers one sighting of `ip` on `port` at time `now`: the record is
      created if absent, the port joins its port set and `lastSeen` moves to
      `now`; no other address's record changes. */
  function Touch(t: Table, ip: string, port: int, now: int): (t': Table)
    ensures t'.Keys == t.Keys + {ip}
    ensures forall other :: other in t && other != ip ==> t'[other] == t[other]
    ensures ip in t ==> t'[ip].attempts == t[ip].attempts && t'[ip].ports == t[ip].ports + {port}
    ensures ip !in t ==> t'[ip].attempts == 0 && t'[ip].ports == {port}
    ensures t'[ip].lastSeen == now
  {
    var a := Lookup(t, ip, now);
    t[ip := a.(lastSeen := now, ports := a.ports + {port})]
  }

  /** The failed-login counter of an address; zero for one never seen. */
  function AttemptsOf(t: Table, ip: string): nat {
    Lookup(t, ip, 0).attempts
  }

  /** The distinct-port set of an address; empty for one never seen. */
  function PortsOf(t: Table, ip: string): set<int> {
    Lookup(t, ip, 0).ports
  }
}
