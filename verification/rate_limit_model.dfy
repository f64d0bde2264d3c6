/**
 The sliding-window limiter on values: the pruned lists it keeps, and the
 reference it must agree with, which keeps every admitted time for ever.
 Times are in nanoseconds.
 */
module RateLimitModel {
  const SECOND := 1_000_000_000
  const MINUTE := 60 * SECOND

  /** A limit of zero or less is no limit. */
  datatype Config = Config(perSecond: int, perMinute: int)

  datatype Lists = Lists(second: seq<int>, minute: seq<int>)

  type Table = map<string, Lists>

  datatype Step = Allow(ip: string, now: int) | Evict(now: int)

  predicate Within(limit: int, count: nat) {
    limit <= 0 || count < limit
  }

  // ---- What the limiter does ----

  function Pruned(ts: seq<int>, cutoff: int): seq<int> {
    if ts != [] && ts[0] < cutoff then Pruned(ts[1..], cutoff) else ts
  }

  function Lookup(table: Table, ip: string): Lists {
    if ip in table then table[ip] else Lists([], [])
  }

  function PrunedAt(l: Lists, now: int): Lists {
    Lists(Pruned(l.second, now - SECOND), Pruned(l.minute, now - MINUTE))
  }

  predicate Admits(cfg: Config, l: Lists) {
    Within(cfg.perSecond, |l.second|) && Within(cfg.perMinute, |l.minute|)
  }

  /** The decision for a request, and the lists left behind. */
  function Handled(cfg: Config, l: Lists, now: int): (bool, Lists) {
    var p := PrunedAt(l, now);
    if Admits(cfg, p) then (true, Lists(p.second + [now], p.minute + [now])) else (false, p)
  }

  predicate IsIdle(l: Lists, cutoff: int) {
    l.minute == [] || l.minute[|l.minute| - 1] < cutoff
  }

  function Evicted(table: Table, now: int): Table {
    map ip | ip in table && !IsIdle(table[ip], now - MINUTE) :: table[ip]
  }

  function TableAfter(cfg: Config, table: Table, step: Step): Table {
    match step
    case Allow(ip, now) => table[ip := Handled(cfg, Lookup(table, ip), now).1]
    case Evict(now) => Evicted(table, now)
  }

  predicate Decides(cfg: Config, table: Table, step: Step) {
    step.Allow? && Handled(cfg, Lookup(table, step.ip), step.now).0
  }

  /** One decision for each step; an eviction counts as false. */
  function Decisions(cfg: Config, table: Table, steps: seq<Step>): (ds: seq<bool>)
    ensures |ds| == |steps|
    decreases |steps|
  {
    if steps == [] then []
    else [Decides(cfg, table, steps[0])] + Decisions(cfg, TableAfter(cfg, table, steps[0]), steps[1..])
  }

  // ---- What it promises ----

  /** How many logged times lie in the closed window [lo, hi]. */
  function CountIn(log: seq<int>, lo: int, hi: int): nat {
    if log == [] then 0
    else CountIn(log[..|log| - 1], lo, hi) + (if lo <= log[|log| - 1] <= hi then 1 else 0)
  }

  /** How many lie in the closed window of the given width that ends at `end`. */
  function InWindow(log: seq<int>, width: int, end: int): nat {
    CountIn(log, end - width, end)
  }

  /** The decision made from the full log of an address. */
  predicate ReferenceAdmits(cfg: Config, log: seq<int>, now: int) {
    Within(cfg.perSecond, InWindow(log, SECOND, now)) && Within(cfg.perMinute, InWindow(log, MINUTE, now))
  }

  function LogOf(logs: map<string, seq<int>>, ip: string): seq<int> {
    if ip in logs then logs[ip] else []
  }

  predicate ReferenceDecides(cfg: Config, logs: map<string, seq<int>>, step: Step) {
    step.Allow? && ReferenceAdmits(cfg, LogOf(logs, step.ip), step.now)
  }

  function Logged(logs: map<string, seq<int>>, step: Step, admitted: bool): map<string, seq<int>> {
    if step.Allow? && admitted then logs[step.ip := LogOf(logs, step.ip) + [step.now]] else logs
  }

  /** The reference: no pruning, no eviction, only admitted requests are remembered. */
  function ReferenceDecisions(cfg: Config, logs: map<string, seq<int>>, steps: seq<Step>): (ds: seq<bool>)
    ensures |ds| == |steps|
    decreases |steps|
  {
    if steps == [] then []
    else
      var d := ReferenceDecides(cfg, logs, steps[0]);
      [d] + ReferenceDecisions(cfg, Logged(logs, steps[0], d), steps[1..])
  }

  /** The admission log of every address, given the decisions taken. */
  function Admitted(logs: map<string, seq<int>>, steps: seq<Step>, ds: seq<bool>): map<string, seq<int>>
    requires |ds| == |steps|
    decreases |steps|
  {
    if steps == [] then logs else Admitted(Logged(logs, steps[0], ds[0]), steps[1..], ds[1..])
  }

  /** The clock never goes back from one request of an address, or one eviction, to a later request of it. */
  predicate Ordered(steps: seq<Step>) {
    forall i, j :: 0 <= i < j < |steps| && steps[j].Allow? && (steps[i].Evict? || steps[i].ip == steps[j].ip) ==>
      steps[i].now <= steps[j].now
  }
}
