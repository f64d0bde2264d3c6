/** One address while requests and the janitor race: exactly when its limits can be exceeded, and by how much. */
module RateLimitOrphans {
  import opened Options
  import opened RateLimitModel
  import opened RateLimitProofs
  import opened RateLimitRace

  // ---- The log of one address ----

  /** Thread t is about to lock a state of ip. */
  predicate IsFor(m: Memory, thread: nat, ip: string) {
    thread in m.held && m.held[thread].ip == ip
  }

  function LogAfter(cfg: Config, m: Memory, log: seq<int>, a: Act, ip: string): seq<int> {
    if a.Enter? && IsFor(m, a.thread, ip) && EnterDecides(cfg, m, a.thread, a.now) then log + [a.now] else log
  }

  /** The times admitted for ip, whichever state they went through. */
  function IpLog(cfg: Config, m: Memory, log: seq<int>, acts: seq<Act>, ip: string): seq<int>
    requires WellFormed(m) && CanRun(cfg, m, acts)
    decreases |acts|
  {
    if acts == [] then log
    else IpLog(cfg, After(cfg, m, acts[0]), LogAfter(cfg, m, log, acts[0], ip), acts[1..], ip)
  }

  lemma {:induction false} SameLength(cfg: Config, m: Memory, acts: seq<Act>)
    requires WellFormed(m) && CanRun(cfg, m, acts)
    ensures |RaceDecisions(cfg, m, acts)| == |AtomicSteps(cfg, m, acts)|
    decreases |acts|
  {
    if acts == [] {
    } else {
      SameLength(cfg, After(cfg, m, acts[0]), acts[1..]);
    }
  }

  /** It is the log the decisions taken make up. */
  lemma {:induction false} IpLogIsAdmitted(
    cfg: Config, m: Memory, logs: map<string, seq<int>>, acts: seq<Act>, ip: string)
    requires WellFormed(m) && CanRun(cfg, m, acts)
    ensures |RaceDecisions(cfg, m, acts)| == |AtomicSteps(cfg, m, acts)|
    ensures LogOf(Admitted(logs, AtomicSteps(cfg, m, acts), RaceDecisions(cfg, m, acts)), ip)
         == IpLog(cfg, m, LogOf(logs, ip), acts, ip)
    decreases |acts|
  {
    SameLength(cfg, m, acts);
    if acts == [] {
    } else {
      var a, m' := acts[0], After(cfg, m, acts[0]);
      SameLength(cfg, m', acts[1..]);
      var steps, ds := AtomicSteps(cfg, m', acts[1..]), RaceDecisions(cfg, m', acts[1..]);
      if a.Fetch? {
        assert [] + steps == steps && [] + ds == ds;
        IpLogIsAdmitted(cfg, m', logs, acts[1..], ip);
      } else {
        var step, d := StepOf(m, a)[0], DecisionOf(cfg, m, a)[0];
        assert ([step] + steps)[1..] == steps && ([d] + ds)[1..] == ds;
        IpLogIsAdmitted(cfg, m', Logged(logs, step, d), acts[1..], ip);
      }
    }
  }

  // ---- Each state belongs to one address ----

  predicate Owned(m: Memory, owners: seq<string>) {
    && |owners| == |m.objs|
    && (forall t :: t in m.held ==> m.held[t].obj < |owners| && owners[m.held[t].obj] == m.held[t].ip)
    && (forall ip :: ip in m.ips ==> m.ips[ip] < |owners| && owners[m.ips[ip]] == ip)
  }

  function OwnersAfter(m: Memory, owners: seq<string>, a: Act): seq<string> {
    if a.Fetch? && a.ip !in m.ips then owners + [a.ip] else owners
  }

  function FinalOwners(cfg: Config, m: Memory, owners: seq<string>, acts: seq<Act>): seq<string>
    requires WellFormed(m) && CanRun(cfg, m, acts)
    decreases |acts|
  {
    if acts == [] then owners else FinalOwners(cfg, After(cfg, m, acts[0]), OwnersAfter(m, owners, acts[0]), acts[1..])
  }

  lemma OwnersStep(cfg: Config, m: Memory, owners: seq<string>, a: Act)
    requires WellFormed(m) && Owned(m, owners) && (a.Enter? ==> a.thread in m.held)
    ensures Owned(After(cfg, m, a), OwnersAfter(m, owners, a))
  {
  }

  // ---- Without an orphan of the address ----

  /** A thread about to lock a state of ip that is no longer in the map. */
  predicate IsOrphan(m: Memory, thread: nat, ip: string) {
    IsFor(m, thread, ip) && !IsCurrent(m, thread)
  }

  ghost predicate HasOrphan(m: Memory, ip: string) {
    exists t :: IsOrphan(m, t, ip)
  }

  function Max(a: int, b: int): int {
    if a < b then b else a
  }

  /** The last clock reading that counts for ip. */
  function LastAfter(m: Memory, a: Act, ip: string, last: int): int {
    match a
    case Fetch(_, _) => last
    case Enter(thread, now) => if IsFor(m, thread, ip) then now else last
    case Sweep(now) => Max(last, now)
  }

  /** The clock does not go back from a request of ip, or a sweep, to a later request of ip. */
  predicate ClockKeeps(cfg: Config, m: Memory, acts: seq<Act>, ip: string, last: int)
    requires WellFormed(m) && CanRun(cfg, m, acts)
    decreases |acts|
  {
    acts == [] ||
    (&& (acts[0].Enter? && IsFor(m, acts[0].thread, ip) ==> last <= acts[0].now)
     && ClockKeeps(cfg, After(cfg, m, acts[0]), acts[1..], ip, LastAfter(m, acts[0], ip, last)))
  }

  /** No request of ip locks a state that is no longer in the map. */
  predicate EntersCurrent(cfg: Config, m: Memory, acts: seq<Act>, ip: string)
    requires WellFormed(m) && CanRun(cfg, m, acts)
    decreases |acts|
  {
    acts == [] ||
    (&& (acts[0].Enter? ==> !IsOrphan(m, acts[0].thread, ip))
     && EntersCurrent(cfg, After(cfg, m, acts[0]), acts[1..], ip))
  }

  /** What the map holds for ip agrees with its log, which keeps to the limits. */
  predicate InStep(cfg: Config, m: Memory, log: seq<int>, ip: string, last: int)
    requires WellFormed(m)
  {
    WellLogged(cfg, log) && Agrees(ListsOf(m, ip), log, last)
  }

  lemma EnterInStep(
    cfg: Config, m: Memory, owners: seq<string>, log: seq<int>, thread: nat, now: int, ip: string, last: int)
    requires WellFormed(m) && Owned(m, owners) && InStep(cfg, m, log, ip, last) && thread in m.held
    requires IsFor(m, thread, ip) ==> last <= now && IsCurrent(m, thread)
    ensures InStep(cfg, Entered(cfg, m, thread, now), LogAfter(cfg, m, log, Enter(thread, now), ip), ip,
                   LastAfter(m, Enter(thread, now), ip, last))
  {
    if IsFor(m, thread, ip) {
      var l := ListsOf(m, ip);
      AgreesLater(l, log, last, now);
      HandledAgrees(cfg, l, log, now);
      if Handled(cfg, l, now).0 {
        LoggedStaysWell(cfg, log, now);
      }
    } else {
      assert ListsOf(Entered(cfg, m, thread, now), ip) == ListsOf(m, ip);
    }
  }

  lemma SweepInStep(cfg: Config, m: Memory, log: seq<int>, now: int, ip: string, last: int)
    requires WellFormed(m) && InStep(cfg, m, log, ip, last)
    ensures InStep(cfg, Swept(m, now), log, ip, Max(last, now))
  {
    AgreesLater(ListsOf(m, ip), log, last, Max(last, now));
    if ip in m.ips && IsIdle(m.objs[m.ips[ip]], now - MINUTE) {
      IdleIsForgettable(ListsOf(m, ip), log, now, Max(last, now));
    }
  }

  lemma ActInStep(cfg: Config, m: Memory, owners: seq<string>, log: seq<int>, a: Act, ip: string, last: int)
    requires WellFormed(m) && Owned(m, owners) && InStep(cfg, m, log, ip, last) && (a.Enter? ==> a.thread in m.held)
    requires a.Enter? && IsFor(m, a.thread, ip) ==> last <= a.now && IsCurrent(m, a.thread)
    ensures InStep(cfg, After(cfg, m, a), LogAfter(cfg, m, log, a, ip), ip, LastAfter(m, a, ip, last))
  {
    match a
    case Fetch(thread, p) => assert ListsOf(Fetched(m, thread, p), ip) == ListsOf(m, ip);
    case Enter(thread, now) => EnterInStep(cfg, m, owners, log, thread, now, ip, last);
    case Sweep(now) => SweepInStep(cfg, m, log, now, ip, last);
  }

  function MemoryThen(cfg: Config, m: Memory, acts: seq<Act>): (m': Memory)
    requires WellFormed(m) && CanRun(cfg, m, acts)
    ensures WellFormed(m')
    decreases |acts|
  {
    if acts == [] then m else MemoryThen(cfg, After(cfg, m, acts[0]), acts[1..])
  }

  function LastThen(cfg: Config, m: Memory, acts: seq<Act>, ip: string, last: int): int
    requires WellFormed(m) && CanRun(cfg, m, acts)
    decreases |acts|
  {
    if acts == [] then last
    else LastThen(cfg, After(cfg, m, acts[0]), acts[1..], ip, LastAfter(m, acts[0], ip, last))
  }

  lemma {:induction false} RunInStep(
    cfg: Config, m: Memory, owners: seq<string>, log: seq<int>, acts: seq<Act>, ip: string, last: int)
    requires WellFormed(m) && Owned(m, owners) && InStep(cfg, m, log, ip, last) && CanRun(cfg, m, acts)
    requires ClockKeeps(cfg, m, acts, ip, last) && EntersCurrent(cfg, m, acts, ip)
    ensures var t := MemoryThen(cfg, m, acts);
            && Owned(t, FinalOwners(cfg, m, owners, acts))
            && InStep(cfg, t, IpLog(cfg, m, log, acts, ip), ip, LastThen(cfg, m, acts, ip, last))
    decreases |acts|
  {
    if acts == [] {
    } else {
      var a := acts[0];
      OwnersStep(cfg, m, owners, a);
      ActInStep(cfg, m, owners, log, a, ip, last);
      RunInStep(cfg, After(cfg, m, a), OwnersAfter(m, owners, a), LogAfter(cfg, m, log, a, ip), acts[1..], ip,
                LastAfter(m, a, ip, last));
    }
  }

  predicate SweepFree(acts: seq<Act>) {
    forall i :: 0 <= i < |acts| ==> !acts[i].Sweep?
  }

  lemma OrphansNeedSweeps(cfg: Config, m: Memory, a: Act, ip: string)
    requires WellFormed(m) && !a.Sweep? && (a.Enter? ==> a.thread in m.held) && !HasOrphan(m, ip)
    ensures !HasOrphan(After(cfg, m, a), ip)
  {
    forall t ensures !IsOrphan(After(cfg, m, a), t, ip) {
      assert !IsOrphan(m, t, ip);
    }
  }

  lemma {:induction false} StaysWithoutOrphan(cfg: Config, m: Memory, acts: seq<Act>, ip: string)
    requires WellFormed(m) && CanRun(cfg, m, acts) && SweepFree(acts) && !HasOrphan(m, ip)
    ensures EntersCurrent(cfg, m, acts, ip)
    decreases |acts|
  {
    if acts == [] {
    } else {
      OrphansNeedSweeps(cfg, m, acts[0], ip);
      StaysWithoutOrphan(cfg, After(cfg, m, acts[0]), acts[1..], ip);
    }
  }

  // ---- With an orphan of the address ----

  predicate HasLimit(cfg: Config) {
    cfg.perSecond > 0 || cfg.perMinute > 0
  }

  /** How many requests can be admitted at one instant. */
  function Capacity(cfg: Config): nat
    requires HasLimit(cfg)
  {
    if cfg.perSecond <= 0 then cfg.perMinute
    else if cfg.perMinute <= 0 || cfg.perSecond < cfg.perMinute then cfg.perSecond
    else cfg.perMinute
  }

  function Repeated(now: int, n: nat): (ts: seq<int>)
    ensures |ts| == n && forall i :: 0 <= i < n ==> ts[i] == now
  {
    seq(n, _ => now)
  }

  lemma RepeatedGrows(log: seq<int>, now: int, n: nat)
    ensures log + [now] + Repeated(now, n) == log + Repeated(now, n + 1)
  {
  }

  /** After pruning at `now`, what is left is n requests of that instant. */
  predicate HoldsJust(l: Lists, now: int, n: nat) {
    PrunedAt(l, now) == Lists(Repeated(now, n), Repeated(now, n))
  }

  lemma OneMoreFits(cfg: Config, l: Lists, now: int, n: nat)
    requires HasLimit(cfg) && HoldsJust(l, now, n) && n < Capacity(cfg)
    ensures Handled(cfg, l, now).0 && HoldsJust(Handled(cfg, l, now).1, now, n + 1)
  {
    assert Repeated(now, n) + [now] == Repeated(now, n + 1);
  }

  /** A thread holds an orphan that is empty by now, another one is free, and the map admitted n requests at `now`. */
  predicate IsReady(m: Memory, orphan: nat, free: nat, ip: string, now: int, n: nat) {
    && WellFormed(m) && IsOrphan(m, orphan, ip) && free !in m.held
    && HoldsJust(m.objs[m.held[orphan].obj], now, 0)
    && HoldsJust(ListsOf(m, ip), now, n)
  }

  /** The next request is admitted through the state in the map, while there is room. */
  lemma RequestFits(cfg: Config, m: Memory, orphan: nat, free: nat, ip: string, now: int, n: nat)
    requires HasLimit(cfg) && IsReady(m, orphan, free, ip, now, n) && n < Capacity(cfg)
    ensures var f := Fetched(m, free, ip);
            && IsFor(f, free, ip) && EnterDecides(cfg, f, free, now)
            && IsReady(Entered(cfg, f, free, now), orphan, free, ip, now, n + 1)
  {
    var f := Fetched(m, free, ip);
    OneMoreFits(cfg, ListsOf(m, ip), now, n);
    assert f.objs[f.held[free].obj] == ListsOf(m, ip);
    var e := Entered(cfg, f, free, now);
    assert e.held == m.held;
    assert ListsOf(e, ip) == Handled(cfg, ListsOf(m, ip), now).1;
  }

  /** Requests through the map until it is full, then one through the orphan. */
  function Overfilling(orphan: nat, free: nat, ip: string, now: int, n: nat): seq<Act> {
    if n == 0 then [Enter(orphan, now)]
    else [Fetch(free, ip)] + ([Enter(free, now)] + Overfilling(orphan, free, ip, now, n - 1))
  }

  /** The run is possible without a sweep, and makes this log of ip. */
  ghost predicate Makes(
    cfg: Config, m: Memory, log: seq<int>, acts: seq<Act>, ip: string, last: int, result: seq<int>)
  {
    && WellFormed(m) && CanRun(cfg, m, acts) && SweepFree(acts)
    && ClockKeeps(cfg, m, acts, ip, last) && IpLog(cfg, m, log, acts, ip) == result
  }

  lemma MakesStep(
    cfg: Config, m: Memory, log: seq<int>, a: Act, rest: seq<Act>, ip: string, last: int, result: seq<int>)
    requires WellFormed(m) && !a.Sweep? && (a.Enter? ==> a.thread in m.held)
    requires a.Enter? && IsFor(m, a.thread, ip) ==> last <= a.now
    requires Makes(cfg, After(cfg, m, a), LogAfter(cfg, m, log, a, ip), rest, ip, LastAfter(m, a, ip, last), result)
    ensures Makes(cfg, m, log, [a] + rest, ip, last, result)
  {
    assert ([a] + rest)[1..] == rest;
  }

  lemma OrphanEntersLast(cfg: Config, m: Memory, log: seq<int>, orphan: nat, ip: string, last: int, now: int)
    requires HasLimit(cfg) && WellFormed(m) && IsFor(m, orphan, ip) && last <= now
    requires HoldsJust(m.objs[m.held[orphan].obj], now, 0)
    ensures Makes(cfg, m, log, [Enter(orphan, now)], ip, last, log + Repeated(now, 1))
  {
    OneMoreFits(cfg, m.objs[m.held[orphan].obj], now, 0);
    assert Repeated(now, 1) == [now];
    MakesStep(cfg, m, log, Enter(orphan, now), [], ip, last, log + [now]);
    assert [Enter(orphan, now)] + [] == [Enter(orphan, now)];
  }

  /** A request admitted through the map, before the rest of a run. */
  lemma RequestThen(
    cfg: Config, m: Memory, log: seq<int>, free: nat, ip: string, last: int, now: int, rest: seq<Act>, result: seq<int>)
    requires WellFormed(m) && last <= now && EnterDecides(cfg, Fetched(m, free, ip), free, now)
    requires Makes(cfg, Entered(cfg, Fetched(m, free, ip), free, now), log + [now], rest, ip, now, result)
    ensures Makes(cfg, m, log, [Fetch(free, ip)] + ([Enter(free, now)] + rest), ip, last, result)
  {
    var f := Fetched(m, free, ip);
    MakesStep(cfg, f, log, Enter(free, now), rest, ip, last, result);
    MakesStep(cfg, m, log, Fetch(free, ip), [Enter(free, now)] + rest, ip, last, result);
  }

  lemma {:induction false} OverfillingMakes(
    cfg: Config, m: Memory, log: seq<int>, orphan: nat, free: nat, ip: string, last: int, now: int, n: nat)
    requires HasLimit(cfg) && n <= Capacity(cfg) && IsReady(m, orphan, free, ip, now, Capacity(cfg) - n) && last <= now
    ensures Makes(cfg, m, log, Overfilling(orphan, free, ip, now, n), ip, last, log + Repeated(now, n + 1))
    decreases n
  {
    if n == 0 {
      OrphanEntersLast(cfg, m, log, orphan, ip, last, now);
    } else {
      RequestFits(cfg, m, orphan, free, ip, now, Capacity(cfg) - n);
      var e := Entered(cfg, Fetched(m, free, ip), free, now);
      OverfillingMakes(cfg, e, log + [now], orphan, free, ip, now, now, n - 1);
      RepeatedGrows(log, now, n);
      RequestThen(cfg, m, log, free, ip, last, now, Overfilling(orphan, free, ip, now, n - 1),
                  log + Repeated(now, n + 1));
    }
  }

  lemma {:induction false} RepeatedCounts(log: seq<int>, now: int, n: nat, width: nat)
    ensures InWindow(log + Repeated(now, n), width, now) >= n
    decreases n
  {
    if n == 0 {
    } else {
      RepeatedCounts(log, now, n - 1, width);
      assert (log + Repeated(now, n))[..|log| + n - 1] == log + Repeated(now, n - 1);
    }
  }

  /** A time later than all of some times. */
  function Beyond(ts: seq<int>): (t: int)
    ensures forall i :: 0 <= i < |ts| ==> ts[i] < t
  {
    if ts == [] then 0 else Max(Beyond(ts[..|ts| - 1]), ts[|ts| - 1] + 1)
  }

  lemma {:induction false} AllPruned(ts: seq<int>, cutoff: int)
    requires forall i :: 0 <= i < |ts| ==> ts[i] < cutoff
    ensures Pruned(ts, cutoff) == []
    decreases |ts|
  {
    if ts == [] {
    } else {
      AllPruned(ts[1..], cutoff);
    }
  }

  lemma EmptyByThen(l: Lists, now: int)
    requires Beyond(l.second) + MINUTE <= now && Beyond(l.minute) + MINUTE <= now
    ensures HoldsJust(l, now, 0)
  {
    AllPruned(l.second, now - SECOND);
    AllPruned(l.minute, now - MINUTE);
  }

  lemma {:induction false} SomeThreadIsFree(held: set<nat>) returns (free: nat)
    ensures free !in held && forall t :: t in held ==> t < free
    decreases held
  {
    if held == {} {
      free := 0;
    } else {
      var t :| t in held;
      var f := SomeThreadIsFree(held - {t});
      free := if t < f then f else t + 1;
      assert forall u :: u in held ==> u == t || u in held - {t};
    }
  }

  // ---- Exactly when ----

  /** Without any further sweep, some requests of ip can overfill a window. */
  ghost predicate CanOverfill(cfg: Config, m: Memory, log: seq<int>, ip: string, last: int)
    requires WellFormed(m)
  {
    exists acts, end ::
      && SweepFree(acts) && CanRun(cfg, m, acts) && ClockKeeps(cfg, m, acts, ip, last)
      && !KeepsLimits(cfg, IpLog(cfg, m, log, acts, ip), end)
  }

  lemma OrphanOverfills(cfg: Config, m: Memory, log: seq<int>, orphan: nat, ip: string, last: int)
    requires WellFormed(m) && HasLimit(cfg) && IsOrphan(m, orphan, ip)
    ensures CanOverfill(cfg, m, log, ip, last)
  {
    var o, c := m.objs[m.held[orphan].obj], ListsOf(m, ip);
    var latest := Max(Max(Beyond(o.second), Beyond(o.minute)), Max(Beyond(c.second), Beyond(c.minute)));
    var now := Max(last, latest + MINUTE);
    EmptyByThen(o, now);
    EmptyByThen(c, now);
    var free := SomeThreadIsFree(m.held.Keys);
    var n := Capacity(cfg);
    var acts := Overfilling(orphan, free, ip, now, n);
    OverfillingMakes(cfg, m, log, orphan, free, ip, last, now, n);
    RepeatedCounts(log, now, n + 1, SECOND);
    RepeatedCounts(log, now, n + 1, MINUTE);
    assert !KeepsLimits(cfg, IpLog(cfg, m, log, acts, ip), now);
  }

  /**
   As long as the state in the map is in step with the address's log, its limits
   can be exceeded if and only if some thread is about to lock an orphan of it.
   */
  lemma OverfillsIff(cfg: Config, m: Memory, owners: seq<string>, log: seq<int>, ip: string, last: int)
    requires WellFormed(m) && Owned(m, owners) && HasLimit(cfg) && InStep(cfg, m, log, ip, last)
    ensures CanOverfill(cfg, m, log, ip, last) <==> HasOrphan(m, ip)
  {
    if HasOrphan(m, ip) {
      var orphan :| IsOrphan(m, orphan, ip);
      OrphanOverfills(cfg, m, log, orphan, ip, last);
    } else {
      forall acts, end | SweepFree(acts) && CanRun(cfg, m, acts) && ClockKeeps(cfg, m, acts, ip, last)
        ensures KeepsLimits(cfg, IpLog(cfg, m, log, acts, ip), end)
      {
        StaysWithoutOrphan(cfg, m, acts, ip);
        RunInStep(cfg, m, owners, log, acts, ip, last);
        WellLoggedBounds(cfg, IpLog(cfg, m, log, acts, ip), end);
      }
    }
  }

  /** So it is after every run from a new limiter in which no request of the address has locked an orphan yet. */
  lemma RunOverfillsIff(cfg: Config, acts: seq<Act>, ip: string, first: int)
    requires HasLimit(cfg) && CanRun(cfg, NEW, acts)
    requires ClockKeeps(cfg, NEW, acts, ip, first) && EntersCurrent(cfg, NEW, acts, ip)
    ensures var m, log := MemoryThen(cfg, NEW, acts), IpLog(cfg, NEW, [], acts, ip);
            && (forall end :: KeepsLimits(cfg, log, end))
            && (CanOverfill(cfg, m, log, ip, LastThen(cfg, NEW, acts, ip, first)) <==> HasOrphan(m, ip))
  {
    RunInStep(cfg, NEW, [], [], acts, ip, first);
    var m, log := MemoryThen(cfg, NEW, acts), IpLog(cfg, NEW, [], acts, ip);
    forall end ensures KeepsLimits(cfg, log, end) {
      WellLoggedBounds(cfg, log, end);
    }
    OverfillsIff(cfg, m, FinalOwners(cfg, NEW, [], acts), log, ip, LastThen(cfg, NEW, acts, ip, first));
  }

  // ---- By how much ----

  /** The number of states made for an address. */
  function StatesOf(owners: seq<string>, ip: string): nat {
    if owners == [] then 0
    else StatesOf(owners[..|owners| - 1], ip) + (if owners[|owners| - 1] == ip then 1 else 0)
  }

  /** What the states of an address admitted in a window, together. */
  function TotalIn(tracks: seq<Track>, owners: seq<string>, ip: string, width: int, end: int): nat
    requires |tracks| == |owners|
  {
    if tracks == [] then 0
    else
      var n := |tracks| - 1;
      TotalIn(tracks[..n], owners[..n], ip, width, end)
      + if owners[n] == ip then InWindow(tracks[n].log, width, end) else 0
  }

  lemma TotalGrows(tracks: seq<Track>, owners: seq<string>, t: Track, owner: string, ip: string, width: int, end: int)
    requires |tracks| == |owners| && t.log == []
    ensures TotalIn(tracks + [t], owners + [owner], ip, width, end) == TotalIn(tracks, owners, ip, width, end)
  {
    assert (tracks + [t])[..|tracks|] == tracks && (owners + [owner])[..|owners|] == owners;
  }

  lemma {:induction false} TotalUpdates(
    tracks: seq<Track>, owners: seq<string>, i: nat, t: Track, ip: string, width: int, end: int)
    requires i < |tracks| == |owners|
    ensures TotalIn(tracks[i := t], owners, ip, width, end)
         == TotalIn(tracks, owners, ip, width, end)
            + if owners[i] == ip then InWindow(t.log, width, end) - InWindow(tracks[i].log, width, end) else 0
    decreases |tracks|
  {
    var n := |tracks| - 1;
    if i == n {
      assert tracks[i := t][..n] == tracks[..n];
    } else {
      TotalUpdates(tracks[..n], owners[..n], i, t, ip, width, end);
      assert tracks[i := t][..n] == tracks[..n][i := t];
    }
  }

  /** A request through state obj, admitted or not. */
  lemma EnterKeepsTotal(
    tracks: seq<Track>, owners: seq<string>, log: seq<int>, obj: nat, t: Track, now: int, admitted: bool, ip: string,
    width: int, end: int)
    requires obj < |tracks| == |owners|
    requires t.log == if admitted then tracks[obj].log + [now] else tracks[obj].log
    requires InWindow(log, width, end) == TotalIn(tracks, owners, ip, width, end)
    ensures InWindow(if owners[obj] == ip && admitted then log + [now] else log, width, end)
         == TotalIn(tracks[obj := t], owners, ip, width, end)
  {
    TotalUpdates(tracks, owners, obj, t, ip, width, end);
    CountOneMore(log, now, width, end);
    CountOneMore(tracks[obj].log, now, width, end);
  }

  lemma ActKeepsTotal(
    cfg: Config, m: Memory, tracks: seq<Track>, owners: seq<string>, log: seq<int>, a: Act, ip: string,
    width: int, end: int)
    requires WellFormed(m) && Owned(m, owners) && |tracks| == |m.objs| && (a.Enter? ==> a.thread in m.held)
    requires InWindow(log, width, end) == TotalIn(tracks, owners, ip, width, end)
    ensures |TracksAfter(cfg, m, tracks, a)| == |OwnersAfter(m, owners, a)|
    ensures InWindow(LogAfter(cfg, m, log, a, ip), width, end)
         == TotalIn(TracksAfter(cfg, m, tracks, a), OwnersAfter(m, owners, a), ip, width, end)
  {
    match a
    case Fetch(_, p) => TotalGrows(tracks, owners, Track([], None), p, ip, width, end);
    case Enter(thread, now) =>
      var obj := m.held[thread].obj;
      EnterKeepsTotal(tracks, owners, log, obj, Tracked(cfg, m.objs[obj], tracks[obj], now), now,
                      EnterDecides(cfg, m, thread, now), ip, width, end);
    case Sweep(_) =>
  }

  lemma {:induction false} RunKeepsTotal(
    cfg: Config, m: Memory, tracks: seq<Track>, owners: seq<string>, log: seq<int>, acts: seq<Act>, ip: string,
    width: int, end: int)
    requires WellFormed(m) && Owned(m, owners) && |tracks| == |m.objs| && CanRun(cfg, m, acts)
    requires InWindow(log, width, end) == TotalIn(tracks, owners, ip, width, end)
    ensures |FinalTracks(cfg, m, tracks, acts)| == |FinalOwners(cfg, m, owners, acts)|
    ensures InWindow(IpLog(cfg, m, log, acts, ip), width, end)
         == TotalIn(FinalTracks(cfg, m, tracks, acts), FinalOwners(cfg, m, owners, acts), ip, width, end)
    decreases |acts|
  {
    if acts == [] {
    } else {
      OwnersStep(cfg, m, owners, acts[0]);
      ActKeepsTotal(cfg, m, tracks, owners, log, acts[0], ip, width, end);
      RunKeepsTotal(cfg, After(cfg, m, acts[0]), TracksAfter(cfg, m, tracks, acts[0]), OwnersAfter(m, owners, acts[0]),
                    LogAfter(cfg, m, log, acts[0], ip), acts[1..], ip, width, end);
    }
  }

  lemma {:induction false} TotalIsBounded(
    tracks: seq<Track>, owners: seq<string>, ip: string, width: int, end: int, limit: int)
    requires |tracks| == |owners| && limit > 0
    requires forall i :: 0 <= i < |tracks| ==> InWindow(tracks[i].log, width, end) <= limit
    ensures TotalIn(tracks, owners, ip, width, end) <= limit * StatesOf(owners, ip)
    decreases |tracks|
  {
    if tracks == [] {
    } else {
      var n := |tracks| - 1;
      TotalIsBounded(tracks[..n], owners[..n], ip, width, end, limit);
      assert limit * (StatesOf(owners[..n], ip) + 1) == limit * StatesOf(owners[..n], ip) + limit;
    }
  }

  /** Whatever the races, a window of an address holds at most its limit for each state ever made for it. */
  lemma AddressBound(cfg: Config, acts: seq<Act>, ip: string, end: int)
    requires CanRun(cfg, NEW, acts) && OrderedPerObject(cfg, NEW, [], acts)
    ensures var log, states := IpLog(cfg, NEW, [], acts, ip), StatesOf(FinalOwners(cfg, NEW, [], acts), ip);
            && (cfg.perSecond > 0 ==> InWindow(log, SECOND, end) <= cfg.perSecond * states)
            && (cfg.perMinute > 0 ==> InWindow(log, MINUTE, end) <= cfg.perMinute * states)
  {
    var tracks, owners := FinalTracks(cfg, NEW, [], acts), FinalOwners(cfg, NEW, [], acts);
    EachStateKeepsItsLimits(cfg, NEW, [], acts, end);
    if cfg.perSecond > 0 {
      RunKeepsTotal(cfg, NEW, [], [], [], acts, ip, SECOND, end);
      TotalIsBounded(tracks, owners, ip, SECOND, end, cfg.perSecond);
    }
    if cfg.perMinute > 0 {
      RunKeepsTotal(cfg, NEW, [], [], [], acts, ip, MINUTE, end);
      TotalIsBounded(tracks, owners, ip, MINUTE, end, cfg.perMinute);
    }
  }
}
