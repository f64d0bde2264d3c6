/**
 Allow as the server really runs it: the state of an address is fetched first
 and locked later, and the janitor may run in between. When no request enters a
 state that was evicted meanwhile, this is the atomic limiter; when one does,
 the limit can be exceeded.
 */
module RateLimitRace {
  import opened Options
  import opened RateLimitModel
  import opened RateLimitProofs

  datatype Act = Fetch(thread: nat, ip: string) | Enter(thread: nat, now: int) | Sweep(now: int)

  datatype Holding = Holding(ip: string, obj: nat)

  /** States ever created, the map of addresses, and what each thread has fetched. */
  datatype Memory = Memory(objs: seq<Lists>, ips: map<string, nat>, held: map<nat, Holding>)

  predicate WellFormed(m: Memory) {
    && (forall ip :: ip in m.ips ==> m.ips[ip] < |m.objs|)
    && (forall a, b :: a in m.ips && b in m.ips && a != b ==> m.ips[a] != m.ips[b])
    && (forall t :: t in m.held ==> m.held[t].obj < |m.objs|)
  }

  function Fetched(m: Memory, thread: nat, ip: string): Memory {
    if ip in m.ips then m.(held := m.held[thread := Holding(ip, m.ips[ip])])
    else Memory(m.objs + [Lists([], [])], m.ips[ip := |m.objs|], m.held[thread := Holding(ip, |m.objs|)])
  }

  predicate EnterDecides(cfg: Config, m: Memory, thread: nat, now: int) {
    thread in m.held && m.held[thread].obj < |m.objs| && Handled(cfg, m.objs[m.held[thread].obj], now).0
  }

  function Entered(cfg: Config, m: Memory, thread: nat, now: int): Memory
    requires thread in m.held && m.held[thread].obj < |m.objs|
  {
    var obj := m.held[thread].obj;
    m.(objs := m.objs[obj := Handled(cfg, m.objs[obj], now).1], held := m.held - {thread})
  }

  function Swept(m: Memory, now: int): Memory
    requires WellFormed(m)
  {
    m.(ips := map ip | ip in m.ips && !IsIdle(m.objs[m.ips[ip]], now - MINUTE) :: m.ips[ip])
  }

  function After(cfg: Config, m: Memory, a: Act): (m': Memory)
    requires WellFormed(m) && (a.Enter? ==> a.thread in m.held)
    ensures WellFormed(m')
  {
    match a
    case Fetch(thread, ip) => Fetched(m, thread, ip)
    case Enter(thread, now) => Entered(cfg, m, thread, now)
    case Sweep(now) => Swept(m, now)
  }

  /** Each thread that enters has fetched a state. */
  predicate CanRun(cfg: Config, m: Memory, acts: seq<Act>)
    requires WellFormed(m)
    decreases |acts|
  {
    acts == [] || ((acts[0].Enter? ==> acts[0].thread in m.held) && CanRun(cfg, After(cfg, m, acts[0]), acts[1..]))
  }

  /** The state entered is still the one the map holds for its address. */
  predicate IsCurrent(m: Memory, thread: nat) {
    thread in m.held && m.held[thread].ip in m.ips && m.ips[m.held[thread].ip] == m.held[thread].obj
  }

  predicate NoOrphans(cfg: Config, m: Memory, acts: seq<Act>)
    requires WellFormed(m) && CanRun(cfg, m, acts)
    decreases |acts|
  {
    acts == [] ||
    ((acts[0].Enter? ==> IsCurrent(m, acts[0].thread)) && NoOrphans(cfg, After(cfg, m, acts[0]), acts[1..]))
  }

  function StepOf(m: Memory, a: Act): seq<Step>
    requires a.Enter? ==> a.thread in m.held
  {
    match a
    case Fetch(_, _) => []
    case Enter(thread, now) => [Allow(m.held[thread].ip, now)]
    case Sweep(now) => [Evict(now)]
  }

  /** The atomic steps: a request counts when it enters. */
  function AtomicSteps(cfg: Config, m: Memory, acts: seq<Act>): seq<Step>
    requires WellFormed(m) && CanRun(cfg, m, acts)
    decreases |acts|
  {
    if acts == [] then [] else StepOf(m, acts[0]) + AtomicSteps(cfg, After(cfg, m, acts[0]), acts[1..])
  }

  function DecisionOf(cfg: Config, m: Memory, a: Act): seq<bool> {
    match a
    case Fetch(_, _) => []
    case Enter(thread, now) => [EnterDecides(cfg, m, thread, now)]
    case Sweep(_) => [false]
  }

  function RaceDecisions(cfg: Config, m: Memory, acts: seq<Act>): seq<bool>
    requires WellFormed(m) && CanRun(cfg, m, acts)
    decreases |acts|
  {
    if acts == [] then [] else DecisionOf(cfg, m, acts[0]) + RaceDecisions(cfg, After(cfg, m, acts[0]), acts[1..])
  }

  function ListsOf(m: Memory, ip: string): Lists
    requires WellFormed(m)
  {
    if ip in m.ips then m.objs[m.ips[ip]] else Lists([], [])
  }

  ghost predicate Simulates(m: Memory, table: Table) {
    WellFormed(m) && forall ip :: ListsOf(m, ip) == Lookup(table, ip)
  }

  lemma FetchSimulates(m: Memory, table: Table, thread: nat, ip: string)
    requires Simulates(m, table)
    ensures Simulates(Fetched(m, thread, ip), table)
  {
    var m' := Fetched(m, thread, ip);
    forall p ensures ListsOf(m', p) == Lookup(table, p) {
      assert ListsOf(m, p) == Lookup(table, p);
    }
  }

  lemma EnterSimulates(cfg: Config, m: Memory, table: Table, thread: nat, now: int)
    requires Simulates(m, table) && IsCurrent(m, thread)
    ensures EnterDecides(cfg, m, thread, now) == Decides(cfg, table, Allow(m.held[thread].ip, now))
    ensures Simulates(Entered(cfg, m, thread, now), TableAfter(cfg, table, Allow(m.held[thread].ip, now)))
  {
    var ip := m.held[thread].ip;
    assert ListsOf(m, ip) == Lookup(table, ip);
    var m', table' := Entered(cfg, m, thread, now), TableAfter(cfg, table, Allow(ip, now));
    forall p ensures ListsOf(m', p) == Lookup(table', p) {
      assert ListsOf(m, p) == Lookup(table, p);
    }
  }

  lemma SweepSimulates(m: Memory, table: Table, now: int)
    requires Simulates(m, table)
    ensures Simulates(Swept(m, now), Evicted(table, now))
  {
    forall ip ensures ListsOf(Swept(m, now), ip) == Lookup(Evicted(table, now), ip) {
      assert ListsOf(m, ip) == Lookup(table, ip);
    }
  }

  function TableThen(cfg: Config, table: Table, steps: seq<Step>): Table {
    if steps == [] then table else TableAfter(cfg, table, steps[0])
  }

  lemma DecisionsThen(cfg: Config, table: Table, steps: seq<Step>, rest: seq<Step>)
    requires |steps| <= 1
    ensures Decisions(cfg, table, steps + rest)
            == Decisions(cfg, table, steps) + Decisions(cfg, TableThen(cfg, table, steps), rest)
  {
    if steps == [] {
      assert [] + rest == rest;
    } else {
      assert (steps + rest)[1..] == rest && steps[1..] == [];
    }
  }

  lemma ActSimulates(cfg: Config, m: Memory, table: Table, a: Act)
    requires Simulates(m, table) && (a.Enter? ==> IsCurrent(m, a.thread))
    ensures DecisionOf(cfg, m, a) == Decisions(cfg, table, StepOf(m, a))
    ensures Simulates(After(cfg, m, a), TableThen(cfg, table, StepOf(m, a)))
  {
    match a
    case Fetch(thread, ip) => FetchSimulates(m, table, thread, ip);
    case Enter(thread, now) => EnterSimulates(cfg, m, table, thread, now);
    case Sweep(now) => SweepSimulates(m, table, now);
  }

  /** Without orphans the race cannot be observed: every decision is the atomic limiter's. */
  lemma {:induction false} RaceIsAtomic(cfg: Config, m: Memory, table: Table, acts: seq<Act>)
    requires Simulates(m, table) && CanRun(cfg, m, acts) && NoOrphans(cfg, m, acts)
    ensures RaceDecisions(cfg, m, acts) == Decisions(cfg, table, AtomicSteps(cfg, m, acts))
    decreases |acts|
  {
    if acts == [] {
    } else {
      var m' := After(cfg, m, acts[0]);
      ActSimulates(cfg, m, table, acts[0]);
      RaceIsAtomic(cfg, m', TableThen(cfg, table, StepOf(m, acts[0])), acts[1..]);
      DecisionsThen(cfg, table, StepOf(m, acts[0]), AtomicSteps(cfg, m', acts[1..]));
    }
  }

  /** So then every window keeps to its limit. */
  lemma RaceKeepsWindows(cfg: Config, acts: seq<Act>, ip: string, end: int)
    requires CanRun(cfg, Memory([], map[], map[]), acts) && NoOrphans(cfg, Memory([], map[], map[]), acts)
    requires Ordered(AtomicSteps(cfg, Memory([], map[], map[]), acts))
    ensures var steps := AtomicSteps(cfg, Memory([], map[], map[]), acts);
            var ds := RaceDecisions(cfg, Memory([], map[], map[]), acts);
            |ds| == |steps| && KeepsLimits(cfg, LogOf(Admitted(map[], steps, ds), ip), end)
  {
    RaceIsAtomic(cfg, Memory([], map[], map[]), map[], acts);
    NoWindowExceedsItsLimit(cfg, AtomicSteps(cfg, Memory([], map[], map[]), acts), ip, end);
  }

  // ---- In any case, each state object keeps to the limits ----

  /** The times admitted through a state object, and the last clock reading taken under its lock. */
  datatype Track = Track(log: seq<int>, last: Option<int>)

  predicate InOrder(t: Track, now: int) {
    t.last.Some? ==> t.last.value <= now
  }

  predicate TrackInv(cfg: Config, l: Lists, t: Track) {
    && WellLogged(cfg, t.log)
    && (if t.last.Some? then Agrees(l, t.log, t.last.value) else l == Lists([], []) && t.log == [])
  }

  function Tracked(cfg: Config, l: Lists, t: Track, now: int): Track {
    Track(if Handled(cfg, l, now).0 then t.log + [now] else t.log, Some(now))
  }

  lemma TrackStep(cfg: Config, l: Lists, t: Track, now: int)
    requires TrackInv(cfg, l, t) && InOrder(t, now)
    ensures TrackInv(cfg, Handled(cfg, l, now).1, Tracked(cfg, l, t, now))
  {
    if t.last.Some? { AgreesLater(l, t.log, t.last.value, now); }
    HandledAgrees(cfg, l, t.log, now);
    if Handled(cfg, l, now).0 { LoggedStaysWell(cfg, t.log, now); }
  }

  function TracksAfter(cfg: Config, m: Memory, tracks: seq<Track>, a: Act): seq<Track>
    requires WellFormed(m) && |tracks| == |m.objs| && (a.Enter? ==> a.thread in m.held)
  {
    match a
    case Fetch(_, ip) => if ip in m.ips then tracks else tracks + [Track([], None)]
    case Enter(thread, now) =>
      var obj := m.held[thread].obj;
      tracks[obj := Tracked(cfg, m.objs[obj], tracks[obj], now)]
    case Sweep(_) => tracks
  }

  /** The clock does not go back between two requests that lock the same state. */
  predicate OrderedPerObject(cfg: Config, m: Memory, tracks: seq<Track>, acts: seq<Act>)
    requires WellFormed(m) && CanRun(cfg, m, acts) && |tracks| == |m.objs|
    decreases |acts|
  {
    acts == [] ||
    (&& (acts[0].Enter? ==> InOrder(tracks[m.held[acts[0].thread].obj], acts[0].now))
     && OrderedPerObject(cfg, After(cfg, m, acts[0]), TracksAfter(cfg, m, tracks, acts[0]), acts[1..]))
  }

  function FinalTracks(cfg: Config, m: Memory, tracks: seq<Track>, acts: seq<Act>): seq<Track>
    requires WellFormed(m) && CanRun(cfg, m, acts) && |tracks| == |m.objs|
    decreases |acts|
  {
    if acts == [] then tracks
    else FinalTracks(cfg, After(cfg, m, acts[0]), TracksAfter(cfg, m, tracks, acts[0]), acts[1..])
  }

  predicate AllTracked(cfg: Config, m: Memory, tracks: seq<Track>) {
    |tracks| == |m.objs| && forall i :: 0 <= i < |tracks| ==> TrackInv(cfg, m.objs[i], tracks[i])
  }

  lemma TracksStep(cfg: Config, m: Memory, tracks: seq<Track>, a: Act)
    requires WellFormed(m) && AllTracked(cfg, m, tracks) && (a.Enter? ==> a.thread in m.held)
    requires a.Enter? ==> InOrder(tracks[m.held[a.thread].obj], a.now)
    ensures AllTracked(cfg, After(cfg, m, a), TracksAfter(cfg, m, tracks, a))
  {
    if a.Enter? {
      var obj := m.held[a.thread].obj;
      TrackStep(cfg, m.objs[obj], tracks[obj], a.now);
    }
  }

  predicate AllKeepLimits(cfg: Config, tracks: seq<Track>, end: int) {
    forall i :: 0 <= i < |tracks| ==> KeepsLimits(cfg, tracks[i].log, end)
  }

  /** Whatever the races, at most the limit is admitted through one state object in any window. */
  lemma {:induction false} EachStateKeepsItsLimits(cfg: Config, m: Memory, tracks: seq<Track>, acts: seq<Act>, end: int)
    requires WellFormed(m) && CanRun(cfg, m, acts) && AllTracked(cfg, m, tracks)
    requires OrderedPerObject(cfg, m, tracks, acts)
    ensures AllKeepLimits(cfg, FinalTracks(cfg, m, tracks, acts), end)
    decreases |acts|
  {
    if acts == [] {
      forall i | 0 <= i < |tracks|
        ensures KeepsLimits(cfg, tracks[i].log, end)
      {
        assert TrackInv(cfg, m.objs[i], tracks[i]);
        WellLoggedBounds(cfg, tracks[i].log, end);
      }
    } else {
      TracksStep(cfg, m, tracks, acts[0]);
      var m', tracks' := After(cfg, m, acts[0]), TracksAfter(cfg, m, tracks, acts[0]);
      EachStateKeepsItsLimits(cfg, m', tracks', acts[1..], end);
    }
  }

  // ---- With an orphan ----

  lemma OneMore(cfg: Config, m: Memory, a: Act, rest: seq<Act>)
    requires WellFormed(m) && (a.Enter? ==> a.thread in m.held) && CanRun(cfg, After(cfg, m, a), rest)
    ensures CanRun(cfg, m, [a] + rest)
    ensures RaceDecisions(cfg, m, [a] + rest) == DecisionOf(cfg, m, a) + RaceDecisions(cfg, After(cfg, m, a), rest)
    ensures AtomicSteps(cfg, m, [a] + rest) == StepOf(m, a) + AtomicSteps(cfg, After(cfg, m, a), rest)
    ensures NoOrphans(cfg, m, [a] + rest) ==> NoOrphans(cfg, After(cfg, m, a), rest)
  {
    assert ([a] + rest)[1..] == rest;
  }

  const ONE_A_MINUTE := Config(0, 1)

  lemma EmptyAdmits(now: int)
    ensures Handled(ONE_A_MINUTE, Lists([], []), now) == (true, Lists([now], [now]))
  {
    assert [] + [now] == [now];
  }

  const NEW := Memory([], map[], map[])
  const FETCHED := Memory([Lists([], [])], map["a" := 0], map[0 := Holding("a", 0)])
  const ORPHANED := Memory([Lists([], [])], map[], map[0 := Holding("a", 0)])

  lemma FirstFetch()
    ensures After(ONE_A_MINUTE, NEW, Fetch(0, "a")) == FETCHED
  {
  }

  /** Thread 0 holds a state the janitor has dropped from the map. */
  lemma BecomesOrphan()
    ensures After(ONE_A_MINUTE, FETCHED, Sweep(0)) == ORPHANED
  {
  }

  const ENTERED := Memory([Lists([0], [0])], map[], map[])

  lemma OrphanEnters()
    ensures Entered(ONE_A_MINUTE, ORPHANED, 0, 0) == ENTERED && EnterDecides(ONE_A_MINUTE, ORPHANED, 0, 0)
  {
    EmptyAdmits(0);
    assert ORPHANED.objs[0 := Lists([0], [0])] == [Lists([0], [0])];
  }

  const FETCHED_AGAIN := Memory([Lists([0], [0]), Lists([], [])], map["a" := 1], map[1 := Holding("a", 1)])

  lemma SecondFetch()
    ensures After(ONE_A_MINUTE, ENTERED, Fetch(1, "a")) == FETCHED_AGAIN
  {
  }

  lemma SecondEnters()
    ensures CanRun(ONE_A_MINUTE, FETCHED_AGAIN, [Enter(1, 0)])
    ensures RaceDecisions(ONE_A_MINUTE, FETCHED_AGAIN, [Enter(1, 0)]) == [true]
    ensures AtomicSteps(ONE_A_MINUTE, FETCHED_AGAIN, [Enter(1, 0)]) == [Allow("a", 0)]
  {
    EmptyAdmits(0);
    OneMore(ONE_A_MINUTE, FETCHED_AGAIN, Enter(1, 0), []);
  }

  /** The next request of the address gets a new state. */
  lemma SecondRequest()
    ensures CanRun(ONE_A_MINUTE, ENTERED, [Fetch(1, "a"), Enter(1, 0)])
    ensures RaceDecisions(ONE_A_MINUTE, ENTERED, [Fetch(1, "a"), Enter(1, 0)]) == [true]
    ensures AtomicSteps(ONE_A_MINUTE, ENTERED, [Fetch(1, "a"), Enter(1, 0)]) == [Allow("a", 0)]
  {
    SecondFetch();
    SecondEnters();
    OneMore(ONE_A_MINUTE, ENTERED, Fetch(1, "a"), [Enter(1, 0)]);
  }

  const TWO_REQUESTS: seq<Act> := [Enter(0, 0)] + [Fetch(1, "a"), Enter(1, 0)]

  lemma BothAreAdmitted()
    ensures CanRun(ONE_A_MINUTE, ORPHANED, TWO_REQUESTS)
    ensures RaceDecisions(ONE_A_MINUTE, ORPHANED, TWO_REQUESTS) == [true, true]
    ensures AtomicSteps(ONE_A_MINUTE, ORPHANED, TWO_REQUESTS) == [Allow("a", 0), Allow("a", 0)]
    ensures !NoOrphans(ONE_A_MINUTE, ORPHANED, TWO_REQUESTS)
  {
    OrphanEnters();
    SecondRequest();
    OneMore(ONE_A_MINUTE, ORPHANED, Enter(0, 0), [Fetch(1, "a"), Enter(1, 0)]);
  }

  const SWEEP_THEN_BOTH: seq<Act> := [Sweep(0)] + TWO_REQUESTS

  lemma SweptThenBoth()
    ensures CanRun(ONE_A_MINUTE, FETCHED, SWEEP_THEN_BOTH)
    ensures RaceDecisions(ONE_A_MINUTE, FETCHED, SWEEP_THEN_BOTH) == [false, true, true]
    ensures AtomicSteps(ONE_A_MINUTE, FETCHED, SWEEP_THEN_BOTH) == [Evict(0), Allow("a", 0), Allow("a", 0)]
    ensures !NoOrphans(ONE_A_MINUTE, FETCHED, SWEEP_THEN_BOTH)
  {
    BecomesOrphan();
    BothAreAdmitted();
    OneMore(ONE_A_MINUTE, FETCHED, Sweep(0), TWO_REQUESTS);
  }

  const ORPHAN_RUN: seq<Act> := [Fetch(0, "a")] + SWEEP_THEN_BOTH

  lemma CountOneMore(log: seq<int>, now: int, width: int, end: int)
    ensures InWindow(log + [now], width, end) == InWindow(log, width, end) + if end - width <= now <= end then 1 else 0
  {
    assert (log + [now])[..|log|] == log;
  }

  lemma AdmittedFirst(logs: map<string, seq<int>>, step: Step, admitted: bool, steps: seq<Step>, ds: seq<bool>)
    requires |steps| == |ds|
    ensures Admitted(logs, [step] + steps, [admitted] + ds) == Admitted(Logged(logs, step, admitted), steps, ds)
  {
    assert ([step] + steps)[1..] == steps && ([admitted] + ds)[1..] == ds;
  }

  lemma TwoInOneMinute()
    ensures var steps: seq<Step> := [Evict(0), Allow("a", 0), Allow("a", 0)];
            !KeepsLimits(ONE_A_MINUTE, LogOf(Admitted(map[], steps, [false, true, true]), "a"), 0)
  {
    var request: Step := Allow("a", 0);
    AdmittedFirst(map[], Evict(0), false, [request, request], [true, true]);
    assert [Evict(0)] + [request, request] == [Evict(0), request, request];
    assert [false] + [true, true] == [false, true, true];
    AdmittedFirst(map[], request, true, [request], [true]);
    assert [request] + [request] == [request, request] && [true] + [true] == [true, true];
    AdmittedFirst(Logged(map[], request, true), request, true, [], []);
    assert [request] + [] == [request] && [true] + [] == [true];
    CountOneMore([], 0, MINUTE, 0);
    CountOneMore([] + [0], 0, MINUTE, 0);
  }

  /**
   A sweep between fetch and lock lets two requests of one address through under
   a limit of one a minute: the minute that ends with them holds both.
   */
  lemma OrphanExceedsLimit()
    ensures CanRun(ONE_A_MINUTE, NEW, ORPHAN_RUN) && !NoOrphans(ONE_A_MINUTE, NEW, ORPHAN_RUN)
    ensures var steps, ds := AtomicSteps(ONE_A_MINUTE, NEW, ORPHAN_RUN), RaceDecisions(ONE_A_MINUTE, NEW, ORPHAN_RUN);
            && steps == [Evict(0), Allow("a", 0), Allow("a", 0)] && ds == [false, true, true]
            && !KeepsLimits(ONE_A_MINUTE, LogOf(Admitted(map[], steps, ds), "a"), 0)
  {
    FirstFetch();
    SweptThenBoth();
    OneMore(ONE_A_MINUTE, NEW, Fetch(0, "a"), SWEEP_THEN_BOTH);
    TwoInOneMinute();
  }
}
