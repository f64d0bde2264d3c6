/** Pruning and eviction are unobservable, and no window ever exceeds its limit. */
module RateLimitProofs {
  import opened RateLimitModel

  predicate Sorted(ts: seq<int>) {
    forall i, j :: 0 <= i < j < |ts| ==> ts[i] <= ts[j]
  }

  /** ts is what is left of log once some of its first times, all before the cutoff, are dropped. */
  predicate IsRest(ts: seq<int>, log: seq<int>, cutoff: int) {
    && |ts| <= |log|
    && ts == log[|log| - |ts|..]
    && (forall i :: 0 <= i < |log| - |ts| ==> log[i] < cutoff)
  }

  /** The lists kept for an address agree with its log as far as any request from `now` on can tell. */
  predicate Agrees(l: Lists, log: seq<int>, now: int) {
    && Sorted(log)
    && (forall i :: 0 <= i < |log| ==> log[i] <= now)
    && IsRest(l.second, log, now - SECOND)
    && IsRest(l.minute, log, now - MINUTE)
  }

  // ---- Pruning ----

  lemma {:induction false} PrunedIsRest(ts: seq<int>, log: seq<int>, cutoff: int)
    requires Sorted(log) && IsRest(ts, log, cutoff)
    ensures IsRest(Pruned(ts, cutoff), log, cutoff)
    ensures forall i :: 0 <= i < |Pruned(ts, cutoff)| ==> Pruned(ts, cutoff)[i] >= cutoff
    decreases |ts|
  {
    if ts != [] && ts[0] < cutoff {
      assert ts[1..] == log[|log| - |ts| + 1..];
      PrunedIsRest(ts[1..], log, cutoff);
    } else if ts != [] {
      assert ts[0] == log[|log| - |ts|];
      forall i | 0 <= i < |ts| ensures ts[i] >= cutoff {
        assert ts[i] == log[|log| - |ts| + i];
      }
    }
  }

  /** A fully pruned rest of a log is as long as the number of its times in the window. */
  lemma {:induction false} RestCounts(ts: seq<int>, log: seq<int>, lo: int, hi: int)
    requires IsRest(ts, log, lo)
    requires forall i :: 0 <= i < |ts| ==> ts[i] >= lo
    requires forall i :: 0 <= i < |log| ==> log[i] <= hi
    ensures |ts| == CountIn(log, lo, hi)
    decreases |log|
  {
    if log == [] {
    } else {
      var last, log' := log[|log| - 1], log[..|log| - 1];
      if ts == [] {
        RestCounts([], log', lo, hi);
      } else {
        assert ts[|ts| - 1] == last;
        assert ts[..|ts| - 1] == log'[|log'| - (|ts| - 1)..];
        RestCounts(ts[..|ts| - 1], log', lo, hi);
      }
    }
  }

  lemma PrunedCounts(ts: seq<int>, log: seq<int>, now: int, width: int)
    requires Sorted(log) && IsRest(ts, log, now - width)
    requires forall i :: 0 <= i < |log| ==> log[i] <= now
    ensures IsRest(Pruned(ts, now - width), log, now - width)
    ensures |Pruned(ts, now - width)| == InWindow(log, width, now)
  {
    PrunedIsRest(ts, log, now - width);
    RestCounts(Pruned(ts, now - width), log, now - width, now);
  }

  lemma HandledDecides(cfg: Config, l: Lists, log: seq<int>, now: int)
    requires Agrees(l, log, now)
    ensures Handled(cfg, l, now).0 == ReferenceAdmits(cfg, log, now)
    ensures Agrees(PrunedAt(l, now), log, now)
  {
    PrunedCounts(l.second, log, now, SECOND);
    PrunedCounts(l.minute, log, now, MINUTE);
  }

  lemma LoggingAgrees(p: Lists, log: seq<int>, now: int)
    requires Agrees(p, log, now)
    ensures Agrees(Lists(p.second + [now], p.minute + [now]), log + [now], now)
  {
    RestAppend(p.second, log, now - SECOND, now);
    RestAppend(p.minute, log, now - MINUTE, now);
  }

  /** A request is decided as from the full log, and the lists keep agreeing. */
  lemma HandledAgrees(cfg: Config, l: Lists, log: seq<int>, now: int)
    requires Agrees(l, log, now)
    ensures Handled(cfg, l, now).0 == ReferenceAdmits(cfg, log, now)
    ensures Agrees(Handled(cfg, l, now).1, if Handled(cfg, l, now).0 then log + [now] else log, now)
  {
    HandledDecides(cfg, l, log, now);
    LoggingAgrees(PrunedAt(l, now), log, now);
  }

  lemma RestAppend(ts: seq<int>, log: seq<int>, cutoff: int, now: int)
    requires IsRest(ts, log, cutoff)
    ensures IsRest(ts + [now], log + [now], cutoff)
  {
    assert (log + [now])[|log| - |ts|..] == log[|log| - |ts|..] + [now];
  }

  lemma AgreesLater(l: Lists, log: seq<int>, now: int, later: int)
    requires Agrees(l, log, now) && now <= later
    ensures Agrees(l, log, later)
  {
  }

  // ---- Eviction ----

  /** An idle entry tells later requests nothing: an empty one agrees just as well. */
  lemma IdleIsForgettable(l: Lists, log: seq<int>, now: int, later: int)
    requires Agrees(l, log, later) && now <= later && IsIdle(l, now - MINUTE)
    ensures Agrees(Lists([], []), log, later)
  {
    if l.minute != [] {
      assert l.minute[|l.minute| - 1] == log[|log| - 1];
    }
  }

  lemma {:induction false} SomeCounted(log: seq<int>, lo: int, hi: int)
    ensures CountIn(log, lo, hi) > 0 <==> exists i :: 0 <= i < |log| && lo <= log[i] <= hi
    decreases |log|
  {
    if log == [] {
    } else {
      SomeCounted(log[..|log| - 1], lo, hi);
    }
  }

  /** An entry is evicted exactly if the address has had no request admitted in the last minute. */
  lemma EvictedExactly(l: Lists, log: seq<int>, now: int)
    requires Agrees(l, log, now)
    ensures IsIdle(l, now - MINUTE) <==> InWindow(log, MINUTE, now) == 0
  {
    SomeCounted(log, now - MINUTE, now);
    var n := |log| - 1;
    if l.minute != [] {
      assert l.minute[|l.minute| - 1] == log[n];
      if !IsIdle(l, now - MINUTE) {
        assert now - MINUTE <= log[n] <= now;
      }
    }
  }

  /** So after a round of the janitor exactly the addresses with such a request are left, as they were. */
  lemma JanitorKeepsActive(table: Table, logs: map<string, seq<int>>, now: int)
    requires forall ip :: ip in table ==> Agrees(table[ip], LogOf(logs, ip), now)
    ensures var left := Evicted(table, now);
            && (forall ip :: ip in left <==> ip in table && InWindow(LogOf(logs, ip), MINUTE, now) > 0)
            && (forall ip :: ip in left ==> left[ip] == table[ip])
  {
    forall ip | ip in table
      ensures IsIdle(table[ip], now - MINUTE) <==> InWindow(LogOf(logs, ip), MINUTE, now) == 0
    {
      EvictedExactly(table[ip], LogOf(logs, ip), now);
    }
  }

  // ---- Refinement over runs ----

  /** Every request still to come finds lists that agree with its log. */
  predicate AllAgree(table: Table, logs: map<string, seq<int>>, steps: seq<Step>) {
    forall j :: 0 <= j < |steps| && steps[j].Allow? ==>
      Agrees(Lookup(table, steps[j].ip), LogOf(logs, steps[j].ip), steps[j].now)
  }

  /** A request as one step on one address: its lists and its log. */
  lemma RequestOnItsAddress(cfg: Config, l: Lists, log: seq<int>, now: int, later: int)
    requires Agrees(l, log, now) && now <= later
    ensures Handled(cfg, l, now).0 == ReferenceAdmits(cfg, log, now)
    ensures Agrees(Handled(cfg, l, now).1, if Handled(cfg, l, now).0 then log + [now] else log, later)
  {
    HandledAgrees(cfg, l, log, now);
    AgreesLater(Handled(cfg, l, now).1, if Handled(cfg, l, now).0 then log + [now] else log, now, later);
  }

  /** What it does to the lists and the log of any address. */
  lemma RequestEffect(cfg: Config, table: Table, logs: map<string, seq<int>>, s: Step, ip: string)
    requires s.Allow?
    ensures Lookup(TableAfter(cfg, table, s), ip)
         == if ip == s.ip then Handled(cfg, Lookup(table, ip), s.now).1 else Lookup(table, ip)
    ensures LogOf(Logged(logs, s, Decides(cfg, table, s)), ip)
         == if ip == s.ip && Handled(cfg, Lookup(table, ip), s.now).0 then LogOf(logs, ip) + [s.now]
            else LogOf(logs, ip)
  {
  }

  lemma RequestAgrees(cfg: Config, table: Table, logs: map<string, seq<int>>, s: Step, t: Step)
    requires s.Allow? && t.Allow? && (s.ip == t.ip ==> s.now <= t.now)
    requires Agrees(Lookup(table, s.ip), LogOf(logs, s.ip), s.now)
    requires Agrees(Lookup(table, t.ip), LogOf(logs, t.ip), t.now)
    ensures Decides(cfg, table, s) == ReferenceDecides(cfg, logs, s)
    ensures Agrees(Lookup(TableAfter(cfg, table, s), t.ip), LogOf(Logged(logs, s, Decides(cfg, table, s)), t.ip), t.now)
  {
    RequestEffect(cfg, table, logs, s, t.ip);
    RequestOnItsAddress(cfg, Lookup(table, s.ip), LogOf(logs, s.ip), s.now, if t.ip == s.ip then t.now else s.now);
  }

  lemma EvictionAgrees(table: Table, logs: map<string, seq<int>>, now: int, t: Step)
    requires t.Allow? && now <= t.now && Agrees(Lookup(table, t.ip), LogOf(logs, t.ip), t.now)
    ensures Agrees(Lookup(Evicted(table, now), t.ip), LogOf(logs, t.ip), t.now)
  {
    if t.ip in table && IsIdle(table[t.ip], now - MINUTE) {
      IdleIsForgettable(table[t.ip], LogOf(logs, t.ip), now, t.now);
    }
  }

  lemma StepAgrees(cfg: Config, table: Table, logs: map<string, seq<int>>, steps: seq<Step>)
    requires steps != [] && Ordered(steps) && AllAgree(table, logs, steps)
    ensures Decides(cfg, table, steps[0]) == ReferenceDecides(cfg, logs, steps[0])
    ensures AllAgree(TableAfter(cfg, table, steps[0]), Logged(logs, steps[0], Decides(cfg, table, steps[0])),
                     steps[1..])
  {
    var s := steps[0];
    if s.Allow? { RequestAgrees(cfg, table, logs, s, s); }
    forall j | 0 < j < |steps| && steps[j].Allow?
      ensures Agrees(Lookup(TableAfter(cfg, table, s), steps[j].ip),
                     LogOf(Logged(logs, s, Decides(cfg, table, s)), steps[j].ip), steps[j].now)
    {
      match s
      case Allow(_, _) => RequestAgrees(cfg, table, logs, s, steps[j]);
      case Evict(now) => EvictionAgrees(table, logs, now, steps[j]);
    }
  }

  /** Each decision equals the one taken from the complete log: pruning and the janitor cannot be observed. */
  lemma {:induction false} DecisionsMatchReference(
    cfg: Config, table: Table, logs: map<string, seq<int>>, steps: seq<Step>)
    requires Ordered(steps) && AllAgree(table, logs, steps)
    ensures Decisions(cfg, table, steps) == ReferenceDecisions(cfg, logs, steps)
    decreases |steps|
  {
    if steps == [] {
    } else {
      StepAgrees(cfg, table, logs, steps);
      var d := Decides(cfg, table, steps[0]);
      DecisionsMatchReference(cfg, TableAfter(cfg, table, steps[0]), Logged(logs, steps[0], d), steps[1..]);
    }
  }

  /** In particular from a new limiter. */
  lemma NewLimiterMatchesReference(cfg: Config, steps: seq<Step>)
    requires Ordered(steps)
    ensures Decisions(cfg, map[], steps) == ReferenceDecisions(cfg, map[], steps)
  {
    DecisionsMatchReference(cfg, map[], map[], steps);
  }

  // ---- The windows ----

  /** A log in which every time was admitted under the limit when it was added. */
  predicate AdmittedUnder(log: seq<int>, width: int, limit: int) {
    forall k :: 0 <= k < |log| ==> InWindow(log[..k], width, log[k]) < limit
  }

  lemma {:induction false} CountMonotone(log: seq<int>, lo: int, hi: int, lo': int, hi': int)
    requires lo' <= lo
    requires forall i :: 0 <= i < |log| ==> log[i] <= hi'
    ensures CountIn(log, lo, hi) <= CountIn(log, lo', hi')
    decreases |log|
  {
    if log == [] {
    } else {
      CountMonotone(log[..|log| - 1], lo, hi, lo', hi');
    }
  }

  /** Then no closed window of that width, wherever it ends, holds more than the limit. */
  lemma {:induction false} WindowBound(log: seq<int>, width: int, limit: int, end: int)
    requires Sorted(log) && limit > 0 && AdmittedUnder(log, width, limit)
    ensures InWindow(log, width, end) <= limit
    decreases |log|
  {
    if log == [] {
    } else {
      var last, log' := log[|log| - 1], log[..|log| - 1];
      forall k | 0 <= k < |log'|
        ensures InWindow(log'[..k], width, log'[k]) < limit
      {
        assert log'[..k] == log[..k];
      }
      if end - width <= last <= end {
        CountMonotone(log', end - width, end, last - width, last);
      } else {
        WindowBound(log', width, limit, end);
      }
    }
  }

  /** What the reference keeps true of every log it writes. */
  predicate WellLogged(cfg: Config, log: seq<int>) {
    && Sorted(log)
    && (cfg.perSecond > 0 ==> AdmittedUnder(log, SECOND, cfg.perSecond))
    && (cfg.perMinute > 0 ==> AdmittedUnder(log, MINUTE, cfg.perMinute))
  }

  lemma AppendAdmitted(log: seq<int>, width: int, limit: int, now: int)
    requires AdmittedUnder(log, width, limit) && InWindow(log, width, now) < limit
    ensures AdmittedUnder(log + [now], width, limit)
  {
    forall k | 0 <= k < |log + [now]|
      ensures InWindow((log + [now])[..k], width, (log + [now])[k]) < limit
    {
      assert (log + [now])[..k] == log[..k];
      assert log[..|log|] == log;
    }
  }

  lemma LoggedStaysWell(cfg: Config, log: seq<int>, now: int)
    requires WellLogged(cfg, log) && ReferenceAdmits(cfg, log, now)
    requires forall i :: 0 <= i < |log| ==> log[i] <= now
    ensures WellLogged(cfg, log + [now])
  {
    if cfg.perSecond > 0 { AppendAdmitted(log, SECOND, cfg.perSecond, now); }
    if cfg.perMinute > 0 { AppendAdmitted(log, MINUTE, cfg.perMinute, now); }
  }

  predicate AllWell(cfg: Config, logs: map<string, seq<int>>) {
    forall ip :: ip in logs ==> WellLogged(cfg, logs[ip])
  }

  lemma {:induction false} AdmittedIsWell(cfg: Config, table: Table, logs: map<string, seq<int>>, steps: seq<Step>)
    requires Ordered(steps) && AllAgree(table, logs, steps) && AllWell(cfg, logs)
    ensures AllWell(cfg, Admitted(logs, steps, Decisions(cfg, table, steps)))
    decreases |steps|
  {
    if steps == [] {
    } else {
      StepAgrees(cfg, table, logs, steps);
      var s, d := steps[0], Decides(cfg, table, steps[0]);
      if d {
        LoggedStaysWell(cfg, LogOf(logs, s.ip), s.now);
      }
      var table' := TableAfter(cfg, table, s);
      assert Decisions(cfg, table, steps)[1..] == Decisions(cfg, table', steps[1..]);
      AdmittedIsWell(cfg, table', Logged(logs, s, d), steps[1..]);
    }
  }

  /** The second and the minute, in nanoseconds, that end at `end` hold no more than their positive limits. */
  predicate KeepsLimits(cfg: Config, log: seq<int>, end: int) {
    && (cfg.perSecond > 0 ==> CountIn(log, end - 1_000_000_000, end) <= cfg.perSecond)
    && (cfg.perMinute > 0 ==> CountIn(log, end - 60_000_000_000, end) <= cfg.perMinute)
  }

  lemma WellLoggedBounds(cfg: Config, log: seq<int>, end: int)
    requires WellLogged(cfg, log)
    ensures KeepsLimits(cfg, log, end)
  {
    if cfg.perSecond > 0 { WindowBound(log, SECOND, cfg.perSecond, end); }
    if cfg.perMinute > 0 { WindowBound(log, MINUTE, cfg.perMinute, end); }
  }

  /**
   For any run of requests and evictions and any instant, at most the configured
   number of requests of an address is admitted in the second, and in the
   minute, that ends there.
   */
  lemma NoWindowExceedsItsLimit(cfg: Config, steps: seq<Step>, ip: string, end: int)
    requires Ordered(steps)
    ensures KeepsLimits(cfg, LogOf(Admitted(map[], steps, Decisions(cfg, map[], steps)), ip), end)
  {
    AdmittedIsWell(cfg, map[], map[], steps);
    var logs := Admitted(map[], steps, Decisions(cfg, map[], steps));
    WellLoggedBounds(cfg, LogOf(logs, ip), end);
  }

  /** Some window of that width holds more than a positive limit. */
  ghost predicate Overfull(log: seq<int>, width: int, limit: int) {
    limit > 0 && exists end :: InWindow(log, width, end) > limit
  }

  lemma OverfullWith(log: seq<int>, width: int, limit: int, now: int)
    requires width >= 0 && !Within(limit, InWindow(log, width, now))
    ensures Overfull(log + [now], width, limit)
  {
    assert (log + [now])[..|log|] == log;
    assert InWindow(log + [now], width, now) > limit;
  }

  /** Nothing is denied without need: a request is denied exactly when admitting it would overfill a window. */
  lemma DeniedOnlyWhenFull(cfg: Config, log: seq<int>, now: int)
    requires WellLogged(cfg, log) && forall i :: 0 <= i < |log| ==> log[i] <= now
    ensures !ReferenceAdmits(cfg, log, now)
            <==> Overfull(log + [now], SECOND, cfg.perSecond) || Overfull(log + [now], MINUTE, cfg.perMinute)
  {
    if ReferenceAdmits(cfg, log, now) {
      LoggedStaysWell(cfg, log, now);
      forall end
        ensures cfg.perSecond > 0 ==> InWindow(log + [now], SECOND, end) <= cfg.perSecond
        ensures cfg.perMinute > 0 ==> InWindow(log + [now], MINUTE, end) <= cfg.perMinute
      {
        WellLoggedBounds(cfg, log + [now], end);
      }
    } else if !Within(cfg.perSecond, InWindow(log, SECOND, now)) {
      OverfullWith(log, SECOND, cfg.perSecond, now);
    } else {
      OverfullWith(log, MINUTE, cfg.perMinute, now);
    }
  }
}
