/**
 The sliding session cookie over whole request sequences. Times are integers;
 token times are rounded down to a multiple of `tick` (section 2 of RFC 7519
 allows fractions, the library writes whole seconds), so tick = 1 is an ideal clock.
 Signing and verification of the signature are abstract: a cookie is what was issued.
 */
module SessionModel {
  import opened Options

  type Identity = string

  datatype Config = Config(ttl: int, delay: int, tick: int)

  /** The token's claims, and when and for how long the browser was told to keep the cookie. */
  datatype Cookie = Cookie(identity: Identity, issuedAt: int, expiresAt: int, setAt: int, maxAge: int)

  /** What config validation enforces. */
  predicate ValidConfig(cfg: Config) {
    cfg.tick >= 1 && 0 <= cfg.delay < cfg.ttl
  }

  function Floor(t: int, tick: int): int
    requires tick >= 1
  {
    t / tick * tick
  }

  function Issued(cfg: Config, id: Identity, now: int): Cookie
    requires cfg.tick >= 1
  {
    Cookie(id, Floor(now, cfg.tick), Floor(now + cfg.ttl, cfg.tick), now, Floor(cfg.ttl, cfg.tick))
  }

  /** A Max-Age of zero is not written, so the browser keeps the cookie until it closes. */
  predicate IsSent(c: Cookie, now: int) {
    c.maxAge == 0 || now < c.setAt + c.maxAge
  }

  /** Section 4.1.4 of RFC 7519: not on or after the expiration time. */
  predicate IsAccepted(c: Cookie, now: int) {
    now < c.expiresAt
  }

  datatype Visit = Visit(jar: Option<Cookie>, identity: Option<Identity>)

  /** One request; `signs` is whether a new token could be signed. */
  function Visited(cfg: Config, jar: Option<Cookie>, now: int, signs: bool): Visit
    requires cfg.tick >= 1
  {
    if jar.None? || !IsSent(jar.value, now) || !IsAccepted(jar.value, now) then Visit(jar, None)
    else if now - jar.value.issuedAt > cfg.delay && signs then
      Visit(Some(Issued(cfg, jar.value.identity, now)), Some(jar.value.identity))
    else Visit(jar, Some(jar.value.identity))
  }

  // ---- Request sequences ----

  /** The times never go back, and no gap is longer than g. */
  predicate Gaps(from: int, times: seq<int>, g: int)
    decreases |times|
  {
    times == [] || (from <= times[0] <= from + g && Gaps(times[0], times[1..], g))
  }

  /** Every request of the sequence is served as id. */
  predicate AlwaysIn(cfg: Config, jar: Option<Cookie>, times: seq<int>, id: Identity)
    requires cfg.tick >= 1
    decreases |times|
  {
    times == [] ||
    (Visited(cfg, jar, times[0], true).identity == Some(id) &&
     AlwaysIn(cfg, Visited(cfg, jar, times[0], true).jar, times[1..], id))
  }

  function Max(a: int, b: int): int {
    if a < b then b else a
  }

  lemma FloorBounds(t: int, tick: int)
    requires tick >= 1
    ensures Floor(t, tick) <= t < Floor(t, tick) + tick
  {
  }

  lemma ProductAtMost(a: int, b: int, d: int)
    requires a <= b && d >= 0
    ensures a * d <= b * d
  {
  }

  lemma QuotientAtLeast(n: int, d: int, q: int)
    requires d >= 1 && q * d <= n
    ensures n / d >= q && n / d * d >= q * d
  {
    var r := n / d;
    assert n < r * d + d;
    if q > r {
      ProductAtMost(r + 1, q, d);
      assert false;
    }
    ProductAtMost(q, r, d);
  }

  /**
   What rounding can lose: the token of a sign-in late in a tick is dated early,
   and expires early unless the rest of the lifetime carries it into the next tick.
   */
  function Loss(cfg: Config): int
    requires cfg.tick >= 1
  {
    Max(cfg.delay, cfg.tick - 1 - cfg.ttl % cfg.tick)
  }

  /** Right after a request, or the sign-in, the cookie was set just now or is not due for renewal. */
  predicate IsFreshAt(cfg: Config, c: Cookie, id: Identity, t: int)
    requires cfg.tick >= 1
  {
    c == Issued(cfg, id, c.setAt) && c.setAt <= t && (t == c.setAt || t - c.issuedAt <= cfg.delay)
  }

  /** A token expires a whole lifetime after its date, rounded down, or one tick later. */
  lemma ExpiresAt(cfg: Config, id: Identity, t: int)
    requires ValidConfig(cfg)
    ensures var c, into := Issued(cfg, id, t), t % cfg.tick;
            && c.issuedAt == t - into && 0 <= into < cfg.tick
            && c.expiresAt - c.issuedAt
               == Floor(cfg.ttl, cfg.tick) + if into + cfg.ttl % cfg.tick >= cfg.tick then cfg.tick else 0
  {
    var q, r, into := cfg.ttl / cfg.tick, cfg.ttl % cfg.tick, t % cfg.tick;
    var a := t / cfg.tick;
    assert t == a * cfg.tick + into && cfg.ttl == q * cfg.tick + r;
    assert t + cfg.ttl == (a + q) * cfg.tick + into + r by {
      assert (a + q) * cfg.tick == a * cfg.tick + q * cfg.tick;
    }
    var more := if into + r >= cfg.tick then 1 else 0;
    assert (a + q + more) * cfg.tick == a * cfg.tick + q * cfg.tick + more * cfg.tick;
    QuotientIs(t + cfg.ttl, cfg.tick, a + q + more);
  }

  lemma FreshIsServed(cfg: Config, c: Cookie, id: Identity, t: int, now: int)
    requires ValidConfig(cfg) && IsFreshAt(cfg, c, id, t)
    requires t <= now && now - t + Loss(cfg) < Floor(cfg.ttl, cfg.tick)
    ensures var v := Visited(cfg, Some(c), now, true);
            v.identity == Some(id) && v.jar.Some? && IsFreshAt(cfg, v.jar.value, id, now)
  {
    ExpiresAt(cfg, id, c.setAt);
  }

  /** With short enough gaps one sign-in lasts for ever. */
  lemma {:induction false} StaysSignedIn(cfg: Config, c: Cookie, id: Identity, from: int, times: seq<int>, g: int)
    requires ValidConfig(cfg) && IsFreshAt(cfg, c, id, from) && Gaps(from, times, g)
    requires g + Loss(cfg) < Floor(cfg.ttl, cfg.tick)
    ensures AlwaysIn(cfg, Some(c), times, id)
    decreases |times|
  {
    if times == [] {
    } else {
      FreshIsServed(cfg, c, id, from, times[0]);
      StaysSignedIn(cfg, Visited(cfg, Some(c), times[0], true).jar.value, id, times[0], times[1..], g);
    }
  }

  /** Requests at the instant of the sign-in are served if the lifetime is at least a tick. */
  lemma {:induction false} SameInstantIsServed(cfg: Config, id: Identity, start: int, times: seq<int>)
    requires ValidConfig(cfg) && cfg.ttl >= cfg.tick && Gaps(start, times, 0)
    ensures AlwaysIn(cfg, Some(Issued(cfg, id, start)), times, id)
    decreases |times|
  {
    if times == [] {
    } else {
      ExpiresAt(cfg, id, start);
      WholeTicks(cfg);
      SameInstantIsServed(cfg, id, start, times[1..]);
    }
  }

  /**
   A cookie serves its identity from the moment it is set until its token expires
   or the browser drops it, whichever comes first.
   */
  lemma ServedUntil(cfg: Config, id: Identity, setAt: int, now: int, signs: bool)
    requires ValidConfig(cfg) && setAt <= now
    ensures var v := Visited(cfg, Some(Issued(cfg, id, setAt)), now, signs);
            v.identity == if now < (setAt + cfg.ttl) / cfg.tick * cfg.tick
                             && (cfg.ttl < cfg.tick || now < setAt + cfg.ttl / cfg.tick * cfg.tick)
                          then Some(id) else None
  {
    WholeTicks(cfg);
  }

  /** A renewal that cannot be signed leaves the request served and the cookie as it was. */
  lemma FailedRenewalIsHarmless(cfg: Config, jar: Option<Cookie>, now: int)
    requires cfg.tick >= 1
    ensures Visited(cfg, jar, now, false).identity == Visited(cfg, jar, now, true).identity
    ensures Visited(cfg, jar, now, false).jar == jar
  {
  }

  /** The cookie is replaced, by one issued now for the same identity, only when it is accepted and due. */
  lemma RenewedWhenDue(cfg: Config, c: Cookie, now: int)
    requires cfg.tick >= 1
    ensures var v := Visited(cfg, Some(c), now, true);
            && (v.identity.Some? ==> v.identity == Some(c.identity))
            && (v.jar != Some(c) ==> v.identity.Some? && v.jar == Some(Issued(cfg, c.identity, now)))
            && (v.identity.Some? && now - c.issuedAt > cfg.delay ==> v.jar == Some(Issued(cfg, c.identity, now)))
            && (now - c.issuedAt <= cfg.delay ==> v.jar == Some(c))
  {
  }

  /** Without a cookie no request is served. */
  lemma SignedOutStaysOut(cfg: Config, now: int, signs: bool)
    requires cfg.tick >= 1
    ensures Visited(cfg, None, now, signs) == Visit(None, None)
  {
  }

  /** A gap of the whole lifetime or more always ends the session, renewed or not, rounded or not. */
  lemma LongGapEnds(cfg: Config, id: Identity, setAt: int, last: int, now: int, signs: bool)
    requires ValidConfig(cfg) && setAt <= last && now - last >= cfg.ttl
    ensures Visited(cfg, Some(Issued(cfg, id, setAt)), now, signs) == Visit(Some(Issued(cfg, id, setAt)), None)
  {
    FloorBounds(setAt + cfg.ttl, cfg.tick);
  }

  /** Once ended it stays ended: no later request brings it back. */
  lemma {:induction false} EndedForGood(cfg: Config, c: Cookie, id: Identity, from: int, times: seq<int>)
    requires cfg.tick >= 1 && !IsAccepted(c, from) && times != [] && (forall i :: 0 <= i < |times| ==> times[i] >= from)
    ensures forall i :: 0 <= i < |times| ==> Visited(cfg, Some(c), times[i], true) == Visit(Some(c), None)
    ensures !AlwaysIn(cfg, Some(c), times, id)
  {
  }

  // ---- The exact bound ----

  /** Request times from `from` up to `upTo`, g apart but for the last. */
  function Ladder(from: int, upTo: int, g: int): seq<int>
    requires g > 0 && from <= upTo
    decreases upTo - from
  {
    if from + g >= upTo then [upTo] else [from + g] + Ladder(from + g, upTo, g)
  }

  lemma LadderGaps(from: int, upTo: int, g: int)
    requires g > 0 && from <= upTo
    ensures Gaps(from, Ladder(from, upTo, g) + [upTo + g], g)
    decreases upTo - from
  {
    if from + g >= upTo {
      assert ([upTo] + [upTo + g])[1..] == [upTo + g];
    } else {
      LadderGaps(from + g, upTo, g);
      assert (Ladder(from, upTo, g) + [upTo + g])[1..] == Ladder(from + g, upTo, g) + [upTo + g];
    }
  }

  /** The worst moment of a tick to sign in: the last at which the rest of the lifetime does not help. */
  function WorstStart(cfg: Config): int
    requires cfg.tick >= 1
  {
    cfg.tick - 1 - cfg.ttl % cfg.tick
  }

  lemma FirstToken(cfg: Config, id: Identity)
    requires ValidConfig(cfg)
    ensures 0 <= WorstStart(cfg) <= Loss(cfg)
    ensures Issued(cfg, id, WorstStart(cfg))
         == Cookie(id, 0, Floor(cfg.ttl, cfg.tick), WorstStart(cfg), Floor(cfg.ttl, cfg.tick))
  {
    var start := WorstStart(cfg);
    QuotientIs(start, cfg.tick, 0);
    ExpiresAt(cfg, id, start);
    assert start == start / cfg.tick * cfg.tick + start % cfg.tick;
  }

  /** Requests that never renew leave the cookie as it is; the one after them comes too late. */
  lemma {:induction false} LadderEnds(cfg: Config, id: Identity, from: int, upTo: int, g: int)
    requires ValidConfig(cfg) && g > 0
    requires WorstStart(cfg) <= from <= upTo == Loss(cfg) && upTo + g >= Floor(cfg.ttl, cfg.tick)
    ensures !AlwaysIn(cfg, Some(Issued(cfg, id, WorstStart(cfg))), Ladder(from, upTo, g) + [upTo + g], id)
    decreases upTo - from
  {
    var c := Issued(cfg, id, WorstStart(cfg));
    FirstToken(cfg, id);
    var first := Ladder(from, upTo, g)[0];
    assert Visited(cfg, Some(c), first, true).jar == Some(c);
    if from + g >= upTo {
      assert ([upTo] + [upTo + g])[1..] == [upTo + g];
      assert !AlwaysIn(cfg, Some(c), [upTo + g], id);
    } else {
      LadderEnds(cfg, id, from + g, upTo, g);
      assert (Ladder(from, upTo, g) + [upTo + g])[1..] == Ladder(from + g, upTo, g) + [upTo + g];
    }
  }

  lemma QuotientIs(n: int, d: int, q: int)
    requires d >= 1 && q * d <= n < q * d + d
    ensures n / d == q
  {
    QuotientAtLeast(n, d, q);
    var r := n / d;
    if r > q {
      ProductAtMost(q + 1, r, d);
      assert false;
    }
  }

  /** Whenever someone signs in and however requests follow with gaps of at most g, all are served. */
  ghost predicate GapsAreSafe(cfg: Config, id: Identity, g: int)
    requires cfg.tick >= 1
  {
    forall start, times :: Gaps(start, times, g) ==> AlwaysIn(cfg, Some(Issued(cfg, id, start)), times, id)
  }

  lemma WholeTicks(cfg: Config)
    requires ValidConfig(cfg)
    ensures if cfg.ttl >= cfg.tick then Floor(cfg.ttl, cfg.tick) >= cfg.tick else Floor(cfg.ttl, cfg.tick) == 0
  {
    if cfg.ttl >= cfg.tick {
      assert 1 * cfg.tick == cfg.tick;
      QuotientAtLeast(cfg.ttl, cfg.tick, 1);
    } else {
      QuotientIs(cfg.ttl, cfg.tick, 0);
    }
  }

  /** Gaps too long for the bound are not safe: a sign-in at the worst moment, then requests up to the last renewal. */
  lemma LongGapsAreUnsafe(cfg: Config, id: Identity, g: int)
    requires ValidConfig(cfg) && g > 0 && g + Loss(cfg) >= Floor(cfg.ttl, cfg.tick)
    ensures !GapsAreSafe(cfg, id, g)
  {
    var start, upTo := WorstStart(cfg), Loss(cfg);
    LadderGaps(start, upTo, g);
    LadderEnds(cfg, id, start, upTo, g);
  }

  /** A lifetime below a tick can end before it begins. */
  lemma ShortLifetimeIsUnsafe(cfg: Config, id: Identity, g: int)
    requires ValidConfig(cfg) && cfg.ttl < cfg.tick && g >= 0
    ensures !GapsAreSafe(cfg, id, g)
  {
    var start := WorstStart(cfg);
    FirstToken(cfg, id);
    WholeTicks(cfg);
    assert Gaps(start, [start], g);
    assert !AlwaysIn(cfg, Some(Issued(cfg, id, start)), [start], id);
  }

  /**
   The exact bound: gaps are safe if and only if, together with the renewal delay
   (or with what rounding loses, if that is more), they are shorter than the
   lifetime in whole ticks; requests at one instant are, for a lifetime of a tick or more.
   */
  lemma SafeGapsExactly(cfg: Config, id: Identity, g: int)
    requires ValidConfig(cfg) && g >= 0
    ensures GapsAreSafe(cfg, id, g)
       <==> (g == 0 && cfg.ttl >= cfg.tick) || g + Loss(cfg) < Floor(cfg.ttl, cfg.tick)
  {
    WholeTicks(cfg);
    if g + Loss(cfg) < Floor(cfg.ttl, cfg.tick) {
      forall start, times | Gaps(start, times, g)
        ensures AlwaysIn(cfg, Some(Issued(cfg, id, start)), times, id)
      {
        StaysSignedIn(cfg, Issued(cfg, id, start), id, start, times, g);
      }
    } else if g == 0 && cfg.ttl >= cfg.tick {
      forall start, times | Gaps(start, times, 0)
        ensures AlwaysIn(cfg, Some(Issued(cfg, id, start)), times, id)
      {
        SameInstantIsServed(cfg, id, start, times);
      }
    } else if g == 0 {
      ShortLifetimeIsUnsafe(cfg, id, g);
    } else {
      LongGapsAreUnsafe(cfg, id, g);
    }
  }

  /** On an ideal clock: gaps are safe if and only if shorter than the lifetime less the renewal delay. */
  lemma SafeGapsOnIdealClock(cfg: Config, id: Identity, g: int)
    requires ValidConfig(cfg) && cfg.tick == 1 && g > 0
    ensures GapsAreSafe(cfg, id, g) <==> g < cfg.ttl - cfg.delay
  {
    SafeGapsExactly(cfg, id, g);
  }
}
