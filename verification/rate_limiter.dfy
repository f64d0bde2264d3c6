/** The in-memory limiter: shared per-address states in a map, each request and eviction taken as one atomic step. */
module RateLimiter {
  import opened RateLimitModel

  /** Removes the times before the cutoff from the front. */
  method PruneOlderThan(ts: seq<int>, cutoff: int) returns (rest: seq<int>)
    ensures rest == Pruned(ts, cutoff)
    ensures |rest| <= |ts| && rest == ts[|ts| - |rest|..]
    ensures forall i :: 0 <= i < |ts| - |rest| ==> ts[i] < cutoff
    ensures rest != [] ==> rest[0] >= cutoff
  {
    var i := 0;
    while i < |ts| && ts[i] < cutoff
      invariant 0 <= i <= |ts|
      invariant forall k :: 0 <= k < i ==> ts[k] < cutoff
      invariant Pruned(ts, cutoff) == Pruned(ts[i..], cutoff)
    {
      assert ts[i..][1..] == ts[i + 1..];
      i := i + 1;
    }
    return ts[i..];
  }

  class IpState {
    var secondTs: seq<int>
    var minuteTs: seq<int>

    ghost function View(): Lists
      reads this
    {
      Lists(secondTs, minuteTs)
    }

    constructor ()
      ensures View() == Lists([], [])
    {
      secondTs, minuteTs := [], [];
    }

    /** The part of Allow that runs under the lock of the address. */
    method Admit(cfg: Config, now: int) returns (ok: bool)
      modifies this
      ensures (ok, View()) == Handled(cfg, old(View()), now)
    {
      secondTs := PruneOlderThan(secondTs, now - SECOND);
      minuteTs := PruneOlderThan(minuteTs, now - MINUTE);
      if cfg.perSecond > 0 && |secondTs| >= cfg.perSecond {
        return false;
      }
      if cfg.perMinute > 0 && |minuteTs| >= cfg.perMinute {
        return false;
      }
      secondTs := secondTs + [now];
      minuteTs := minuteTs + [now];
      return true;
    }
  }

  class MemLimiter {
    const cfg: Config
    var ips: map<string, IpState>

    /** No two addresses share a state. */
    ghost predicate Valid()
      reads this
    {
      forall a, b :: a in ips && b in ips && a != b ==> ips[a] != ips[b]
    }

    ghost function View(): Table
      reads this, ips.Values
    {
      map ip | ip in ips :: ips[ip].View()
    }

    constructor (cfg: Config)
      ensures Valid() && View() == map[] && this.cfg == cfg
    {
      this.cfg := cfg;
      ips := map[];
    }

    method State(ip: string) returns (s: IpState)
      requires Valid()
      modifies this
      ensures Valid() && ip in ips && ips[ip] == s
      ensures ips == old(ips)[ip := s] && (if ip in old(ips) then s == old(ips)[ip] else fresh(s))
      ensures s.View() == Lookup(old(View()), ip)
      ensures View() == old(View())[ip := Lookup(old(View()), ip)]
    {
      if ip in ips {
        return ips[ip];
      }
      s := new IpState();
      ips := ips[ip := s];
    }

    /** The rest of Allow: nothing changes but the state of ip. */
    method AdmitAt(ip: string, s: IpState, now: int) returns (ok: bool)
      requires Valid() && ip in ips && ips[ip] == s
      modifies s
      ensures ok == Handled(cfg, old(s.View()), now).0
      ensures View() == old(View())[ip := Handled(cfg, old(s.View()), now).1]
    {
      ok := s.Admit(cfg, now);
      assert forall p :: p in ips && p != ip ==> ips[p] != s && ips[p].View() == old(ips[p].View());
    }

    /** Whether the next request of ip is admitted; `now` is the clock's reading. */
    method Allow(ip: string, now: int) returns (ok: bool)
      requires Valid()
      modifies this, ips.Values
      ensures Valid() && fresh(ips.Values - old(ips.Values))
      ensures ok == Decides(cfg, old(View()), RateLimitModel.Allow(ip, now))
      ensures View() == TableAfter(cfg, old(View()), RateLimitModel.Allow(ip, now))
    {
      var s := State(ip);
      ok := AdmitAt(ip, s, now);
    }

    /** One round of the janitor, over the addresses in any order. */
    method EvictIdle(now: int)
      requires Valid()
      modifies this
      ensures Valid() && ips.Values <= old(ips.Values)
      ensures View() == TableAfter(cfg, old(View()), RateLimitModel.Evict(now))
    {
      var cutoff := now - MINUTE;
      var todo := ips.Keys;
      while todo != {}
        invariant todo <= ips.Keys <= old(ips).Keys
        invariant forall ip :: ip in ips ==> ips[ip] == old(ips)[ip]
        invariant forall ip :: ip in old(ips) && ip !in todo ==>
                    (ip in ips <==> !IsIdle(old(ips)[ip].View(), cutoff))
        decreases todo
      {
        var ip :| ip in todo;
        var s := ips[ip];
        if |s.minuteTs| == 0 || s.minuteTs[|s.minuteTs| - 1] < cutoff {
          ips := ips - {ip};
        }
        todo := todo - {ip};
      }
    }
  }
}
