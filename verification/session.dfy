/** The session middleware and the browser's cookie it reads and replaces. */
module Session {
  import opened Options
  import opened SessionModel

  class CookieJar {
    var cookie: Option<Cookie>

    constructor ()
      ensures cookie == None
    {
      cookie := None;
    }

    /** Sets the cookie; fails only when the token cannot be signed. */
    method IssueSessionCookie(cfg: Config, id: Identity, now: int, signs: bool) returns (ok: bool)
      requires cfg.tick >= 1
      modifies this
      ensures ok == signs && cookie == if signs then Some(Issued(cfg, id, now)) else old(cookie)
    {
      if !signs {
        return false;
      }
      var issuedAt := now / cfg.tick * cfg.tick;
      var expiresAt := (now + cfg.ttl) / cfg.tick * cfg.tick;
      cookie := Some(Cookie(id, issuedAt, expiresAt, now, cfg.ttl / cfg.tick * cfg.tick));
      return true;
    }

    method ClearSessionCookie()
      modifies this
      ensures cookie == None
    {
      cookie := None;
    }

    /** The identity of a valid cookie and when its token was issued. */
    method ParseSessionCookie(now: int) returns (id: Option<Identity>, issuedAt: int)
      ensures id.Some? <==> cookie.Some? && IsSent(cookie.value, now) && IsAccepted(cookie.value, now)
      ensures id.Some? ==> id.value == cookie.value.identity && issuedAt == cookie.value.issuedAt
    {
      if cookie.None? || !(cookie.value.maxAge == 0 || now < cookie.value.setAt + cookie.value.maxAge) {
        return None, 0;
      }
      if now >= cookie.value.expiresAt {
        return None, 0;
      }
      return Some(cookie.value.identity), cookie.value.issuedAt;
    }

    /** One request: `known` is an identity established by an earlier provider. */
    method Middleware(cfg: Config, enabled: bool, known: Option<Identity>, now: int, signs: bool)
      returns (identity: Option<Identity>)
      requires cfg.tick >= 1
      modifies this
      ensures !enabled || known.Some? ==> identity == known && cookie == old(cookie)
      ensures enabled && known.None? ==> Visit(cookie, identity) == Visited(cfg, old(cookie), now, signs)
    {
      if !enabled || known.Some? {
        return known;
      }
      var id, issuedAt := ParseSessionCookie(now);
      if id.None? {
        return None;
      }
      if now - issuedAt > cfg.delay {
        var _ := IssueSessionCookie(cfg, id.value, now, signs);
      }
      return id;
    }
  }
}
