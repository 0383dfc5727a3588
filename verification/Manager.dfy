/** The tunnel manager as the object that it is (internal/server/tunnel.go): its maps and its
    operations, each proved against the functions that the step machine is made of. */
module Manager {
  import opened Common
  import opened Secrets
  import opened Sessions
  import opened Auth
  import opened Registry
  import ControlPlane
  import Storage
  import RateLimits
  import Handoffs

  type Config = ControlPlane.Config

  class Tunnel {
    const session: Session
    const sourceIP: string
    var open: bool  // the server has not closed the connection

    constructor (session: Session, sourceIP: string)
      ensures this.session == session && this.sourceIP == sourceIP && open
    {
      this.session, this.sourceIP, open := session, sourceIP, true;
    }

    method Close()
      modifies this
      ensures !open
    {
      open := false;
    }
  }

  /** What randomID returns during one registration; names(i) is the i-th name drawn. */
  datatype Draws = Draws(id: string, names: nat -> string, auth: Bytes, token: Bytes, handoff: Bytes)

  /** The clock readings of one registration. */
  datatype Instants = Instants(rate: int, validated: int, started: int, handedOff: int)

  /** Which of the two storage calls at the end of a registration fails, if any. */
  datatype Fault = NoFault | UpsertFails | CountFails

  datatype Outcome = Refused(why: Refusal) | Failed | Accepted(tunnel: Tunnel)

  const NAME_ATTEMPTS: nat := 5

  /** The first of the remaining draws that no stored session uses. */
  function FreeName(rows: Table, names: nat -> string, attempt: nat): Option<string>
    requires attempt <= NAME_ATTEMPTS
    decreases NAME_ATTEMPTS - attempt
  {
    if attempt == NAME_ATTEMPTS then None
    else if !SubdomainExists(rows, names(attempt)) then Some(names(attempt))
    else FreeName(rows, names, attempt + 1)
  }

  /** The name found is the first unused one of the five draws; none is found if all are used. */
  lemma {:induction false} FreeNameIsFirst(rows: Table, names: nat -> string, attempt: nat)
    requires attempt <= NAME_ATTEMPTS
    ensures match FreeName(rows, names, attempt)
            case None => forall k :: attempt <= k < NAME_ATTEMPTS ==> SubdomainExists(rows, names(k))
            case Some(name) => exists k :: attempt <= k < NAME_ATTEMPTS && name == names(k)
                                 && !SubdomainExists(rows, name)
                                 && forall j :: attempt <= j < k ==> SubdomainExists(rows, names(j))
    decreases NAME_ATTEMPTS - attempt
  {
    hide SubdomainExists;
    if attempt < NAME_ATTEMPTS && SubdomainExists(rows, names(attempt)) {
      FreeNameIsFirst(rows, names, attempt + 1);
      assert FreeName(rows, names, attempt) == FreeName(rows, names, attempt + 1);
      if FreeName(rows, names, attempt).Some? {
        var k :| attempt + 1 <= k < NAME_ATTEMPTS && FreeName(rows, names, attempt).value == names(k)
                 && forall j :: attempt + 1 <= j < k ==> SubdomainExists(rows, names(j));
        assert forall j :: attempt <= j < k ==> SubdomainExists(rows, names(j));
      }
    }
  }

  /** Whether and why a registration is refused before it is looked at. */
  function Admission(paused: bool, verdict: RateLimits.Verdict, ips: map<string, string>, cfg: Config,
                     isNew: bool, ip: string): Option<Refusal> {
    if isNew && paused then Some(Paused)
    else if verdict.Busy? then Some(Busy)
    else if verdict.TooManyFromIP? then Some(RateLimited)
    else if isNew then CheckCapacity(ips, ip, cfg.maxTunnels, cfg.maxPerIP)
    else None
  }

  /** Whether and why a registration is refused, in the order in which the checks are made. */
  function FirstRefusal(paused: bool, verdict: RateLimits.Verdict, ips: map<string, string>, rows: Table, cfg: Config,
                        reg: Registration, ip: string, now: int, names: nat -> string): Option<Refusal> {
    var isNew := reg.sessionID == "";
    if Admission(paused, verdict, ips, cfg, isNew, ip).Some? then Admission(paused, verdict, ips, cfg, isNew, ip)
    else if ValidateRegistration(rows, now, cfg.lifetime, reg).Some? then
      ValidateRegistration(rows, now, cfg.lifetime, reg)
    else if isNew && FreeName(rows, names, 0).None? then Some(NoFreeName)
    else None
  }

  /** There is a free name, or a row to resume. */
  predicate Resolvable(rows: Table, reg: Registration, draws: Draws) {
    if reg.sessionID == "" then FreeName(rows, draws.names, 0).Some? else reg.sessionID in rows
  }

  /** The session that an accepted registration stores. */
  function NewSession(rows: Table, reg: Registration, draws: Draws, now: int): Session
    requires Resolvable(rows, reg, draws)
  {
    if reg.sessionID == ""
    then Session(draws.id, FreeName(rows, draws.names, 0).value, reg.localPort, now, draws.auth, draws.token, true)
    else Session(reg.sessionID, rows[reg.sessionID].subdomain, reg.localPort, rows[reg.sessionID].startedAt,
                 draws.auth, draws.token, true)
  }

  /** What a claim answers, given what it found and the sessions that are registered. */
  function Claimed(found: Option<Handoffs.Handoff>, served: map<string, Session>, sessionID: string, now: int): Option<Bytes> {
    if Handoffs.Succeeds(found, sessionID, now) && sessionID in served then Some(served[sessionID].authToken) else None
  }

  lemma CountOne(ips: map<string, string>, ip: string, todo: set<string>, id: string)
    requires id in todo && id in ips
    ensures |SessionsFrom(ips, ip) - (todo - {id})| == |SessionsFrom(ips, ip) - todo| + (if ips[id] == ip then 1 else 0)
  {
    var counted := SessionsFrom(ips, ip) - todo;
    if ips[id] == ip {
      assert SessionsFrom(ips, ip) - (todo - {id}) == counted + {id};
    } else {
      assert SessionsFrom(ips, ip) - (todo - {id}) == counted;
    }
  }

  /** Requests will be forwarded to the port that the client sent; the secrets are those drawn; a new
      session starts now under the drawn ID, a resumed one keeps ID, name and start. */
  lemma NewSessionIs(rows: Table, reg: Registration, draws: Draws, now: int)
    requires Resolvable(rows, reg, draws)
    ensures var session := NewSession(rows, reg, draws, now);
            && session.localPort == reg.localPort && session.hosted
            && session.authToken == draws.auth && session.tunnelToken == draws.token
            && (reg.sessionID == "" ==>
                 session.id == draws.id && session.startedAt == now && !SubdomainExists(rows, session.subdomain))
            && (reg.sessionID != "" ==>
                 && session.id == reg.sessionID && session.id in rows
                 && session.startedAt == rows[session.id].startedAt && session.subdomain == rows[session.id].subdomain)
  {
    hide SubdomainExists;
    FreeNameIsFirst(rows, draws.names, 0);
  }

  lemma ValidResumeIsStored(rows: Table, now: int, lifetime: int, reg: Registration)
    ensures reg.sessionID != "" && ValidateRegistration(rows, now, lifetime, reg).None? ==> reg.sessionID in rows
  {
  }

  class TunnelManager {
    const cfg: Config
    const db: Storage.Database
    const rate: RateLimits.RateLimiter
    const handoffs: Handoffs.HandoffStore
    var tunnels: map<string, Tunnel>
    var bySession: map<string, Tunnel>
    var paused: bool

    constructor (cfg: Config, db: Storage.Database)
      ensures this.cfg == cfg && this.db == db && View() == Registry(map[], map[]) && !paused
      ensures fresh(rate) && fresh(handoffs) && rate.limits == RateLimits.REGISTRATION_LIMITS
      ensures rate.View() == RateLimits.Limiter(RateLimits.ZERO, map[]) && handoffs.handoffs == map[]
    {
      this.cfg, this.db, paused := cfg, db, false;
      tunnels, bySession := map[], map[];
      rate := new RateLimits.RateLimiter(RateLimits.REGISTRATION_LIMITS);
      handoffs := new Handoffs.HandoffStore();
    }

    function View(): Registry<Tunnel>
      reads this
    {
      Registry(tunnels, bySession)
    }

    function SourceIPs(): map<string, string>
      reads this
    {
      map id | id in bySession :: bySession[id].sourceIP
    }

    function Served(): map<string, Session>
      reads this
    {
      map id | id in bySession :: bySession[id].session
    }

    /** Counts one session at a time. */
    method CheckHostedCapacity(ip: string) returns (refusal: Option<Refusal>)
      ensures refusal == CheckCapacity(SourceIPs(), ip, cfg.maxTunnels, cfg.maxPerIP)
    {
      assert SourceIPs().Keys == bySession.Keys;
      assert |bySession| == |bySession.Keys| && |SourceIPs()| == |SourceIPs().Keys|;
      if |bySession| >= cfg.maxTunnels {
        return Some(AtCapacity);
      }
      ghost var ips := SourceIPs();
      var todo, activeFromIP := bySession.Keys, 0;
      while todo != {}
        invariant todo <= bySession.Keys
        invariant activeFromIP == |SessionsFrom(ips, ip) - todo|
        decreases todo
      {
        var id :| id in todo;
        CountOne(ips, ip, todo, id);
        if bySession[id].sourceIP == ip {
          activeFromIP := activeFromIP + 1;
        }
        todo := todo - {id};
      }
      assert SessionsFrom(ips, ip) - todo == SessionsFrom(ips, ip);
      refusal := if activeFromIP >= cfg.maxPerIP then Some(TooManyActive) else None;
    }

    /** At most five draws, each checked against the table. */
    method AllocateHostedSubdomain(names: nat -> string) returns (name: Option<string>)
      ensures name == FreeName(db.sessions, names, 0)
    {
      var attempts := 0;
      while attempts < NAME_ATTEMPTS
        invariant 0 <= attempts <= NAME_ATTEMPTS
        invariant FreeName(db.sessions, names, 0) == FreeName(db.sessions, names, attempts)
      {
        if !SubdomainExists(db.sessions, names(attempts)) {
          return Some(names(attempts));
        }
        attempts := attempts + 1;
      }
      name := None;
    }

    /** Closes the connection that the session had, if any, and registers the new one. */
    method InstallTunnel(tunnel: Tunnel)
      modifies this`tunnels, this`bySession, bySession.Values
      ensures View() == Install(old(View()), tunnel.session.subdomain, tunnel.session.id, tunnel)
      ensures forall id :: id in old(bySession) ==>
                old(bySession)[id].open == (old(bySession[id].open) && !Superseded(old(bySession), tunnel.session.id, old(bySession)[id]))
    {
      var id := tunnel.session.id;
      if id in bySession {
        bySession[id].Close();
      }
      tunnels := tunnels[tunnel.session.subdomain := tunnel];
      bySession := bySession[id := tunnel];
    }

    /** Unregisters the tunnel, unless its session has been taken over. */
    method RemoveTunnel(tunnel: Tunnel, ended: int) returns (removed: bool)
      modifies this`tunnels, this`bySession, db
      ensures removed == Registered(old(View()), tunnel.session.id, tunnel)
      ensures View() == Remove(old(View()), tunnel.session.subdomain, tunnel.session.id, tunnel)
      ensures db.View() == old(db.View()).(
                sessions := if removed then End(old(db.sessions), tunnel.session.id, ended) else old(db.sessions))
    {
      var id := tunnel.session.id;
      if id !in bySession || bySession[id] != tunnel {
        return false;
      }
      tunnels := tunnels - {tunnel.session.subdomain};
      bySession := bySession - {id};
      db.EndSession(id, ended);
      removed := true;
    }

    /** Collects what is past its lifetime, then closes it. */
    method ExpireHostedTunnels(now: int)
      modifies bySession.Values
      ensures View() == old(View())
      ensures forall id :: id in bySession ==>
                bySession[id].open == (old(bySession[id].open) && now - bySession[id].session.startedAt < cfg.lifetime)
    {
      var expired: set<Tunnel> := {};
      var todo := bySession.Keys;
      while todo != {}
        invariant todo <= bySession.Keys
        invariant expired == set id | id in bySession && id !in todo && Expired(bySession[id], now) :: bySession[id]
        decreases todo
      {
        var id :| id in todo;
        todo := todo - {id};
        if now - bySession[id].session.startedAt >= cfg.lifetime {
          expired := expired + {bySession[id]};
        }
      }
      assert expired <= bySession.Values;
      ghost var found := expired;
      while expired != {}
        invariant expired <= found && View() == old(View())
        invariant forall t :: t in bySession.Values ==>
                    t.open == (old(t.open) && !(t in found && t !in expired))
        decreases expired
      {
        var tunnel :| tunnel in expired;
        tunnel.Close();
        expired := expired - {tunnel};
      }
    }

    predicate Expired(tunnel: Tunnel, now: int) {
      now - tunnel.session.startedAt >= cfg.lifetime
    }

    /** Counts the attempt first; only new sessions meet the pause and the capacity check. */
    method AdmitHosted(ip: string, isNew: bool, now: int) returns (refusal: Option<Refusal>)
      modifies rate
      ensures var (limiter, verdict) := RateLimits.Check(old(rate.View()), rate.limits, now, ip);
              && refusal == Admission(paused, verdict, SourceIPs(), cfg, isNew, ip)
              && rate.View() == if isNew && paused then old(rate.View()) else limiter
    {
      hide CheckCapacity, RateLimits.Check;
      if isNew && paused {
        return Some(Paused);
      }
      var verdict := rate.Allow(now, ip);
      if verdict.Busy? {
        return Some(Busy);
      } else if verdict.TooManyFromIP? {
        return Some(RateLimited);
      }
      if !isNew {
        return None;
      }
      refusal := CheckHostedCapacity(ip);
    }

    /** A new session gets a name of its own; a resumed one keeps its row's name and start. None if
        no name is free, or if the row has been pruned since it was validated. */
    method ResolveSession(reg: Registration, draws: Draws, now: int) returns (session: Option<Session>)
      ensures session.Some? <==> Resolvable(db.sessions, reg, draws)
      ensures session.Some? ==> session.value == NewSession(db.sessions, reg, draws, now)
    {
      hide FreeName;
      if reg.sessionID == "" {
        var name := AllocateHostedSubdomain(draws.names);
        if name.None? {
          return None;
        }
        return Some(Session(draws.id, name.value, reg.localPort, now, draws.auth, draws.token, true));
      }
      var existing := db.GetSession(reg.sessionID);
      if existing.None? {
        return None;
      }
      session := Some(Session(reg.sessionID, existing.value.subdomain, reg.localPort, existing.value.startedAt,
                              draws.auth, draws.token, true));
    }

    /** A registration that nothing interrupts: refused for the first failing check, leaving table,
        maps and handoffs alone, or stored, installed and given a handoff. If counting the stored
        requests fails, the row has been rotated although nothing else happens. */
    method Register(reg: Registration, ip: string, at: Instants, draws: Draws, fault: Fault) returns (outcome: Outcome)
      modifies this`tunnels, this`bySession, bySession.Values, db, rate, handoffs
      ensures var (limiter, verdict) := RateLimits.Check(old(rate.View()), rate.limits, at.rate, ip);
              var refusal := FirstRefusal(old(paused), verdict, old(SourceIPs()), old(db.sessions), cfg,
                                          reg, ip, at.validated, draws.names);
              && (rate.View() == if reg.sessionID == "" && old(paused) then old(rate.View()) else limiter)
              && (refusal.Some? <==> outcome.Refused?)
              && (outcome.Refused? ==> outcome.why == refusal.value)
              && (outcome.Failed? <==> refusal.None? && fault != NoFault)
      ensures !outcome.Accepted? ==>
                View() == old(View()) && handoffs.handoffs == old(handoffs.handoffs)
                && forall id :: id in bySession ==> bySession[id].open == old(bySession[id].open)
      ensures outcome.Refused? ==> db.View() == old(db.View())
      ensures !outcome.Refused? ==> Resolvable(old(db.sessions), reg, draws)
      ensures outcome.Failed? ==>
                db.View() == if fault.UpsertFails? then old(db.View())
                             else old(db.View()).(sessions := Upsert(old(db.sessions), NewSession(old(db.sessions), reg, draws, at.started)))
      ensures outcome.Accepted? ==>
                var session := NewSession(old(db.sessions), reg, draws, at.started);
                && fresh(outcome.tunnel) && outcome.tunnel.session == session && outcome.tunnel.open
                && outcome.tunnel.sourceIP == ip
                && db.View() == old(db.View()).(sessions := Upsert(old(db.sessions), session))
                && View() == Install(old(View()), session.subdomain, session.id, outcome.tunnel)
                && (forall id :: id in old(bySession) ==>
                     old(bySession)[id].open
                     == (old(bySession[id].open) && !Superseded(old(bySession), session.id, old(bySession)[id])))
                && handoffs.handoffs == Handoffs.Issue(old(handoffs.handoffs), session.id,
                                                       HashHostedSecret(draws.handoff), at.handedOff)
    {
      hide FreeName, CheckCapacity, ValidateRegistration, Upsert, Install, Superseded, SourceIPs;
      hide RateLimits.Check, Handoffs.Issue, Storage.Database.View;
      var refused := AdmitHosted(ip, reg.sessionID == "", at.rate);
      if refused.Some? {
        return Refused(refused.value);
      }
      var invalid := ValidateRegistration(db.sessions, at.validated, cfg.lifetime, reg);
      if invalid.Some? {
        return Refused(invalid.value);
      }
      ValidResumeIsStored(db.sessions, at.validated, cfg.lifetime, reg);
      var resolved := ResolveSession(reg, draws, at.started);
      if resolved.None? {
        return Refused(if reg.sessionID == "" then NoFreeName else InvalidSessionResume);
      }
      var session := resolved.value;
      if fault.UpsertFails? {
        return Failed;
      }
      db.UpsertSession(session);
      if fault.CountFails? {
        return Failed;
      }
      var tunnel := new Tunnel(session, ip);
      InstallTunnel(tunnel);
      handoffs.NewDashboardHandoff(session.id, draws.handoff, at.handedOff);
      outcome := Accepted(tunnel);
    }

    /** One tick of the retention loop: close what is overdue, then prune. With intact references
        and a retention that outlasts the grace period or the lifetime, no resume is lost by it. */
    method RetentionTick(scan: int, now: int) returns (ok: bool)
      modifies bySession.Values, db
      ensures View() == old(View())
      ensures forall id :: id in bySession ==>
                bySession[id].open == (old(bySession[id].open) && scan - bySession[id].session.startedAt < cfg.lifetime)
      ensures Storage.RefsOk(old(db.View())) ==>
                ok && db.View() == Storage.Retained(old(db.View()), now - cfg.retention) && Storage.RefsOk(db.View())
      ensures Outlasts(old(db.sessions), now, cfg.retention, cfg.lifetime) && Storage.RefsOk(old(db.View())) ==>
                StaysResumable(old(db.sessions), db.sessions, now, cfg.lifetime)
    {
      hide ValidateResume, StaysResumable, Outlasts, PruneSessions, Storage.RefsOk;
      ExpireHostedTunnels(scan);
      ok := db.PruneHostedBefore(now - cfg.retention);
      if Storage.RefsOk(old(db.View())) { Storage.PruneRetains(old(db.View()), now - cfg.retention); }
      if Outlasts(old(db.sessions), now, cfg.retention, cfg.lifetime) {
        PruneSpares(old(db.sessions), now, cfg.retention, cfg.lifetime);
      }
    }

    /** Hands out the dashboard secret of the session's registered tunnel, if the handoff is the
        session's own and in time. A handoff of the session is used up in any case. */
    method ClaimDashboardHandoff(sessionID: string, secret: Bytes, now: int) returns (token: Option<Bytes>)
      modifies handoffs
      ensures token == Claimed(Handoffs.Find(old(handoffs.handoffs), HashHostedSecret(secret)), Served(), sessionID, now)
      ensures handoffs.handoffs == Handoffs.Take(old(handoffs.handoffs), sessionID, HashHostedSecret(secret))
    {
      var found := handoffs.TakeHandoff(sessionID, secret);
      if found.None? || found.value.sessionID != sessionID || now > found.value.expires {
        return None;
      }
      if sessionID !in bySession {
        return None;
      }
      token := Some(bySession[sessionID].session.authToken);
    }

    /** Blanks the row and closes the connection, which unregisters itself later. */
    method RevokeHosted(id: string, now: int) returns (found: bool)
      modifies db, bySession.Values
      ensures View() == old(View())
      ensures found == Revocable(old(db.sessions), id)
      ensures db.View() == old(db.View()).(sessions := Revoke(old(db.sessions), id, now))
      ensures forall other :: other in bySession ==>
                bySession[other].open == (old(bySession[other].open) && !(found && Superseded(bySession, id, bySession[other])))
      ensures forall token, at :: found ==> ValidateResume(db.sessions, at, cfg.lifetime, id, token).Some?
    {
      found := db.RevokeHostedSession(id, now);
      if found && id in bySession {
        bySession[id].Close();
      }
    }
  }

  ghost predicate Superseded(bySession: map<string, Tunnel>, id: string, tunnel: Tunnel) {
    id in bySession && bySession[id] == tunnel
  }
}
