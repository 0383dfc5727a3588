/** The tunnel manager's Register against the step machine: run without interruption, it refuses
    exactly what the machine does not let through, and otherwise takes the machine through one
    registration. So what the modules Guarantees and Exactness prove of every run covers it. */
module Refinement {
  import opened Common
  import opened Secrets
  import opened Sessions
  import opened Auth
  import opened Registry
  import opened ControlPlane
  import opened Invariant
  import opened Reachability
  import Manager
  import RateLimits
  import opened Guarantees
  import Handoffs

  /** The machine has the connection's registration admitted, validated and given a name. */
  ghost predicate LetsThrough(c: Config, s: State, reg: Registration, ip: string, names: nat -> string) {
    && Enabled(c, Accepted(s), Admit(s.nextConn, ip, reg))
    && Enabled(c, Accepted(s).(lock := Admitted(s.nextConn, ip, reg)), Validate)
    && (reg.sessionID == "" ==>
         exists k :: 0 <= k < Manager.NAME_ATTEMPTS && !SubdomainExists(s.rows, names(k)))
  }

  lemma NextIsNew(c: Config, s: State)
    requires Inv(c, s)
    ensures s.nextConn !in s.conns
  {
  }

  /** A registration is let in by the manager exactly when it is not a new one during a pause, the
      limiter accepts it, and the machine lets it through. */
  lemma RefusalIff(c: Config, s: State, paused: bool, verdict: RateLimits.Verdict, reg: Registration, ip: string, names: nat -> string)
    requires Inv(c, s) && s.lock.Free?
    ensures Manager.FirstRefusal(paused, verdict, SourceIPs(s), s.rows, c, reg, ip, s.clock, names).None?
       <==> !(reg.sessionID == "" && paused) && verdict.Accepted? && LetsThrough(c, s, reg, ip, names)
  {
    hide ValidateRegistration, CheckCapacity, SubdomainExists, SourceIPs, Manager.FreeName;
    SameSources(s);
    NextIsNew(c, s);
    Manager.FreeNameIsFirst(s.rows, names, 0);
  }

  /** The draws of a registration have not been made before. */
  predicate FreshDraws(s: State, draws: Manager.Draws) {
    && draws.id != "" && draws.id !in s.issued && draws.id !in s.rows
    && draws.auth !in s.origin && draws.token !in s.origin
    && draws.auth != draws.token && draws.auth != [] && draws.token != []
  }

  /** The method Register, when it accepts, does to the table and to both maps what a run of the
      machine does, and the tunnel that it returns is the live one of its session. */
  lemma RegisterIsARun(c: Config, init: State, s: State, paused: bool, verdict: RateLimits.Verdict,
                        reg: Registration, ip: string, now: int, draws: Manager.Draws)
    requires ValidConfig(c) && Init(init) && Reaches(c, init, s) && s.clock <= now
    requires s.lock.Free? && |s.slots| < c.maxTunnels + EXTRA_SLOTS && FreshDraws(s, draws)
    requires Manager.FirstRefusal(paused, verdict, SourceIPs(s), s.rows, c, reg, ip, s.clock, draws.names).None?
    ensures Runs(c, init, s, reg, ip, now, draws)
  {
    hide Reaches, Init, Inv, ValidConfig, AfterRegistration, HasRoom, SubdomainExists;
    ReachableInv(c, init, s);
    NextIsNew(c, s);
    if reg.sessionID == "" {
      NewIsARun(c, init, s, paused, verdict, reg, ip, now, draws);
    } else {
      ResumeIsARun(c, init, s, paused, verdict, reg, ip, now, draws);
    }
    var session := Manager.NewSession(s.rows, reg, draws, now);
    RegistrationLands(s, ip, session, reg.sessionID != "", now);
  }

  ghost predicate Runs(c: Config, init: State, s: State, reg: Registration, ip: string, now: int, draws: Manager.Draws) {
    && Manager.Resolvable(s.rows, reg, draws)
    && var session := Manager.NewSession(s.rows, reg, draws, now);
       var t := AfterRegistration(s, ip, session, reg.sessionID != "", now);
       && Reaches(c, init, t)
       && t.rows == Upsert(s.rows, session)
       && t.registry == Install(s.registry, session.subdomain, session.id, s.nextConn)
       && s.nextConn in t.conns && t.conns[s.nextConn].session == session && Live(t.conns[s.nextConn])
       && t.admitted == Called(s, ip)
  }

  lemma RegistrationLands(s: State, ip: string, session: Session, resumed: bool, now: int)
    ensures var t := AfterRegistration(s, ip, session, resumed, now);
            && t.rows == Upsert(s.rows, session)
            && t.registry == Install(s.registry, session.subdomain, session.id, s.nextConn)
            && s.nextConn in t.conns && t.conns[s.nextConn].session == session && Live(t.conns[s.nextConn])
            && t.admitted == Called(s, ip)
  {
  }

  lemma NewIsARun(c: Config, init: State, s: State, paused: bool, verdict: RateLimits.Verdict,
                   reg: Registration, ip: string, now: int, draws: Manager.Draws)
    requires Reaches(c, init, s) && s.clock <= now && s.nextConn !in s.conns
    requires s.lock.Free? && |s.slots| < c.maxTunnels + EXTRA_SLOTS && FreshDraws(s, draws) && reg.sessionID == ""
    requires Manager.FirstRefusal(paused, verdict, SourceIPs(s), s.rows, c, reg, ip, s.clock, draws.names).None?
    ensures Manager.Resolvable(s.rows, reg, draws)
    ensures Reaches(c, init, AfterRegistration(s, ip, Manager.NewSession(s.rows, reg, draws, now), false, now))
  {
    hide Reaches, AfterRegistration, SubdomainExists, Manager.FreeName, CheckCapacity;
    Manager.FreeNameIsFirst(s.rows, draws.names, 0);
    RegisterNew(c, init, s, ip, reg, Manager.NewSession(s.rows, reg, draws, now), now);
  }

  lemma ResumeIsARun(c: Config, init: State, s: State, paused: bool, verdict: RateLimits.Verdict,
                      reg: Registration, ip: string, now: int, draws: Manager.Draws)
    requires Reaches(c, init, s) && s.clock <= now && s.nextConn !in s.conns
    requires s.lock.Free? && |s.slots| < c.maxTunnels + EXTRA_SLOTS && FreshDraws(s, draws) && reg.sessionID != ""
    requires Manager.FirstRefusal(paused, verdict, SourceIPs(s), s.rows, c, reg, ip, s.clock, draws.names).None?
    ensures Manager.Resolvable(s.rows, reg, draws)
    ensures Reaches(c, init, AfterRegistration(s, ip, Manager.NewSession(s.rows, reg, draws, now), true, now))
  {
    hide Reaches, AfterRegistration, Manager.FreeName, CheckCapacity;
    Resume(c, init, s, ip, reg, Manager.NewSession(s.rows, reg, draws, now), now);
  }

  /** The sessions that are registered. */
  function Served(s: State): map<string, Session> {
    map id | id in s.registry.bySession && s.registry.bySession[id] in s.conns
      :: s.conns[s.registry.bySession[id]].session
  }

  /** A claim yields something exactly for a handoff of the session, in time, while the session is
      registered. What it yields opens that session's dashboard, then and at any later time, exactly
      while the registration it comes from is the latest stored one, unrevoked, unpruned and in time. */
  lemma ClaimOpensDashboardIff(c: Config, states: seq<State>, labels: seq<Label>, m: nat, n: nat,
                               found: Option<Handoffs.Handoff>, id: string, now: int)
    requires IsBehaviour(c, states, labels) && m <= n < |states|
    ensures var cookie := Manager.Claimed(found, Served(states[m]), id, now);
            && (cookie.Some? <==>
                 && found.Some? && found.value.sessionID == id && now <= found.value.expires
                 && id in states[m].registry.bySession)
            && (cookie.Some? ==>
                 && states[m].registry.bySession[id] in states[m].conns && id in states[n].issued
                 && var t, s := states[m].conns[states[m].registry.bySession[id]], states[n];
                    (Authorize(s.rows, s.clock, c.lifetime, c.retention, id, cookie.value) <==>
                      && |s.issued[id]| == t.index + 1 && id in s.rows && id !in s.revoked
                      && s.clock <= t.session.startedAt + c.lifetime + c.retention))
  {
    hide Authorize, IsBehaviour;
    if id in states[m].registry.bySession {
      ClaimedCookieOpensIff(c, states, labels, m, n, id);
    }
  }
}
