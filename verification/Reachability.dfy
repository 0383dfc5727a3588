/** Reaching one state of the control plane from another, and the path that a registration takes
    when no other step comes in between. */
module Reachability {
  import opened Common
  import opened Secrets
  import opened Sessions
  import opened Auth
  import opened Registry
  import opened ControlPlane
  import opened Invariant
  import RateLimits

  /** An empty server over an empty database. */
  function Start(): State {
    State(MINUTE, map[], Registry(map[], map[]), map[], Free, {}, 0, {}, map[], map[], {}, map[], [])
  }

  ghost predicate Reaches(c: Config, s: State, t: State) {
    exists states, labels :: IsRunBetween(c, s, t, states, labels)
  }

  ghost predicate IsRunBetween(c: Config, s: State, t: State, states: seq<State>, labels: seq<Label>) {
    IsRun(c, states, labels) && states[0] == s && states[|labels|] == t
  }

  lemma ReachesItself(c: Config, s: State)
    ensures Reaches(c, s, s)
  {
    assert IsRunBetween(c, s, s, [s], []);
  }

  lemma ReachesNext(c: Config, s: State, t: State, l: Label)
    requires Reaches(c, s, t) && Enabled(c, t, l)
    ensures Reaches(c, s, Apply(c, t, l))
  {
    hide Apply, Enabled;
    var states, labels :| IsRunBetween(c, s, t, states, labels);
    var u := Apply(c, t, l);
    var states', labels' := states + [u], labels + [l];
    forall i | 0 <= i < |labels'|
      ensures StepAt(c, states', labels', i)
    {
      if i < |labels| { assert StepAt(c, states, labels, i); }
    }
    assert IsRunBetween(c, s, u, states', labels');
  }

  /** Reachable states have all the guarantees that runs have. */
  lemma ReachableInv(c: Config, init: State, s: State)
    requires ValidConfig(c) && Init(init) && Reaches(c, init, s)
    ensures Inv(c, s)
  {
    hide Inv, Init, ValidConfig;
    var states, labels :| IsRunBetween(c, init, s, states, labels);
    RunInv(c, states, labels, |labels|);
  }

  // --------------------------------------------- uninterrupted registrations

  function Accepted(s: State): State {
    s.(slots := s.slots + {s.nextConn}, nextConn := s.nextConn + 1)
  }

  function Called(s: State, ip: string): seq<RateLimits.Call> {
    s.admitted + [RateLimits.Call(s.clock, ip)]
  }

  /** The registration is validated at the clock of s, and draws its secrets at `now`. */
  function Resolving(s: State, ip: string, session: Session, resumed: bool, now: int): State {
    Accepted(s).(clock := now, lock := Resolved(s.nextConn, ip, session, resumed, s.clock), admitted := Called(s, ip))
  }

  /** The state after an uninterrupted registration of the session on the next connection. */
  function AfterRegistration(s: State, ip: string, session: Session, resumed: bool, now: int): State {
    InstallStep(UpsertStep(Resolving(s, ip, session, resumed, now)))
  }

  predicate CanRegister(c: Config, s: State, session: Session) {
    && s.lock.Free? && |s.slots| < c.maxTunnels + EXTRA_SLOTS && s.nextConn !in s.conns
    && 0 < session.localPort <= 65535 && session.hosted && session.id != ""
    && session.authToken !in s.origin && session.tunnelToken !in s.origin
    && session.authToken != session.tunnelToken && session.authToken != [] && session.tunnelToken != []
  }

  lemma SameSources(s: State)
    ensures SourceIPs(Accepted(s)) == SourceIPs(s)
  {
  }

  lemma RegisterNew(c: Config, init: State, s: State, ip: string, reg: Registration, session: Session, now: int)
    requires Reaches(c, init, s) && CanRegister(c, s, session) && s.clock <= now
    requires reg.sessionID == "" && reg.localPort == session.localPort && reg.quick
    requires session.id !in s.issued && session.id !in s.rows && !SubdomainExists(s.rows, session.subdomain)
    requires session.startedAt == now
    requires HasRoom(c, SourceIPs(s), ip)
    ensures Reaches(c, init, AfterRegistration(s, ip, session, false, now))
  {
    hide Reaches, CheckCapacity, SubdomainExists, InstallStep, UpsertStep;
    SameSources(s);
    ReachesNext(c, init, s, Accept);
    Resolves(c, init, s, ip, reg, session, false, now);
    Completes(c, init, Resolving(s, ip, session, false, now));
  }

  lemma Resume(c: Config, init: State, s: State, ip: string, reg: Registration, session: Session, now: int)
    requires Reaches(c, init, s) && CanRegister(c, s, session) && s.clock <= now
    requires reg.sessionID == session.id && reg.localPort == session.localPort && reg.quick
    requires ValidateResume(s.rows, s.clock, c.lifetime, session.id, reg.resumeToken).None?
    requires session.subdomain == s.rows[session.id].subdomain && session.startedAt == s.rows[session.id].startedAt
    ensures Reaches(c, init, AfterRegistration(s, ip, session, true, now))
  {
    hide ValidateResume, Reaches, InstallStep, UpsertStep;
    ReachesNext(c, init, s, Accept);
    assert session.id in s.rows by { ResumeGate(s.rows, s.clock, c.lifetime, session.id, reg.resumeToken); }
    Resolves(c, init, s, ip, reg, session, true, now);
    Completes(c, init, Resolving(s, ip, session, true, now));
  }

  /** After validation, some time may pass before the secrets are drawn. */
  function Validating(s: State, ip: string, reg: Registration, now: int): State {
    Accepted(s).(clock := now, lock := Validated(s.nextConn, ip, reg, s.clock), admitted := Called(s, ip))
  }

  lemma Validates(c: Config, init: State, s: State, ip: string, reg: Registration, now: int)
    requires s.clock <= now && Reaches(c, init, Accepted(s))
    requires Enabled(c, Accepted(s), Admit(s.nextConn, ip, reg))
    requires ValidateRegistration(s.rows, s.clock, c.lifetime, reg).None?
    ensures Reaches(c, init, Validating(s, ip, reg, now))
  {
    hide ValidateRegistration, Reaches;
    ReachesNext(c, init, Accepted(s), Admit(s.nextConn, ip, reg));
    ReachesNext(c, init, Accepted(s).(lock := Admitted(s.nextConn, ip, reg), admitted := Called(s, ip)), Validate);
    ReachesNext(c, init, Validating(s, ip, reg, s.clock), Tick(now - s.clock));
  }

  lemma Resolves(c: Config, init: State, s: State, ip: string, reg: Registration, session: Session, resumed: bool, now: int)
    requires s.clock <= now && Reaches(c, init, Accepted(s))
    requires Enabled(c, Accepted(s), Admit(s.nextConn, ip, reg))
    requires ValidateRegistration(s.rows, s.clock, c.lifetime, reg).None?
    requires var l := Resolve(now, session.id, session.subdomain, session.authToken, session.tunnelToken);
             var v := Validating(s, ip, reg, now);
             Enabled(c, v, l) && Apply(c, v, l).lock == Resolved(s.nextConn, ip, session, resumed, s.clock)
    ensures Reaches(c, init, Resolving(s, ip, session, resumed, now))
  {
    hide ValidateRegistration, Reaches, Enabled, Apply;
    Validates(c, init, s, ip, reg, now);
    var l := Resolve(now, session.id, session.subdomain, session.authToken, session.tunnelToken);
    ReachesNext(c, init, Validating(s, ip, reg, now), l);
    ResolveMovesLock(c, Validating(s, ip, reg, now), l);
  }

  lemma ResolveMovesLock(c: Config, s: State, l: Label)
    requires l.Resolve? && Enabled(c, s, l)
    ensures Apply(c, s, l) == s.(lock := Apply(c, s, l).lock)
  {
  }

  lemma Completes(c: Config, init: State, s: State)
    requires Reaches(c, init, s) && s.lock.Resolved?
    ensures Reaches(c, init, InstallStep(UpsertStep(s)))
  {
    ReachesNext(c, init, s, UpsertRow);
    ReachesNext(c, init, UpsertStep(s), InstallTunnel);
  }
}
