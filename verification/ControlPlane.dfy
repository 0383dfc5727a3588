/** The quick-tunnel control plane as a machine of atomic steps: one step for each critical
    section and each SQL statement of internal/server/tunnel.go, internal/server/binary.go,
    internal/server/server.go and internal/storage/sessions.go. Any order of enabled steps is
    a run. The lock `registerMu` is a field, because a registration spans several steps. The rate
    limiter is in the module RateLimits; here a history of the admitted calls stands for it, and
    what is said of all runs holds whatever it refuses. */
module ControlPlane {
  import opened Common
  import opened Secrets
  import opened Sessions
  import opened Auth
  import opened Registry
  import RateLimits

  datatype Config = Config(lifetime: int, retention: int, maxTunnels: int, maxPerIP: int)

  predicate ValidConfig(c: Config) {
    c.lifetime > 0 && c.retention > 0 && c.maxTunnels > 0 && c.maxPerIP > 0
  }

  const EXTRA_SLOTS: int := 100

  /** Where the read loop of a tunnel is. Its `closed` channel is open exactly while Reading. */
  datatype Phase =
    | Reading
    | Closing               // the loop has returned, the tunnel may still be registered
    | Ending(removed: int)  // unregistered at that time, EndSession still to come
    | Done

  /** A tunnel. `index` says which registration of its session created it; `open` turns false
      when the server closes the connection. */
  datatype Tunnel = Tunnel(session: Session, sourceIP: string, resumed: bool, index: nat, open: bool, phase: Phase)

  /** Who holds registerMu, and how far its critical section has come. */
  datatype Holder =
    | Free
    | Admitted(conn: nat, ip: string, reg: Registration)
    | Validated(conn: nat, ip: string, reg: Registration, at: int)
    | Resolved(conn: nat, ip: string, session: Session, resumed: bool, at: int)
    | Upserted(conn: nat, ip: string, session: Session, resumed: bool)
    | Revoking(id: string)

  /** History: one successful UpsertSession. `at` is when its registration was validated. */
  datatype Issue = Issue(session: Session, resumed: bool, at: int)

  /** History: what a secret was drawn for. */
  datatype Origin = Origin(id: string, index: nat, dashboard: bool)

  /** History: what last set the ended time of a row. */
  datatype EndCause = ByConnection(index: nat) | ByRevoke | ByRestart

  datatype State = State(
    clock: int,
    rows: Table,
    registry: Registry<nat>,
    conns: map<nat, Tunnel>,
    lock: Holder,
    slots: set<nat>,
    nextConn: nat,
    expiring: set<nat>,  // what the last expiry scan still has to close
    // history, read by no step
    issued: map<string, seq<Issue>>,
    origin: map<Bytes, Origin>,
    revoked: set<string>,
    endedBy: map<string, EndCause>,
    admitted: seq<RateLimits.Call>)

  datatype Label =
    | Tick(d: nat)
    | Accept
    | Hangup(conn: nat)
    | Admit(conn: nat, ip: string, reg: Registration)
    | Validate
    | Resolve(now: int, id: string, subdomain: string, auth: Bytes, token: Bytes)
    | Refuse
    | UpsertRow
    | InstallTunnel
    | Drop(conn: nat, closes: bool)
    | RemoveTunnel(conn: nat)
    | EndRow(conn: nat, at: int)
    | RevokeRow(id: string, at: int)
    | CloseRevoked
    | CollectExpired(now: int)
    | CloseExpired(conn: nat)
    | Prune(cutoff: int)
    | Restart

  // ------------------------------------------------------------------ steps

  function SourceIPs(s: State): map<string, string> {
    map id | id in s.registry.bySession && s.registry.bySession[id] in s.conns
      :: s.conns[s.registry.bySession[id]].sourceIP
  }

  predicate HoldsConn(lock: Holder, conn: nat) {
    match lock
    case Free => false
    case Revoking(_) => false
    case Admitted(c, _, _) => c == conn
    case Validated(c, _, _, _) => c == conn
    case Resolved(c, _, _, _, _) => c == conn
    case Upserted(c, _, _, _) => c == conn
  }

  function Issued(s: State, id: string): seq<Issue> {
    if id in s.issued then s.issued[id] else []
  }

  function CloseConn(conns: map<nat, Tunnel>, conn: nat): map<nat, Tunnel> {
    if conn in conns then conns[conn := conns[conn].(open := false)] else conns
  }

  function CloseSession(s: State, id: string): map<nat, Tunnel> {
    if id in s.registry.bySession then CloseConn(s.conns, s.registry.bySession[id]) else s.conns
  }

  predicate InPhase(s: State, conn: nat, phase: Phase) {
    conn in s.conns && s.conns[conn].phase == phase
  }

  /** Registered, and past its lifetime at the given time. */
  predicate Overdue(c: Config, s: State, conn: nat, now: int) {
    conn in s.conns && now - s.conns[conn].session.startedAt >= c.lifetime
  }

  predicate Enabled(c: Config, s: State, l: Label) {
    match l
    case Tick(_) => true
    case Accept => |s.slots| < c.maxTunnels + EXTRA_SLOTS
    case Hangup(conn) =>
      conn in s.slots && !HoldsConn(s.lock, conn) && !InPhase(s, conn, Reading)
    case Admit(conn, ip, reg) =>
      && s.lock.Free? && conn in s.slots && conn !in s.conns
      && (reg.sessionID == "" ==> CheckCapacity(SourceIPs(s), ip, c.maxTunnels, c.maxPerIP).None?)
    case Validate =>
      s.lock.Admitted? && ValidateRegistration(s.rows, s.clock, c.lifetime, s.lock.reg).None?
    case Resolve(now, id, subdomain, auth, token) =>
      && s.lock.Validated? && s.lock.at <= now <= s.clock
      && auth !in s.origin && token !in s.origin && auth != token && auth != [] && token != []
      && if s.lock.reg.sessionID == ""
         then id != "" && id !in s.issued && id !in s.rows && !SubdomainExists(s.rows, subdomain)
         else s.lock.reg.sessionID in s.rows
    case Refuse => s.lock.Admitted? || s.lock.Validated? || s.lock.Resolved?
    case UpsertRow => s.lock.Resolved?
    case InstallTunnel => s.lock.Upserted?
    case Drop(conn, _) => InPhase(s, conn, Reading)
    case RemoveTunnel(conn) => InPhase(s, conn, Closing)
    case EndRow(conn, at) =>
      conn in s.conns && s.conns[conn].phase.Ending? && s.conns[conn].phase.removed <= at <= s.clock
    case RevokeRow(id, at) => s.lock.Free? && Revocable(s.rows, id) && at <= s.clock
    case CloseRevoked => s.lock.Revoking?
    case CollectExpired(now) => s.expiring == {} && now <= s.clock
    case CloseExpired(conn) => conn in s.expiring
    case Prune(cutoff) => cutoff <= s.clock - c.retention
    case Restart => true
  }

  function Apply(c: Config, s: State, l: Label): State
    requires Enabled(c, s, l)
  {
    match l
    case Tick(d) => s.(clock := s.clock + d)
    case Accept => s.(slots := s.slots + {s.nextConn}, nextConn := s.nextConn + 1)
    case Hangup(conn) => s.(slots := s.slots - {conn})
    case Admit(conn, ip, reg) =>
      s.(lock := Admitted(conn, ip, reg), admitted := s.admitted + [RateLimits.Call(s.clock, ip)])
    case Validate => s.(lock := Validated(s.lock.conn, s.lock.ip, s.lock.reg, s.clock))
    case Resolve(now, id, subdomain, auth, token) =>
      var reg := s.lock.reg;
      var session :=
        if reg.sessionID == "" then Session(id, subdomain, reg.localPort, now, auth, token, true)
        else var existing := s.rows[reg.sessionID];
             Session(reg.sessionID, existing.subdomain, reg.localPort, existing.startedAt, auth, token, true);
      s.(lock := Resolved(s.lock.conn, s.lock.ip, session, reg.sessionID != "", s.lock.at))
    case Refuse => s.(lock := Free)
    case UpsertRow => UpsertStep(s)
    case InstallTunnel => InstallStep(s)
    case Drop(conn, closes) =>
      var t := s.conns[conn];
      s.(conns := s.conns[conn := t.(phase := Closing, open := t.open && !closes)])
    case RemoveTunnel(conn) => RemoveStep(s, conn)
    case EndRow(conn, at) => EndStep(s, conn, at)
    case RevokeRow(id, at) =>
      s.(rows := Revoke(s.rows, id, at), lock := Revoking(id),
         revoked := s.revoked + {id}, endedBy := s.endedBy[id := ByRevoke])
    case CloseRevoked => s.(conns := CloseSession(s, s.lock.id), lock := Free)
    case CollectExpired(now) =>
      s.(expiring := set r | r in s.registry.bySession.Values && Overdue(c, s, r, now))
    case CloseExpired(conn) => s.(conns := CloseConn(s.conns, conn), expiring := s.expiring - {conn})
    case Prune(cutoff) => s.(rows := PruneSessions(s.rows, cutoff))
    case Restart => RestartStep(s)
  }

  function UpsertStep(s: State): State
    requires s.lock.Resolved?
  {
    var session := s.lock.session;
    var earlier := Issued(s, session.id);
    s.(rows := Upsert(s.rows, session),
       lock := Upserted(s.lock.conn, s.lock.ip, session, s.lock.resumed),
       issued := s.issued[session.id := earlier + [Issue(session, s.lock.resumed, s.lock.at)]],
       origin := s.origin[session.authToken := Origin(session.id, |earlier|, true)]
                         [session.tunnelToken := Origin(session.id, |earlier|, false)])
  }

  /** The index of the registration whose tunnel is about to be installed. */
  function NewIndex(s: State): nat
    requires s.lock.Upserted?
  {
    if |Issued(s, s.lock.session.id)| == 0 then 0 else |Issued(s, s.lock.session.id)| - 1
  }

  /** Closes the connection that the session had, then puts the new tunnel in both maps. */
  function InstallStep(s: State): State
    requires s.lock.Upserted?
  {
    Place(s.(conns := CloseSession(s, s.lock.session.id)))
  }

  function Place(s: State): State
    requires s.lock.Upserted?
  {
    var session := s.lock.session;
    var t := Tunnel(session, s.lock.ip, s.lock.resumed, NewIndex(s), true, Reading);
    s.(registry := Install(s.registry, session.subdomain, session.id, s.lock.conn),
       conns := s.conns[s.lock.conn := t],
       lock := Free)
  }

  function RemoveStep(s: State, conn: nat): State
    requires conn in s.conns
  {
    var t := s.conns[conn];
    var phase := if Registered(s.registry, t.session.id, conn) then Ending(s.clock) else Done;
    s.(registry := Remove(s.registry, t.session.subdomain, t.session.id, conn),
       conns := s.conns[conn := t.(phase := phase)])
  }

  function EndStep(s: State, conn: nat, at: int): State
    requires conn in s.conns
  {
    var t := s.conns[conn];
    s.(rows := End(s.rows, t.session.id, at),
       conns := s.conns[conn := t.(phase := Done)],
       endedBy := s.endedBy[t.session.id := ByConnection(t.index)])
  }

  /** The process dies and starts again: memory is lost, orphaned rows are ended. */
  function RestartStep(s: State): State {
    s.(rows := EndOrphans(s.rows, s.clock),
       registry := Registry(map[], map[]), conns := map[], lock := Free, slots := {},
       expiring := {},
       endedBy := map id | id in s.rows ::
         if Orphaned(s.rows[id]) || id !in s.endedBy then ByRestart else s.endedBy[id])
  }

  // ------------------------------------------------------------------- runs

  /** An empty server over a table of old, non-hosted sessions. */
  ghost predicate Init(s: State) {
    && (forall id :: id in s.rows ==> !s.rows[id].hosted)
    && s.clock >= MINUTE
    && s == State(s.clock, s.rows, Registry(map[], map[]), map[], Free, {}, 0, {}, map[], map[], {}, map[], [])
  }

  ghost predicate Next(c: Config, s: State, l: Label, t: State) {
    Enabled(c, s, l) && t == Apply(c, s, l)
  }

  /** The states a sequence of labels passes through; each label is enabled where it is taken. */
  ghost predicate IsRun(c: Config, states: seq<State>, labels: seq<Label>) {
    && |states| == |labels| + 1
    && forall i {:trigger StepAt(c, states, labels, i)} :: 0 <= i < |labels| ==> StepAt(c, states, labels, i)
  }

  ghost predicate StepAt(c: Config, states: seq<State>, labels: seq<Label>, i: int) {
    0 <= i < |labels| && i + 1 < |states| && Next(c, states[i], labels[i], states[i + 1])
  }
}
