/** The inductive invariant of the control plane, and the proof that every step keeps it. */
module Invariant {
  import opened Common
  import opened Secrets
  import opened Sessions
  import opened Auth
  import opened Registry
  import opened ControlPlane

  // -------------------------------------------------------------- invariant

  type Issues = map<string, seq<Issue>>
  type Tunnels = map<nat, Tunnel>

  predicate InUpsert(lock: Holder, id: string) {
    lock.Upserted? && lock.session.id == id
  }

  /** Every registration of a session keeps its name and start, was validated within its
      lifetime if it was a resume, and drew secrets of its own. */
  ghost predicate IssuedOk(lifetime: int, issued: Issues, origin: map<Bytes, Origin>) {
    && (forall id :: id in issued ==> issued[id] != [])
    && forall id, i: nat :: id in issued && i < |issued[id]| ==>
         IssueOk(lifetime, issued[id][0].session, origin, id, i, issued[id][i])
  }

  ghost predicate IssueOk(lifetime: int, first: Session, origin: map<Bytes, Origin>, id: string, i: nat, issue: Issue) {
    && issue.session.id == id && issue.session.hosted && id != ""
    && issue.session.subdomain == first.subdomain
    && issue.session.startedAt == first.startedAt
    && issue.resumed == (i > 0)
    && (issue.resumed ==> issue.at < issue.session.startedAt + lifetime)
    && issue.session.authToken != [] && issue.session.tunnelToken != []
    && issue.session.authToken in origin && issue.session.tunnelToken in origin
    && origin[issue.session.authToken] == Origin(id, i, true)
    && origin[issue.session.tunnelToken] == Origin(id, i, false)
  }

  /** A hosted row is the stored form of the latest registration of its session, or blanked. */
  ghost predicate RowsOk(rows: Table, issued: Issues, revoked: set<string>) {
    forall id :: id in rows ==>
      if rows[id].hosted
      then id in issued && issued[id] != []
           && RowOk(rows[id], issued[id][|issued[id]| - 1].session, id in revoked)
      else id !in issued
  }

  ghost predicate RowOk(row: Row, latest: Session, revoked: bool) {
    && row.subdomain == latest.subdomain && row.startedAt == latest.startedAt
    && row.localPort == latest.localPort
    && row.authHash == (if revoked then [] else HashHostedSecret(latest.authToken))
    && row.tunnelHash == (if revoked then [] else HashHostedSecret(latest.tunnelToken))
  }

  ghost predicate RevokedOk(revoked: set<string>, issued: Issues) {
    forall id :: id in revoked ==> id in issued
  }

  /** The session may be registered again: it was before, and it is not revoked. */
  ghost predicate Resumable(lifetime: int, issued: Issues, revoked: set<string>, id: string, at: int) {
    && id in issued && issued[id] != [] && id !in revoked
    && at < issued[id][0].session.startedAt + lifetime
  }

  ghost predicate FreshSecrets(origin: map<Bytes, Origin>, session: Session) {
    && session.authToken !in origin && session.tunnelToken !in origin
    && session.authToken != session.tunnelToken
    && session.authToken != [] && session.tunnelToken != []
  }

  /** What a registration in progress knows about its session. */
  ghost predicate LockSessionOk(lifetime: int, clock: int, lock: Holder, rows: Table, issued: Issues,
                                origin: map<Bytes, Origin>, revoked: set<string>) {
    match lock
    case Free => true
    case Revoking(id) => id in revoked
    case Admitted(_, _, _) => true
    case Validated(_, _, reg, at) =>
      at <= clock && (reg.sessionID != "" ==> Resumable(lifetime, issued, revoked, reg.sessionID, at))
    case Resolved(_, _, session, resumed, at) =>
      && session.hosted && session.id != "" && FreshSecrets(origin, session)
      && (forall id :: id in rows && rows[id].subdomain == session.subdomain ==> id == session.id)
      && if resumed
         then && Resumable(lifetime, issued, revoked, session.id, at)
              && session.subdomain == issued[session.id][0].session.subdomain
              && session.startedAt == issued[session.id][0].session.startedAt
         else session.id !in issued && session.id !in rows
    case Upserted(_, _, session, resumed) =>
      && session.id in issued && issued[session.id] != [] && session.id !in revoked
      && issued[session.id][|issued[session.id]| - 1].session == session
      && issued[session.id][|issued[session.id]| - 1].resumed == resumed
  }

  predicate HasRoom(c: Config, ips: map<string, string>, ip: string) {
    CheckCapacity(ips, ip, c.maxTunnels, c.maxPerIP).None?
  }

  /** A registration of a new session in progress still finds room. */
  ghost predicate LockRoomOk(c: Config, lock: Holder, ips: map<string, string>) {
    match lock
    case Free => true
    case Revoking(_) => true
    case Admitted(_, ip, reg) => reg.sessionID == "" ==> HasRoom(c, ips, ip)
    case Validated(_, ip, reg, _) => reg.sessionID == "" ==> HasRoom(c, ips, ip)
    case Resolved(_, ip, _, resumed, _) => !resumed ==> HasRoom(c, ips, ip)
    case Upserted(_, ip, _, resumed) => !resumed ==> HasRoom(c, ips, ip)
  }

  /** A registering connection has its slot and no tunnel yet; nor has the pending registration. */
  ghost predicate LockConnOk(lock: Holder, slots: set<nat>, conns: Tunnels, issued: Issues) {
    && (forall r: nat :: HoldsConn(lock, r) ==> r in slots && r !in conns)
    && (lock.Upserted? ==>
         forall r :: r in conns && conns[r].session.id == lock.session.id ==>
           lock.session.id in issued && conns[r].index < |issued[lock.session.id]| - 1)
  }

  /** Every tunnel comes from its own registration of its session. */
  ghost predicate ConnsOk(conns: Tunnels, nextConn: nat, issued: Issues) {
    && (forall r :: r in conns ==> r < nextConn && ConnOk(conns[r], issued))
    && (forall r, q :: r in conns && q in conns && r != q ==> DistinctIssue(conns[r], conns[q]))
  }

  ghost predicate ConnOk(t: Tunnel, issued: Issues) {
    && t.session.id in issued
    && t.index < |issued[t.session.id]|
    && t.session == issued[t.session.id][t.index].session
    && t.resumed == issued[t.session.id][t.index].resumed
  }

  ghost predicate DistinctIssue(t: Tunnel, u: Tunnel) {
    t.session.id != u.session.id || t.index != u.index
  }

  /** The registered tunnel of a session comes from its latest installed registration. */
  ghost predicate RegisteredOk(bySession: map<string, nat>, conns: Tunnels, issued: Issues, lock: Holder) {
    forall id :: id in bySession ==>
      && bySession[id] in conns && id in issued
      && RegisteredTunnelOk(conns[bySession[id]], id, |issued[id]| - (if InUpsert(lock, id) then 2 else 1))
  }

  ghost predicate RegisteredTunnelOk(t: Tunnel, id: string, index: int) {
    t.session.id == id && (t.phase.Reading? || t.phase.Closing?) && t.index == index
  }

  predicate Live(t: Tunnel) {
    t.open && t.phase.Reading?
  }

  /** Only the registered tunnel of a session is open and read from. */
  ghost predicate LiveOk(registry: Registry<nat>, conns: Tunnels) {
    forall r :: r in conns && Live(conns[r]) ==> Registered(registry, conns[r].session.id, r)
  }

  /** The row of a registered or coming tunnel was ended only by a revoke or an older connection. */
  ghost predicate EndedOk(rows: Table, endedBy: map<string, EndCause>, bySession: map<string, nat>,
                          conns: Tunnels, issued: Issues, revoked: set<string>, lock: Holder) {
    && (forall id :: id in rows && rows[id].endedAt.Some? && id in bySession && bySession[id] in conns ==>
         id in endedBy && OlderCause(endedBy[id], conns[bySession[id]].index, id in revoked))
    && (lock.Upserted? && lock.session.id in rows && rows[lock.session.id].endedAt.Some? ==>
         && lock.session.id in endedBy && lock.session.id in issued
         && OlderCause(endedBy[lock.session.id], |issued[lock.session.id]| - 1, lock.session.id in revoked))
  }

  ghost predicate OlderCause(cause: EndCause, index: int, revoked: bool) {
    match cause
    case ByRevoke => revoked
    case ByRestart => false
    case ByConnection(j) => j < index
  }

  /** The sessions whose registered tunnel came from a new registration, not from a resume. */
  function FirstTimers(bySession: map<string, nat>, conns: Tunnels): set<string> {
    set id | id in bySession && bySession[id] in conns && !conns[bySession[id]].resumed
  }

  ghost predicate SlotsOk(c: Config, slots: set<nat>, nextConn: nat, conns: Tunnels) {
    && |slots| <= c.maxTunnels + EXTRA_SLOTS
    && (forall r :: r in slots ==> r < nextConn)
    && (forall r :: r in conns && conns[r].phase.Reading? ==> r in slots)
  }

  ghost predicate StoreInv(c: Config, s: State) {
    && IssuedOk(c.lifetime, s.issued, s.origin)
    && RowsOk(s.rows, s.issued, s.revoked)
    && RevokedOk(s.revoked, s.issued)
    && DistinctSubdomains(s.rows)
    && LockSessionOk(c.lifetime, s.clock, s.lock, s.rows, s.issued, s.origin, s.revoked)
  }

  ghost predicate TunnelInv(s: State) {
    && LockConnOk(s.lock, s.slots, s.conns, s.issued)
    && ConnsOk(s.conns, s.nextConn, s.issued)
    && RegisteredOk(s.registry.bySession, s.conns, s.issued, s.lock)
    && LiveOk(s.registry, s.conns)
    && EndedOk(s.rows, s.endedBy, s.registry.bySession, s.conns, s.issued, s.revoked, s.lock)
  }

  ghost predicate LimitInv(c: Config, s: State) {
    && LockRoomOk(c, s.lock, SourceIPs(s))
    && |FirstTimers(s.registry.bySession, s.conns)| <= c.maxTunnels
    && SlotsOk(c, s.slots, s.nextConn, s.conns)
  }

  ghost predicate Inv(c: Config, s: State) {
    StoreInv(c, s) && TunnelInv(s) && LimitInv(c, s)
  }

  // ----------------------------------------------------- the initial state

  lemma InitInv(c: Config, s: State)
    requires ValidConfig(c) && Init(s)
    ensures Inv(c, s)
  {
    assert FirstTimers(s.registry.bySession, s.conns) == {};
  }

  // ------------------------------------- the table and its registrations

  lemma StoreStep(c: Config, s: State, l: Label)
    requires ValidConfig(c) && StoreInv(c, s) && Enabled(c, s, l)
    ensures StoreInv(c, Apply(c, s, l))
  {
    match l
    case Validate => StoreValidate(c, s);
    case Resolve(_, _, _, _, _) => StoreResolve(c, s, l);
    case UpsertRow => StoreUpsert(c, s);
    case EndRow(conn, at) => StoreEnd(c, s, s.conns[conn].session.id, at);
    case RevokeRow(id, at) => StoreRevoke(c, s, id, at);
    case Prune(cutoff) => StorePrune(c, s, cutoff);
    case Restart => StoreRestart(c, s);
    case Tick(_) =>
    case Accept =>
    case Hangup(conn) =>
    case Admit(_, _, _) =>
    case Refuse =>
    case InstallTunnel =>
    case Drop(conn, closes) =>
    case RemoveTunnel(conn) =>
    case CloseRevoked =>
    case CollectExpired(now) =>
    case CloseExpired(conn) =>
  }

  lemma StoreValidate(c: Config, s: State)
    requires StoreInv(c, s) && Enabled(c, s, Validate)
    ensures StoreInv(c, Apply(c, s, Validate))
  {
    var id := s.lock.reg.sessionID;
    if id != "" {
      ResumeGate(s.rows, s.clock, c.lifetime, id, s.lock.reg.resumeToken);
      var last := |s.issued[id]| - 1;
      assert IssueOk(c.lifetime, s.issued[id][0].session, s.origin, id, last, s.issued[id][last]);
    }
  }

  lemma StoreResolve(c: Config, s: State, l: Label)
    requires StoreInv(c, s) && l.Resolve? && Enabled(c, s, l)
    ensures StoreInv(c, Apply(c, s, l))
  {
    var id := s.lock.reg.sessionID;
    if id != "" {
      assert s.rows[id].hosted;
      var last := |s.issued[id]| - 1;
      assert IssueOk(c.lifetime, s.issued[id][0].session, s.origin, id, last, s.issued[id][last]);
    }
  }

  lemma StoreUpsert(c: Config, s: State)
    requires StoreInv(c, s) && Enabled(c, s, UpsertRow)
    ensures StoreInv(c, Apply(c, s, UpsertRow))
  {
    hide IssuedOk, RowsOk, DistinctSubdomains, LockSessionOk, RevokedOk;
    StoreUpsertIssued(c, s);
    StoreUpsertRows(c, s);
    StoreUpsertLock(c, s);
  }

  lemma StoreUpsertLock(c: Config, s: State)
    requires DistinctSubdomains(s.rows) && RevokedOk(s.revoked, s.issued) && Enabled(c, s, UpsertRow)
    requires LockSessionOk(c.lifetime, s.clock, s.lock, s.rows, s.issued, s.origin, s.revoked)
    ensures var t := Apply(c, s, UpsertRow);
            && DistinctSubdomains(t.rows) && RevokedOk(t.revoked, t.issued)
            && LockSessionOk(c.lifetime, t.clock, t.lock, t.rows, t.issued, t.origin, t.revoked)
  {
    hide HashHostedSecret;
  }

  lemma StoreUpsertIssued(c: Config, s: State)
    requires IssuedOk(c.lifetime, s.issued, s.origin) && Enabled(c, s, UpsertRow)
    requires LockSessionOk(c.lifetime, s.clock, s.lock, s.rows, s.issued, s.origin, s.revoked)
    ensures var t := Apply(c, s, UpsertRow); IssuedOk(c.lifetime, t.issued, t.origin)
  {
    var t := Apply(c, s, UpsertRow);
    forall id, i: nat | id in t.issued && i < |t.issued[id]|
      ensures IssueOk(c.lifetime, t.issued[id][0].session, t.origin, id, i, t.issued[id][i])
    {
      if id in s.issued && i < |s.issued[id]| {
        assert IssueOk(c.lifetime, s.issued[id][0].session, s.origin, id, i, s.issued[id][i]);
      }
    }
  }

  lemma StoreUpsertRows(c: Config, s: State)
    requires RowsOk(s.rows, s.issued, s.revoked) && RevokedOk(s.revoked, s.issued) && Enabled(c, s, UpsertRow)
    requires LockSessionOk(c.lifetime, s.clock, s.lock, s.rows, s.issued, s.origin, s.revoked)
    ensures var t := Apply(c, s, UpsertRow); RowsOk(t.rows, t.issued, t.revoked)
  {
    hide HashHostedSecret, DistinctSubdomains;
  }

  lemma StoreEnd(c: Config, s: State, id: string, at: int)
    requires StoreInv(c, s)
    ensures StoreInv(c, s.(rows := End(s.rows, id, at)))
  {
  }

  lemma StoreRevoke(c: Config, s: State, id: string, at: int)
    requires StoreInv(c, s) && Enabled(c, s, RevokeRow(id, at))
    ensures StoreInv(c, Apply(c, s, RevokeRow(id, at)))
  {
    hide IssuedOk, RowsOk, DistinctSubdomains;
    RevokeRows(s, id, at);
  }

  lemma RevokeRows(s: State, id: string, at: int)
    requires RowsOk(s.rows, s.issued, s.revoked) && DistinctSubdomains(s.rows) && Revocable(s.rows, id)
    ensures RowsOk(Revoke(s.rows, id, at), s.issued, s.revoked + {id}) && DistinctSubdomains(Revoke(s.rows, id, at))
    ensures id in s.issued
  {
    hide HashHostedSecret;
  }

  lemma StorePrune(c: Config, s: State, cutoff: int)
    requires StoreInv(c, s)
    ensures StoreInv(c, s.(rows := PruneSessions(s.rows, cutoff)))
  {
  }

  lemma StoreRestart(c: Config, s: State)
    requires StoreInv(c, s)
    ensures StoreInv(c, Apply(c, s, Restart))
  {
  }

  // ------------------------------------------------- tunnels and the table

  lemma TunnelStep(c: Config, s: State, l: Label)
    requires ValidConfig(c) && StoreInv(c, s) && TunnelInv(s) && Enabled(c, s, l)
    requires SlotsOk(c, s.slots, s.nextConn, s.conns)
    ensures TunnelInv(Apply(c, s, l))
  {
    hide LockConnOk, ConnsOk, RegisteredOk, LiveOk, EndedOk, StoreInv, SlotsOk;
    hide UpsertStep, InstallStep, RemoveStep, EndStep, RestartStep, Revoke, PruneSessions;
    match l
    case Tick(_) =>
    case Accept => TunnelSlots(c, s, l);
    case Hangup(conn) => TunnelSlots(c, s, l);
    case Admit(_, _, _) => TunnelSlots(c, s, l);
    case Validate => TunnelSlots(c, s, l);
    case Resolve(_, _, _, _, _) => TunnelSlots(c, s, l);
    case Refuse => TunnelSlots(c, s, l);
    case UpsertRow => TunnelUpsert(c, s);
    case InstallTunnel => TunnelInstall(c, s);
    case Drop(conn, closes) => TunnelDrop(c, s, conn, closes);
    case RemoveTunnel(conn) => TunnelRemove(s, conn);
    case EndRow(conn, at) => TunnelEnd(s, conn, at);
    case RevokeRow(id, at) => TunnelRevoke(c, s, id, at);
    case CloseRevoked => TunnelCloseRevoked(c, s);
    case CollectExpired(now) =>
    case CloseExpired(conn) => TunnelClose(s, conn);
    case Prune(cutoff) => TunnelPrune(c, s, cutoff);
    case Restart => TunnelRestart(c, s);
  }

  /** Steps before the upsert move only the lock and the slots. */
  lemma TunnelSlots(c: Config, s: State, l: Label)
    requires TunnelInv(s) && Enabled(c, s, l)
    requires l.Accept? || l.Hangup? || l.Admit? || l.Validate? || l.Resolve? || l.Refuse?
    requires SlotsOk(c, s.slots, s.nextConn, s.conns)
    ensures TunnelInv(Apply(c, s, l))
  {
    var t := Apply(c, s, l);
    assert t == s.(lock := t.lock, slots := t.slots, nextConn := t.nextConn, admitted := t.admitted);
    forall r: nat | HoldsConn(t.lock, r) ensures r in t.slots && r !in t.conns {
      assert HoldsConn(s.lock, r) || l.Admit?;
    }
    TunnelLock(s, t);
  }

  lemma TunnelLock(s: State, t: State)
    requires TunnelInv(s)
    requires t == s.(lock := t.lock, slots := t.slots, nextConn := t.nextConn, admitted := t.admitted) && s.nextConn <= t.nextConn
    requires (!s.lock.Upserted? && !t.lock.Upserted?) || s.lock == t.lock
    requires forall r: nat :: HoldsConn(t.lock, r) ==> r in t.slots && r !in t.conns
    ensures TunnelInv(t)
  {
  }

  lemma TunnelCloseRevoked(c: Config, s: State)
    requires TunnelInv(s) && Enabled(c, s, CloseRevoked)
    ensures TunnelInv(Apply(c, s, CloseRevoked))
  {
    var t := s.(lock := Free);
    TunnelLock(s, t);
    if s.lock.id in s.registry.bySession { TunnelClose(t, s.registry.bySession[s.lock.id]); }
  }

  lemma TunnelUpsert(c: Config, s: State)
    requires StoreInv(c, s) && TunnelInv(s) && s.lock.Resolved?
    ensures TunnelInv(UpsertStep(s))
  {
    UpsertConns(c, s);
    UpsertLockConn(c, s);
    UpsertEnded(c, s);
  }

  lemma UpsertConns(c: Config, s: State)
    requires StoreInv(c, s) && TunnelInv(s) && s.lock.Resolved?
    ensures var t := UpsertStep(s);
            ConnsOk(t.conns, t.nextConn, t.issued) && RegisteredOk(t.registry.bySession, t.conns, t.issued, t.lock)
  {
    hide IssuedOk, RowsOk, DistinctSubdomains, LockSessionOk, EndedOk, LiveOk;
    var t := UpsertStep(s);
    forall r | r in t.conns ensures r < t.nextConn && ConnOk(t.conns[r], t.issued) {
      assert ConnOk(s.conns[r], s.issued);
    }
  }

  lemma UpsertLockConn(c: Config, s: State)
    requires StoreInv(c, s) && TunnelInv(s) && s.lock.Resolved?
    ensures var t := UpsertStep(s); LockConnOk(t.lock, t.slots, t.conns, t.issued)
  {
    var t := UpsertStep(s);
    assert forall r: nat :: HoldsConn(t.lock, r) <==> HoldsConn(s.lock, r);
    forall r | r in t.conns && t.conns[r].session.id == t.lock.session.id
      ensures t.conns[r].index < |t.issued[t.lock.session.id]| - 1
    {
      assert ConnOk(s.conns[r], s.issued);
    }
  }

  lemma UpsertEnded(c: Config, s: State)
    requires TunnelInv(s) && s.lock.Resolved?
    ensures var t := UpsertStep(s);
            EndedOk(t.rows, t.endedBy, t.registry.bySession, t.conns, t.issued, t.revoked, t.lock)
  {
  }

  lemma TunnelInstall(c: Config, s: State)
    requires StoreInv(c, s) && TunnelInv(s) && Enabled(c, s, InstallTunnel)
    requires SlotsOk(c, s.slots, s.nextConn, s.conns)
    ensures TunnelInv(Apply(c, s, InstallTunnel))
  {
    var id := s.lock.session.id;
    var u := s.(conns := CloseSession(s, id));
    if id in s.registry.bySession { TunnelClose(s, s.registry.bySession[id]); }
    assert HoldsConn(s.lock, s.lock.conn);
    PlaceConns(c, u);
    PlaceRegistered(c, u);
    PlaceLive(c, u);
    PlaceEnded(c, u);
  }

  lemma PlaceConns(c: Config, s: State)
    requires StoreInv(c, s) && TunnelInv(s) && s.lock.Upserted? && s.lock.conn < s.nextConn
    ensures var t := Place(s); ConnsOk(t.conns, t.nextConn, t.issued)
  {
    var t := Place(s);
    forall r, q | r in t.conns && q in t.conns && r != q
      ensures DistinctIssue(t.conns[r], t.conns[q])
    {
      if r != s.lock.conn && q != s.lock.conn {
        assert DistinctIssue(s.conns[r], s.conns[q]);
      }
    }
    forall r | r in t.conns ensures r < t.nextConn && ConnOk(t.conns[r], t.issued) {
      if r != s.lock.conn { assert ConnOk(s.conns[r], s.issued); }
    }
  }

  lemma PlaceRegistered(c: Config, s: State)
    requires StoreInv(c, s) && TunnelInv(s) && s.lock.Upserted? && s.lock.conn !in s.conns
    ensures var t := Place(s); RegisteredOk(t.registry.bySession, t.conns, t.issued, t.lock)
  {
    hide IssuedOk, RowsOk, DistinctSubdomains, EndedOk, LiveOk, ConnsOk, LockConnOk;
    var t := Place(s);
    forall id | id in t.registry.bySession
      ensures t.registry.bySession[id] in t.conns && id in t.issued
      ensures RegisteredTunnelOk(t.conns[t.registry.bySession[id]], id, |t.issued[id]| - 1)
    {
      if id != s.lock.session.id {
        assert RegisteredTunnelOk(s.conns[s.registry.bySession[id]], id, |s.issued[id]| - 1);
      }
    }
  }

  lemma PlaceLive(c: Config, s: State)
    requires TunnelInv(s) && s.lock.Upserted? && s.lock.conn !in s.conns
    requires s.lock.session.id in s.registry.bySession ==> !s.conns[s.registry.bySession[s.lock.session.id]].open
    ensures var t := Place(s); LiveOk(t.registry, t.conns)
  {
  }

  lemma PlaceEnded(c: Config, s: State)
    requires StoreInv(c, s) && TunnelInv(s) && s.lock.Upserted? && s.lock.conn !in s.conns
    ensures var t := Place(s);
            EndedOk(t.rows, t.endedBy, t.registry.bySession, t.conns, t.issued, t.revoked, t.lock)
  {
    hide IssuedOk, RowsOk, DistinctSubdomains, LiveOk, ConnsOk, LockConnOk;
    var t := Place(s);
    forall id | id in t.rows && t.rows[id].endedAt.Some? && id in t.registry.bySession && t.registry.bySession[id] in t.conns
      ensures id in t.endedBy && OlderCause(t.endedBy[id], t.conns[t.registry.bySession[id]].index, id in t.revoked)
    {
      if id != s.lock.session.id {
        assert RegisteredTunnelOk(s.conns[s.registry.bySession[id]], id, |s.issued[id]| - 1);
      }
    }
  }

  /** Changing the progress of one tunnel keeps its identity. */
  lemma UpdateConn(conns: Tunnels, conn: nat, t: Tunnel, nextConn: nat, issued: Issues, lock: Holder, slots: set<nat>)
    requires conn in conns && ConnsOk(conns, nextConn, issued) && LockConnOk(lock, slots, conns, issued)
    requires t == conns[conn].(open := t.open, phase := t.phase)
    ensures ConnsOk(conns[conn := t], nextConn, issued) && LockConnOk(lock, slots, conns[conn := t], issued)
  {
    var later := conns[conn := t];
    forall r, q | r in later && q in later && r != q
      ensures DistinctIssue(later[r], later[q])
    {
      assert DistinctIssue(conns[r], conns[q]);
    }
    forall r | r in later ensures r < nextConn && ConnOk(later[r], issued) {
      assert ConnOk(conns[r], issued);
    }
  }

  lemma UpdateRegistered(bySession: map<string, nat>, conns: Tunnels, conn: nat, t: Tunnel, issued: Issues, lock: Holder)
    requires conn in conns && RegisteredOk(bySession, conns, issued, lock)
    requires t == conns[conn].(open := t.open, phase := t.phase)
    requires t.phase == conns[conn].phase || t.phase.Closing?
    ensures RegisteredOk(bySession, conns[conn := t], issued, lock)
  {
  }

  lemma UpdateLive(registry: Registry<nat>, conns: Tunnels, conn: nat, t: Tunnel)
    requires conn in conns && LiveOk(registry, conns)
    requires t.session == conns[conn].session && (Live(t) ==> Live(conns[conn]))
    ensures LiveOk(registry, conns[conn := t])
  {
  }

  lemma UpdateEnded(s: State, conn: nat, t: Tunnel)
    requires conn in s.conns && t.index == s.conns[conn].index
    requires EndedOk(s.rows, s.endedBy, s.registry.bySession, s.conns, s.issued, s.revoked, s.lock)
    ensures EndedOk(s.rows, s.endedBy, s.registry.bySession, s.conns[conn := t], s.issued, s.revoked, s.lock)
  {
  }

  lemma UpdateTunnel(s: State, conn: nat, t: Tunnel)
    requires TunnelInv(s) && conn in s.conns
    requires t == s.conns[conn].(open := t.open, phase := t.phase)
    requires (t.phase == s.conns[conn].phase || t.phase.Closing?) && (Live(t) ==> Live(s.conns[conn]))
    ensures TunnelInv(s.(conns := s.conns[conn := t]))
  {
    UpdateConn(s.conns, conn, t, s.nextConn, s.issued, s.lock, s.slots);
    UpdateRegistered(s.registry.bySession, s.conns, conn, t, s.issued, s.lock);
    UpdateLive(s.registry, s.conns, conn, t);
    UpdateEnded(s, conn, t);
  }

  lemma TunnelDrop(c: Config, s: State, conn: nat, closes: bool)
    requires TunnelInv(s) && Enabled(c, s, Drop(conn, closes))
    ensures TunnelInv(Apply(c, s, Drop(conn, closes)))
  {
    UpdateTunnel(s, conn, s.conns[conn].(phase := Closing, open := s.conns[conn].open && !closes));
  }

  lemma TunnelRemove(s: State, conn: nat)
    requires TunnelInv(s) && InPhase(s, conn, Closing)
    ensures TunnelInv(RemoveStep(s, conn))
  {
    var t := RemoveStep(s, conn);
    RemoveConns(s, conn);
    RemoveRegistered(s, conn);
    RemoveEnded(s, conn);
  }

  lemma RemoveConns(s: State, conn: nat)
    requires TunnelInv(s) && InPhase(s, conn, Closing)
    ensures var t := RemoveStep(s, conn);
            LockConnOk(t.lock, t.slots, t.conns, t.issued) && ConnsOk(t.conns, t.nextConn, t.issued)
  {
    UpdateConn(s.conns, conn, RemoveStep(s, conn).conns[conn], s.nextConn, s.issued, s.lock, s.slots);
  }

  lemma RemoveRegistered(s: State, conn: nat)
    requires TunnelInv(s) && InPhase(s, conn, Closing)
    ensures var t := RemoveStep(s, conn);
            RegisteredOk(t.registry.bySession, t.conns, t.issued, t.lock) && LiveOk(t.registry, t.conns)
  {
    hide LockConnOk, EndedOk, ConnOk;
    var t := RemoveStep(s, conn);
    forall id | id in t.registry.bySession
      ensures t.registry.bySession[id] in t.conns && id in t.issued
      ensures RegisteredTunnelOk(t.conns[t.registry.bySession[id]], id,
                                 |t.issued[id]| - (if InUpsert(t.lock, id) then 2 else 1))
    {
      assert t.registry.bySession[id] == s.registry.bySession[id] != conn;
    }
  }

  lemma RemoveEnded(s: State, conn: nat)
    requires TunnelInv(s) && InPhase(s, conn, Closing)
    ensures var t := RemoveStep(s, conn);
            EndedOk(t.rows, t.endedBy, t.registry.bySession, t.conns, t.issued, t.revoked, t.lock)
  {
  }

  lemma TunnelEnd(s: State, conn: nat, at: int)
    requires TunnelInv(s) && conn in s.conns && s.conns[conn].phase.Ending?
    ensures TunnelInv(EndStep(s, conn, at))
  {
    EndConns(s, conn, at);
    EndEnded(s, conn, at);
  }

  lemma EndConns(s: State, conn: nat, at: int)
    requires TunnelInv(s) && conn in s.conns && s.conns[conn].phase.Ending?
    ensures var t := EndStep(s, conn, at);
            && LockConnOk(t.lock, t.slots, t.conns, t.issued) && ConnsOk(t.conns, t.nextConn, t.issued)
            && RegisteredOk(t.registry.bySession, t.conns, t.issued, t.lock) && LiveOk(t.registry, t.conns)
  {
    var t := s.conns[conn].(phase := Done);
    UpdateConn(s.conns, conn, t, s.nextConn, s.issued, s.lock, s.slots);
    UpdateLive(s.registry, s.conns, conn, t);
  }

  /** A connection that is not registered is older than what its session has now. */
  lemma UnregisteredIsOlder(s: State, conn: nat)
    requires TunnelInv(s) && conn in s.conns
    requires s.conns[conn].phase.Ending? || !Registered(s.registry, s.conns[conn].session.id, conn)
    ensures var t := s.conns[conn];
            && (t.session.id in s.registry.bySession ==>
                 s.registry.bySession[t.session.id] in s.conns
                 && t.index < s.conns[s.registry.bySession[t.session.id]].index)
            && (InUpsert(s.lock, t.session.id) ==>
                 t.session.id in s.issued && t.index < |s.issued[t.session.id]| - 1)
  {
    hide EndedOk, LiveOk;
    var id := s.conns[conn].session.id;
    assert ConnOk(s.conns[conn], s.issued);
    if id in s.registry.bySession {
      var r := s.registry.bySession[id];
      assert RegisteredTunnelOk(s.conns[r], id, |s.issued[id]| - (if InUpsert(s.lock, id) then 2 else 1));
      assert DistinctIssue(s.conns[r], s.conns[conn]);
    }
  }

  lemma EndEnded(s: State, conn: nat, at: int)
    requires TunnelInv(s) && conn in s.conns && s.conns[conn].phase.Ending?
    ensures var t := EndStep(s, conn, at);
            EndedOk(t.rows, t.endedBy, t.registry.bySession, t.conns, t.issued, t.revoked, t.lock)
  {
    hide LockConnOk, ConnsOk, RegisteredOk, LiveOk;
    UnregisteredIsOlder(s, conn);
  }

  lemma TunnelRevoke(c: Config, s: State, id: string, at: int)
    requires TunnelInv(s) && Enabled(c, s, RevokeRow(id, at))
    ensures TunnelInv(Apply(c, s, RevokeRow(id, at)))
  {
    hide ConnOk, DistinctIssue, RegisteredTunnelOk, LiveOk;
  }

  lemma TunnelPrune(c: Config, s: State, cutoff: int)
    requires TunnelInv(s)
    ensures TunnelInv(s.(rows := PruneSessions(s.rows, cutoff)))
  {
  }

  lemma TunnelRestart(c: Config, s: State)
    ensures TunnelInv(Apply(c, s, Restart))
  {
  }

  lemma TunnelClose(s: State, conn: nat)
    requires TunnelInv(s)
    ensures TunnelInv(s.(conns := CloseConn(s.conns, conn)))
  {
    if conn in s.conns { UpdateTunnel(s, conn, s.conns[conn].(open := false)); }
  }

  // ------------------------------------------- slots, capacity and expiry

  lemma {:induction false} SubsetSize<T>(a: set<T>, b: set<T>)
    requires a <= b
    ensures |a| <= |b|
  {
    if a != {} {
      var x :| x in a;
      SubsetSize(a - {x}, b - {x});
    }
  }

  /** Fewer registrations leave at least as much room. */
  lemma RoomGrows(c: Config, before: map<string, string>, after: map<string, string>, ip: string)
    requires HasRoom(c, before, ip)
    requires forall id :: id in after ==> id in before && after[id] == before[id]
    ensures HasRoom(c, after, ip)
  {
    SubsetSize(after.Keys, before.Keys);
    assert |after| == |after.Keys| && |before| == |before.Keys|;
    SubsetSize(SessionsFrom(after, ip), SessionsFrom(before, ip));
  }

  lemma LockRoomGrows(c: Config, lock: Holder, before: map<string, string>, after: map<string, string>)
    requires LockRoomOk(c, lock, before)
    requires forall id :: id in after ==> id in before && after[id] == before[id]
    ensures LockRoomOk(c, lock, after)
  {
    match lock
    case Free =>
    case Revoking(_) =>
    case Admitted(_, ip, reg) => if reg.sessionID == "" { RoomGrows(c, before, after, ip); }
    case Validated(_, ip, reg, _) => if reg.sessionID == "" { RoomGrows(c, before, after, ip); }
    case Resolved(_, ip, _, resumed, _) => if !resumed { RoomGrows(c, before, after, ip); }
    case Upserted(_, ip, _, resumed) => if !resumed { RoomGrows(c, before, after, ip); }
  }

  /** What every step but an installation does to the tunnels: it may lose or close some. */
  ghost predicate Aged(before: Registry<nat>, conns: Tunnels, after: Registry<nat>, later: Tunnels) {
    && (forall id :: id in after.bySession ==> id in before.bySession && after.bySession[id] == before.bySession[id])
    && (forall r :: r in later ==> r in conns && OlderTunnel(conns[r], later[r]))
    && (forall id :: id in after.bySession && after.bySession[id] in conns ==> after.bySession[id] in later)
  }

  ghost predicate OlderTunnel(t: Tunnel, u: Tunnel) {
    && u.session == t.session && u.sourceIP == t.sourceIP && u.resumed == t.resumed && u.index == t.index
    && (u.open ==> t.open) && (u.phase.Reading? ==> t.phase.Reading?)
  }

  lemma StepAges(c: Config, s: State, l: Label)
    requires Enabled(c, s, l) && !l.InstallTunnel?
    ensures var t := Apply(c, s, l);
            Aged(s.registry, s.conns, t.registry, t.conns) && (l.Restart? || t.conns.Keys == s.conns.Keys)
  {
    hide Aged, OlderTunnel, RemoveStep, RestartStep, CloseConn, CloseSession;
    match l
    case CloseRevoked => CloseSessionAges(s, s.lock.id);
    case CloseExpired(conn) => CloseAges(s, conn);
    case RemoveTunnel(conn) => RemoveAges(s, conn);
    case EndRow(conn, at) => UpdateAges(s.registry, s.conns, conn, s.conns[conn].(phase := Done));
    case Drop(conn, closes) =>
      var t := s.conns[conn];
      UpdateAges(s.registry, s.conns, conn, t.(phase := Closing, open := t.open && !closes));
    case Restart => RestartAges(s);
    case _ =>
      QuietStep(c, s, l);
      AgedSelf(s.registry, s.conns);
  }

  /** The other steps leave tunnels and maps alone. */
  predicate Quiet(l: Label) {
    && !l.CloseRevoked? && !l.CloseExpired? && !l.RemoveTunnel? && !l.EndRow? && !l.Drop? && !l.Restart?
    && !l.InstallTunnel?
  }

  lemma QuietStep(c: Config, s: State, l: Label)
    requires Enabled(c, s, l) && Quiet(l)
    ensures Apply(c, s, l).registry == s.registry && Apply(c, s, l).conns == s.conns
  {
    hide Upsert, Revoke, PruneSessions;
  }

  lemma RestartAges(s: State)
    ensures var t := RestartStep(s); Aged(s.registry, s.conns, t.registry, t.conns)
  {
  }

  lemma AgedSelf(registry: Registry<nat>, conns: Tunnels)
    ensures Aged(registry, conns, registry, conns)
  {
  }

  lemma UpdateAges(registry: Registry<nat>, conns: Tunnels, conn: nat, t: Tunnel)
    requires conn in conns && t == conns[conn].(open := t.open, phase := t.phase)
    requires (t.open ==> conns[conn].open) && (t.phase.Reading? ==> conns[conn].phase.Reading?)
    ensures Aged(registry, conns, registry, conns[conn := t]) && conns[conn := t].Keys == conns.Keys
  {
  }

  lemma RemoveAges(s: State, conn: nat)
    requires conn in s.conns
    ensures var t := RemoveStep(s, conn);
            Aged(s.registry, s.conns, t.registry, t.conns) && t.conns.Keys == s.conns.Keys
  {
  }

  lemma CloseAges(s: State, conn: nat)
    ensures Aged(s.registry, s.conns, s.registry, CloseConn(s.conns, conn))
    ensures CloseConn(s.conns, conn).Keys == s.conns.Keys
  {
  }

  lemma CloseSessionAges(s: State, id: string)
    ensures Aged(s.registry, s.conns, s.registry, CloseSession(s, id)) && CloseSession(s, id).Keys == s.conns.Keys
  {
    if id in s.registry.bySession { CloseAges(s, s.registry.bySession[id]); }
  }

  /** Installing first closes the session's connection, then adds one tunnel. */
  lemma InstallAges(s: State)
    requires s.lock.Upserted?
    ensures Aged(s.registry, s.conns, s.registry, CloseSession(s, s.lock.session.id))
  {
    CloseSessionAges(s, s.lock.session.id);
  }

  lemma LimitStep(c: Config, s: State, l: Label)
    requires ValidConfig(c) && StoreInv(c, s) && TunnelInv(s) && LimitInv(c, s) && Enabled(c, s, l)
    ensures LimitInv(c, Apply(c, s, l))
  {
    hide LockRoomOk, SlotsOk, StoreInv, TunnelInv, Aged, SourceIPs, FirstTimers, InstallStep;
    if l.InstallTunnel? {
      LimitInstall(c, s);
    } else {
      StepAges(c, s, l);
      RoomStep(c, s, l);
      SlotsStep(c, s, l);
      FirstTimersShrink(s, Apply(c, s, l));
    }
  }

  lemma FirstTimersShrink(s: State, t: State)
    requires Aged(s.registry, s.conns, t.registry, t.conns)
    ensures |FirstTimers(t.registry.bySession, t.conns)| <= |FirstTimers(s.registry.bySession, s.conns)|
  {
    assert forall r :: r in t.conns ==> OlderTunnel(s.conns[r], t.conns[r]);
    SubsetSize(FirstTimers(t.registry.bySession, t.conns), FirstTimers(s.registry.bySession, s.conns));
  }

  predicate MovesRegistration(l: Label) {
    l.Admit? || l.Validate? || l.Resolve? || l.UpsertRow?
  }

  lemma SameSourceIPs(s: State, t: State)
    requires t.registry == s.registry && t.conns == s.conns
    ensures SourceIPs(t) == SourceIPs(s)
  {
  }

  lemma RoomMoves(c: Config, s: State, l: Label)
    requires LockRoomOk(c, s.lock, SourceIPs(s)) && Enabled(c, s, l) && MovesRegistration(l)
    ensures var t := Apply(c, s, l); LockRoomOk(c, t.lock, SourceIPs(t))
  {
    hide CheckCapacity, SourceIPs, ValidateRegistration, SubdomainExists, Upsert, StoredRow;
    SameSourceIPs(s, Apply(c, s, l));
  }

  lemma LockMoves(c: Config, s: State, l: Label)
    requires Enabled(c, s, l) && !l.InstallTunnel? && !MovesRegistration(l)
    ensures var t := Apply(c, s, l); t.lock == s.lock || t.lock.Free? || t.lock.Revoking?
  {
  }

  lemma RoomStep(c: Config, s: State, l: Label)
    requires LockRoomOk(c, s.lock, SourceIPs(s)) && Enabled(c, s, l) && !l.InstallTunnel?
    requires var t := Apply(c, s, l); Aged(s.registry, s.conns, t.registry, t.conns)
    ensures var t := Apply(c, s, l); LockRoomOk(c, t.lock, SourceIPs(t))
  {
    hide Apply, Enabled, Aged, SourceIPs, HasRoom, MovesRegistration;
    if MovesRegistration(l) {
      RoomMoves(c, s, l);
    } else {
      var t := Apply(c, s, l);
      LockMoves(c, s, l);
      SourcesAge(s, t);
      LockRoomGrows(c, s.lock, SourceIPs(s), SourceIPs(t));
    }
  }

  lemma SourcesAge(s: State, t: State)
    requires Aged(s.registry, s.conns, t.registry, t.conns)
    ensures forall id :: id in SourceIPs(t) ==> id in SourceIPs(s) && SourceIPs(t)[id] == SourceIPs(s)[id]
  {
    assert forall r :: r in t.conns ==> OlderTunnel(s.conns[r], t.conns[r]);
  }

  lemma SlotsStep(c: Config, s: State, l: Label)
    requires ValidConfig(c) && SlotsOk(c, s.slots, s.nextConn, s.conns) && Enabled(c, s, l) && !l.InstallTunnel?
    requires var t := Apply(c, s, l); Aged(s.registry, s.conns, t.registry, t.conns)
    ensures var t := Apply(c, s, l); SlotsOk(c, t.slots, t.nextConn, t.conns)
  {
    var t := Apply(c, s, l);
    if l.Hangup? {
      SubsetSize(s.slots - {l.conn}, s.slots);
    } else if l.Restart? || l.Accept? {
    } else {
      assert t.slots == s.slots && t.nextConn == s.nextConn;
    }
  }

  lemma LimitInstall(c: Config, s: State)
    requires StoreInv(c, s) && TunnelInv(s) && LimitInv(c, s) && s.lock.Upserted?
    ensures LimitInv(c, InstallStep(s))
  {
    var u := s.(conns := CloseSession(s, s.lock.session.id));
    assert HoldsConn(s.lock, s.lock.conn);
    CloseSessionLimits(c, s);
    PlaceLimits(c, u);
  }

  lemma CloseSessionLimits(c: Config, s: State)
    requires LimitInv(c, s) && s.lock.Upserted?
    ensures LimitInv(c, s.(conns := CloseSession(s, s.lock.session.id)))
  {
    var u := s.(conns := CloseSession(s, s.lock.session.id));
    InstallAges(s);
    SubsetSize(FirstTimers(u.registry.bySession, u.conns), FirstTimers(s.registry.bySession, s.conns));
    LockRoomGrows(c, s.lock, SourceIPs(s), SourceIPs(u));
    assert SlotsOk(c, u.slots, u.nextConn, u.conns);
  }

  lemma PlaceLimits(c: Config, s: State)
    requires forall id :: id in s.registry.bySession ==> s.registry.bySession[id] in s.conns
    requires LimitInv(c, s) && s.lock.Upserted? && s.lock.conn in s.slots && s.lock.conn !in s.conns
    ensures LimitInv(c, Place(s))
  {
    var t := Place(s);
    PlaceFirstTimers(c, s);
    assert SlotsOk(c, t.slots, t.nextConn, t.conns);
  }

  lemma PlaceFirstTimers(c: Config, s: State)
    requires forall id :: id in s.registry.bySession ==> s.registry.bySession[id] in s.conns
    requires s.lock.Upserted? && LockRoomOk(c, s.lock, SourceIPs(s)) && s.lock.conn !in s.conns
    requires |FirstTimers(s.registry.bySession, s.conns)| <= c.maxTunnels
    ensures var t := Place(s); |FirstTimers(t.registry.bySession, t.conns)| <= c.maxTunnels
  {
    var t := Place(s);
    var after := FirstTimers(t.registry.bySession, t.conns);
    PlaceAddsOne(s, after);
    if s.lock.resumed {
      SubsetSize(after, FirstTimers(s.registry.bySession, s.conns));
    } else {
      var ips := SourceIPs(s);
      assert |ips| == |ips.Keys| && HasRoom(c, ips, s.lock.ip);
      SubsetSize(after - {s.lock.session.id}, ips.Keys);
    }
  }

  lemma PlaceAddsOne(s: State, after: set<string>)
    requires forall id :: id in s.registry.bySession ==> s.registry.bySession[id] in s.conns
    requires s.lock.Upserted? && s.lock.conn !in s.conns
    requires after == FirstTimers(Place(s).registry.bySession, Place(s).conns)
    ensures after <= FirstTimers(s.registry.bySession, s.conns) + (if s.lock.resumed then {} else {s.lock.session.id})
    ensures after - {s.lock.session.id} <= SourceIPs(s).Keys
  {
  }

  // ------------------------------------------------------------- every step

  lemma StepInv(c: Config, s: State, l: Label)
    requires ValidConfig(c) && Inv(c, s) && Enabled(c, s, l)
    ensures Inv(c, Apply(c, s, l))
  {
    StoreStep(c, s, l);
    TunnelStep(c, s, l);
    LimitStep(c, s, l);
  }

  /** The invariant holds throughout every run. */
  lemma {:induction false} RunInv(c: Config, states: seq<State>, labels: seq<Label>, n: nat)
    requires ValidConfig(c) && IsRun(c, states, labels) && Init(states[0]) && n < |states|
    ensures Inv(c, states[n])
  {
    hide Apply, Enabled, Inv;
    if n == 0 {
      InitInv(c, states[0]);
    } else {
      RunInv(c, states, labels, n - 1);
      assert StepAt(c, states, labels, n - 1);
      StepInv(c, states[n - 1], labels[n - 1]);
    }
  }
}
