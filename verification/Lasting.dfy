/** What lasts in the control plane, and exactly until when: live tunnels, registered sessions and
    stored rows; and what a restart leaves. */
module Lasting {
  import opened Common
  import opened Secrets
  import opened Sessions
  import opened Auth
  import opened Registry
  import opened ControlPlane
  import opened Invariant
  import opened Guarantees

  // ---------------------------------------------------------- live tunnels

  /** The tunnel's own connection fails, its session is taken over or revoked, a scan closes it, or
      the server restarts. */
  predicate TakesLife(s: State, l: Label, r: nat) {
    match l
    case Drop(q, _) => q == r
    case InstallTunnel => s.lock.Upserted? && r in s.conns && s.lock.session.id == s.conns[r].session.id
    case CloseRevoked => s.lock.Revoking? && r in s.conns && s.lock.id == s.conns[r].session.id
    case CloseExpired(q) => q == r
    case Restart => true
    case _ => false
  }

  lemma LiveStepIff(c: Config, s: State, l: Label, r: nat)
    requires Inv(c, s) && Enabled(c, s, l) && LiveIn(s, r)
    ensures LiveIn(Apply(c, s, l), r) <==> !TakesLife(s, l, r)
  {
    hide Apply, StoreInv, LimitInv, LockConnOk, ConnsOk, RegisteredOk, LiveOk, EndedOk;
    LiveIsItsSessions(s, r);
    if l.InstallTunnel? {
      InstallIs(c, s);
      InstallTakes(c, s, r);
    } else if l.CloseRevoked? {
      CloseTakes(c, s, r);
    } else if OwnTunnelOnly(l) {
      OneTunnelTakes(c, s, l, r);
    } else if !l.Restart? {
      OthersKeepTunnels(c, s, l);
    } else {
      RestartClears(c, s);
    }
  }

  /** The step is about the one tunnel that it names. */
  predicate OwnTunnelOnly(l: Label) {
    l.Drop? || l.RemoveTunnel? || l.EndRow? || l.CloseExpired?
  }

  lemma OneTunnelTakes(c: Config, s: State, l: Label, r: nat)
    requires Enabled(c, s, l) && OwnTunnelOnly(l) && LiveIn(s, r)
    ensures LiveIn(Apply(c, s, l), r) <==> !((l.Drop? || l.CloseExpired?) && l.conn == r)
  {
    hide End, Remove;
  }

  lemma InstallIs(c: Config, s: State)
    requires Enabled(c, s, InstallTunnel)
    ensures s.lock.Upserted? && Apply(c, s, InstallTunnel) == InstallStep(s)
  {
  }

  lemma LiveIsItsSessions(s: State, r: nat)
    requires LiveOk(s.registry, s.conns) && LiveIn(s, r)
    requires RegisteredOk(s.registry.bySession, s.conns, s.issued, s.lock)
    ensures Registered(s.registry, s.conns[r].session.id, r)
    ensures forall id :: id in s.registry.bySession && s.registry.bySession[id] == r ==> id == s.conns[r].session.id
  {
  }

  lemma CloseSessionTakes(s: State, id: string, r: nat)
    requires LiveIn(s, r) && Registered(s.registry, s.conns[r].session.id, r)
    requires forall x :: x in s.registry.bySession && s.registry.bySession[x] == r ==> x == s.conns[r].session.id
    ensures var u := CloseSession(s, id); r in u && (Live(u[r]) <==> id != s.conns[r].session.id)
  {
  }

  lemma CloseTakes(c: Config, s: State, r: nat)
    requires Enabled(c, s, CloseRevoked) && LiveIn(s, r) && Registered(s.registry, s.conns[r].session.id, r)
    requires forall x :: x in s.registry.bySession && s.registry.bySession[x] == r ==> x == s.conns[r].session.id
    ensures LiveIn(Apply(c, s, CloseRevoked), r) <==> s.lock.id != s.conns[r].session.id
  {
    CloseSessionTakes(s, s.lock.id, r);
  }

  lemma InstallTakes(c: Config, s: State, r: nat)
    requires s.lock.Upserted? && Inv(c, s) && LiveIn(s, r) && Registered(s.registry, s.conns[r].session.id, r)
    requires forall x :: x in s.registry.bySession && s.registry.bySession[x] == r ==> x == s.conns[r].session.id
    ensures LiveIn(InstallStep(s), r) <==> s.lock.session.id != s.conns[r].session.id
  {
    hide StoreInv, LimitInv, ConnsOk, RegisteredOk, LiveOk, EndedOk;
    assert HoldsConn(s.lock, s.lock.conn);
    CloseSessionTakes(s, s.lock.session.id, r);
  }

  lemma OthersKeepTunnels(c: Config, s: State, l: Label)
    requires Enabled(c, s, l)
    requires !l.InstallTunnel? && !l.CloseRevoked? && !OwnTunnelOnly(l) && !l.Restart?
    ensures Apply(c, s, l).conns == s.conns
  {
    hide Upsert, Revoke, PruneSessions;
  }

  /** A live tunnel stays live exactly until one of these five things happens to it. Nothing that
      happens to another session closes it. */
  lemma LiveLastsIff(c: Config, states: seq<State>, labels: seq<Label>, m: nat, n: nat, r: nat)
    requires IsBehaviour(c, states, labels) && m <= n < |states| && LiveIn(states[m], r)
    ensures (forall k :: m <= k <= n ==> LiveIn(states[k], r))
       <==> (forall k :: m <= k < n ==> !TakesLife(states[k], labels[k], r))
  {
    hide Apply, Enabled, Inv, LiveIn, TakesLife;
    if forall k :: m <= k <= n ==> LiveIn(states[k], r) {
      forall k | m <= k < n ensures !TakesLife(states[k], labels[k], r) {
        assert LiveIn(states[k], r) && LiveIn(states[k + 1], r);
        LiveAt(c, states, labels, k, r);
      }
    }
    if forall k :: m <= k < n ==> !TakesLife(states[k], labels[k], r) {
      forall k | m <= k <= n ensures LiveIn(states[k], r) {
        LiveLasts(c, states, labels, m, k, r);
      }
    }
  }

  lemma LiveAt(c: Config, states: seq<State>, labels: seq<Label>, k: nat, r: nat)
    requires IsBehaviour(c, states, labels) && k < |labels| && LiveIn(states[k], r)
    ensures LiveIn(states[k + 1], r) <==> !TakesLife(states[k], labels[k], r)
  {
    hide Apply, Enabled, Inv, LiveIn, TakesLife;
    RunInv(c, states, labels, k);
    assert StepAt(c, states, labels, k);
    LiveStepIff(c, states[k], labels[k], r);
  }

  lemma {:induction false} LiveLasts(c: Config, states: seq<State>, labels: seq<Label>, m: nat, n: nat, r: nat)
    requires IsBehaviour(c, states, labels) && m <= n < |states| && LiveIn(states[m], r)
    requires forall k :: m <= k < n ==> !TakesLife(states[k], labels[k], r)
    ensures LiveIn(states[n], r)
    decreases n
  {
    hide LiveIn, TakesLife;
    if m < n {
      LiveLasts(c, states, labels, m, n - 1, r);
      LiveAt(c, states, labels, n - 1, r);
    }
  }

  // --------------------------------------------------------- registered sessions

  /** The session is installed again, its tunnel is removed, or the server restarts. */
  predicate TakesSession(s: State, l: Label, id: string, r: nat) {
    match l
    case InstallTunnel => s.lock.Upserted? && s.lock.session.id == id
    case RemoveTunnel(q) => q == r
    case Restart => true
    case _ => false
  }

  lemma SessionStepIff(c: Config, s: State, l: Label, id: string, r: nat)
    requires Inv(c, s) && Enabled(c, s, l) && Registered(s.registry, id, r)
    ensures Registered(Apply(c, s, l).registry, id, r) <==> !TakesSession(s, l, id, r)
  {
    hide Apply, StoreInv, TunnelInv, LimitInv;
    if l.InstallTunnel? {
      InstallIs(c, s);
      InstallTakesSession(c, s, id, r);
    } else if l.RemoveTunnel? {
      RemoveTakesSession(c, s, l.conn, id, r);
    } else if !l.Restart? {
      OthersKeepRegistry(c, s, l);
    } else {
      RestartClears(c, s);
    }
  }

  lemma InstallTakesSession(c: Config, s: State, id: string, r: nat)
    requires s.lock.Upserted? && Inv(c, s) && Registered(s.registry, id, r)
    ensures Registered(InstallStep(s).registry, id, r) <==> s.lock.session.id != id
  {
    hide StoreInv, LimitInv, ConnsOk, LiveOk, EndedOk, InstallStep;
    assert HoldsConn(s.lock, s.lock.conn);
    assert r in s.conns;
    InstallFields(s);
  }

  lemma RemoveTakesSession(c: Config, s: State, q: nat, id: string, r: nat)
    requires Inv(c, s) && Enabled(c, s, RemoveTunnel(q)) && Registered(s.registry, id, r)
    ensures Registered(Apply(c, s, RemoveTunnel(q)).registry, id, r) <==> q != r
  {
    hide StoreInv, LimitInv, ConnsOk, LiveOk, EndedOk, LockConnOk;
    assert r in s.conns && s.conns[r].session.id == id;
  }

  lemma OthersKeepRegistry(c: Config, s: State, l: Label)
    requires Enabled(c, s, l) && !l.InstallTunnel? && !l.RemoveTunnel? && !l.Restart?
    ensures Apply(c, s, l).registry == s.registry
  {
    hide Upsert, Revoke, PruneSessions;
  }

  /** A session stays registered with its tunnel exactly until then. */
  lemma SessionLastsIff(c: Config, states: seq<State>, labels: seq<Label>, m: nat, n: nat, id: string, r: nat)
    requires IsBehaviour(c, states, labels) && m <= n < |states| && Registered(states[m].registry, id, r)
    ensures (forall k :: m <= k <= n ==> Registered(states[k].registry, id, r))
       <==> (forall k :: m <= k < n ==> !TakesSession(states[k], labels[k], id, r))
  {
    hide Apply, Enabled, Inv, Registered, TakesSession;
    if forall k :: m <= k <= n ==> Registered(states[k].registry, id, r) {
      forall k | m <= k < n ensures !TakesSession(states[k], labels[k], id, r) {
        assert Registered(states[k].registry, id, r) && Registered(states[k + 1].registry, id, r);
        SessionAt(c, states, labels, k, id, r);
      }
    }
    if forall k :: m <= k < n ==> !TakesSession(states[k], labels[k], id, r) {
      forall k | m <= k <= n ensures Registered(states[k].registry, id, r) {
        SessionLasts(c, states, labels, m, k, id, r);
      }
    }
  }

  lemma SessionAt(c: Config, states: seq<State>, labels: seq<Label>, k: nat, id: string, r: nat)
    requires IsBehaviour(c, states, labels) && k < |labels| && Registered(states[k].registry, id, r)
    ensures Registered(states[k + 1].registry, id, r) <==> !TakesSession(states[k], labels[k], id, r)
  {
    hide Apply, Enabled, Inv, Registered, TakesSession;
    RunInv(c, states, labels, k);
    assert StepAt(c, states, labels, k);
    SessionStepIff(c, states[k], labels[k], id, r);
  }

  lemma {:induction false} SessionLasts(c: Config, states: seq<State>, labels: seq<Label>, m: nat, n: nat, id: string, r: nat)
    requires IsBehaviour(c, states, labels) && m <= n < |states| && Registered(states[m].registry, id, r)
    requires forall k :: m <= k < n ==> !TakesSession(states[k], labels[k], id, r)
    ensures Registered(states[n].registry, id, r)
    decreases n
  {
    hide Registered, TakesSession;
    if m < n {
      SessionLasts(c, states, labels, m, n - 1, id, r);
      SessionAt(c, states, labels, n - 1, id, r);
    }
  }

  // ------------------------------------------------------------------- rows

  /** What each step makes of the row of one session; every other step leaves it alone. */
  ghost predicate RowStep(s: State, l: Label, id: string, row: Row, later: Option<Row>) {
    match l
    case UpsertRow =>
      s.lock.Resolved? && later == Some(if s.lock.session.id == id then StoredRow(s.lock.session) else row)
    case EndRow(conn, at) =>
      && conn in s.conns
      && later == Some(if s.conns[conn].session.id == id then row.(endedAt := Some(at)) else row)
    case RevokeRow(other, at) =>
      later == Some(if other == id then row.(authHash := [], tunnelHash := [], endedAt := Some(at)) else row)
    case Prune(cutoff) =>
      later == if row.hosted && row.endedAt.Some? && row.endedAt.value < cutoff then None else Some(row)
    case Restart => later == Some(if row.hosted && row.endedAt.None? then row.(endedAt := Some(s.clock)) else row)
    case _ => later == Some(row)
  }

  function RowOf(rows: Table, id: string): Option<Row> {
    if id in rows then Some(rows[id]) else None
  }

  predicate TouchesRows(l: Label) {
    l.UpsertRow? || l.EndRow? || l.RevokeRow? || l.Prune? || l.Restart?
  }

  lemma OthersKeepRows(c: Config, s: State, l: Label)
    requires Enabled(c, s, l) && !TouchesRows(l)
    ensures Apply(c, s, l).rows == s.rows
  {
  }

  lemma RowsFollow(c: Config, s: State, l: Label, id: string)
    requires Enabled(c, s, l) && id in s.rows
    ensures RowStep(s, l, id, s.rows[id], RowOf(Apply(c, s, l).rows, id))
  {
    hide InstallStep, RemoveStep, StoredRow;
    if !TouchesRows(l) { OthersKeepRows(c, s, l); }
  }

  /** Rows appear only when a session is stored for the first time. */
  lemma RowsAppear(c: Config, s: State, l: Label, id: string)
    requires Enabled(c, s, l) && id !in s.rows && id in Apply(c, s, l).rows
    ensures l.UpsertRow? && s.lock.session.id == id && Apply(c, s, l).rows[id] == StoredRow(s.lock.session)
  {
    hide InstallStep, RemoveStep, StoredRow;
    if !TouchesRows(l) { OthersKeepRows(c, s, l); }
  }

  /** What a stored row is: the name, port and start of the session, not ended, its secrets hashed
      if it is hosted. */
  lemma StoredRowIs(session: Session)
    ensures var row := StoredRow(session);
            && row.subdomain == session.subdomain && row.localPort == session.localPort
            && row.startedAt == session.startedAt && row.endedAt.None? && row.hosted == session.hosted
            && row.authHash == (if session.hosted then HashHostedSecret(session.authToken) else session.authToken)
            && row.tunnelHash == (if session.hosted then HashHostedSecret(session.tunnelToken) else session.tunnelToken)
  {
  }

  /** The rows of every reachable state follow their steps. */
  lemma RowHistory(c: Config, states: seq<State>, labels: seq<Label>, n: nat, id: string)
    requires IsBehaviour(c, states, labels) && n < |labels|
    ensures id in states[n].rows ==> RowStep(states[n], labels[n], id, states[n].rows[id], RowOf(states[n + 1].rows, id))
    ensures id !in states[n].rows && id in states[n + 1].rows ==>
              labels[n].UpsertRow? && states[n].lock.Resolved? && states[n].lock.session.id == id
  {
    hide Apply, RowStep;
    assert StepAt(c, states, labels, n);
    if id in states[n].rows {
      RowsFollow(c, states[n], labels[n], id);
    } else if id in states[n + 1].rows {
      RowsAppear(c, states[n], labels[n], id);
    }
  }

  lemma OldRowStep(c: Config, s: State, l: Label, id: string)
    requires Inv(c, s) && Enabled(c, s, l) && id in s.rows && !s.rows[id].hosted
    ensures id in Apply(c, s, l).rows && Apply(c, s, l).rows[id] == s.rows[id]
  {
    hide Apply, IssuedOk, DistinctSubdomains, LockConnOk, RegisteredOk, LiveOk, EndedOk, LimitInv;
    RowsFollow(c, s, l, id);
    if l.EndRow? { assert ConnOk(s.conns[l.conn], s.issued); }
  }

  /** Old sessions that are not hosted are never touched. */
  lemma {:induction false} OldSessionsKept(c: Config, states: seq<State>, labels: seq<Label>, n: nat, id: string)
    requires IsBehaviour(c, states, labels) && n < |states| && id in states[0].rows
    ensures id in states[n].rows && states[n].rows[id] == states[0].rows[id]
  {
    hide Apply, Enabled, Inv;
    if n > 0 {
      OldSessionsKept(c, states, labels, n - 1, id);
      RunInv(c, states, labels, n - 1);
      assert StepAt(c, states, labels, n - 1);
      OldRowStep(c, states[n - 1], labels[n - 1], id);
    }
  }

  ghost predicate RevokedEnded(rows: Table, revoked: set<string>) {
    forall id :: id in rows && id in revoked ==> rows[id].endedAt.Some?
  }

  lemma RevokedEndedStep(c: Config, s: State, l: Label)
    requires Inv(c, s) && Enabled(c, s, l) && RevokedEnded(s.rows, s.revoked)
    ensures var t := Apply(c, s, l); RevokedEnded(t.rows, t.revoked)
  {
    hide Apply, IssuedOk, RowsOk, DistinctSubdomains, TunnelInv, LimitInv;
    var t := Apply(c, s, l);
    RevokedBy(c, s, l);
    forall id | id in t.rows && id in t.revoked ensures t.rows[id].endedAt.Some? {
      if id in s.rows { RowsFollow(c, s, l, id); } else { RowsAppear(c, s, l, id); }
    }
  }

  lemma RevokedBy(c: Config, s: State, l: Label)
    requires Enabled(c, s, l)
    ensures Apply(c, s, l).revoked == s.revoked + (if l.RevokeRow? then {l.id} else {})
  {
  }

  /** A revoked session is marked ended in every later state, so that retention will delete it. */
  lemma {:induction false} RevokedIsEnded(c: Config, states: seq<State>, labels: seq<Label>, n: nat)
    requires IsBehaviour(c, states, labels) && n < |states|
    ensures RevokedEnded(states[n].rows, states[n].revoked)
  {
    hide Apply, Enabled, Inv;
    if n > 0 {
      RevokedIsEnded(c, states, labels, n - 1);
      RunInv(c, states, labels, n - 1);
      assert StepAt(c, states, labels, n - 1);
      RevokedEndedStep(c, states[n - 1], labels[n - 1]);
    }
  }

  // --------------------------------------------------------------- a restart

  /** A restart leaves no tunnel, no route, no slot taken and no registration under way. */
  lemma RestartClears(c: Config, s: State)
    ensures var t := Apply(c, s, Restart);
            && t.registry.tunnels == map[] && t.registry.bySession == map[] && t.conns == map[]
            && t.slots == {} && t.lock.Free? && t.expiring == {}
  {
  }

  /** It costs no client its session: what was running can be resumed within the grace period. */
  lemma RestartSparesSessions(c: Config, states: seq<State>, labels: seq<Label>, n: nat, id: string, now: int)
    requires IsBehaviour(c, states, labels) && n < |labels| && labels[n] == Restart
    requires id in states[n].rows && states[n].rows[id].hosted && states[n].rows[id].endedAt.None?
    requires states[n].clock <= now <= states[n].clock + GRACE && now < states[n].rows[id].startedAt + c.lifetime
    ensures id in states[n].issued && states[n].issued[id] != []
    ensures var token := states[n].issued[id][|states[n].issued[id]| - 1].session.tunnelToken;
            ValidateResume(states[n + 1].rows, now, c.lifetime, id, token).None?
  {
    hide Apply, Enabled, TunnelInv, LimitInv, DistinctSubdomains;
    RunInv(c, states, labels, n);
    RevokedIsEnded(c, states, labels, n);
    RowHistory(c, states, labels, n, id);
    IssueFacts(c, states[n], id, |states[n].issued[id]| - 1);
    ResumeGate(states[n + 1].rows, now, c.lifetime, id, states[n].issued[id][|states[n].issued[id]| - 1].session.tunnelToken);
  }

  // ------------------------------------------------------------------- scans

  ghost predicate ExpiringOk(c: Config, s: State) {
    forall r :: r in s.expiring ==> r in s.conns && s.clock >= s.conns[r].session.startedAt + c.lifetime
  }

  lemma ExpiringStep(c: Config, s: State, l: Label)
    requires Inv(c, s) && Enabled(c, s, l) && ExpiringOk(c, s)
    ensures ExpiringOk(c, Apply(c, s, l))
  {
    hide Inv, Apply, Enabled, InstallStep;
    var t := Apply(c, s, l);
    if l.InstallTunnel? {
      InstallExpiring(c, s);
    } else if !l.Restart? {
      StepAges(c, s, l);
      if !l.CollectExpired? { ExpiringShrinks(c, s, l); } else { CollectsOverdue(c, s, l); }
      assert forall r :: r in t.conns ==> OlderTunnel(s.conns[r], t.conns[r]);
    } else {
      RestartClears(c, s);
    }
  }

  lemma InstallExpiring(c: Config, s: State)
    requires Inv(c, s) && Enabled(c, s, InstallTunnel) && ExpiringOk(c, s)
    ensures ExpiringOk(c, Apply(c, s, InstallTunnel))
  {
    hide StoreInv, LimitInv, ConnsOk, RegisteredOk, LiveOk, EndedOk, InstallStep;
    assert HoldsConn(s.lock, s.lock.conn);
    InstallFields(s);
    InstallKeepsRest(s);
  }

  lemma InstallKeepsRest(s: State)
    requires s.lock.Upserted?
    ensures InstallStep(s).expiring == s.expiring && InstallStep(s).clock == s.clock
  {
  }

  lemma ExpiringShrinks(c: Config, s: State, l: Label)
    requires Enabled(c, s, l) && !l.CollectExpired?
    ensures Apply(c, s, l).expiring <= s.expiring && Apply(c, s, l).clock >= s.clock
  {
  }

  lemma CollectsOverdue(c: Config, s: State, l: Label)
    requires l.CollectExpired? && Enabled(c, s, l)
    ensures forall r :: r in Apply(c, s, l).expiring ==>
              r in s.conns && s.clock >= s.conns[r].session.startedAt + c.lifetime
    ensures Apply(c, s, l).clock == s.clock
  {
  }

  /** A scan closes only what has outlived its lifetime. */
  lemma {:induction false} ScansSpareTheYoung(c: Config, states: seq<State>, labels: seq<Label>, n: nat)
    requires IsBehaviour(c, states, labels) && n < |states|
    ensures ExpiringOk(c, states[n])
    ensures n < |labels| && labels[n].CloseExpired? ==>
              var r := labels[n].conn;
              r in states[n].conns && states[n].clock >= states[n].conns[r].session.startedAt + c.lifetime
  {
    hide Apply, Inv;
    if n > 0 {
      ScansSpareTheYoung(c, states, labels, n - 1);
      RunInv(c, states, labels, n - 1);
      assert StepAt(c, states, labels, n - 1);
      ExpiringStep(c, states[n - 1], labels[n - 1]);
    }
    if n < |labels| { assert StepAt(c, states, labels, n); }
  }
}
