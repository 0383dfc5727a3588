/** What the control plane guarantees over whole runs: theorems about every reachable state
    and every sequence of steps of the machine in ControlPlane. */
module Guarantees {
  import opened Common
  import opened Secrets
  import opened Sessions
  import opened Auth
  import opened Registry
  import opened ControlPlane
  import opened Invariant

  /** A run from an initial state. */
  ghost predicate IsBehaviour(c: Config, states: seq<State>, labels: seq<Label>) {
    ValidConfig(c) && IsRun(c, states, labels) && Init(states[0])
  }

  // ------------------------------------------------- agreement of the maps

  ghost predicate NamesAgree(s: State) {
    forall name :: name in s.registry.tunnels ==>
      var r := s.registry.tunnels[name];
      r in s.conns && s.conns[r].session.subdomain == name && Registered(s.registry, s.conns[r].session.id, r)
  }

  ghost predicate SessionsAgree(s: State) {
    forall id :: id in s.registry.bySession ==>
      var r := s.registry.bySession[id];
      && r in s.conns && s.conns[r].session.id == id
      && s.conns[r].session.subdomain in s.registry.tunnels
      && s.registry.tunnels[s.conns[r].session.subdomain] == r
  }

  /** Both maps hold exactly the same tunnels, each under its own name and session. */
  ghost predicate Agree(s: State) {
    NamesAgree(s) && SessionsAgree(s)
  }

  /** The name of the tunnel about to be installed is free or routes to its own session. */
  predicate NameClear(s: State) {
    s.lock.Upserted? && s.lock.session.subdomain in s.registry.tunnels ==>
      var r := s.registry.tunnels[s.lock.session.subdomain];
      r in s.conns && s.conns[r].session.id == s.lock.session.id
  }

  lemma IssueFacts(c: Config, s: State, id: string, i: nat)
    requires IssuedOk(c.lifetime, s.issued, s.origin) && id in s.issued && i < |s.issued[id]|
    ensures IssueOk(c.lifetime, s.issued[id][0].session, s.origin, id, i, s.issued[id][i])
  {
  }

  lemma RegisteredName(c: Config, s: State, id: string)
    requires Inv(c, s) && id in s.registry.bySession
    ensures var r := s.registry.bySession[id];
            r in s.conns && s.conns[r].session.id == id && id in s.issued && s.issued[id] != []
            && s.conns[r].session.subdomain == s.issued[id][0].session.subdomain
  {
    var r := s.registry.bySession[id];
    assert ConnOk(s.conns[r], s.issued);
    IssueFacts(c, s, id, s.conns[r].index);
  }

  /** Installing keeps the agreement exactly when the name is clear. */
  lemma InstallAgreesIff(c: Config, s: State)
    requires Inv(c, s) && Agree(s) && s.lock.Upserted?
    ensures Agree(InstallStep(s)) <==> NameClear(s)
  {
    InstallKeepsName(c, s);
    if NameClear(s) {
      InstallAgrees(s, InstallStep(s));
    } else {
      InstallDisagrees(s, InstallStep(s));
    }
  }

  lemma InstallKeepsName(c: Config, s: State)
    requires Inv(c, s) && s.lock.Upserted?
    ensures s.lock.conn !in s.conns
    ensures s.lock.session.id in s.registry.bySession ==>
              && s.registry.bySession[s.lock.session.id] in s.conns
              && s.conns[s.registry.bySession[s.lock.session.id]].session.subdomain == s.lock.session.subdomain
  {
    var id := s.lock.session.id;
    assert HoldsConn(s.lock, s.lock.conn);
    IssueFacts(c, s, id, |s.issued[id]| - 1);
    if id in s.registry.bySession { RegisteredName(c, s, id); }
  }

  lemma InstallDisagrees(s: State, t: State)
    requires Agree(s) && s.lock.Upserted? && !NameClear(s) && s.lock.conn !in s.conns && t == InstallStep(s)
    ensures !Agree(t)
  {
    var name := s.lock.session.subdomain;
    var r := s.registry.tunnels[name];
    var other := s.conns[r].session.id;
    assert Registered(s.registry, other, r);
    assert t.registry.bySession[other] == r && t.registry.tunnels[name] == s.lock.conn != r;
  }

  lemma InstallFields(s: State)
    requires s.lock.Upserted? && s.lock.conn !in s.conns
    ensures var t := InstallStep(s);
            && t.registry.tunnels == s.registry.tunnels[s.lock.session.subdomain := s.lock.conn]
            && t.registry.bySession == s.registry.bySession[s.lock.session.id := s.lock.conn]
            && t.conns.Keys == s.conns.Keys + {s.lock.conn}
            && t.conns[s.lock.conn].session == s.lock.session && t.conns[s.lock.conn].sourceIP == s.lock.ip
            && forall r :: r in s.conns ==>
                 t.conns[r].session == s.conns[r].session && t.conns[r].sourceIP == s.conns[r].sourceIP
  {
  }

  lemma InstallAgrees(s: State, t: State)
    requires Agree(s) && s.lock.Upserted? && NameClear(s) && s.lock.conn !in s.conns && t == InstallStep(s)
    requires s.lock.session.id in s.registry.bySession ==>
               s.conns[s.registry.bySession[s.lock.session.id]].session.subdomain == s.lock.session.subdomain
    ensures Agree(t)
  {
    InstallNamesAgree(s, t);
    InstallSessionsAgree(s, t);
  }

  lemma InstallNamesAgree(s: State, t: State)
    requires NamesAgree(s) && s.lock.Upserted? && s.lock.conn !in s.conns && t == InstallStep(s)
    requires s.lock.session.id in s.registry.bySession && s.registry.bySession[s.lock.session.id] in s.conns ==>
               s.conns[s.registry.bySession[s.lock.session.id]].session.subdomain == s.lock.session.subdomain
    ensures NamesAgree(t)
  {
    hide InstallStep;
    InstallFields(s);
  }

  lemma InstallSessionsAgree(s: State, t: State)
    requires SessionsAgree(s) && s.lock.Upserted? && NameClear(s) && s.lock.conn !in s.conns && t == InstallStep(s)
    ensures SessionsAgree(t)
  {
    hide InstallStep;
    InstallFields(s);
  }

  /** The late removal of a connection whose session has been taken over changes neither map,
      and what has taken over comes from a later registration of the session. */
  lemma SupersededRemoval(c: Config, states: seq<State>, labels: seq<Label>, n: nat, q: nat, id: string)
    requires IsBehaviour(c, states, labels) && n < |labels| && labels[n] == RemoveTunnel(q)
    requires q in states[n].conns && states[n].conns[q].session.id == id
    requires id in states[n].registry.bySession && states[n].registry.bySession[id] != q
    ensures states[n + 1].registry == states[n].registry
    ensures var r := states[n].registry.bySession[id];
            r in states[n].conns && states[n].conns[q].index < states[n].conns[r].index
  {
    hide Inv;
    RunInv(c, states, labels, n);
    assert StepAt(c, states, labels, n);
    TakenOverLater(c, states[n], q);
  }

  lemma TakenOverLater(c: Config, s: State, q: nat)
    requires Inv(c, s) && q in s.conns && !Registered(s.registry, s.conns[q].session.id, q)
    ensures var id := s.conns[q].session.id;
            id in s.registry.bySession ==>
              s.registry.bySession[id] in s.conns && s.conns[q].index < s.conns[s.registry.bySession[id]].index
  {
    hide StoreInv, LimitInv, LockConnOk, ConnsOk, RegisteredOk, LiveOk, EndedOk;
    UnregisteredIsOlder(s, q);
  }

  lemma StepAgrees(c: Config, s: State, l: Label)
    requires Inv(c, s) && Agree(s) && Enabled(c, s, l) && !l.InstallTunnel?
    ensures Agree(Apply(c, s, l))
  {
    var t := Apply(c, s, l);
    if l.RemoveTunnel? {
      RemoveAgrees(s, l.conn);
    } else if l.Restart? {
    } else {
      StepAges(c, s, l);
      assert t.registry == s.registry;
      AgedAgrees(s, t);
    }
  }

  lemma AgedAgrees(s: State, t: State)
    requires Agree(s) && t.registry == s.registry && t.conns.Keys == s.conns.Keys
    requires Aged(s.registry, s.conns, t.registry, t.conns)
    ensures Agree(t)
  {
    assert forall r :: r in t.conns ==> OlderTunnel(s.conns[r], t.conns[r]);
  }

  lemma RemoveAgrees(s: State, conn: nat)
    requires Agree(s) && conn in s.conns
    ensures Agree(RemoveStep(s, conn))
  {
  }

  /** The maps agree throughout a run if and only if no tunnel is ever installed under a name
      that routes to another session. */
  lemma RegistryAgreementIff(c: Config, states: seq<State>, labels: seq<Label>)
    requires IsBehaviour(c, states, labels)
    ensures (forall n :: 0 <= n < |states| ==> Agree(states[n]))
       <==> (forall n :: 0 <= n < |labels| && labels[n].InstallTunnel? ==> NameClear(states[n]))
  {
    if forall n :: 0 <= n < |states| ==> Agree(states[n]) {
      forall n | 0 <= n < |labels| && labels[n].InstallTunnel?
        ensures NameClear(states[n])
      {
        RunInv(c, states, labels, n);
        assert StepAt(c, states, labels, n) && Agree(states[n]) && Agree(states[n + 1]);
        InstallAgreesIff(c, states[n]);
      }
    }
    if forall n :: 0 <= n < |labels| && labels[n].InstallTunnel? ==> NameClear(states[n]) {
      forall n | 0 <= n < |states|
        ensures Agree(states[n])
      {
        ClearRunAgrees(c, states, labels, n);
      }
    }
  }

  lemma {:induction false} ClearRunAgrees(c: Config, states: seq<State>, labels: seq<Label>, n: nat)
    requires IsBehaviour(c, states, labels) && n < |states|
    requires forall i :: 0 <= i < |labels| && labels[i].InstallTunnel? ==> NameClear(states[i])
    ensures Agree(states[n])
  {
    hide Inv;
    if n > 0 {
      ClearRunAgrees(c, states, labels, n - 1);
      RunInv(c, states, labels, n - 1);
      assert StepAt(c, states, labels, n - 1);
      if labels[n - 1].InstallTunnel? {
        InstallAgreesIff(c, states[n - 1]);
      } else {
        StepAgrees(c, states[n - 1], labels[n - 1]);
      }
    }
  }

  // ------------------------------------------------ when names never clash

  /** Routed names belong to the sessions that are stored, or about to be stored, under them. */
  ghost predicate NamesOk(s: State) {
    && (forall id :: id in s.rows ==> RoutesOnlyTo(s, s.rows[id].subdomain, id))
    && (s.lock.Resolved? || s.lock.Upserted? ==>
         && RoutesOnlyTo(s, s.lock.session.subdomain, s.lock.session.id)
         && forall id :: id in s.rows && s.rows[id].subdomain == s.lock.session.subdomain ==> id == s.lock.session.id)
  }

  ghost predicate RoutesOnlyTo(s: State, name: string, id: string) {
    name in s.registry.tunnels ==>
      s.registry.tunnels[name] in s.conns && s.conns[s.registry.tunnels[name]].session.id == id
  }

  /** Guard at the draw: a new session's name does not route to any tunnel. */
  predicate DrawsFreeName(s: State, l: Label) {
    l.Resolve? && s.lock.Validated? && s.lock.reg.sessionID == "" ==> l.subdomain !in s.registry.tunnels
  }

  lemma NamesStep(c: Config, s: State, l: Label)
    requires Inv(c, s) && NamesOk(s) && Enabled(c, s, l) && DrawsFreeName(s, l)
    ensures NamesOk(Apply(c, s, l))
  {
    if l.Resolve? {
      NamesResolve(c, s, l);
    } else if l.UpsertRow? {
      NamesUpsert(c, s);
    } else if l.InstallTunnel? {
      NamesInstall(c, s);
    } else if !l.Restart? {
      StepAges(c, s, l);
      NamesKept(c, s, l);
      NamesAged(s, Apply(c, s, l));
    }
  }

  lemma NamesKept(c: Config, s: State, l: Label)
    requires Enabled(c, s, l) && !l.Resolve? && !l.UpsertRow? && !l.InstallTunnel? && !l.Restart?
    ensures var t := Apply(c, s, l);
            && (forall id :: id in t.rows ==> id in s.rows && t.rows[id].subdomain == s.rows[id].subdomain)
            && (forall name :: name in t.registry.tunnels ==>
                 name in s.registry.tunnels && t.registry.tunnels[name] == s.registry.tunnels[name])
            && (t.lock.Resolved? || t.lock.Upserted? ==> t.lock == s.lock)
  {
  }

  lemma NamesAged(s: State, t: State)
    requires NamesOk(s) && Aged(s.registry, s.conns, t.registry, t.conns) && t.conns.Keys == s.conns.Keys
    requires forall id :: id in t.rows ==> id in s.rows && t.rows[id].subdomain == s.rows[id].subdomain
    requires forall name :: name in t.registry.tunnels ==>
               name in s.registry.tunnels && t.registry.tunnels[name] == s.registry.tunnels[name]
    requires t.lock.Resolved? || t.lock.Upserted? ==> t.lock == s.lock
    ensures NamesOk(t)
  {
    assert forall r :: r in t.conns ==> OlderTunnel(s.conns[r], t.conns[r]);
    forall id | id in t.rows ensures RoutesOnlyTo(t, t.rows[id].subdomain, id) {
      assert RoutesOnlyTo(s, s.rows[id].subdomain, id);
    }
    if t.lock.Resolved? || t.lock.Upserted? {
      assert RoutesOnlyTo(s, s.lock.session.subdomain, s.lock.session.id);
    }
  }

  lemma NamesResolve(c: Config, s: State, l: Label)
    requires Inv(c, s) && NamesOk(s) && l.Resolve? && Enabled(c, s, l) && DrawsFreeName(s, l)
    ensures NamesOk(Apply(c, s, l))
  {
    var t := Apply(c, s, l);
    forall id | id in t.rows ensures RoutesOnlyTo(t, t.rows[id].subdomain, id) {
      assert RoutesOnlyTo(s, s.rows[id].subdomain, id);
    }
    var id := s.lock.reg.sessionID;
    if id != "" {
      assert RoutesOnlyTo(s, s.rows[id].subdomain, id);
    }
  }

  lemma NamesUpsert(c: Config, s: State)
    requires NamesOk(s) && s.lock.Resolved?
    ensures NamesOk(UpsertStep(s))
  {
    var t := UpsertStep(s);
    assert RoutesOnlyTo(s, s.lock.session.subdomain, s.lock.session.id);
    forall id | id in t.rows ensures RoutesOnlyTo(t, t.rows[id].subdomain, id) {
      if id != s.lock.session.id { assert RoutesOnlyTo(s, s.rows[id].subdomain, id); }
    }
  }

  lemma NamesInstall(c: Config, s: State)
    requires Inv(c, s) && NamesOk(s) && s.lock.Upserted?
    ensures NamesOk(InstallStep(s))
  {
    var t := InstallStep(s);
    InstallAges(s);
    assert HoldsConn(s.lock, s.lock.conn);
    forall id | id in t.rows ensures RoutesOnlyTo(t, t.rows[id].subdomain, id) {
      assert RoutesOnlyTo(s, s.rows[id].subdomain, id);
    }
  }

  /** If no new session draws a name that is being routed, the maps agree in every state. */
  lemma FreshNamesAgree(c: Config, states: seq<State>, labels: seq<Label>)
    requires IsBehaviour(c, states, labels)
    requires forall n :: 0 <= n < |labels| ==> DrawsFreeName(states[n], labels[n])
    ensures forall n :: 0 <= n < |states| ==> Agree(states[n])
  {
    forall n | 0 <= n < |labels| && labels[n].InstallTunnel?
      ensures NameClear(states[n])
    {
      RunNames(c, states, labels, n);
      assert StepAt(c, states, labels, n);
      assert RoutesOnlyTo(states[n], states[n].lock.session.subdomain, states[n].lock.session.id);
    }
    RegistryAgreementIff(c, states, labels);
  }

  lemma {:induction false} RunNames(c: Config, states: seq<State>, labels: seq<Label>, n: nat)
    requires IsBehaviour(c, states, labels) && n < |states|
    requires forall i :: 0 <= i < |labels| ==> DrawsFreeName(states[i], labels[i])
    ensures NamesOk(states[n])
  {
    hide Apply, Enabled, Inv;
    if n > 0 {
      RunNames(c, states, labels, n - 1);
      RunInv(c, states, labels, n - 1);
      assert StepAt(c, states, labels, n - 1);
      NamesStep(c, states[n - 1], labels[n - 1]);
    }
  }

  // --------------------------------------- the table against the registry

  /** Between registrations, the row of a registered tunnel is the stored form of its session,
      unless it was pruned, revoked, or marked ended on behalf of an older connection. */
  lemma TableAgreement(c: Config, states: seq<State>, labels: seq<Label>, n: nat, id: string)
    requires IsBehaviour(c, states, labels) && n < |states|
    requires id in states[n].registry.bySession && id in states[n].rows && !InUpsert(states[n].lock, id)
    ensures var s := states[n];
            var r := s.registry.bySession[id];
            && r in s.conns && s.conns[r].session.id == id
            && (id !in s.revoked ==> s.rows[id].(endedAt := None) == StoredRow(s.conns[r].session))
            && (id in s.revoked ==>
                 s.rows[id].(endedAt := None) == StoredRow(s.conns[r].session).(authHash := [], tunnelHash := []))
            && (s.rows[id].endedAt.Some? && id !in s.revoked ==>
                 id in s.endedBy && s.endedBy[id].ByConnection? && s.endedBy[id].index < s.conns[r].index)
  {
    RunInv(c, states, labels, n);
    var s := states[n];
    var r := s.registry.bySession[id];
    assert ConnOk(s.conns[r], s.issued);
    var last := |s.issued[id]| - 1;
    assert IssueOk(c.lifetime, s.issued[id][0].session, s.origin, id, last, s.issued[id][last]);
  }

  /** No stored session shares its name with a hosted one in any reachable state, however names
      are drawn and whatever the names of old sessions that are not hosted. */
  lemma SubdomainsStayDistinct(c: Config, states: seq<State>, labels: seq<Label>, n: nat, a: string, b: string)
    requires IsBehaviour(c, states, labels) && n < |states|
    requires a in states[n].rows && b in states[n].rows && a != b
    ensures states[n].rows[a].hosted || states[n].rows[b].hosted ==>
              states[n].rows[a].subdomain != states[n].rows[b].subdomain
  {
    RunInv(c, states, labels, n);
  }

  // ------------------------------------------------------- resume tokens

  predicate Accepts(c: Config, s: State, id: string, token: Bytes) {
    ValidateResume(s.rows, s.clock, c.lifetime, id, token).None?
  }

  /** Exactly when a token resumes a session: it is the latest one, in time, and not revoked. */
  lemma ResumeIff(c: Config, states: seq<State>, labels: seq<Label>, n: nat, id: string, token: Bytes)
    requires IsBehaviour(c, states, labels) && n < |states|
    ensures var s := states[n];
            Accepts(c, s, id, token) <==>
              && id in s.issued && s.issued[id] != [] && id in s.rows && id !in s.revoked
              && token == s.issued[id][|s.issued[id]| - 1].session.tunnelToken
              && s.clock < s.issued[id][0].session.startedAt + c.lifetime
              && (s.rows[id].endedAt.Some? ==> s.clock <= s.rows[id].endedAt.value + GRACE)
  {
    RunInv(c, states, labels, n);
    var s := states[n];
    ResumeGate(s.rows, s.clock, c.lifetime, id, token);
    if id in s.issued && s.issued[id] != [] {
      var last := |s.issued[id]| - 1;
      assert IssueOk(c.lifetime, s.issued[id][0].session, s.origin, id, last, s.issued[id][last]);
      HashIsInjective(token, s.issued[id][last].session.tunnelToken);
    }
  }

  /** Registrations are only added, and revocations only accumulate. */
  ghost predicate HistoryGrows(s: State, t: State) {
    && (forall id :: id in s.issued ==> id in t.issued && s.issued[id] <= t.issued[id])
    && s.revoked <= t.revoked
  }

  lemma StepGrows(c: Config, s: State, l: Label)
    requires Enabled(c, s, l)
    ensures HistoryGrows(s, Apply(c, s, l))
  {
  }

  lemma GrowsTransitive(s: State, t: State, u: State)
    requires HistoryGrows(s, t) && HistoryGrows(t, u)
    ensures HistoryGrows(s, u)
  {
    forall id | id in s.issued ensures id in u.issued && s.issued[id] <= u.issued[id] {
      assert s.issued[id] <= t.issued[id] <= u.issued[id];
    }
  }

  lemma {:induction false} RunGrows(c: Config, states: seq<State>, labels: seq<Label>, m: nat, n: nat)
    requires IsRun(c, states, labels) && m <= n < |states|
    ensures HistoryGrows(states[m], states[n])
    decreases n - m
  {
    hide Apply, Enabled;
    if m < n {
      RunGrows(c, states, labels, m, n - 1);
      assert StepAt(c, states, labels, n - 1);
      StepGrows(c, states[n - 1], labels[n - 1]);
      GrowsTransitive(states[m], states[n - 1], states[n]);
    }
  }

  /** A resume token that has been replaced, belongs to another session, or is a dashboard
      secret, is never accepted for the session again. */
  lemma OldTokensStayDead(c: Config, states: seq<State>, labels: seq<Label>, m: nat, n: nat,
                          owner: string, i: nat, id: string, token: Bytes)
    requires IsBehaviour(c, states, labels) && m <= n < |states|
    requires owner in states[m].issued && i < |states[m].issued[owner]|
    requires token == states[m].issued[owner][i].session.authToken
          || (token == states[m].issued[owner][i].session.tunnelToken
              && (owner != id || i + 1 < |states[m].issued[owner]|))
    ensures !Accepts(c, states[n], id, token)
  {
    RunInv(c, states, labels, n);
    RunGrows(c, states, labels, m, n);
    var s := states[n];
    IssueFacts(c, s, owner, i);
    ResumeIff(c, states, labels, n, id, token);
    if id in s.issued { IssueFacts(c, s, id, |s.issued[id]| - 1); }
  }

  // ---------------------------------------------------------- revocation

  /** Once revoked, a session is never registered again and opens for no token and no cookie. */
  lemma RevocationIsPermanent(c: Config, states: seq<State>, labels: seq<Label>, m: nat, n: nat, id: string)
    requires IsBehaviour(c, states, labels) && m <= n < |states| && id in states[m].revoked
    ensures forall token :: !Accepts(c, states[n], id, token)
    ensures forall cookie :: !Authorize(states[n].rows, states[n].clock, c.lifetime, c.retention, id, cookie)
    ensures n < |labels| && (labels[n].UpsertRow? || labels[n].InstallTunnel?) ==>
              (states[n].lock.Resolved? || states[n].lock.Upserted?) && states[n].lock.session.id != id
  {
    RunInv(c, states, labels, n);
    RunGrows(c, states, labels, m, n);
    var s := states[n];
    if n < |labels| { assert StepAt(c, states, labels, n); }
    assert id in s.revoked && id in s.issued;
    forall token ensures !Accepts(c, s, id, token) {
      ResumeIff(c, states, labels, n, id, token);
    }
  }

  predicate NoneLive(s: State, id: string) {
    forall r :: r in s.conns && s.conns[r].session.id == id ==> !Live(s.conns[r])
  }

  lemma CloseRevokedStops(c: Config, s: State)
    requires LiveOk(s.registry, s.conns) && s.lock.Revoking?
    ensures NoneLive(Apply(c, s, CloseRevoked), s.lock.id)
  {
  }

  lemma NoneLiveStays(c: Config, s: State, l: Label, id: string)
    requires Inv(c, s) && Enabled(c, s, l) && NoneLive(s, id) && id in s.revoked
    ensures NoneLive(Apply(c, s, l), id)
  {
    hide IssuedOk, RowsOk, LockConnOk, ConnsOk, RegisteredOk, LiveOk, EndedOk, LimitInv;
    if l.InstallTunnel? {
      InstallAges(s);
      var u := CloseSession(s, s.lock.session.id);
      assert forall r :: r in u ==> OlderTunnel(s.conns[r], u[r]);
    } else {
      StepAges(c, s, l);
      NoneLiveAges(s, Apply(c, s, l), id);
    }
  }

  lemma NoneLiveAges(s: State, t: State, id: string)
    requires Aged(s.registry, s.conns, t.registry, t.conns) && NoneLive(s, id)
    ensures NoneLive(t, id)
  {
    assert forall r :: r in t.conns ==> OlderTunnel(s.conns[r], t.conns[r]);
  }

  /** Once a revoke has closed the session's connection, its traffic stops for good. */
  lemma {:induction false} RevocationStopsTraffic(c: Config, states: seq<State>, labels: seq<Label>, m: nat, n: nat)
    requires IsBehaviour(c, states, labels) && m < n < |states|
    requires labels[m].CloseRevoked? && states[m].lock.Revoking?
    ensures NoneLive(states[n], states[m].lock.id) && states[m].lock.id in states[n].revoked
    decreases n
  {
    hide Apply, Enabled, NoneLive, IssuedOk, RowsOk, LiveOk, LimitInv;
    var id := states[m].lock.id;
    RunInv(c, states, labels, m);
    RunGrows(c, states, labels, m, n - 1);
    RunGrows(c, states, labels, m, n);
    assert StepAt(c, states, labels, n - 1);
    if m + 1 < n {
      RevocationStopsTraffic(c, states, labels, m, n - 1);
      RunInv(c, states, labels, n - 1);
      NoneLiveStays(c, states[n - 1], labels[n - 1], id);
    } else {
      CloseRevokedStops(c, states[m]);
    }
  }

  // ----------------------------------------------------- dashboard cookies

  /** Exactly when a cookie opens a session's dashboard: it is the latest dashboard secret, the
      session is stored and not revoked, and its captures are still retained. */
  lemma AuthorizeIff(c: Config, states: seq<State>, labels: seq<Label>, n: nat, id: string, cookie: Bytes)
    requires IsBehaviour(c, states, labels) && n < |states|
    ensures var s := states[n];
            Authorize(s.rows, s.clock, c.lifetime, c.retention, id, cookie) <==>
              && id in s.issued && s.issued[id] != [] && id in s.rows && id !in s.revoked
              && cookie == s.issued[id][|s.issued[id]| - 1].session.authToken
              && s.clock <= s.issued[id][0].session.startedAt + c.lifetime + c.retention
  {
    RunInv(c, states, labels, n);
    var s := states[n];
    if id in s.issued && s.issued[id] != [] {
      IssueFacts(c, s, id, |s.issued[id]| - 1);
      HashIsInjective(cookie, s.issued[id][|s.issued[id]| - 1].session.authToken);
    }
  }

  /** The registered tunnel comes from one of the stored registrations: from the latest one,
      unless a newer one is stored and about to be installed. */
  lemma RegisteredIssue(c: Config, s: State, id: string)
    requires ConnsOk(s.conns, s.nextConn, s.issued)
    requires RegisteredOk(s.registry.bySession, s.conns, s.issued, s.lock) && id in s.registry.bySession
    ensures var r := s.registry.bySession[id];
            && r in s.conns && id in s.issued && s.conns[r].index < |s.issued[id]|
            && s.conns[r].session == s.issued[id][s.conns[r].index].session
            && (|s.issued[id]| == s.conns[r].index + 1 <==> !InUpsert(s.lock, id))
  {
    assert ConnOk(s.conns[s.registry.bySession[id]], s.issued);
  }

  lemma IssuedSecretsDiffer(c: Config, s: State, id: string, i: nat)
    requires IssuedOk(c.lifetime, s.issued, s.origin) && id in s.issued && i < |s.issued[id]|
    ensures s.issued[id][i].session.startedAt == s.issued[id][0].session.startedAt
    ensures s.issued[id][i].session.authToken == s.issued[id][|s.issued[id]| - 1].session.authToken
       <==> |s.issued[id]| == i + 1
  {
    IssueFacts(c, s, id, i);
    IssueFacts(c, s, id, |s.issued[id]| - 1);
  }

  /** The cookie that a claimed handoff yields is that of the tunnel registered at that time. It
      opens the dashboard, then and later, exactly while the registration of that tunnel is the
      latest one stored and the row is neither pruned nor revoked nor too old. */
  lemma ClaimedCookieOpensIff(c: Config, states: seq<State>, labels: seq<Label>, m: nat, n: nat, id: string)
    requires IsBehaviour(c, states, labels) && m <= n < |states| && id in states[m].registry.bySession
    ensures var r := states[m].registry.bySession[id];
            r in states[m].conns &&
            var t, s := states[m].conns[r], states[n];
            && id in s.issued
            && (Authorize(s.rows, s.clock, c.lifetime, c.retention, id, t.session.authToken) <==>
                 && |s.issued[id]| == t.index + 1 && id in s.rows && id !in s.revoked
                 && s.clock <= t.session.startedAt + c.lifetime + c.retention)
    ensures var r := states[m].registry.bySession[id];
            id in states[m].issued &&
            (|states[m].issued[id]| == states[m].conns[r].index + 1 <==> !InUpsert(states[m].lock, id))
  {
    hide Authorize, IssuedOk, ConnsOk, RegisteredOk;
    RunInv(c, states, labels, m);
    RunInv(c, states, labels, n);
    RunGrows(c, states, labels, m, n);
    RegisteredIssue(c, states[m], id);
    var t := states[m].conns[states[m].registry.bySession[id]];
    assert states[m].issued[id] <= states[n].issued[id];
    IssuedSecretsDiffer(c, states[n], id, t.index);
    AuthorizeIff(c, states, labels, n, id, t.session.authToken);
  }

  // ------------------------------------------------- identity and lifetime

  /** All registrations of a session keep its identity, name and start, and a resume was
      validated within the lifetime counted from that start. */
  lemma ResumeChains(c: Config, states: seq<State>, labels: seq<Label>, m: nat, n: nat)
    requires IsBehaviour(c, states, labels) && m < n < |labels|
    requires labels[m].UpsertRow? && labels[n].UpsertRow? && states[m].lock.Resolved? && states[n].lock.Resolved?
    requires states[m].lock.session.id == states[n].lock.session.id
    ensures var first, later := states[m].lock.session, states[n].lock.session;
            && later.subdomain == first.subdomain && later.startedAt == first.startedAt
            && states[n].lock.resumed && states[n].lock.at < first.startedAt + c.lifetime
            && later.tunnelToken != first.tunnelToken && later.authToken != first.authToken
  {
    hide Apply, Inv;
    RunInv(c, states, labels, n);
    RunGrows(c, states, labels, m + 1, n);
    assert StepAt(c, states, labels, m) && StepAt(c, states, labels, n);
    var i := UpsertIssues(c, states[m], labels[m], states[m + 1]);
    LaterRegistration(c, states[m].lock.session, states[n], i);
  }

  lemma UpsertIssues(c: Config, s: State, l: Label, t: State) returns (i: nat)
    requires l.UpsertRow? && Enabled(c, s, l) && t == Apply(c, s, l)
    ensures s.lock.Resolved?
    ensures s.lock.session.id in t.issued && i < |t.issued[s.lock.session.id]|
    ensures t.issued[s.lock.session.id][i].session == s.lock.session
  {
    i := |Issued(s, s.lock.session.id)|;
  }

  lemma LaterRegistration(c: Config, first: Session, t: State, i: nat)
    requires Inv(c, t) && t.lock.Resolved? && t.lock.session.id == first.id
    requires first.id in t.issued && i < |t.issued[first.id]| && t.issued[first.id][i].session == first
    ensures var later := t.lock.session;
            && later.subdomain == first.subdomain && later.startedAt == first.startedAt
            && t.lock.resumed && t.lock.at < first.startedAt + c.lifetime
            && later.tunnelToken != first.tunnelToken && later.authToken != first.authToken
  {
    IssueFacts(c, t, first.id, i);
  }

  // ------------------------------------------------------ live connections

  /** Two open connections never serve the same session, and the live one is the registered one. */
  lemma OneLiveConnection(c: Config, states: seq<State>, labels: seq<Label>, n: nat, r: nat, q: nat)
    requires IsBehaviour(c, states, labels) && n < |states|
    requires r in states[n].conns && Live(states[n].conns[r])
    ensures Registered(states[n].registry, states[n].conns[r].session.id, r)
    ensures (q in states[n].conns && Live(states[n].conns[q])
             && states[n].conns[q].session.id == states[n].conns[r].session.id) ==> q == r
  {
    RunInv(c, states, labels, n);
    if q in states[n].conns && Live(states[n].conns[q]) {
      assert Registered(states[n].registry, states[n].conns[q].session.id, q);
    }
  }

  // -------------------------------------------------------------- capacity

  /** The registered tunnels whose `closed` channel is still open. */
  function OpenTunnels(s: State): set<nat> {
    set r | r in s.registry.bySession.Values && r in s.conns && s.conns[r].phase.Reading?
  }

  /** First-time tunnels stay within HostedMaxTunnels, and resumes exceed it only up to the
      number of connection slots. */
  lemma CapacityBounds(c: Config, states: seq<State>, labels: seq<Label>, n: nat)
    requires IsBehaviour(c, states, labels) && n < |states|
    ensures |FirstTimers(states[n].registry.bySession, states[n].conns)| <= c.maxTunnels
    ensures |OpenTunnels(states[n])| <= c.maxTunnels + 100
  {
    RunInv(c, states, labels, n);
    SubsetSize(OpenTunnels(states[n]), states[n].slots);
  }

  /** Installing a new session leaves the service and its source address within their limits,
      counting resumed tunnels too. */
  lemma NewTunnelFits(c: Config, states: seq<State>, labels: seq<Label>, n: nat)
    requires IsBehaviour(c, states, labels) && n < |labels|
    requires labels[n].InstallTunnel? && states[n].lock.Upserted? && !states[n].lock.resumed
    ensures |states[n + 1].registry.bySession| <= c.maxTunnels
    ensures |SessionsFrom(SourceIPs(states[n + 1]), states[n].lock.ip)| <= c.maxPerIP
  {
    hide Inv;
    RunInv(c, states, labels, n);
    assert StepAt(c, states, labels, n);
    NewTunnelFitsStep(c, states[n]);
  }

  lemma NewTunnelFitsStep(c: Config, s: State)
    requires Inv(c, s) && s.lock.Upserted? && !s.lock.resumed
    ensures |InstallStep(s).registry.bySession| <= c.maxTunnels
    ensures |SessionsFrom(SourceIPs(InstallStep(s)), s.lock.ip)| <= c.maxPerIP
  {
    hide IssuedOk, RowsOk, DistinctSubdomains, LockSessionOk, EndedOk, LiveOk, SlotsOk, ConnOk;
    var t := InstallStep(s);
    assert HoldsConn(s.lock, s.lock.conn);
    InstallAddsOneSource(s, t);
    RoomForOne(c, SourceIPs(s), t.registry.bySession, SourceIPs(t), s.lock.session.id, s.lock.ip);
  }

  lemma RoomForOne(c: Config, before: map<string, string>, bySession: map<string, nat>, after: map<string, string>, id: string, ip: string)
    requires HasRoom(c, before, ip) && bySession.Keys <= before.Keys + {id}
    requires forall other :: other in after && other != id ==> other in before && after[other] == before[other]
    ensures |bySession| <= c.maxTunnels && |SessionsFrom(after, ip)| <= c.maxPerIP
  {
    assert |before| == |before.Keys| && |bySession| == |bySession.Keys|;
    SubsetSize(bySession.Keys - {id}, before.Keys);
    SubsetSize(SessionsFrom(after, ip) - {id}, SessionsFrom(before, ip));
  }

  lemma InstallAddsOneSource(s: State, t: State)
    requires s.lock.Upserted? && t == InstallStep(s)
    requires forall id :: id in s.registry.bySession ==> s.registry.bySession[id] in s.conns
    requires s.lock.conn !in s.conns
    ensures forall id :: id in SourceIPs(t) && id != s.lock.session.id ==>
              id in SourceIPs(s) && SourceIPs(t)[id] == SourceIPs(s)[id]
  {
    InstallAges(s);
    var u := CloseSession(s, s.lock.session.id);
    assert forall r :: r in u ==> OlderTunnel(s.conns[r], u[r]);
  }

  // ---------------------------------------------------------------- expiry

  predicate LiveIn(s: State, r: nat) {
    r in s.conns && Live(s.conns[r])
  }

  /** A scan closes what was registered and overdue when it looked, for good. */
  lemma {:induction false} ScanClosesOverdue(c: Config, states: seq<State>, labels: seq<Label>, m: nat, n: nat, k: nat, r: nat)
    requires IsBehaviour(c, states, labels) && m < n <= k < |states|
    requires labels[m].CollectExpired? && r in states[m].registry.bySession.Values
    requires Overdue(c, states[m], r, labels[m].now)
    requires states[n].expiring == {}
    ensures !LiveIn(states[k], r)
  {
    PendingUntilClosed(c, states, labels, m, n, r);
    StaysDead(c, states, labels, n, k, r);
  }

  /** The connection number has been used: it has a tunnel, or will never get one. */
  predicate Settled(s: State, r: nat) {
    r < s.nextConn && (r in s.conns || (r !in s.slots && !HoldsConn(s.lock, r)))
  }

  lemma SettledStep(c: Config, s: State, l: Label, r: nat)
    requires Enabled(c, s, l) && Settled(s, r)
    ensures Settled(Apply(c, s, l), r)
  {
  }

  /** What is live was live before, for the same session. */
  predicate LiveSince(s: State, t: State, r: nat) {
    LiveIn(t, r) ==> LiveIn(s, r) && s.conns[r].session == t.conns[r].session
  }

  lemma DeadInstall(s: State, r: nat)
    requires LockConnOk(s.lock, s.slots, s.conns, s.issued) && s.lock.Upserted? && Settled(s, r)
    ensures LiveSince(s, InstallStep(s), r)
  {
    InstallAges(s);
    assert HoldsConn(s.lock, s.lock.conn);
    var u := CloseSession(s, s.lock.session.id);
    assert r in u ==> OlderTunnel(s.conns[r], u[r]);
  }

  lemma DeadAges(s: State, t: State, r: nat)
    requires Aged(s.registry, s.conns, t.registry, t.conns)
    ensures LiveSince(s, t, r)
  {
    assert r in t.conns ==> OlderTunnel(s.conns[r], t.conns[r]);
  }

  lemma DeadStep(c: Config, s: State, l: Label, r: nat)
    requires Inv(c, s) && Enabled(c, s, l) && Settled(s, r)
    ensures LiveSince(s, Apply(c, s, l), r)
  {
    hide Settled, LiveSince, LockConnOk, StoreInv, LimitInv, InstallStep;
    if l.InstallTunnel? {
      DeadInstall(s, r);
    } else {
      StepAges(c, s, l);
      DeadAges(s, Apply(c, s, l), r);
    }
  }

  lemma PendingStep(c: Config, s: State, l: Label, r: nat)
    requires Enabled(c, s, l) && r in s.expiring
    ensures LiveIn(Apply(c, s, l), r) ==> r in Apply(c, s, l).expiring
  {
    if !l.CollectExpired? && !l.CloseExpired? && !l.Restart? { assert Apply(c, s, l).expiring == s.expiring; }
  }

  /** Closed, or still on the list of the scan. */
  predicate Doomed(s: State, r: nat) {
    Settled(s, r) && (LiveIn(s, r) ==> r in s.expiring)
  }

  lemma DoomedStep(c: Config, s: State, l: Label, t: State, r: nat)
    requires Inv(c, s) && Enabled(c, s, l) && t == Apply(c, s, l) && Doomed(s, r)
    ensures Doomed(t, r) && (!LiveIn(s, r) ==> !LiveIn(t, r))
  {
    SettledStep(c, s, l, r);
    DeadStep(c, s, l, r);
    if r in s.expiring { PendingStep(c, s, l, r); }
  }

  lemma CollectDooms(c: Config, s: State, l: Label, t: State, r: nat)
    requires Inv(c, s) && l.CollectExpired? && Enabled(c, s, l) && t == Apply(c, s, l)
    requires r in s.registry.bySession.Values && Overdue(c, s, r, l.now)
    ensures Doomed(t, r)
  {
    hide StoreInv, LimitInv, RegisteredOk, LiveOk, EndedOk, LockConnOk;
  }

  lemma {:induction false} PendingUntilClosed(c: Config, states: seq<State>, labels: seq<Label>, m: nat, n: nat, r: nat)
    requires IsBehaviour(c, states, labels) && m < n < |states|
    requires labels[m].CollectExpired? && r in states[m].registry.bySession.Values
    requires Overdue(c, states[m], r, labels[m].now)
    ensures Doomed(states[n], r)
    decreases n
  {
    hide Apply, Enabled, Inv;
    RunInv(c, states, labels, n - 1);
    assert StepAt(c, states, labels, n - 1);
    if m + 1 < n {
      PendingUntilClosed(c, states, labels, m, n - 1, r);
      DoomedStep(c, states[n - 1], labels[n - 1], states[n], r);
    } else {
      CollectDooms(c, states[m], labels[m], states[n], r);
    }
  }

  lemma {:induction false} StaysDead(c: Config, states: seq<State>, labels: seq<Label>, n: nat, k: nat, r: nat)
    requires IsBehaviour(c, states, labels) && n <= k < |states|
    requires Doomed(states[n], r) && !LiveIn(states[n], r)
    ensures Doomed(states[k], r) && !LiveIn(states[k], r)
    decreases k
  {
    hide Apply, Enabled, Inv;
    if n < k {
      StaysDead(c, states, labels, n, k - 1, r);
      RunInv(c, states, labels, k - 1);
      assert StepAt(c, states, labels, k - 1);
      DoomedStep(c, states[k - 1], labels[k - 1], states[k], r);
    }
  }

  lemma {:induction false} RunClock(c: Config, states: seq<State>, labels: seq<Label>, m: nat, n: nat)
    requires IsRun(c, states, labels) && m <= n < |states|
    ensures states[m].clock <= states[n].clock
    decreases n
  {
    if m < n {
      RunClock(c, states, labels, m, n - 1);
      assert StepAt(c, states, labels, n - 1);
    }
  }

  lemma {:induction false} RunSettled(c: Config, states: seq<State>, labels: seq<Label>, m: nat, n: nat, r: nat)
    requires IsRun(c, states, labels) && m <= n < |states| && Settled(states[m], r)
    ensures Settled(states[n], r)
    decreases n
  {
    hide Apply, Enabled, Settled;
    if m < n {
      RunSettled(c, states, labels, m, n - 1, r);
      assert StepAt(c, states, labels, n - 1);
      SettledStep(c, states[n - 1], labels[n - 1], r);
    }
  }

  lemma {:induction false} RunLiveSince(c: Config, states: seq<State>, labels: seq<Label>, m: nat, n: nat, r: nat)
    requires IsBehaviour(c, states, labels) && m <= n < |states| && Settled(states[m], r)
    ensures LiveSince(states[m], states[n], r)
    decreases n
  {
    hide Apply, Enabled, Settled, Inv;
    if m < n {
      RunLiveSince(c, states, labels, m, n - 1, r);
      RunSettled(c, states, labels, m, n - 1, r);
      RunInv(c, states, labels, n - 1);
      assert StepAt(c, states, labels, n - 1);
      DeadStep(c, states[n - 1], labels[n - 1], r);
    }
  }

  /** A scan of the registry with the index of its look, and an index at which it has closed
      everything that it found. */
  datatype Scan = Scan(look: nat, done: nat)

  ghost predicate IsScan(states: seq<State>, labels: seq<Label>, scan: Scan) {
    && scan.look < scan.done < |states| && scan.look < |labels|
    && labels[scan.look].CollectExpired? && states[scan.done].expiring == {}
  }

  /** The second scan comes after the first, and is done within the gap, counted from the look
      of the first. */
  ghost predicate Follows(states: seq<State>, labels: seq<Label>, first: Scan, second: Scan, gap: int)
    requires IsScan(states, labels, first) && IsScan(states, labels, second)
  {
    first.done <= second.look && states[second.done].clock - labels[first.look].now <= gap
  }

  ghost predicate AreScans(states: seq<State>, labels: seq<Label>, scans: seq<Scan>, gap: int) {
    && (forall i :: 0 <= i < |scans| ==> IsScan(states, labels, scans[i]))
    && (forall i, j :: 0 <= i < j < |scans| && j == i + 1 ==> Follows(states, labels, scans[i], scans[j], gap))
  }

  lemma LiveIsRegistered(c: Config, s: State, r: nat)
    requires Inv(c, s) && LiveIn(s, r)
    ensures r in s.registry.bySession.Values && Settled(s, r)
  {
    assert Registered(s.registry, s.conns[r].session.id, r);
  }

  /** What is live after a scan that could see it was not overdue when the scan looked. */
  lemma SurvivorWasInTime(c: Config, states: seq<State>, labels: seq<Label>, scan: Scan, k: nat, r: nat)
    requires IsBehaviour(c, states, labels) && IsScan(states, labels, scan)
    requires scan.done <= k < |states| && LiveIn(states[scan.look], r) && LiveIn(states[k], r)
    ensures labels[scan.look].now < states[k].conns[r].session.startedAt + c.lifetime
  {
    hide Inv, Settled, Apply, Enabled;
    RunInv(c, states, labels, scan.look);
    LiveIsRegistered(c, states[scan.look], r);
    RunLiveSince(c, states, labels, scan.look, k, r);
    if Overdue(c, states[scan.look], r, labels[scan.look].now) {
      ScanClosesOverdue(c, states, labels, scan.look, scan.done, k, r);
    }
  }

  /** If every scan is done within a certain time of the look of the one before, no tunnel that
      was live when the first scan looked ever overruns its lifetime by that time. */
  lemma {:induction false} OverrunBound(c: Config, states: seq<State>, labels: seq<Label>, scans: seq<Scan>, gap: int, k: nat, r: nat)
    requires IsBehaviour(c, states, labels) && |scans| >= 2 && AreScans(states, labels, scans, gap)
    requires scans[0].done <= k <= scans[|scans| - 1].done && k < |states|
    requires LiveIn(states[scans[0].look], r) && LiveIn(states[k], r)
    ensures states[k].clock - (states[k].conns[r].session.startedAt + c.lifetime) < gap
  {
    hide Inv, Settled, Apply, Enabled;
    var last := |scans| - 1;
    assert Follows(states, labels, scans[last - 1], scans[last], gap);
    if k < scans[last - 1].done {
      OverrunBound(c, states, labels, scans[..last], gap, k, r);
    } else {
      LooksInOrder(states, labels, scans, gap, last - 1);
      RunInv(c, states, labels, scans[0].look);
      LiveIsRegistered(c, states[scans[0].look], r);
      RunSettled(c, states, labels, scans[0].look, scans[last - 1].look, r);
      RunLiveSince(c, states, labels, scans[last - 1].look, k, r);
      SurvivorWasInTime(c, states, labels, scans[last - 1], k, r);
      RunClock(c, states, labels, k, scans[last].done);
    }
  }

  lemma {:induction false} LooksInOrder(states: seq<State>, labels: seq<Label>, scans: seq<Scan>, gap: int, i: nat)
    requires AreScans(states, labels, scans, gap) && i < |scans|
    ensures scans[0].look <= scans[i].look && scans[0].done <= scans[i].done
  {
    if i > 0 {
      LooksInOrder(states, labels, scans, gap, i - 1);
      assert Follows(states, labels, scans[i - 1], scans[i], gap);
    }
  }
}
