/** What the control plane can always do: finish or refuse a registration, revoke a session, complete
    a scan, and let a lost connection go. */
module Progress {
  import opened Common
  import opened Secrets
  import opened Sessions
  import opened Auth
  import opened Registry
  import opened ControlPlane
  import opened Invariant
  import opened Reachability
  import opened Guarantees

  /** Whoever holds the registration lock can give it back: a refusal leaves all else as it was. */
  lemma LockIsReleased(c: Config, init: State, s: State) returns (t: State)
    requires Reaches(c, init, s)
    ensures Reaches(c, init, t) && t.lock.Free?
    ensures s.lock.Free? || s.lock.Admitted? || s.lock.Validated? || s.lock.Resolved? ==> t == s.(lock := Free)
    ensures s.lock.Upserted? ==> t == InstallStep(s)
    ensures s.lock.Revoking? ==> t == s.(conns := CloseSession(s, s.lock.id), lock := Free)
  {
    hide Reaches, InstallStep, CloseSession;
    if s.lock.Free? {
      t := s;
    } else if s.lock.Upserted? {
      t := InstallStep(s);
      ReachesNext(c, init, s, InstallTunnel);
      InstallFrees(s);
    } else if s.lock.Revoking? {
      t := s.(conns := CloseSession(s, s.lock.id), lock := Free);
      ReachesNext(c, init, s, CloseRevoked);
    } else {
      t := s.(lock := Free);
      ReachesNext(c, init, s, Refuse);
    }
  }

  lemma InstallFrees(s: State)
    requires s.lock.Upserted?
    ensures InstallStep(s).lock.Free?
  {
  }

  /** A stored hosted session can be revoked whenever no registration is under way. Its row is then
      blanked and marked ended, and its connection closed. */
  lemma RevokeTakesEffect(c: Config, init: State, s: State, id: string) returns (t: State)
    requires Reaches(c, init, s) && s.lock.Free? && id in s.rows && s.rows[id].hosted
    ensures Reaches(c, init, t) && t.lock.Free? && id in t.revoked && t.clock == s.clock && t.registry == s.registry
    ensures id in t.rows
    ensures t.rows == s.rows[id := s.rows[id].(authHash := [], tunnelHash := [], endedAt := Some(s.clock))]
    ensures id in s.registry.bySession && s.registry.bySession[id] in s.conns ==>
              s.registry.bySession[id] in t.conns && !t.conns[s.registry.bySession[id]].open
  {
    hide Reaches;
    ReachesNext(c, init, s, RevokeRow(id, s.clock));
    var u := Apply(c, s, RevokeRow(id, s.clock));
    ReachesNext(c, init, u, CloseRevoked);
    t := Apply(c, u, CloseRevoked);
  }

  /** The tunnels of a set, closed. */
  function Closed(conns: Tunnels, which: set<nat>): Tunnels {
    map r | r in conns :: if r in which then conns[r].(open := false) else conns[r]
  }

  lemma CloseOne(conns: Tunnels, r: nat, rest: set<nat>)
    ensures Closed(CloseConn(conns, r), rest - {r}) == Closed(conns, rest + {r})
  {
  }

  lemma ClosesOne(c: Config, init: State, s: State, r: nat)
    requires Reaches(c, init, s) && r in s.expiring
    ensures Reaches(c, init, s.(conns := CloseConn(s.conns, r), expiring := s.expiring - {r}))
  {
    hide Reaches, CloseConn;
    ReachesNext(c, init, s, CloseExpired(r));
  }

  lemma {:induction false} ClosesAll(c: Config, init: State, s: State)
    requires Reaches(c, init, s)
    ensures Reaches(c, init, s.(conns := Closed(s.conns, s.expiring), expiring := {}))
    decreases |s.expiring|
  {
    hide Reaches, CloseConn;
    if s.expiring == {} {
      assert Closed(s.conns, {}) == s.conns;
      assert s.(conns := Closed(s.conns, s.expiring), expiring := {}) == s;
    } else {
      var r :| r in s.expiring;
      ClosesOne(c, init, s, r);
      var t := s.(conns := CloseConn(s.conns, r), expiring := s.expiring - {r});
      ClosesAll(c, init, t);
      CloseOne(s.conns, r, s.expiring);
      assert s.expiring + {r} == s.expiring;
    }
  }

  /** A scan can always be completed: it closes exactly the registered tunnels that have reached
      their lifetime, and does nothing else. */
  lemma ScanCompletes(c: Config, init: State, s: State) returns (t: State)
    requires Reaches(c, init, s) && s.expiring == {}
    ensures Reaches(c, init, t)
    ensures t == s.(conns := t.conns) && t.conns.Keys == s.conns.Keys
    ensures forall r :: r in s.conns ==>
              t.conns[r] == if r in s.registry.bySession.Values && s.clock >= s.conns[r].session.startedAt + c.lifetime
                            then s.conns[r].(open := false) else s.conns[r]
  {
    hide Reaches;
    ReachesNext(c, init, s, CollectExpired(s.clock));
    var u := Apply(c, s, CollectExpired(s.clock));
    ClosesAll(c, init, u);
    t := u.(conns := Closed(u.conns, u.expiring), expiring := {});
  }

  /** A closed connection can always be let go: its tunnel is removed, its session marked ended if it
      has not been taken over, and its slot given back. */
  lemma ConnectionGoes(c: Config, init: State, s: State, r: nat) returns (t: State)
    requires Reaches(c, init, s) && InPhase(s, r, Reading) && r in s.slots && !HoldsConn(s.lock, r)
    requires s.conns[r].session.id in s.rows
    ensures Reaches(c, init, t) && t.clock == s.clock && t.lock == s.lock
    ensures r !in t.slots && t.slots == s.slots - {r}
    ensures !Registered(t.registry, s.conns[r].session.id, r)
    ensures Registered(s.registry, s.conns[r].session.id, r) ==>
              && t.registry == Registry(s.registry.tunnels - {s.conns[r].session.subdomain}, s.registry.bySession - {s.conns[r].session.id})
              && t.rows == s.rows[s.conns[r].session.id := s.rows[s.conns[r].session.id].(endedAt := Some(s.clock))]
    ensures !Registered(s.registry, s.conns[r].session.id, r) ==> t.registry == s.registry && t.rows == s.rows
  {
    hide Reaches;
    ReachesNext(c, init, s, Drop(r, true));
    var u := s.(conns := s.conns[r := s.conns[r].(phase := Closing, open := false)]);
    ReachesNext(c, init, u, RemoveTunnel(r));
    var v := RemoveStep(u, r);
    if Registered(s.registry, s.conns[r].session.id, r) {
      EndsToo(c, init, v, r);
      v := EndStep(v, r, s.clock);
    }
    LetsGo(c, init, v, r);
    t := v.(slots := v.slots - {r});
  }

  lemma EndsToo(c: Config, init: State, s: State, r: nat)
    requires Reaches(c, init, s) && r in s.conns && s.conns[r].phase == Ending(s.clock)
    ensures Reaches(c, init, EndStep(s, r, s.clock))
  {
    hide Reaches, EndStep;
    ReachesNext(c, init, s, EndRow(r, s.clock));
  }

  lemma LetsGo(c: Config, init: State, s: State, r: nat)
    requires Reaches(c, init, s) && r in s.conns && s.conns[r].phase.Done? && r in s.slots && !HoldsConn(s.lock, r)
    ensures Reaches(c, init, s.(slots := s.slots - {r}))
  {
    hide Reaches;
    ReachesNext(c, init, s, Hangup(r));
  }
}
