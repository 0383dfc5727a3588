/** The routes of the control plane over whole runs: what a routed name leads to, exactly when a
    route is lost, and why the two maps come to disagree. */
module Routes {
  import opened Common
  import opened Secrets
  import opened Sessions
  import opened Auth
  import opened Registry
  import opened ControlPlane
  import opened Invariant
  import opened Guarantees
  import opened Exactness

  predicate Routed(s: State, name: string, r: nat) {
    name in s.registry.tunnels && s.registry.tunnels[name] == r
  }

  lemma InstallRoutes(c: Config, s: State)
    requires Inv(c, s) && NamesAgree(s) && s.lock.Upserted?
    ensures NamesAgree(InstallStep(s))
  {
    InstallKeepsName(c, s);
    InstallNamesAgree(s, InstallStep(s));
  }

  lemma RemoveRoutes(s: State, conn: nat)
    requires NamesAgree(s) && conn in s.conns
    ensures NamesAgree(RemoveStep(s, conn))
  {
  }

  lemma AgedRoutes(s: State, t: State)
    requires NamesAgree(s) && t.registry == s.registry && t.conns.Keys == s.conns.Keys
    requires Aged(s.registry, s.conns, t.registry, t.conns)
    ensures NamesAgree(t)
  {
    assert forall r :: r in t.conns ==> OlderTunnel(s.conns[r], t.conns[r]);
  }

  lemma RoutesStep(c: Config, s: State, l: Label)
    requires Inv(c, s) && NamesAgree(s) && Enabled(c, s, l)
    ensures var t := Apply(c, s, l); NamesAgree(t)
  {
    hide StoreInv, TunnelInv, LimitInv, InstallStep, RemoveStep, Aged;
    if l.InstallTunnel? {
      InstallRoutes(c, s);
    } else if l.RemoveTunnel? {
      RemoveRoutes(s, l.conn);
    } else if !l.Restart? {
      StepAges(c, s, l);
      AgedRoutes(s, Apply(c, s, l));
    }
  }

  /** One half of the agreement of the maps holds in every run: a route leads to the registered
      tunnel of a session of that name, whatever names were drawn. So no request reaches a tunnel
      that has been superseded. */
  lemma {:induction false} RunRoutes(c: Config, states: seq<State>, labels: seq<Label>, n: nat)
    requires IsBehaviour(c, states, labels) && n < |states|
    ensures NamesAgree(states[n])
  {
    hide Apply, Enabled, Inv, NamesAgree;
    if n == 0 {
      InitRoutes(states[0]);
    } else {
      RunRoutes(c, states, labels, n - 1);
      RunInv(c, states, labels, n - 1);
      assert StepAt(c, states, labels, n - 1);
      RoutesStep(c, states[n - 1], labels[n - 1]);
    }
  }

  lemma InitRoutes(s: State)
    requires Init(s)
    ensures NamesAgree(s)
  {
  }

  // ----------------------------------------------------- when a route is lost

  /** The steps that take a name's route away: a restart, an installation under the name, and the
      removal of a registered tunnel of that name. */
  predicate TakesRoute(s: State, l: Label, name: string) {
    match l
    case Restart => true
    case InstallTunnel => s.lock.Upserted? && s.lock.session.subdomain == name
    case RemoveTunnel(q) =>
      q in s.conns && s.conns[q].session.subdomain == name && Registered(s.registry, s.conns[q].session.id, q)
    case _ => false
  }

  lemma RouteStep(c: Config, s: State, l: Label, name: string, r: nat)
    requires Inv(c, s) && NamesAgree(s) && Enabled(c, s, l) && Routed(s, name, r)
    ensures Routed(Apply(c, s, l), name, r) <==> !TakesRoute(s, l, name)
  {
    hide StoreInv, LimitInv, ConnsOk, RegisteredOk, LiveOk, EndedOk;
    if l.InstallTunnel? {
      assert HoldsConn(s.lock, s.lock.conn);
    } else if !l.RemoveTunnel? && !l.Restart? {
      RegistryKept(c, s, l);
    }
  }

  lemma RegistryKept(c: Config, s: State, l: Label)
    requires Enabled(c, s, l) && !l.InstallTunnel? && !l.RemoveTunnel? && !l.Restart?
    ensures Apply(c, s, l).registry == s.registry
  {
  }

  /** A routed tunnel stays routed for as long as no step takes its route, and no longer. In
      particular the removal of a connection that has been superseded takes no route. */
  lemma RouteLastsIff(c: Config, states: seq<State>, labels: seq<Label>, m: nat, n: nat, name: string, r: nat)
    requires IsBehaviour(c, states, labels) && m <= n < |states| && Routed(states[m], name, r)
    ensures (forall k :: m <= k <= n ==> Routed(states[k], name, r))
       <==> (forall k :: m <= k < n ==> !TakesRoute(states[k], labels[k], name))
  {
    hide Apply, Enabled, Inv, NamesAgree, Routed, TakesRoute;
    if forall k :: m <= k <= n ==> Routed(states[k], name, r) {
      forall k | m <= k < n ensures !TakesRoute(states[k], labels[k], name) {
        assert Routed(states[k], name, r) && Routed(states[k + 1], name, r);
        RouteAt(c, states, labels, k, name, r);
      }
    }
    if forall k :: m <= k < n ==> !TakesRoute(states[k], labels[k], name) {
      forall k | m <= k <= n ensures Routed(states[k], name, r) {
        RouteLasts(c, states, labels, m, k, name, r);
      }
    }
  }

  lemma RouteAt(c: Config, states: seq<State>, labels: seq<Label>, k: nat, name: string, r: nat)
    requires IsBehaviour(c, states, labels) && k < |labels| && Routed(states[k], name, r)
    ensures Routed(states[k + 1], name, r) <==> !TakesRoute(states[k], labels[k], name)
  {
    hide Apply, Enabled, Inv, NamesAgree, Routed, TakesRoute;
    RunInv(c, states, labels, k);
    RunRoutes(c, states, labels, k);
    assert StepAt(c, states, labels, k);
    RouteStep(c, states[k], labels[k], name, r);
  }

  lemma {:induction false} RouteLasts(c: Config, states: seq<State>, labels: seq<Label>, m: nat, n: nat, name: string, r: nat)
    requires IsBehaviour(c, states, labels) && m <= n < |states| && Routed(states[m], name, r)
    requires forall k :: m <= k < n ==> !TakesRoute(states[k], labels[k], name)
    ensures Routed(states[n], name, r)
    decreases n
  {
    hide Routed, TakesRoute;
    if m < n {
      RouteLasts(c, states, labels, m, n - 1, name, r);
      RouteAt(c, states, labels, n - 1, name, r);
    }
  }

  /** A removal that takes the route of a tunnel is the tunnel's own, or that of a tunnel which is
      registered but has lost its name to it. While the maps agree it is the tunnel's own. */
  lemma RemovalTakesRoute(c: Config, states: seq<State>, labels: seq<Label>, n: nat, name: string, r: nat, q: nat)
    requires IsBehaviour(c, states, labels) && n < |labels| && Routed(states[n], name, r)
    requires labels[n] == RemoveTunnel(q) && TakesRoute(states[n], labels[n], name)
    ensures q != r ==>
              var s := states[n];
              && r in s.conns && s.conns[q].session.id != s.conns[r].session.id
              && Registered(s.registry, s.conns[q].session.id, q) && Registered(s.registry, s.conns[r].session.id, r)
              && !Agree(s)
  {
    RunRoutes(c, states, labels, n);
  }

  // ------------------------------------------- why the maps come to disagree

  /** The prune deletes the row of a session that is registered, or stored and about to be. */
  ghost predicate PrunesServed(s: State, l: Label) {
    l.Prune? && exists id :: id in s.rows && Stale(s.rows[id], l.cutoff) && Serving(s, id)
  }

  ghost predicate ServedIsStored(s: State) {
    forall id :: Serving(s, id) ==> id in s.rows
  }

  lemma ServedStep(c: Config, s: State, l: Label)
    requires ServedIsStored(s) && Enabled(c, s, l) && !PrunesServed(s, l)
    ensures ServedIsStored(Apply(c, s, l))
  {
    var t := Apply(c, s, l);
    assert forall id :: Serving(t, id) ==> Serving(s, id) || (l.UpsertRow? && InUpsert(t.lock, id));
  }

  /** Names are distinct among the rows, so a name that routes belongs to the session stored
      under it. */
  lemma StoredNamesClear(c: Config, s: State)
    requires Inv(c, s) && NamesAgree(s) && ServedIsStored(s) && s.lock.Upserted?
    ensures NameClear(s)
  {
    hide IssuedOk, RowsOk, LockConnOk, ConnsOk, RegisteredOk, LiveOk, EndedOk, LimitInv;
    var id := s.lock.session.id;
    var name := s.lock.session.subdomain;
    assert Serving(s, id);
    if name in s.registry.tunnels {
      var other := s.conns[s.registry.tunnels[name]].session.id;
      assert Serving(s, other);
      RegisteredName(c, s, other);
      StoredName(c, s, other);
      StoredName(c, s, id);
      IssueFacts(c, s, id, |s.issued[id]| - 1);
    }
  }

  lemma StoredName(c: Config, s: State, id: string)
    requires StoreInv(c, s) && id in s.rows && id in s.issued && s.issued[id] != []
    ensures s.rows[id].hosted && s.rows[id].subdomain == s.issued[id][0].session.subdomain
  {
    IssueFacts(c, s, id, |s.issued[id]| - 1);
  }

  /** If no prune in a run deletes the row of a session that is being served, the maps agree in
      every state, however names are drawn. */
  lemma UnprunedMapsAgree(c: Config, states: seq<State>, labels: seq<Label>)
    requires IsBehaviour(c, states, labels)
    requires forall n :: 0 <= n < |labels| ==> !PrunesServed(states[n], labels[n])
    ensures forall n :: 0 <= n < |states| ==> Agree(states[n])
  {
    hide Inv, Apply, Enabled, NameClear, Agree, NamesAgree, ServedIsStored, PrunesServed;
    forall n | 0 <= n < |labels| && labels[n].InstallTunnel?
      ensures NameClear(states[n])
    {
      RunInv(c, states, labels, n);
      RunRoutes(c, states, labels, n);
      RunServed(c, states, labels, n);
      assert StepAt(c, states, labels, n);
      InstallIs(c, states[n], states[n + 1]);
      StoredNamesClear(c, states[n]);
    }
    RegistryAgreementIff(c, states, labels);
  }

  lemma {:induction false} RunServed(c: Config, states: seq<State>, labels: seq<Label>, n: nat)
    requires IsBehaviour(c, states, labels) && n < |states|
    requires forall k :: 0 <= k < |labels| ==> !PrunesServed(states[k], labels[k])
    ensures ServedIsStored(states[n])
  {
    hide Apply, Enabled, PrunesServed;
    if n > 0 {
      RunServed(c, states, labels, n - 1);
      assert StepAt(c, states, labels, n - 1);
      ServedStep(c, states[n - 1], labels[n - 1]);
    }
  }
}
