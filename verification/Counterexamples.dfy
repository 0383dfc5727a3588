/** Runs that show where tempting guarantees fail: a live session can be marked ended, once its row
    has been pruned its public name can be handed to another session, which can then lose its
    route, resumes can take server and address past their limits, and a claimed cookie may open
    nothing. The modules Guarantees, Exactness and Routes say exactly when each one holds. The rate
    limiter accepts every admission of these runs, and each prune comes right after its scan. */
module Counterexamples {
  import opened Common
  import opened Secrets
  import opened Sessions
  import opened Auth
  import opened Registry
  import opened ControlPlane
  import opened Invariant
  import opened Reachability
  import opened Guarantees
  import opened Exactness
  import opened Overload
  import RateLimits

  // ------------------------------------------------------------ the scenario

  const A1: Session := Session("a", "abc", 3000, MINUTE, [1], [2], true)
  const A2: Session := Session("a", "abc", 3000, MINUTE, [3], [4], true)
  const ISSUED_A: seq<Issue> := [Issue(A1, false, MINUTE), Issue(A2, true, MINUTE)]

  /** Session a, registered on connection 0. */
  function FirstUp(): State {
    State(MINUTE, map["a" := StoredRow(A1)], Registry(map["abc" := 0], map["a" := 0]),
          map[0 := Tunnel(A1, "x", false, 0, true, Reading)], Free, {0}, 1, {},
          map["a" := [Issue(A1, false, MINUTE)]],
          map[[1] := Origin("a", 0, true), [2] := Origin("a", 0, false)], {}, map[],
          [RateLimits.Call(MINUTE, "x")])
  }

  /** Connection 0 has dropped and is unregistered; its EndSession is still to come. */
  function FirstGone(): State {
    FirstUp().(registry := Registry(map[], map[]),
               conns := map[0 := Tunnel(A1, "x", false, 0, false, Ending(MINUTE))])
  }

  /** Session a has been resumed on connection 1. */
  function SecondUp(): State {
    FirstGone().(rows := map["a" := StoredRow(A2)],
                 registry := Registry(map["abc" := 1], map["a" := 1]),
                 conns := map[0 := Tunnel(A1, "x", false, 0, false, Ending(MINUTE)),
                              1 := Tunnel(A2, "x", true, 1, true, Reading)],
                 slots := {0, 1}, nextConn := 2,
                 issued := map["a" := ISSUED_A],
                 origin := map[[1] := Origin("a", 0, true), [2] := Origin("a", 0, false),
                               [3] := Origin("a", 1, true), [4] := Origin("a", 1, false)],
                 admitted := [RateLimits.Call(MINUTE, "x"), RateLimits.Call(MINUTE, "x")])
  }

  /** The delayed EndSession of connection 0 lands on the row of the live session. */
  function MarkedEnded(): State {
    SecondUp().(rows := map["a" := StoredRow(A2).(endedAt := Some(MINUTE))],
                conns := map[0 := Tunnel(A1, "x", false, 0, false, Done),
                             1 := Tunnel(A2, "x", true, 1, true, Reading)],
                endedBy := map["a" := ByConnection(0)])
  }

  /** After the retention period a scan finds nothing overdue, and the row is pruned. The tunnel is
      still being served. */
  function RowPruned(c: Config): State {
    MarkedEnded().(clock := MINUTE + Max(c.retention, 0) + 1, rows := map[])
  }

  function Max(a: int, b: int): int {
    if a < b then b else a
  }

  lemma AfterFirst()
    ensures AfterRegistration(Start(), "x", A1, false, MINUTE) == FirstUp()
  {
    var u := UpsertStep(Resolving(Start(), "x", A1, false, MINUTE));
    assert u.rows == FirstUp().rows;
    assert [] + [Issue(A1, false, MINUTE)] == [Issue(A1, false, MINUTE)];
    assert u.issued == FirstUp().issued;
    assert u.origin == FirstUp().origin;
  }

  lemma AfterResume()
    ensures AfterRegistration(FirstGone(), "x", A2, true, MINUTE) == SecondUp()
  {
    var u := UpsertStep(Resolving(FirstGone(), "x", A2, true, MINUTE));
    assert u.rows == SecondUp().rows;
    assert [Issue(A1, false, MINUTE)] + [Issue(A2, true, MINUTE)] == ISSUED_A;
    assert u.issued == SecondUp().issued;
    assert u.origin == SecondUp().origin;
    assert u.slots == SecondUp().slots;
    assert Place(u).conns == SecondUp().conns;
    assert Place(u).registry == SecondUp().registry;
  }

  lemma ReachFirstUp(c: Config)
    requires ValidConfig(c)
    ensures Reaches(c, Start(), FirstUp())
  {
    ReachesItself(c, Start());
    assert SourceIPs(Start()) == map[];
    RegisterNew(c, Start(), Start(), "x", Registration("", 3000, [], true), A1, MINUTE);
    AfterFirst();
  }

  lemma DropsAndRemoves(c: Config)
    ensures Enabled(c, FirstUp(), Drop(0, true))
    ensures var t := Apply(c, FirstUp(), Drop(0, true));
            Enabled(c, t, RemoveTunnel(0)) && Apply(c, t, RemoveTunnel(0)) == FirstGone()
  {
  }

  lemma ReachFirstGone(c: Config)
    requires ValidConfig(c)
    ensures Reaches(c, Start(), FirstGone())
  {
    hide Reaches, Apply, Enabled, FirstUp, FirstGone;
    ReachFirstUp(c);
    DropsAndRemoves(c);
    ReachesNext(c, Start(), FirstUp(), Drop(0, true));
    ReachesNext(c, Start(), Apply(c, FirstUp(), Drop(0, true)), RemoveTunnel(0));
  }

  lemma ReachSecondUp(c: Config)
    requires ValidConfig(c)
    ensures Reaches(c, Start(), SecondUp())
  {
    ReachFirstGone(c);
    var s := FirstGone();
    ResumeGate(s.rows, MINUTE, c.lifetime, "a", [2]);
    Resume(c, Start(), s, "x", Registration("a", 3000, [2], true), A2, MINUTE);
    AfterResume();
  }

  lemma EndLandsLate(c: Config)
    ensures Enabled(c, SecondUp(), EndRow(0, MINUTE)) && Apply(c, SecondUp(), EndRow(0, MINUTE)) == MarkedEnded()
  {
  }

  lemma ReachMarkedEnded(c: Config)
    requires ValidConfig(c)
    ensures Reaches(c, Start(), MarkedEnded())
  {
    hide Reaches, Apply, Enabled, SecondUp, MarkedEnded;
    ReachSecondUp(c);
    EndLandsLate(c);
    ReachesNext(c, Start(), SecondUp(), EndRow(0, MINUTE));
  }

  /** A session whose connection is live can be marked ended without having been revoked. */
  lemma LiveSessionMarkedEnded(c: Config)
    requires ValidConfig(c)
    ensures Init(Start()) && Reaches(c, Start(), MarkedEnded()) && RateLimits.WithinRates(MarkedEnded().admitted)
    ensures var s := MarkedEnded();
            Registered(s.registry, "a", 1) && Live(s.conns[1]) && s.rows["a"].endedAt.Some? && "a" !in s.revoked
  {
    ReachMarkedEnded(c);
    RateLimits.FewCalls(MarkedEnded().admitted);
  }

  function Waited(c: Config): State {
    MarkedEnded().(clock := MINUTE + Max(c.retention, 0))
  }

  lemma ScanFindsNothing(c: Config)
    requires ValidConfig(c) && c.retention < c.lifetime
    ensures var scan := CollectExpired(Waited(c).clock);
            Enabled(c, Waited(c), scan) && Apply(c, Waited(c), scan) == Waited(c)
  {
  }

  lemma PrunesTheRow(c: Config)
    requires ValidConfig(c)
    ensures var t := Waited(c).(clock := Waited(c).clock + 1);
            Enabled(c, t, Prune(MINUTE + 1)) && Apply(c, t, Prune(MINUTE + 1)) == RowPruned(c)
  {
    assert PruneSessions(MarkedEnded().rows, MINUTE + 1) == map[];
  }

  /** Each tick of the retention loop scans, then prunes. */
  lemma ReachRowPruned(c: Config)
    requires ValidConfig(c) && c.retention < c.lifetime
    ensures Reaches(c, Start(), RowPruned(c))
  {
    hide Reaches, MarkedEnded, RowPruned, PruneSessions;
    ReachMarkedEnded(c);
    ScanFindsNothing(c);
    PrunesTheRow(c);
    ReachesNext(c, Start(), MarkedEnded(), Tick(c.retention));
    MarkedEndedClock();
    ReachesNext(c, Start(), Waited(c), CollectExpired(Waited(c).clock));
    ReachesNext(c, Start(), Waited(c), Tick(1));
    ReachesNext(c, Start(), Waited(c).(clock := Waited(c).clock + 1), Prune(MINUTE + 1));
  }

  lemma MarkedEndedClock()
    ensures MarkedEnded().clock == MINUTE
  {
  }

  /** With room for two tunnels, and a retention shorter than the lifetime, the name of a live
      session can be drawn again once its row is pruned. Both sessions are then registered, but
      the name routes only to the second. */
  lemma NameHandedOver(c: Config) returns (s: State)
    requires ValidConfig(c) && c.maxTunnels >= 2 && c.retention < c.lifetime
    ensures Init(Start()) && Reaches(c, Start(), s) && !Agree(s)
    ensures |s.admitted| == 3 && RateLimits.WithinRates(s.admitted)
    ensures s.registry.bySession == map["a" := 1, "b" := 2] && s.registry.tunnels == map["abc" := 2]
    ensures 1 in s.conns && Live(s.conns[1]) && s.conns[1].session == A2
    ensures 2 in s.conns && Live(s.conns[2]) && s.conns[2].session.id == "b"
  {
    hide Reaches, HasRoom, Agree, AfterRegistration, CanRegister, RowPruned;
    ReachRowPruned(c);
    var t := RowPruned(c);
    RowPrunedFields(c);
    var session := Session("b", "abc", 3000, t.clock, [5], [6], true);
    RoomForSecond(c, t);
    FreshForSecond(c, t, session);
    RegisterNew(c, Start(), t, "y", Registration("", 3000, [], true), session, t.clock);
    s := AfterRegistration(t, "y", session, false, t.clock);
    AfterSecond(t, session);
    RateLimits.FewCalls(s.admitted);
  }

  lemma RowPrunedFields(c: Config)
    requires ValidConfig(c)
    ensures var t := RowPruned(c);
            && t.nextConn == 2 && t.registry == SecondUp().registry && t.conns == MarkedEnded().conns
            && t.lock.Free? && t.rows == map[] && t.slots == {0, 1} && t.conns.Keys == {0, 1}
            && t.issued.Keys == {"a"} && t.origin.Keys == {[1], [2], [3], [4]}
            && t.conns[1].sourceIP == "x" && t.registry.bySession == map["a" := 1]
            && t.clock > MINUTE && t.admitted == [RateLimits.Call(MINUTE, "x"), RateLimits.Call(MINUTE, "x")]
  {
  }

  lemma RoomForSecond(c: Config, t: State)
    requires ValidConfig(c) && c.maxTunnels >= 2 && t == RowPruned(c)
    ensures HasRoom(c, SourceIPs(t), "y")
  {
    hide RowPruned, SecondUp, MarkedEnded;
    RowPrunedFields(c);
    assert SourceIPs(t) == map["a" := "x"];
    assert SessionsFrom(SourceIPs(t), "y") == {};
  }

  lemma FreshForSecond(c: Config, t: State, session: Session)
    requires ValidConfig(c) && t == RowPruned(c)
    requires session == Session("b", "abc", 3000, t.clock, [5], [6], true)
    ensures CanRegister(c, t, session)
    ensures session.id !in t.issued && session.id !in t.rows && !SubdomainExists(t.rows, session.subdomain)
  {
    hide RowPruned, SecondUp, MarkedEnded;
    RowPrunedFields(c);
    assert forall secret: Bytes :: secret in t.origin ==> |secret| == 1 && secret[0] < 5;
    assert session.authToken[0] == 5 && session.tunnelToken[0] == 6;
    assert "b"[0] != "a"[0];
  }

  lemma AfterSecond(t: State, session: Session)
    requires session.id == "b" && session.subdomain == "abc" && t.nextConn == 2
    requires t.registry == SecondUp().registry && t.conns == MarkedEnded().conns
    ensures var s := AfterRegistration(t, "y", session, false, t.clock);
            && s.registry.bySession == map["a" := 1, "b" := 2] && s.registry.tunnels == map["abc" := 2]
            && 1 in s.conns && s.conns[1] == MarkedEnded().conns[1]
            && 2 in s.conns && Live(s.conns[2]) && s.conns[2].session == session
            && !Agree(s) && s.admitted == Called(t, "y")
  {
    hide Agree;
    assert "b"[0] != "a"[0];
    Disagrees(AfterRegistration(t, "y", session, false, t.clock));
  }

  lemma Disagrees(s: State)
    requires "a" in s.registry.bySession && s.registry.bySession["a"] == 1 && 1 in s.conns
    requires s.conns[1].session.subdomain == "abc" && s.registry.tunnels == map["abc" := 2]
    ensures !Agree(s)
  {
  }

  // ------------------------------------------------ resumes skip admission

  /** If sessions live long enough for one to register each minute, a reconnect can take the full
      server past its maximum of tunnels, all of them live. */
  lemma ResumesExceedCapacity(c: Config) returns (s: State)
    requires ValidConfig(c) && c.maxTunnels * MINUTE < c.lifetime
    ensures Init(Start()) && Reaches(c, Start(), s) && RateLimits.WithinRates(s.admitted)
    ensures !WithinCapacity(c, s) && |OpenTunnels(s)| == c.maxTunnels + 1
  {
    hide OpenTunnels, Reaches;
    s := OneTooMany(c, c.maxTunnels, false);
  }

  /** Likewise for an address. */
  lemma ResumesOverfillAddress(c: Config) returns (s: State)
    requires ValidConfig(c) && c.maxPerIP < c.maxTunnels + EXTRA_SLOTS && (c.maxPerIP + 1) * MINUTE < c.lifetime
    ensures Init(Start()) && Reaches(c, Start(), s) && RateLimits.WithinRates(s.admitted)
    ensures !WithinAddress(c, s, "x") && |OpenTunnels(s)| == c.maxPerIP + 1
  {
    hide OpenTunnels, Reaches, SourceIPs, SessionsFrom;
    if c.maxPerIP <= c.maxTunnels {
      s := OneTooMany(c, c.maxPerIP, true);
    } else {
      s := Overloaded(c, c.maxPerIP + 1);
    }
  }

  /** Resumes can take the server as far as Guarantees.CapacityBounds allows, if sessions live long
      enough and EndSession lags behind. */
  lemma SlotBoundIsTight(c: Config) returns (s: State)
    requires ValidConfig(c) && (c.maxTunnels + 100) * MINUTE < c.lifetime
    ensures Init(Start()) && Reaches(c, Start(), s) && RateLimits.WithinRates(s.admitted)
    ensures |OpenTunnels(s)| == c.maxTunnels + 100
  {
    hide OpenTunnels, Reaches, SourceIPs, SessionsFrom;
    s := Overloaded(c, c.maxTunnels + EXTRA_SLOTS);
  }

  // ------------------------------------------------- a cookie that opens nothing

  /** Session a is being resumed: the new secrets are stored, the old tunnel still registered. */
  function HalfResumed(): State {
    UpsertStep(Resolving(FirstUp(), "x", A2, true, MINUTE))
  }

  lemma ReachHalfResumed(c: Config)
    requires ValidConfig(c)
    ensures Reaches(c, Start(), HalfResumed())
  {
    hide Reaches, UpsertStep;
    ReachFirstUp(c);
    var s := FirstUp();
    ReachesNext(c, Start(), s, Accept);
    ResumeGate(s.rows, MINUTE, c.lifetime, "a", [2]);
    FreshForResume();
    Resolves(c, Start(), s, "x", Registration("a", 3000, [2], true), A2, true, MINUTE);
    ReachesNext(c, Start(), Resolving(s, "x", A2, true, MINUTE), UpsertRow);
  }

  lemma FreshForResume()
    ensures A2.authToken !in FirstUp().origin && A2.tunnelToken !in FirstUp().origin
    ensures A2.authToken != A2.tunnelToken
  {
    assert forall secret: Bytes :: secret in FirstUp().origin ==> |secret| == 1 && secret[0] < 3;
    assert A2.authToken[0] == 3 && A2.tunnelToken[0] == 4;
  }

  /** A handoff claimed while its session is between upsert and installation yields a cookie that
      opens nothing, although the session is registered, live, stored, and not revoked. */
  lemma ClaimYieldsDeadCookie(c: Config) returns (s: State)
    requires ValidConfig(c)
    ensures Init(Start()) && Reaches(c, Start(), s)
    ensures InUpsert(s.lock, "a") && Registered(s.registry, "a", 0) && 0 in s.conns && Live(s.conns[0])
    ensures "a" in s.rows && s.rows["a"].endedAt.None? && "a" !in s.revoked && s.clock < s.rows["a"].startedAt + c.lifetime
    ensures RateLimits.WithinRates(s.admitted)
    ensures !Authorize(s.rows, s.clock, c.lifetime, c.retention, "a", s.conns[0].session.authToken)
  {
    hide Reaches;
    ReachHalfResumed(c);
    s := HalfResumed();
    assert A1.authToken[0] == 1 && A2.authToken[0] == 3;
    HashIsInjective(A1.authToken, A2.authToken);
    RateLimits.FewCalls(s.admitted);
  }

  // ---------------------------------------------------- a route lost to another

  /** From where a session has taken over the name of a live one, the end of the first takes the
      route of the second, which stays registered and live with no route at all. */
  lemma RouteLostToStranger(c: Config) returns (s: State)
    requires ValidConfig(c) && c.maxTunnels >= 2 && c.retention < c.lifetime
    ensures Init(Start()) && Reaches(c, Start(), s) && RateLimits.WithinRates(s.admitted)
    ensures s.registry.tunnels == map[] && s.registry.bySession == map["b" := 2]
    ensures 2 in s.conns && Live(s.conns[2])
  {
    hide Reaches, Apply, Enabled, Live;
    var t := NameHandedOver(c);
    DropsAndTakesRoute(c, t);
    ReachesNext(c, Start(), t, Drop(1, true));
    ReachesNext(c, Start(), Apply(c, t, Drop(1, true)), RemoveTunnel(1));
    s := Apply(c, Apply(c, t, Drop(1, true)), RemoveTunnel(1));
  }

  lemma DropsAndTakesRoute(c: Config, t: State)
    requires t.registry.bySession == map["a" := 1, "b" := 2] && t.registry.tunnels == map["abc" := 2]
    requires 1 in t.conns && Live(t.conns[1]) && t.conns[1].session == A2 && 2 in t.conns
    ensures Enabled(c, t, Drop(1, true))
    ensures var u := Apply(c, t, Drop(1, true));
            && Enabled(c, u, RemoveTunnel(1))
            && var s := Apply(c, u, RemoveTunnel(1));
               && s.registry.tunnels == map[] && s.registry.bySession == map["b" := 2]
               && 2 in s.conns && s.conns[2] == t.conns[2] && s.admitted == t.admitted
  {
    assert "b"[0] != "a"[0];
  }
}
