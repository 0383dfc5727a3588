/** Hosted retention against the control plane: what the times in the table are, which sessions the
    retention loop spares, and when a prune can cost a client its resume. */
module Retention {
  import opened Common
  import opened Secrets
  import opened Sessions
  import opened Auth
  import opened Registry
  import opened ControlPlane
  import opened Invariant
  import opened Reachability
  import opened Guarantees
  import opened Counterexamples
  import RateLimits

  // ------------------------------------------------------- times in the table

  /** A hosted session has started, ended not in the future, and, unless a revoke set the ended
      time, not before it started. */
  ghost predicate RowTimes(rows: Table, revoked: set<string>, clock: int) {
    forall id :: id in rows && rows[id].hosted ==>
      && rows[id].startedAt <= clock
      && (rows[id].endedAt.Some? ==>
           rows[id].endedAt.value <= clock && (id !in revoked ==> rows[id].startedAt <= rows[id].endedAt.value))
  }

  ghost predicate TunnelTimes(conns: Tunnels, lock: Holder, clock: int) {
    && (forall r :: r in conns ==> TunnelTime(conns[r], clock))
    && (lock.Resolved? || lock.Upserted? ==> lock.session.startedAt <= clock)
  }

  predicate TunnelTime(t: Tunnel, clock: int) {
    t.session.startedAt <= clock && (t.phase.Ending? ==> t.session.startedAt <= t.phase.removed)
  }

  ghost predicate TimesOk(s: State) {
    RowTimes(s.rows, s.revoked, s.clock) && TunnelTimes(s.conns, s.lock, s.clock)
  }

  lemma SameStart(c: Config, s: State, conn: nat)
    requires StoreInv(c, s) && ConnsOk(s.conns, s.nextConn, s.issued) && conn in s.conns
    ensures var id := s.conns[conn].session.id;
            id in s.rows ==> s.rows[id].startedAt == s.conns[conn].session.startedAt && s.rows[id].hosted
  {
    var id := s.conns[conn].session.id;
    assert ConnOk(s.conns[conn], s.issued);
    IssueFacts(c, s, id, s.conns[conn].index);
    IssueFacts(c, s, id, |s.issued[id]| - 1);
  }

  lemma RowTimesStep(c: Config, s: State, l: Label)
    requires Inv(c, s) && TimesOk(s) && Enabled(c, s, l)
    ensures var t := Apply(c, s, l); RowTimes(t.rows, t.revoked, t.clock)
  {
    hide RowTimes, Inv, InstallStep, RemoveStep, Upsert, Revoke, PruneSessions, EndOrphans;
    match l
    case EndRow(conn, at) => EndRowTimes(c, s, conn, at);
    case UpsertRow => UpsertRowTimes(s.rows, s.revoked, s.clock, s.lock.session);
    case RevokeRow(id, at) => RevokeRowTimes(s.rows, s.revoked, s.clock, id, at);
    case Prune(cutoff) => PruneRowTimes(s.rows, s.revoked, s.clock, cutoff);
    case Restart => RestartRowTimes(s.rows, s.revoked, s.clock);
    case Tick(d) => LaterRowTimes(s.rows, s.revoked, s.clock, d);
    case _ => RowsKept(c, s, l);
  }

  lemma UpsertRowTimes(rows: Table, revoked: set<string>, clock: int, session: Session)
    requires RowTimes(rows, revoked, clock) && session.startedAt <= clock
    ensures RowTimes(Upsert(rows, session), revoked, clock)
  {
    hide HashHostedSecret;
  }

  lemma RevokeRowTimes(rows: Table, revoked: set<string>, clock: int, id: string, at: int)
    requires RowTimes(rows, revoked, clock) && at <= clock
    ensures RowTimes(Revoke(rows, id, at), revoked + {id}, clock)
  {
  }

  lemma PruneRowTimes(rows: Table, revoked: set<string>, clock: int, cutoff: int)
    requires RowTimes(rows, revoked, clock)
    ensures RowTimes(PruneSessions(rows, cutoff), revoked, clock)
  {
  }

  lemma RestartRowTimes(rows: Table, revoked: set<string>, clock: int)
    requires RowTimes(rows, revoked, clock)
    ensures RowTimes(EndOrphans(rows, clock), revoked, clock)
  {
  }

  lemma LaterRowTimes(rows: Table, revoked: set<string>, clock: int, d: nat)
    requires RowTimes(rows, revoked, clock)
    ensures RowTimes(rows, revoked, clock + d)
  {
  }

  lemma EndRowTimes(c: Config, s: State, conn: nat, at: int)
    requires Inv(c, s) && TimesOk(s) && Enabled(c, s, EndRow(conn, at))
    ensures RowTimes(EndStep(s, conn, at).rows, s.revoked, s.clock)
  {
    hide StoreInv, LimitInv, LockConnOk, ConnsOk, RegisteredOk, LiveOk, EndedOk;
    SameStart(c, s, conn);
    assert TunnelTime(s.conns[conn], s.clock);
  }

  predicate ChangesRows(l: Label) {
    l.EndRow? || l.UpsertRow? || l.RevokeRow? || l.Prune? || l.Restart? || l.Tick?
  }

  lemma RowsKept(c: Config, s: State, l: Label)
    requires Enabled(c, s, l) && !ChangesRows(l)
    ensures var t := Apply(c, s, l); t.rows == s.rows && t.revoked == s.revoked && t.clock == s.clock
  {
  }

  lemma TunnelTimesStep(c: Config, s: State, l: Label)
    requires Inv(c, s) && TimesOk(s) && Enabled(c, s, l)
    ensures var t := Apply(c, s, l); TunnelTimes(t.conns, t.lock, t.clock)
  {
    hide StoreInv, TunnelInv, LimitInv;
    match l
    case Resolve(_, _, _, _, _) => ResolveTimes(c, s, l);
    case InstallTunnel => InstallTimes(s);
    case Tick(_) =>
    case Restart =>
    case UpsertRow =>
    case Drop(_, _) =>
    case RemoveTunnel(_) =>
    case EndRow(_, _) =>
    case CloseRevoked =>
    case CloseExpired(_) =>
    case _ => TunnelsKept(c, s, l);
  }

  lemma ResolveTimes(c: Config, s: State, l: Label)
    requires Inv(c, s) && TimesOk(s) && l.Resolve? && Enabled(c, s, l)
    ensures var t := Apply(c, s, l); TunnelTimes(t.conns, t.lock, t.clock)
  {
    hide IssuedOk, TunnelInv, LimitInv, DistinctSubdomains;
    assert s.lock.reg.sessionID != "" ==> s.rows[s.lock.reg.sessionID].hosted;
  }

  lemma InstallTimes(s: State)
    requires TunnelTimes(s.conns, s.lock, s.clock) && s.lock.Upserted?
    ensures var t := InstallStep(s); TunnelTimes(t.conns, t.lock, t.clock)
  {
  }

  lemma TunnelsKept(c: Config, s: State, l: Label)
    requires Enabled(c, s, l)
    requires l.Accept? || l.Hangup? || l.Admit? || l.Validate? || l.Refuse? || l.RevokeRow? || l.CollectExpired? || l.Prune?
    ensures var t := Apply(c, s, l);
            && t.conns == s.conns && t.clock == s.clock
            && (t.lock.Resolved? || t.lock.Upserted? ==> t.lock == s.lock)
  {
  }

  lemma {:induction false} RunTimes(c: Config, states: seq<State>, labels: seq<Label>, n: nat)
    requires IsBehaviour(c, states, labels) && n < |states|
    ensures TimesOk(states[n])
  {
    hide Apply, Enabled, Inv, RowTimes, TunnelTimes;
    if n == 0 {
      StartTimes(states[0]);
    } else {
      RunTimes(c, states, labels, n - 1);
      RunInv(c, states, labels, n - 1);
      assert StepAt(c, states, labels, n - 1);
      RowTimesStep(c, states[n - 1], labels[n - 1]);
      TunnelTimesStep(c, states[n - 1], labels[n - 1]);
    }
  }

  lemma StartTimes(s: State)
    requires Init(s)
    ensures TimesOk(s)
  {
  }

  /** No session of a run ends before it starts, or in the future, unless it was revoked. */
  lemma SessionsEndInTime(c: Config, states: seq<State>, labels: seq<Label>, n: nat, id: string)
    requires IsBehaviour(c, states, labels) && n < |states|
    requires id in states[n].rows && states[n].rows[id].hosted && states[n].rows[id].endedAt.Some?
    ensures states[n].rows[id].endedAt.value <= states[n].clock
    ensures id !in states[n].revoked ==> states[n].rows[id].startedAt <= states[n].rows[id].endedAt.value
  {
    RunTimes(c, states, labels, n);
  }

  // --------------------------------------------- a prune that follows its scan

  /** With a retention of at least the lifetime, a prune spares every unrevoked session that is
      still live after the scan before it: the scan has closed what is old enough. The slack is how
      long the loop may take between its two clock readings. */
  lemma ScannedPruneSparesLive(c: Config, states: seq<State>, labels: seq<Label>, scan: Scan, k: nat, r: nat, cutoff: int, slack: nat)
    requires IsBehaviour(c, states, labels) && IsScan(states, labels, scan) && scan.done <= k < |states|
    requires cutoff <= labels[scan.look].now - c.retention + slack && c.retention >= c.lifetime + slack
    requires LiveIn(states[scan.look], r) && LiveIn(states[k], r)
    ensures var s := states[k];
            var id := s.conns[r].session.id;
            id in s.rows && id !in s.revoked ==> !Stale(s.rows[id], cutoff)
  {
    hide IssuedOk, RowsOk, TunnelTimes;
    SurvivorWasInTime(c, states, labels, scan, k, r);
    RunInv(c, states, labels, k);
    RunTimes(c, states, labels, k);
    SameStart(c, states[k], r);
  }

  // -------------------------------------------------- resumes lost to a prune

  ghost predicate Reachable(c: Config, s: State) {
    exists init :: Init(init) && Reaches(c, init, s)
  }

  /** A prune at this instant turns an acceptable resume into a rejection. */
  ghost predicate LosesResume(c: Config, s: State) {
    exists id, token :: Accepts(c, s, id, token) && !Accepts(c, Pruned(c, s), id, token)
  }

  function Pruned(c: Config, s: State): State {
    s.(rows := PruneSessions(s.rows, s.clock - c.retention))
  }

  lemma PruneIsAStep(c: Config, s: State)
    ensures Enabled(c, s, Prune(s.clock - c.retention)) && Apply(c, s, Prune(s.clock - c.retention)) == Pruned(c, s)
  {
  }

  lemma SpareInRun(c: Config, states: seq<State>, labels: seq<Label>, n: nat)
    requires IsBehaviour(c, states, labels) && n < |states|
    requires c.retention >= GRACE || c.retention >= c.lifetime - 1
    ensures !LosesResume(c, states[n])
  {
    var s := states[n];
    forall id, token | Accepts(c, s, id, token)
      ensures Accepts(c, Pruned(c, s), id, token)
    {
      ResumeIff(c, states, labels, n, id, token);
      ResumeGate(s.rows, s.clock, c.lifetime, id, token);
      if s.rows[id].endedAt.Some? { SessionsEndInTime(c, states, labels, n, id); }
      assert !Stale(s.rows[id], s.clock - c.retention);
    }
  }

  /** Session a, lost and marked ended at once. */
  function FirstEnded(): State {
    FirstGone().(rows := map["a" := StoredRow(A1).(endedAt := Some(MINUTE))],
                 conns := map[0 := Tunnel(A1, "x", false, 0, false, Done)],
                 endedBy := map["a" := ByConnection(0)])
  }

  lemma EndsAtOnce(c: Config)
    ensures Enabled(c, FirstGone(), EndRow(0, MINUTE)) && Apply(c, FirstGone(), EndRow(0, MINUTE)) == FirstEnded()
  {
  }

  lemma ReachLoss(c: Config) returns (s: State)
    requires ValidConfig(c) && c.retention < GRACE && c.retention < c.lifetime - 1
    ensures Init(Start()) && Reaches(c, Start(), s) && RateLimits.WithinRates(s.admitted) && LosesResume(c, s)
  {
    hide Reaches;
    ReachFirstGone(c);
    EndsAtOnce(c);
    ReachesNext(c, Start(), FirstGone(), EndRow(0, MINUTE));
    ReachesNext(c, Start(), FirstEnded(), Tick(c.retention + 1));
    s := FirstEnded().(clock := MINUTE + c.retention + 1);
    ResumeGate(s.rows, s.clock, c.lifetime, "a", [2]);
    assert Accepts(c, s, "a", [2]);
    assert !Accepts(c, Pruned(c, s), "a", [2]);
    RateLimits.FewCalls(s.admitted);
  }

  /** A prune can cost a client its resume, in some state that the server can reach, if and only if
      the retention is shorter than both the grace period and the lifetime less one instant. */
  lemma PruneLosesResumeIff(c: Config)
    requires ValidConfig(c)
    ensures (exists s :: Reachable(c, s) && RateLimits.WithinRates(s.admitted) && LosesResume(c, s))
       <==> c.retention < GRACE && c.retention < c.lifetime - 1
  {
    hide Reaches, LosesResume, Init, IsBehaviour;
    if c.retention < GRACE && c.retention < c.lifetime - 1 {
      var s := ReachLoss(c);
      assert Reachable(c, s);
    } else {
      forall s | Reachable(c, s)
        ensures !LosesResume(c, s)
      {
        var init :| Init(init) && Reaches(c, init, s);
        SparedEverywhere(c, init, s);
      }
    }
  }

  lemma SparedEverywhere(c: Config, init: State, s: State)
    requires ValidConfig(c) && Init(init) && Reaches(c, init, s)
    requires c.retention >= GRACE || c.retention >= c.lifetime - 1
    ensures !LosesResume(c, s)
  {
    hide LosesResume, Init, ValidConfig;
    var states, labels :| IsRunBetween(c, init, s, states, labels);
    SpareInRun(c, states, labels, |labels|);
  }
}
