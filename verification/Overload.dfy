/** How far resumes can take the server, at one registration a minute, which the rate limiter never
    refuses. First one tunnel past a limit, by an ordinary reconnect within the grace period; then
    up to the connection slots, by sessions whose EndSession lags behind. */
module Overload {
  import opened Common
  import opened Secrets
  import opened Sessions
  import opened Auth
  import opened Registry
  import opened ControlPlane
  import opened Invariant
  import opened Reachability
  import opened Guarantees
  import opened Exactness
  import RateLimits

  // ------------------------------------------------------ sessions by number

  function Id(i: nat): (id: string)
    ensures |id| == i + 1
  {
    seq(i + 1, _ => 'a')
  }

  function Secret(i: nat): (secret: Bytes)
    ensures |secret| == i + 1
  {
    seq(i + 1, _ => 0)
  }

  /** The start of the n-th minute. */
  function At(n: nat): int {
    (n + 1) * MINUTE
  }

  /** The i-th session, which started in the i-th minute, with the secrets of registration n. */
  function Numbered(i: nat, n: nat): Session {
    Session(Id(i), Id(i), 3000, At(i), Secret(2 * n), Secret(2 * n + 1), true)
  }

  const NEW: Registration := Registration("", 3000, [], true)

  /** Resumes the i-th session with its first token. */
  function Again(i: nat): Registration {
    Registration(Id(i), 3000, Secret(2 * i + 1), true)
  }

  /** Only the secrets of the first n registrations have been drawn. */
  ghost predicate SecretsUpTo(origin: map<Bytes, Origin>, n: nat) {
    forall secret :: secret in origin ==> |secret| <= 2 * n
  }

  /** The sessions from j to k are stored as they were first registered, and can be resumed. */
  ghost predicate StoredFrom(rows: Table, j: nat, k: nat) {
    forall i :: j <= i < k ==> Id(i) in rows && rows[Id(i)] == StoredRow(Numbered(i, i))
  }

  /** All names and IDs are those of the first j sessions. */
  ghost predicate NamesUpTo(rows: Table, issued: Issues, j: nat) {
    && (forall id :: id in rows ==> |id| <= j && |rows[id].subdomain| <= j)
    && (forall id :: id in issued ==> |id| <= j)
  }

  ghost predicate NumbersBelow(conns: Tunnels, slots: set<nat>, nextConn: nat) {
    && (forall r :: r in conns ==> r < nextConn)
    && (forall r :: r in slots ==> r < nextConn)
  }

  lemma NextIsNew(conns: Tunnels, slots: set<nat>, nextConn: nat)
    requires NumbersBelow(conns, slots, nextConn)
    ensures nextConn !in conns && nextConn !in slots
  {
  }

  /** A minute has passed since the last call. */
  ghost predicate RateReady(s: State) {
    RateLimits.WithinRates(s.admitted) && RateLimits.LastTime(s.admitted) + MINUTE <= s.clock
  }

  /** All from one address, or each from its own. */
  function Source(id: string, same: bool): string {
    if same then "x" else id
  }

  /** Exactly n of the first j sessions are registered, all with live connections. */
  ghost predicate Serves(s: State, n: nat, j: nat, same: bool) {
    && |s.registry.bySession| == n
    && forall id :: id in s.registry.bySession ==>
         && |id| <= j && s.registry.bySession[id] in s.conns
         && ServedBy(s.conns[s.registry.bySession[id]], id, same)
  }

  predicate ServedBy(t: Tunnel, id: string, same: bool) {
    Live(t) && t.session.id == id && t.sourceIP == Source(id, same)
  }

  lemma StoredMore(rows: Table, j: nat)
    requires StoredFrom(rows, 0, j)
    ensures StoredFrom(Upsert(rows, Numbered(j, j)), 0, j + 1)
  {
    hide StoredRow;
    assert forall i :: 0 <= i < j ==> |Id(i)| != |Id(j)|;
  }

  lemma StoredLess(rows: Table, j: nat, k: nat, n: nat)
    requires StoredFrom(rows, j, k)
    ensures StoredFrom(Upsert(rows, Numbered(j, n)), j + 1, k)
  {
    hide StoredRow;
    assert forall i :: j < i < k ==> |Id(i)| != |Id(j)|;
  }

  lemma SecretsMore(before: map<Bytes, Origin>, after: map<Bytes, Origin>, m: nat)
    requires SecretsUpTo(before, m) && after.Keys == before.Keys + {Secret(2 * m), Secret(2 * m + 1)}
    ensures SecretsUpTo(after, m + 1)
  {
  }

  lemma NamesMore(rows: Table, issued: Issues, later: Issues, j: nat)
    requires NamesUpTo(rows, issued, j) && later.Keys == issued.Keys + {Id(j)}
    ensures NamesUpTo(Upsert(rows, Numbered(j, j)), later, j + 1)
  {
  }

  /** What an uninterrupted registration changes, field by field. */
  lemma RegistrationFields(s: State, ip: string, session: Session, resumed: bool, t: State)
    requires t == AfterRegistration(s, ip, session, resumed, s.clock) && s.nextConn !in s.conns
    ensures t.lock.Free? && t.clock == s.clock && t.nextConn == s.nextConn + 1 && t.slots == s.slots + {s.nextConn}
    ensures t.rows == Upsert(s.rows, session) && t.issued.Keys == s.issued.Keys + {session.id}
    ensures t.origin.Keys == s.origin.Keys + {session.authToken, session.tunnelToken}
    ensures t.registry == Install(s.registry, session.subdomain, session.id, s.nextConn)
    ensures t.conns.Keys == s.conns.Keys + {s.nextConn}
    ensures t.conns[s.nextConn].session == session && t.conns[s.nextConn].sourceIP == ip && Live(t.conns[s.nextConn])
    ensures session.id !in s.registry.bySession ==> forall r :: r in s.conns ==> t.conns[r] == s.conns[r]
    ensures t.admitted == s.admitted + [RateLimits.Call(s.clock, ip)]
  {
  }

  lemma ServesMore(s: State, t: State, n: nat, j: nat, same: bool, id: string, most: nat)
    requires Serves(s, n, j, same) && id !in s.registry.bySession && |id| <= most && j <= most
    requires t.registry.bySession == s.registry.bySession[id := s.nextConn]
    requires s.nextConn in t.conns && ServedBy(t.conns[s.nextConn], id, same)
    requires forall r :: r in s.conns ==> r in t.conns && t.conns[r] == s.conns[r]
    ensures Serves(t, n + 1, most, same)
  {
    hide ServedBy;
    MapSize(s.registry.bySession, id, s.nextConn);
  }

  lemma RegisteredNumbers(s: State, ip: string, session: Session, resumed: bool, t: State)
    requires t == AfterRegistration(s, ip, session, resumed, s.clock) && NumbersBelow(s.conns, s.slots, s.nextConn)
    ensures t.lock.Free? && t.clock == s.clock && t.admitted == s.admitted + [RateLimits.Call(s.clock, ip)]
    ensures NumbersBelow(t.conns, t.slots, t.nextConn) && |t.slots| == |s.slots| + 1
  {
    hide AfterRegistration, Upsert, Install;
    RegistrationFields(s, ip, session, resumed, t);
  }

  lemma RegisteredServes(s: State, n: nat, j: nat, most: nat, same: bool, session: Session, resumed: bool, t: State)
    requires t == AfterRegistration(s, Source(session.id, same), session, resumed, s.clock)
    requires s.nextConn !in s.conns && Serves(s, n, j, same)
    requires session.id !in s.registry.bySession && |session.id| <= most && j <= most
    ensures Serves(t, n + 1, most, same)
  {
    hide AfterRegistration, Upsert, Serves;
    RegistrationFields(s, Source(session.id, same), session, resumed, t);
    ServesMore(s, t, n, j, same, session.id, most);
  }

  lemma NotServedYet(s: State, n: nat, j: nat, same: bool, id: string)
    requires Serves(s, n, j, same) && |id| > j
    ensures id !in s.registry.bySession
  {
  }

  function Later(s: State): State {
    s.(clock := s.clock + MINUTE)
  }

  lemma WaitsAMinute(c: Config, init: State, s: State)
    requires Reaches(c, init, s)
    ensures Reaches(c, init, Later(s))
  {
    hide Reaches;
    ReachesNext(c, init, s, Tick(MINUTE));
  }

  lemma ReadyAgain(s: State, t: State, ip: string)
    requires RateReady(s) && t.clock == s.clock && t.admitted == s.admitted + [RateLimits.Call(s.clock, ip)]
    ensures RateReady(Later(t))
  {
    RateLimits.SpacedCall(s.admitted, s.clock, ip);
    assert t.admitted[|t.admitted| - 1] == RateLimits.Call(s.clock, ip);
  }

  lemma ServesLater(s: State, n: nat, j: nat, same: bool)
    requires Serves(s, n, j, same)
    ensures Serves(Later(s), n, j, same)
  {
  }

  // --------------------------------------------------------- counting tunnels

  lemma {:induction false} ImageSize(m: map<string, nat>, keys: set<string>)
    requires keys <= m.Keys && forall a, b :: a in m && b in m && m[a] == m[b] ==> a == b
    ensures |set id | id in keys :: m[id]| == |keys|
  {
    if keys != {} {
      var id :| id in keys;
      ImageSize(m, keys - {id});
      assert (set x | x in keys :: m[x]) == (set x | x in keys - {id} :: m[x]) + {m[id]};
    } else {
      assert (set x | x in keys :: m[x]) == {};
    }
  }

  /** Live tunnels of different sessions are different, and all are open. */
  lemma ServedAreOpen(s: State, n: nat, j: nat, same: bool)
    requires Serves(s, n, j, same)
    ensures |OpenTunnels(s)| == n
    ensures same ==> |SessionsFrom(SourceIPs(s), "x")| == n
  {
    var m := s.registry.bySession;
    forall a, b | a in m && b in m && m[a] == m[b] ensures a == b {
      assert ServedBy(s.conns[m[a]], a, same) && ServedBy(s.conns[m[b]], b, same);
    }
    ImageSize(m, m.Keys);
    assert OpenTunnels(s) == set id | id in m.Keys :: m[id];
    assert |m| == |m.Keys|;
    if same { assert SessionsFrom(SourceIPs(s), "x") == m.Keys; }
  }

  // ------------------------------------------------- sessions that stay connected

  /** The first j sessions are registered and live, one for each minute. */
  ghost predicate Filled(s: State, j: nat, same: bool) {
    && s.lock.Free? && s.clock == At(j) && RateReady(s)
    && NumbersBelow(s.conns, s.slots, s.nextConn) && |s.slots| == j
    && StoredFrom(s.rows, 0, j) && NamesUpTo(s.rows, s.issued, j) && SecretsUpTo(s.origin, j)
    && Serves(s, j, j, same) && (j > 0 ==> Id(0) in s.registry.bySession)
  }

  lemma NothingFilled(same: bool)
    ensures Filled(Start(), 0, same)
  {
  }

  lemma ServedSources(s: State, n: nat, j: nat, same: bool)
    requires Serves(s, n, j, same)
    ensures SourceIPs(s).Keys == s.registry.bySession.Keys && |SourceIPs(s)| == n
    ensures forall id :: id in SourceIPs(s) ==> |id| <= j && SourceIPs(s)[id] == Source(id, same)
  {
    assert |SourceIPs(s)| == |SourceIPs(s).Keys| && |s.registry.bySession| == |s.registry.bySession.Keys|;
  }

  lemma RoomAmong(c: Config, ips: map<string, string>, n: nat, j: nat, same: bool)
    requires ValidConfig(c) && |ips| == n && n < c.maxTunnels && (same ==> n < c.maxPerIP)
    requires forall id :: id in ips ==> |id| <= j && ips[id] == Source(id, same)
    ensures HasRoom(c, ips, Source(Id(j), same))
  {
    var from := SessionsFrom(ips, Source(Id(j), same));
    assert |ips| == |ips.Keys|;
    SubsetSize(from, ips.Keys);
    if !same { assert from == {}; }
  }

  lemma RoomFor(c: Config, s: State, n: nat, j: nat, same: bool)
    requires ValidConfig(c) && Serves(s, n, j, same) && n < c.maxTunnels && (same ==> n < c.maxPerIP)
    ensures HasRoom(c, SourceIPs(s), Source(Id(j), same))
  {
    hide SourceIPs, HasRoom, Serves;
    ServedSources(s, n, j, same);
    RoomAmong(c, SourceIPs(s), n, j, same);
  }

  lemma CanRegisterNext(c: Config, s: State, j: nat)
    requires ValidConfig(c) && s.lock.Free? && |s.slots| <= c.maxTunnels && s.nextConn !in s.conns
    requires NamesUpTo(s.rows, s.issued, j) && SecretsUpTo(s.origin, j)
    ensures CanRegister(c, s, Numbered(j, j))
    ensures Id(j) !in s.issued && Id(j) !in s.rows && !SubdomainExists(s.rows, Id(j))
  {
  }

  lemma NamesNext(s: State, ip: string, j: nat, t: State)
    requires t == AfterRegistration(s, ip, Numbered(j, j), false, s.clock) && s.nextConn !in s.conns
    requires NamesUpTo(s.rows, s.issued, j) && SecretsUpTo(s.origin, j)
    ensures t.rows == Upsert(s.rows, Numbered(j, j)) && t.registry.bySession == s.registry.bySession[Id(j) := s.nextConn]
    ensures NamesUpTo(t.rows, t.issued, j + 1) && SecretsUpTo(t.origin, j + 1)
  {
    hide AfterRegistration, Upsert, NamesUpTo, SecretsUpTo;
    RegistrationFields(s, ip, Numbered(j, j), false, t);
    NamesMore(s.rows, s.issued, t.issued, j);
    SecretsMore(s.origin, t.origin, j);
  }

  lemma RegistersNext(s: State, n: nat, j: nat, same: bool, t: State)
    requires t == AfterRegistration(s, Source(Id(j), same), Numbered(j, j), false, s.clock)
    requires NumbersBelow(s.conns, s.slots, s.nextConn) && Serves(s, n, j, same)
    requires NamesUpTo(s.rows, s.issued, j) && SecretsUpTo(s.origin, j)
    ensures t.lock.Free? && t.clock == s.clock && NumbersBelow(t.conns, t.slots, t.nextConn) && |t.slots| == |s.slots| + 1
    ensures t.rows == Upsert(s.rows, Numbered(j, j))
    ensures NamesUpTo(t.rows, t.issued, j + 1) && SecretsUpTo(t.origin, j + 1) && Serves(t, n + 1, j + 1, same)
    ensures t.registry.bySession == s.registry.bySession[Id(j) := s.nextConn]
    ensures t.admitted == s.admitted + [RateLimits.Call(s.clock, Source(Id(j), same))]
  {
    hide AfterRegistration, Upsert, NamesUpTo, SecretsUpTo, Serves, NumbersBelow;
    NextIsNew(s.conns, s.slots, s.nextConn);
    NotServedYet(s, n, j, same, Id(j));
    RegisteredNumbers(s, Source(Id(j), same), Numbered(j, j), false, t);
    NamesNext(s, Source(Id(j), same), j, t);
    RegisteredServes(s, n, j, j + 1, same, Numbered(j, j), false, t);
  }

  lemma StillFilled(s: State, j: nat, same: bool, t: State)
    requires Filled(s, j, same) && t == AfterRegistration(s, Source(Id(j), same), Numbered(j, j), false, s.clock)
    ensures Filled(Later(t), j + 1, same)
  {
    hide AfterRegistration, Upsert, StoredFrom, NamesUpTo, SecretsUpTo, Serves, RateReady, Numbered;
    RegistersNext(s, j, j, same, t);
    StoredMore(s.rows, j);
    ReadyAgain(s, t, Source(Id(j), same));
    ServesLater(t, j + 1, j + 1, same);
  }

  lemma FilledIsReady(c: Config, s: State, j: nat, same: bool)
    requires ValidConfig(c) && Filled(s, j, same) && j < c.maxTunnels && (same ==> j < c.maxPerIP)
    ensures CanRegister(c, s, Numbered(j, j)) && HasRoom(c, SourceIPs(s), Source(Id(j), same))
    ensures Id(j) !in s.issued && Id(j) !in s.rows && !SubdomainExists(s.rows, Id(j))
    ensures Numbered(j, j).startedAt == s.clock
  {
    hide StoredFrom, RateReady, SubdomainExists, CheckCapacity, CanRegister;
    CanRegisterNext(c, s, j);
    RoomFor(c, s, j, j, same);
  }

  lemma {:induction false} Fill(c: Config, k: nat, same: bool) returns (s: State)
    requires ValidConfig(c) && k <= c.maxTunnels && (same ==> k <= c.maxPerIP)
    ensures Reaches(c, Start(), s) && Filled(s, k, same)
  {
    hide Reaches, Filled, AfterRegistration, CanRegister, HasRoom, SubdomainExists;
    if k == 0 {
      s := Start();
      ReachesItself(c, s);
      NothingFilled(same);
    } else {
      var before := Fill(c, k - 1, same);
      FilledIsReady(c, before, k - 1, same);
      RegisterNew(c, Start(), before, Source(Id(k - 1), same), NEW, Numbered(k - 1, k - 1), before.clock);
      var t := AfterRegistration(before, Source(Id(k - 1), same), Numbered(k - 1, k - 1), false, before.clock);
      StillFilled(before, k - 1, same, t);
      WaitsAMinute(c, Start(), t);
      s := Later(t);
    }
  }

  // ------------------------------------------------------- one reconnect too many

  function Dropped(s: State, conn: nat): State
    requires conn in s.conns
  {
    s.(conns := s.conns[conn := s.conns[conn].(phase := Closing, open := false)])
  }

  /** The connection is lost and unregistered, and the session marked ended at once. */
  function AfterEnd(s: State, conn: nat): State
    requires conn in s.conns
  {
    EndStep(RemoveStep(Dropped(s, conn), conn), conn, s.clock)
  }

  lemma Ends(c: Config, init: State, s: State, conn: nat)
    requires Reaches(c, init, s) && InPhase(s, conn, Reading) && Registered(s.registry, s.conns[conn].session.id, conn)
    ensures Reaches(c, init, AfterEnd(s, conn))
  {
    hide Reaches;
    ReachesNext(c, init, s, Drop(conn, true));
    ReachesNext(c, init, Dropped(s, conn), RemoveTunnel(conn));
    ReachesNext(c, init, RemoveStep(Dropped(s, conn), conn), EndRow(conn, s.clock));
  }

  lemma EndFields(s: State, id: string, t: State)
    requires id in s.registry.bySession && s.registry.bySession[id] in s.conns
    requires s.conns[s.registry.bySession[id]].session.id == id && t == AfterEnd(s, s.registry.bySession[id])
    ensures t.lock == s.lock && t.clock == s.clock && t.slots == s.slots && t.nextConn == s.nextConn
    ensures t.rows == End(s.rows, id, s.clock) && t.issued == s.issued && t.origin == s.origin && t.admitted == s.admitted
    ensures t.registry.bySession == s.registry.bySession - {id} && t.conns.Keys == s.conns.Keys
    ensures forall r :: r in s.conns && r != s.registry.bySession[id] ==> t.conns[r] == s.conns[r]
  {
  }

  lemma ServesLess(s: State, t: State, n: nat, j: nat, same: bool, id: string)
    requires Serves(s, n, j, same) && id in s.registry.bySession && t.conns.Keys == s.conns.Keys
    requires t.registry.bySession == s.registry.bySession - {id}
    requires forall r :: r in s.conns && r != s.registry.bySession[id] ==> t.conns[r] == s.conns[r]
    ensures n > 0 && Serves(t, n - 1, j, same)
  {
    var m := s.registry.bySession;
    OneLess(m, id);
    forall x | x in m && x != id ensures ServedBy(t.conns[m[x]], x, same) {
      assert ServedBy(s.conns[m[x]], x, same) && ServedBy(s.conns[m[id]], id, same);
    }
  }

  lemma OneLess(m: map<string, nat>, id: string)
    requires id in m
    ensures |m - {id}| == |m| - 1
  {
    MapSize(m - {id}, id, m[id]);
    assert (m - {id})[id := m[id]] == m;
  }

  /** The first of k sessions has just been lost. */
  ghost predicate OneLost(s: State, k: nat, same: bool) {
    && s.lock.Free? && s.clock == At(k) && RateReady(s)
    && NumbersBelow(s.conns, s.slots, s.nextConn) && |s.slots| == k
    && NamesUpTo(s.rows, s.issued, k) && SecretsUpTo(s.origin, k)
    && Id(0) in s.rows && s.rows[Id(0)] == StoredRow(Numbered(0, 0)).(endedAt := Some(s.clock))
    && k > 0 && Serves(s, k - 1, k, same) && Id(0) !in s.registry.bySession
  }

  lemma EndKeepsNames(rows: Table, issued: Issues, id: string, at: int, k: nat)
    requires NamesUpTo(rows, issued, k)
    ensures NamesUpTo(End(rows, id, at), issued, k)
  {
  }

  lemma LoseFirst(c: Config, s: State, k: nat, same: bool) returns (t: State)
    requires ValidConfig(c) && Reaches(c, Start(), s) && Filled(s, k, same) && k > 0
    ensures Reaches(c, Start(), t) && OneLost(t, k, same)
  {
    hide Reaches, NamesUpTo, SecretsUpTo, RateReady, AfterEnd, StoredRow;
    var r := s.registry.bySession[Id(0)];
    assert ServedBy(s.conns[r], Id(0), same);
    Ends(c, Start(), s, r);
    t := AfterEnd(s, r);
    EndFields(s, Id(0), t);
    ServesLess(s, t, k, k, same, Id(0));
    EndKeepsNames(s.rows, s.issued, Id(0), s.clock, k);
    SameAdmitted(s, t);
  }

  lemma SameAdmitted(s: State, t: State)
    requires RateReady(s) && t.admitted == s.admitted && t.clock == s.clock
    ensures RateReady(t)
  {
  }

  /** Its place has been taken, and its row still waits for it. */
  ghost predicate PlaceTaken(s: State, k: nat, same: bool) {
    && s.lock.Free? && s.clock == At(k)
    && NumbersBelow(s.conns, s.slots, s.nextConn) && |s.slots| == k + 1 && SecretsUpTo(s.origin, k + 1)
    && Id(0) in s.rows && s.rows[Id(0)] == StoredRow(Numbered(0, 0)).(endedAt := Some(s.clock))
    && Serves(s, k, k + 1, same) && Id(0) !in s.registry.bySession
  }

  lemma TakePlace(c: Config, s: State, k: nat, same: bool) returns (t: State)
    requires ValidConfig(c) && Reaches(c, Start(), s) && OneLost(s, k, same)
    requires k <= c.maxTunnels && (same ==> k <= c.maxPerIP)
    ensures Reaches(c, Start(), t) && PlaceTaken(t, k, same)
    ensures t.clock == s.clock && t.admitted == s.admitted + [RateLimits.Call(s.clock, Source(Id(k), same))]
  {
    hide Reaches, NamesUpTo, SecretsUpTo, RateReady, AfterRegistration, CanRegister, HasRoom, SubdomainExists, Serves, StoredRow;
    CanRegisterNext(c, s, k);
    RoomForReplacement(c, s, k, same);
    RegisterNew(c, Start(), s, Source(Id(k), same), NEW, Numbered(k, k), s.clock);
    t := AfterRegistration(s, Source(Id(k), same), Numbered(k, k), false, s.clock);
    RegistersNext(s, k - 1, k, same, t);
    assert |Id(0)| != |Id(k)|;
  }

  lemma RoomForReplacement(c: Config, s: State, k: nat, same: bool)
    requires ValidConfig(c) && OneLost(s, k, same) && k <= c.maxTunnels && (same ==> k <= c.maxPerIP)
    ensures HasRoom(c, SourceIPs(s), Source(Id(k), same))
  {
    RoomFor(c, s, k - 1, k, same);
  }

  lemma CanComeBack(c: Config, s: State, k: nat, same: bool)
    requires ValidConfig(c) && PlaceTaken(s, k, same) && k <= c.maxTunnels && k * MINUTE < c.lifetime
    ensures CanRegister(c, s, Numbered(0, k + 1))
    ensures ValidateResume(s.rows, s.clock, c.lifetime, Id(0), Secret(1)).None?
  {
    ResumeGate(s.rows, s.clock, c.lifetime, Id(0), Secret(1));
  }

  lemma ComeBack(c: Config, s: State, k: nat, same: bool) returns (t: State)
    requires ValidConfig(c) && Reaches(c, Start(), s) && PlaceTaken(s, k, same)
    requires k <= c.maxTunnels && k * MINUTE < c.lifetime
    ensures Reaches(c, Start(), t) && Serves(t, k + 1, k + 1, same)
    ensures t.admitted == s.admitted + [RateLimits.Call(s.clock, Source(Id(0), same))]
  {
    hide Reaches, AfterRegistration, CanRegister, ValidateResume, SecretsUpTo, Serves;
    CanComeBack(c, s, k, same);
    Resume(c, Start(), s, Source(Id(0), same), Again(0), Numbered(0, k + 1), s.clock);
    t := AfterRegistration(s, Source(Id(0), same), Numbered(0, k + 1), true, s.clock);
    NextIsNew(s.conns, s.slots, s.nextConn);
    RegisteredNumbers(s, Source(Id(0), same), Numbered(0, k + 1), true, t);
    RegisteredServes(s, k, k + 1, k + 1, same, Numbered(0, k + 1), true, t);
  }

  /** The server is filled up to a limit, one registration a minute; one session is lost, marked
      ended, and replaced, and comes back at once. All tunnels are live and within their lifetime. */
  lemma OneTooMany(c: Config, k: nat, same: bool) returns (s: State)
    requires ValidConfig(c) && 0 < k <= c.maxTunnels && (same ==> k <= c.maxPerIP) && k * MINUTE < c.lifetime
    ensures Reaches(c, Start(), s) && RateLimits.WithinRates(s.admitted)
    ensures |s.registry.bySession| == |OpenTunnels(s)| == k + 1
    ensures same ==> |SessionsFrom(SourceIPs(s), "x")| == k + 1
  {
    hide Reaches, Filled, OpenTunnels, SourceIPs, SessionsFrom;
    var full := Fill(c, k, same);
    var lost := LoseFirst(c, full, k, same);
    var taken := TakePlace(c, lost, k, same);
    s := ComeBack(c, taken, k, same);
    ServedAreOpen(s, k + 1, k + 1, same);
    RateLimits.SpacedPair(lost.admitted, lost.clock, Source(Id(k), same), Source(Id(0), same));
  }

  // ---------------------------------------------- sessions whose EndSession lags

  /** The first j sessions have been registered, and have lost their connections; their EndSession
      calls are all still to come. */
  ghost predicate Lost(s: State, j: nat) {
    && s.lock.Free? && s.clock == At(j) && RateReady(s) && s.slots == {} && s.registry == Registry(map[], map[])
    && NumbersBelow(s.conns, s.slots, s.nextConn)
    && StoredFrom(s.rows, 0, j) && NamesUpTo(s.rows, s.issued, j) && SecretsUpTo(s.origin, j)
  }

  /** The connection is lost, noticed, and given up. */
  function AfterLoss(s: State, conn: nat): State
    requires conn in s.conns
  {
    RemoveStep(Dropped(s, conn), conn).(slots := s.slots - {conn})
  }

  lemma LosesConnection(c: Config, init: State, s: State, conn: nat)
    requires Reaches(c, init, s) && InPhase(s, conn, Reading) && conn in s.slots && s.lock.Free?
    ensures Reaches(c, init, AfterLoss(s, conn))
  {
    hide Reaches;
    ReachesNext(c, init, s, Drop(conn, true));
    ReachesNext(c, init, Dropped(s, conn), RemoveTunnel(conn));
    ReachesNext(c, init, RemoveStep(Dropped(s, conn), conn), Hangup(conn));
  }

  lemma LossFields(s: State, t: State, id: string)
    requires s.registry == Registry(map[], map[]) && s.slots == {} && NumbersBelow(s.conns, s.slots, s.nextConn)
    requires t.conns.Keys == s.conns.Keys + {s.nextConn} && t.conns[s.nextConn].session.id == id
    requires t.registry == Install(s.registry, t.conns[s.nextConn].session.subdomain, id, s.nextConn)
    requires t.slots == s.slots + {s.nextConn} && t.nextConn == s.nextConn + 1
    ensures var u := AfterLoss(t, s.nextConn);
            u.registry == Registry(map[], map[]) && u.slots == {} && NumbersBelow(u.conns, u.slots, u.nextConn)
  {
    var u := AfterLoss(t, s.nextConn);
    assert u.registry.tunnels == map[] && u.registry.bySession == map[];
  }

  lemma StillLost(s: State, j: nat, t: State)
    requires Lost(s, j) && t == AfterRegistration(s, "x", Numbered(j, j), false, s.clock)
    ensures InPhase(t, s.nextConn, Reading) && s.nextConn in t.slots && t.lock.Free?
    ensures Lost(Later(AfterLoss(t, s.nextConn)), j + 1)
  {
    hide AfterRegistration, StoredFrom, SecretsUpTo, NamesUpTo, Upsert, Install, RateReady;
    StoredMore(s.rows, j);
    NamesNext(s, "x", j, t);
    RegistrationFields(s, "x", Numbered(j, j), false, t);
    LossFields(s, t, Id(j));
    ReadyAgain(s, AfterLoss(t, s.nextConn), "x");
  }

  lemma LostIsReady(c: Config, s: State, j: nat)
    requires ValidConfig(c) && Lost(s, j)
    ensures CanRegister(c, s, Numbered(j, j)) && HasRoom(c, SourceIPs(s), "x")
    ensures Id(j) !in s.issued && Id(j) !in s.rows && !SubdomainExists(s.rows, Id(j))
    ensures Numbered(j, j).startedAt == s.clock
  {
    hide StoredFrom, RateReady, SubdomainExists;
    CanRegisterNext(c, s, j);
    assert SourceIPs(s) == map[];
    assert SessionsFrom(SourceIPs(s), "x") == {};
  }

  lemma NoneLost()
    ensures Lost(Start(), 0)
  {
  }

  lemma {:induction false} LoseSessions(c: Config, k: nat) returns (s: State)
    requires ValidConfig(c)
    ensures Reaches(c, Start(), s) && Lost(s, k)
  {
    hide Reaches, Lost, AfterRegistration, CanRegister, HasRoom, SubdomainExists, AfterLoss;
    if k == 0 {
      s := Start();
      ReachesItself(c, s);
      NoneLost();
    } else {
      var before := LoseSessions(c, k - 1);
      LostIsReady(c, before, k - 1);
      RegisterNew(c, Start(), before, "x", NEW, Numbered(k - 1, k - 1), before.clock);
      var t := AfterRegistration(before, "x", Numbered(k - 1, k - 1), false, before.clock);
      StillLost(before, k - 1, t);
      LosesConnection(c, Start(), t, before.nextConn);
      WaitsAMinute(c, Start(), AfterLoss(t, before.nextConn));
      s := Later(AfterLoss(t, before.nextConn));
    }
  }

  /** The first j of k sessions have been resumed from one address. */
  ghost predicate Back(s: State, k: nat, j: nat) {
    && s.lock.Free? && s.clock == At(k + j) && RateReady(s)
    && NumbersBelow(s.conns, s.slots, s.nextConn) && |s.slots| == j
    && StoredFrom(s.rows, j, k) && SecretsUpTo(s.origin, k + j) && Serves(s, j, j, true)
  }

  lemma CanResumeNext(c: Config, s: State, k: nat, j: nat)
    requires ValidConfig(c) && Back(s, k, j) && j < k <= c.maxTunnels + EXTRA_SLOTS && k * MINUTE < c.lifetime
    ensures CanRegister(c, s, Numbered(j, k + j))
    ensures ValidateResume(s.rows, s.clock, c.lifetime, Id(j), Secret(2 * j + 1)).None?
    ensures s.rows[Id(j)].subdomain == Id(j) && s.rows[Id(j)].startedAt == At(j)
  {
    hide RateReady, Serves;
    assert At(k + j) - At(j) == k * MINUTE;
    ResumeGate(s.rows, s.clock, c.lifetime, Id(j), Secret(2 * j + 1));
  }

  lemma ResumedRows(s: State, k: nat, j: nat, session: Session, t: State)
    requires session == Numbered(j, k + j) && t == AfterRegistration(s, "x", session, true, s.clock)
    requires s.nextConn !in s.conns && StoredFrom(s.rows, j, k) && SecretsUpTo(s.origin, k + j)
    ensures StoredFrom(t.rows, j + 1, k) && SecretsUpTo(t.origin, k + j + 1)
  {
    hide AfterRegistration, StoredFrom, SecretsUpTo, Upsert, Install;
    RegistrationFields(s, "x", session, true, t);
    StoredLess(s.rows, j, k, k + j);
    SecretsMore(s.origin, t.origin, k + j);
  }

  lemma ResumedIsBack(s: State, k: nat, j: nat, t: State)
    requires Back(s, k, j) && j < k && t == AfterRegistration(s, "x", Numbered(j, k + j), true, s.clock)
    ensures Back(Later(t), k, j + 1)
  {
    hide AfterRegistration, StoredFrom, SecretsUpTo, Serves, RateReady, NumbersBelow;
    NextIsNew(s.conns, s.slots, s.nextConn);
    ResumedRows(s, k, j, Numbered(j, k + j), t);
    NotServedYet(s, j, j, true, Id(j));
    RegisteredNumbers(s, "x", Numbered(j, k + j), true, t);
    RegisteredServes(s, j, j, j + 1, true, Numbered(j, k + j), true, t);
    ServesLater(t, j + 1, j + 1, true);
    ReadyAgain(s, t, "x");
  }

  lemma LostComesBack(s: State, k: nat)
    requires Lost(s, k)
    ensures Back(s, k, 0)
  {
  }

  lemma {:induction false} ResumeSessions(c: Config, k: nat, j: nat) returns (s: State)
    requires ValidConfig(c) && j <= k <= c.maxTunnels + EXTRA_SLOTS && k * MINUTE < c.lifetime
    ensures Reaches(c, Start(), s) && Back(s, k, j)
    decreases j
  {
    hide Reaches, Lost, Back, AfterRegistration, CanRegister, ValidateResume;
    if j == 0 {
      s := LoseSessions(c, k);
      LostComesBack(s, k);
    } else {
      var before := ResumeSessions(c, k, j - 1);
      CanResumeNext(c, before, k, j - 1);
      Resume(c, Start(), before, "x", Again(j - 1), Numbered(j - 1, k + j - 1), before.clock);
      var t := AfterRegistration(before, "x", Numbered(j - 1, k + j - 1), true, before.clock);
      ResumedIsBack(before, k, j - 1, t);
      WaitsAMinute(c, Start(), t);
      s := Later(t);
    }
  }

  /** As many sessions as there are connection slots can be live at once, all from one address, if
      their lifetime allows for one registration a minute and EndSession lags behind for as long. */
  lemma Overloaded(c: Config, k: nat) returns (s: State)
    requires ValidConfig(c) && k <= c.maxTunnels + EXTRA_SLOTS && k * MINUTE < c.lifetime
    ensures Reaches(c, Start(), s) && RateLimits.WithinRates(s.admitted)
    ensures |s.registry.bySession| == |OpenTunnels(s)| == |SessionsFrom(SourceIPs(s), "x")| == k
  {
    hide Reaches, OpenTunnels, SourceIPs, SessionsFrom;
    s := ResumeSessions(c, k, k);
    ServedAreOpen(s, k, k, true);
  }
}
