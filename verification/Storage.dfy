/** The database (internal/storage/sessions.go, requests.go and db.go): three tables with enforced
    foreign keys, one method per statement, and what hosted retention deletes. */
module Storage {
  import opened Common
  import opened Secrets
  import opened Sessions

  /** A captured request or replay: what it belongs to, and all that was recorded. */
  datatype Request = Request(sessionID: string, createdAt: int, record: string)
  datatype Replay = Replay(requestID: string, createdAt: int, record: string)
  datatype Tables = Tables(sessions: Table, requests: map<string, Request>, replays: map<string, Replay>)

  // ----------------------------------------------------------- statements

  predicate StaleSession(t: Tables, id: string, cutoff: int) {
    id in t.sessions && Stale(t.sessions[id], cutoff)
  }

  /** The request belongs to a stale session. */
  predicate StaleRequest(t: Tables, id: string, cutoff: int) {
    id in t.requests && StaleSession(t, t.requests[id].sessionID, cutoff)
  }

  function DeleteReplays(t: Tables, cutoff: int): Tables {
    t.(replays := map r | r in t.replays && !StaleRequest(t, t.replays[r].requestID, cutoff) :: t.replays[r])
  }

  /** A delete that would leave a dangling reference fails as a whole. */
  predicate CanDeleteRequests(t: Tables, cutoff: int) {
    forall r :: r in t.replays ==> !StaleRequest(t, t.replays[r].requestID, cutoff)
  }

  function DeleteRequests(t: Tables, cutoff: int): Tables {
    if CanDeleteRequests(t, cutoff)
    then t.(requests := map q | q in t.requests && !StaleRequest(t, q, cutoff) :: t.requests[q])
    else t
  }

  predicate CanDeleteSessions(t: Tables, cutoff: int) {
    forall q :: q in t.requests ==> !StaleSession(t, t.requests[q].sessionID, cutoff)
  }

  function DeleteSessions(t: Tables, cutoff: int): Tables {
    if CanDeleteSessions(t, cutoff) then t.(sessions := PruneSessions(t.sessions, cutoff)) else t
  }

  /** The three deletes of one prune, up to the first that fails, with what others execute before
      the second and the third; and whether all succeeded. */
  function PruneAmid(t: Tables, first: seq<Statement>, second: seq<Statement>, cutoff: int): (Tables, bool) {
    var a := ExecuteAll(DeleteReplays(t, cutoff), first);
    if !CanDeleteRequests(a, cutoff) then (a, false)
    else
      var b := ExecuteAll(DeleteRequests(a, cutoff), second);
      if !CanDeleteSessions(b, cutoff) then (b, false) else (DeleteSessions(b, cutoff), true)
  }

  function PruneStatements(t: Tables, cutoff: int): (Tables, bool) {
    PruneAmid(t, [], [], cutoff)
  }

  function PutNewRequest(t: Tables, id: string, request: Request): Tables {
    if id !in t.requests && request.sessionID in t.sessions then t.(requests := t.requests[id := request]) else t
  }

  function PutNewReplay(t: Tables, id: string, replay: Replay): Tables {
    if id !in t.replays && replay.requestID in t.requests then t.(replays := t.replays[id := replay]) else t
  }

  ghost predicate RefsOk(t: Tables) {
    && (forall r :: r in t.replays ==> t.replays[r].requestID in t.requests)
    && (forall q :: q in t.requests ==> t.requests[q].sessionID in t.sessions)
  }

  /** What retention should leave: everything but the stale sessions and what hangs on them. */
  function Retained(t: Tables, cutoff: int): Tables {
    Tables(PruneSessions(t.sessions, cutoff),
           map q | q in t.requests && !StaleRequest(t, q, cutoff) :: t.requests[q],
           map r | r in t.replays && !StaleRequest(t, t.replays[r].requestID, cutoff) :: t.replays[r])
  }

  // -------------------------------------------------------------- the object

  class Database {
    var sessions: Table
    var requests: map<string, Request>
    var replays: map<string, Replay>

    constructor (sessions: Table)
      ensures View() == Tables(sessions, map[], map[])
    {
      this.sessions, requests, replays := sessions, map[], map[];
    }

    function View(): Tables
      reads this
    {
      Tables(sessions, requests, replays)
    }

    method UpsertSession(session: Session)
      modifies this
      ensures View() == old(View()).(sessions := Upsert(old(sessions), session))
    {
      var authHash, tunnelHash := session.authToken, session.tunnelToken;
      if session.hosted {
        authHash, tunnelHash := HashHostedSecret(authHash), HashHostedSecret(tunnelHash);
      }
      sessions := sessions[session.id :=
        Row(session.subdomain, session.localPort, session.startedAt, None, authHash, tunnelHash, session.hosted)];
    }

    method EndSession(id: string, at: int)
      modifies this
      ensures View() == old(View()).(sessions := End(old(sessions), id, at))
    {
      if id in sessions {
        sessions := sessions[id := sessions[id].(endedAt := Some(at))];
      }
    }

    /** Whether a hosted row was found; the table is unchanged if not. */
    method RevokeHostedSession(id: string, at: int) returns (found: bool)
      modifies this
      ensures found == Revocable(old(sessions), id)
      ensures View() == old(View()).(sessions := Revoke(old(sessions), id, at))
    {
      found := id in sessions && sessions[id].hosted;
      if found {
        sessions := sessions[id := sessions[id].(authHash := [], tunnelHash := [], endedAt := Some(at))];
      }
    }

    method EndOrphanedHostedSessions(at: int)
      modifies this
      ensures View() == old(View()).(sessions := EndOrphans(old(sessions), at))
    {
      sessions := map id | id in sessions ::
        if sessions[id].hosted && sessions[id].endedAt.None? then sessions[id].(endedAt := Some(at)) else sessions[id];
    }

    method GetSession(id: string) returns (row: Option<Row>)
      ensures row == if id in sessions then Some(sessions[id]) else None
    {
      row := if id in sessions then Some(sessions[id]) else None;
    }

    /** Runs in the writer's transaction: a dangling or duplicate row is rolled back. */
    method InsertRequest(id: string, request: Request)
      modifies this
      ensures View() == PutNewRequest(old(View()), id, request)
    {
      if id !in requests && request.sessionID in sessions {
        requests := requests[id := request];
      }
    }

    method InsertReplay(id: string, replay: Replay)
      modifies this
      ensures View() == PutNewReplay(old(View()), id, replay)
    {
      if id !in replays && replay.requestID in requests {
        replays := replays[id := replay];
      }
    }

    method PruneHostedBefore(cutoff: int) returns (ok: bool)
      modifies this
      ensures (View(), ok) == PruneStatements(old(View()), cutoff)
    {
      replays := map r | r in replays && !StaleRequest(View(), replays[r].requestID, cutoff) :: replays[r];
      ok := CanDeleteRequests(View(), cutoff);
      if ok {
        requests := map q | q in requests && !StaleRequest(View(), q, cutoff) :: requests[q];
        ok := CanDeleteSessions(View(), cutoff);
        if ok {
          sessions := PruneSessions(sessions, cutoff);
        }
      }
    }
  }

  // ------------------------------------------------------------- guarantees

  /** With references intact, the three deletes all succeed and leave exactly what is retained. */
  lemma PruneRetains(t: Tables, cutoff: int)
    requires RefsOk(t)
    ensures PruneStatements(t, cutoff) == (Retained(t, cutoff), true)
    ensures RefsOk(Retained(t, cutoff))
  {
    var a := DeleteReplays(t, cutoff);
    var b := DeleteRequests(a, cutoff);
    assert b.requests == Retained(t, cutoff).requests;
  }

  /** Everything that other statements may do to the three tables in between. */
  datatype Statement =
    | PutSession(session: Session)
    | EndOne(id: string, at: int)
    | RevokeOne(id: string, at: int)
    | EndAll(at: int)
    | PutRequest(id: string, request: Request)
    | PutReplay(id: string, replay: Replay)
    | PruneReplays(cutoff: int)
    | PruneRequests(cutoff: int)
    | PruneRows(cutoff: int)

  function Execute(t: Tables, s: Statement): Tables {
    match s
    case PutSession(session) => t.(sessions := Upsert(t.sessions, session))
    case EndOne(id, at) => t.(sessions := End(t.sessions, id, at))
    case RevokeOne(id, at) => t.(sessions := Revoke(t.sessions, id, at))
    case EndAll(at) => t.(sessions := EndOrphans(t.sessions, at))
    case PutRequest(id, request) => PutNewRequest(t, id, request)
    case PutReplay(id, replay) => PutNewReplay(t, id, replay)
    case PruneReplays(cutoff) => DeleteReplays(t, cutoff)
    case PruneRequests(cutoff) => DeleteRequests(t, cutoff)
    case PruneRows(cutoff) => DeleteSessions(t, cutoff)
  }

  function ExecuteAll(t: Tables, statements: seq<Statement>): Tables {
    if statements == [] then t else Execute(ExecuteAll(t, statements[..|statements| - 1]), statements[|statements| - 1])
  }

  lemma StatementKeepsRefs(t: Tables, s: Statement)
    requires RefsOk(t)
    ensures RefsOk(Execute(t, s))
  {
  }

  /** In whatever order the statements of several prunes and of everyone else come, no replay
      loses its request and no request its session. */
  lemma {:induction false} ReferencesStayIntact(t: Tables, statements: seq<Statement>)
    requires RefsOk(t)
    ensures RefsOk(ExecuteAll(t, statements))
  {
    if statements != [] {
      ReferencesStayIntact(t, statements[..|statements| - 1]);
      StatementKeepsRefs(ExecuteAll(t, statements[..|statements| - 1]), statements[|statements| - 1]);
    }
  }

  // ------------------------------------------------- what is stored, and until when

  /** The request belongs to a hosted session that ended before the cutoff. */
  predicate BelongsToOld(t: Tables, q: string, cutoff: int) {
    && q in t.requests && t.requests[q].sessionID in t.sessions
    && var row := t.sessions[t.requests[q].sessionID];
       row.hosted && row.endedAt.Some? && row.endedAt.value < cutoff
  }

  lemma ExecuteUpTo(t: Tables, statements: seq<Statement>, i: nat)
    requires i < |statements|
    ensures ExecuteAll(t, statements[..i + 1]) == Execute(ExecuteAll(t, statements[..i]), statements[i])
  {
    assert statements[..i + 1][..i] == statements[..i];
  }

  /** What each statement of a run makes of a stored session; the others leave it alone. */
  lemma RowUnderStatement(t: Tables, statements: seq<Statement>, i: nat, id: string)
    requires i < |statements| && id in ExecuteAll(t, statements[..i]).sessions
    ensures var row, after := ExecuteAll(t, statements[..i]).sessions[id], ExecuteAll(t, statements[..i + 1]).sessions;
            match statements[i]
            case PutSession(session) => id in after && after[id] == if session.id == id then StoredRow(session) else row
            case EndOne(other, at) => id in after && after[id] == if other == id then row.(endedAt := Some(at)) else row
            case RevokeOne(other, at) =>
              id in after && after[id] == if other == id && row.hosted
                                          then row.(authHash := [], tunnelHash := [], endedAt := Some(at)) else row
            case EndAll(at) =>
              id in after && after[id] == if row.hosted && row.endedAt.None? then row.(endedAt := Some(at)) else row
            case PruneRows(cutoff) =>
              if id in after then after[id] == row else row.hosted && row.endedAt.Some? && row.endedAt.value < cutoff
            case _ => id in after && after[id] == row
  {
    hide StoredRow;
    ExecuteUpTo(t, statements, i);
  }

  /** A request of a stored session, ended or not, is stored with its content if its ID is new. */
  lemma RequestLands(t: Tables, statements: seq<Statement>, i: nat, q: string, request: Request)
    requires i < |statements| && statements[i] == PutRequest(q, request)
    ensures var before, after := ExecuteAll(t, statements[..i]), ExecuteAll(t, statements[..i + 1]);
            && (q !in before.requests && request.sessionID in before.sessions ==>
                 q in after.requests && after.requests[q] == request)
            && (q in before.requests || request.sessionID !in before.sessions ==> after == before)
  {
    ExecuteUpTo(t, statements, i);
  }

  /** Likewise for a replay of a stored request. */
  lemma ReplayLands(t: Tables, statements: seq<Statement>, i: nat, r: string, replay: Replay)
    requires i < |statements| && statements[i] == PutReplay(r, replay)
    ensures var before, after := ExecuteAll(t, statements[..i]), ExecuteAll(t, statements[..i + 1]);
            && (r !in before.replays && replay.requestID in before.requests ==>
                 r in after.replays && after.replays[r] == replay)
            && (r in before.replays || replay.requestID !in before.requests ==> after == before)
  {
    ExecuteUpTo(t, statements, i);
  }

  lemma RequestStep(t: Tables, s: Statement, q: string)
    requires q in t.requests
    ensures || (q in Execute(t, s).requests && Execute(t, s).requests[q] == t.requests[q])
            || (s.PruneRequests? && BelongsToOld(t, q, s.cutoff))
  {
  }

  lemma ReplayStep(t: Tables, s: Statement, r: string)
    requires r in t.replays
    ensures || (r in Execute(t, s).replays && Execute(t, s).replays[r] == t.replays[r])
            || (s.PruneReplays? && BelongsToOld(t, t.replays[r].requestID, s.cutoff))
  {
  }

  /** A stored request stays as it is until a prune whose cutoff finds its session ended. */
  lemma {:induction false} RequestStays(t: Tables, statements: seq<Statement>, i: nat, n: nat, q: string)
    requires i <= n <= |statements| && q in ExecuteAll(t, statements[..i]).requests
    ensures || (q in ExecuteAll(t, statements[..n]).requests
                && ExecuteAll(t, statements[..n]).requests[q] == ExecuteAll(t, statements[..i]).requests[q])
            || exists j :: i <= j < n && statements[j].PruneRequests?
                           && BelongsToOld(ExecuteAll(t, statements[..j]), q, statements[j].cutoff)
    decreases n
  {
    hide Execute, ExecuteAll, BelongsToOld;
    if i < n {
      RequestStays(t, statements, i, n - 1, q);
      ExecuteUpTo(t, statements, n - 1);
      if q in ExecuteAll(t, statements[..n - 1]).requests {
        RequestStep(ExecuteAll(t, statements[..n - 1]), statements[n - 1], q);
      }
    }
  }

  lemma {:induction false} ReplayStays(t: Tables, statements: seq<Statement>, i: nat, n: nat, r: string)
    requires i <= n <= |statements| && r in ExecuteAll(t, statements[..i]).replays
    ensures var replay := ExecuteAll(t, statements[..i]).replays[r];
            || (r in ExecuteAll(t, statements[..n]).replays && ExecuteAll(t, statements[..n]).replays[r] == replay)
            || exists j :: i <= j < n && statements[j].PruneReplays?
                           && BelongsToOld(ExecuteAll(t, statements[..j]), replay.requestID, statements[j].cutoff)
    decreases n
  {
    hide Execute, ExecuteAll, BelongsToOld;
    if i < n {
      ReplayStays(t, statements, i, n - 1, r);
      ExecuteUpTo(t, statements, n - 1);
      if r in ExecuteAll(t, statements[..n - 1]).replays {
        ReplayStep(ExecuteAll(t, statements[..n - 1]), statements[n - 1], r);
      }
    }
  }

  /** What retention leaves, spelled out: every session that is not hosted, still running, or was
      ended at the cutoff or later, and the requests and replays of these. */
  lemma RetainedIff(t: Tables, cutoff: int, id: string, q: string, r: string)
    requires RefsOk(t)
    ensures var u := Retained(t, cutoff);
            && (id in u.sessions <==>
                 id in t.sessions && (!t.sessions[id].hosted || t.sessions[id].endedAt.None? || t.sessions[id].endedAt.value >= cutoff))
            && (q in u.requests <==> q in t.requests && t.requests[q].sessionID in u.sessions)
            && (r in u.replays <==> r in t.replays && t.replays[r].requestID in u.requests)
            && (id in u.sessions ==> u.sessions[id] == t.sessions[id])
            && (q in u.requests ==> u.requests[q] == t.requests[q])
            && (r in u.replays ==> u.replays[r] == t.replays[r])
  {
  }

  // ------------------------------------------- when an interrupted prune succeeds

  /** What others execute between the deletes: only the retention loop deletes, and ended times
      are read from a clock that is well past the cutoff. */
  predicate Meanwhile(statements: seq<Statement>, cutoff: int) {
    forall i :: 0 <= i < |statements| ==>
      match statements[i]
      case EndOne(_, at) => at >= cutoff
      case RevokeOne(_, at) => at >= cutoff
      case EndAll(at) => at >= cutoff
      case PruneReplays(_) => false
      case PruneRequests(_) => false
      case PruneRows(_) => false
      case _ => true
  }

  /** No statement stores, ends or revokes the session. */
  predicate Leaves(statements: seq<Statement>, id: string) {
    forall i :: 0 <= i < |statements| ==>
      match statements[i]
      case PutSession(session) => session.id != id
      case EndOne(other, _) => other != id
      case RevokeOne(other, _) => other != id
      case _ => true
  }

  /** Statement i stores a request for a session that is stale all along. */
  predicate LateRequest(t: Tables, statements: seq<Statement>, i: int, cutoff: int) {
    && 0 <= i < |statements| && statements[i].PutRequest?
    && statements[i].id !in ExecuteAll(t, statements[..i]).requests
    && StaleSession(t, statements[i].request.sessionID, cutoff)
    && Leaves(statements, statements[i].request.sessionID)
  }

  /** Statement i stores a replay of a request of a session that is stale all along. */
  predicate LateReplay(t: Tables, statements: seq<Statement>, i: int, cutoff: int) {
    && 0 <= i < |statements| && statements[i].PutReplay?
    && var before := ExecuteAll(t, statements[..i]);
       var q := statements[i].replay.requestID;
       && statements[i].id !in before.replays && q in before.requests
       && StaleSession(t, before.requests[q].sessionID, cutoff)
       && Leaves(statements, before.requests[q].sessionID)
  }

  lemma ExecuteLast(t: Tables, statements: seq<Statement>, last: Statement)
    ensures ExecuteAll(t, statements + [last]) == Execute(ExecuteAll(t, statements), last)
  {
    assert (statements + [last])[..|statements|] == statements;
  }

  lemma StaleStep(t: Tables, s: Statement, cutoff: int, id: string)
    requires Meanwhile([s], cutoff)
    ensures StaleSession(Execute(t, s), id, cutoff) <==> StaleSession(t, id, cutoff) && Leaves([s], id)
    ensures t.sessions.Keys <= Execute(t, s).sessions.Keys
  {
    assert [s][0] == s;
  }

  /** Nothing becomes stale meanwhile, and what is touched ceases to be. */
  lemma {:induction false} StaleSince(t: Tables, statements: seq<Statement>, cutoff: int, id: string)
    requires Meanwhile(statements, cutoff)
    ensures StaleSession(ExecuteAll(t, statements), id, cutoff) <==> StaleSession(t, id, cutoff) && Leaves(statements, id)
    ensures t.sessions.Keys <= ExecuteAll(t, statements).sessions.Keys
  {
    if statements != [] {
      hide Execute, StaleSession;
      var before, last := statements[..|statements| - 1], statements[|statements| - 1];
      StaleSince(t, before, cutoff, id);
      assert last == statements[|statements| - 1] && Meanwhile([last], cutoff);
      StaleStep(ExecuteAll(t, before), last, cutoff, id);
      LeavesSplits(before, last, id);
      assert statements == before + [last];
    }
  }

  lemma LeavesSplits(statements: seq<Statement>, last: Statement, id: string)
    ensures Leaves(statements + [last], id) <==> Leaves(statements, id) && Leaves([last], id)
  {
    var all := statements + [last];
    assert all[|statements|] == last == [last][0];
    assert forall i :: 0 <= i < |statements| ==> all[i] == statements[i];
  }

  lemma KeepsStep(t: Tables, s: Statement, cutoff: int)
    requires Meanwhile([s], cutoff)
    ensures forall q :: q in t.requests ==> q in Execute(t, s).requests && Execute(t, s).requests[q] == t.requests[q]
    ensures forall r :: r in t.replays ==> r in Execute(t, s).replays && Execute(t, s).replays[r] == t.replays[r]
    ensures forall q :: q in Execute(t, s).requests && q !in t.requests ==>
              s == PutRequest(q, Execute(t, s).requests[q])
    ensures forall r :: r in Execute(t, s).replays && r !in t.replays ==>
              s == PutReplay(r, Execute(t, s).replays[r]) && s.replay.requestID in t.requests
  {
    assert [s][0] == s;
  }

  ghost predicate Extends(t: Tables, u: Tables) {
    && (forall q :: q in t.requests ==> q in u.requests && u.requests[q] == t.requests[q])
    && (forall r :: r in t.replays ==> r in u.replays && u.replays[r] == t.replays[r])
  }

  /** Meanwhile requests and replays are only added. */
  lemma {:induction false} Grows(t: Tables, statements: seq<Statement>, cutoff: int, i: nat)
    requires Meanwhile(statements, cutoff) && i <= |statements|
    ensures Extends(ExecuteAll(t, statements[..i]), ExecuteAll(t, statements))
    decreases |statements|
  {
    if i == |statements| {
      assert statements[..i] == statements;
    } else {
      hide Execute;
      var before, last := statements[..|statements| - 1], statements[|statements| - 1];
      assert before[..i] == statements[..i] && Meanwhile([last], cutoff);
      Grows(t, before, cutoff, i);
      KeepsStep(ExecuteAll(t, before), last, cutoff);
    }
  }

  lemma {:induction false} RequestOrigin(t: Tables, statements: seq<Statement>, cutoff: int, q: string) returns (i: nat)
    requires Meanwhile(statements, cutoff) && q in ExecuteAll(t, statements).requests && q !in t.requests
    ensures i < |statements| && statements[i] == PutRequest(q, ExecuteAll(t, statements).requests[q])
    ensures q !in ExecuteAll(t, statements[..i]).requests
  {
    hide Execute;
    var last := |statements| - 1;
    var before := statements[..last];
    assert Meanwhile([statements[last]], cutoff);
    KeepsStep(ExecuteAll(t, before), statements[last], cutoff);
    if q in ExecuteAll(t, before).requests {
      i := RequestOrigin(t, before, cutoff, q);
      assert before[..i] == statements[..i];
    } else {
      i := last;
    }
  }

  lemma {:induction false} ReplayOrigin(t: Tables, statements: seq<Statement>, cutoff: int, r: string) returns (i: nat)
    requires Meanwhile(statements, cutoff) && r in ExecuteAll(t, statements).replays && r !in t.replays
    ensures i < |statements| && statements[i] == PutReplay(r, ExecuteAll(t, statements).replays[r])
    ensures r !in ExecuteAll(t, statements[..i]).replays
    ensures statements[i].replay.requestID in ExecuteAll(t, statements[..i]).requests
  {
    hide Execute;
    var last := |statements| - 1;
    var before := statements[..last];
    assert Meanwhile([statements[last]], cutoff);
    KeepsStep(ExecuteAll(t, before), statements[last], cutoff);
    if r in ExecuteAll(t, before).replays {
      i := ReplayOrigin(t, before, cutoff, r);
      assert before[..i] == statements[..i];
    } else {
      i := last;
    }
  }

  /** Where there was nothing to stop the delete of the sessions, only a late request can. */
  lemma LateRequestsStop(t: Tables, statements: seq<Statement>, cutoff: int)
    requires Meanwhile(statements, cutoff) && CanDeleteSessions(t, cutoff)
    ensures CanDeleteSessions(ExecuteAll(t, statements), cutoff) <==> !exists i :: LateRequest(t, statements, i, cutoff)
  {
    hide Execute, ExecuteAll, StaleSession, Leaves, Meanwhile;
    var u := ExecuteAll(t, statements);
    GrowsFromStart(t, statements, cutoff);
    if !CanDeleteSessions(u, cutoff) {
      var q :| q in u.requests && StaleSession(u, u.requests[q].sessionID, cutoff);
      StaleSince(t, statements, cutoff, u.requests[q].sessionID);
      assert q !in t.requests;
      var i := RequestOrigin(t, statements, cutoff, q);
      assert LateRequest(t, statements, i, cutoff);
    }
    if i :| LateRequest(t, statements, i, cutoff) {
      LateRequestLands(t, statements, i, cutoff);
      StaleSince(t, statements, cutoff, statements[i].request.sessionID);
    }
  }

  lemma GrowsFromStart(t: Tables, statements: seq<Statement>, cutoff: int)
    requires Meanwhile(statements, cutoff)
    ensures Extends(t, ExecuteAll(t, statements))
  {
    Grows(t, statements, cutoff, 0);
    assert statements[..0] == [];
  }

  lemma LateRequestLands(t: Tables, statements: seq<Statement>, i: int, cutoff: int)
    requires Meanwhile(statements, cutoff) && LateRequest(t, statements, i, cutoff)
    ensures var u := ExecuteAll(t, statements);
            statements[i].id in u.requests && u.requests[statements[i].id] == statements[i].request
  {
    hide Leaves;
    var before := statements[..i];
    assert forall j :: 0 <= j < i ==> before[j] == statements[j];
    StaleSince(t, before, cutoff, statements[i].request.sessionID);
    assert statements[..i + 1] == before + [statements[i]];
    ExecuteLast(t, before, statements[i]);
    Grows(t, statements, cutoff, i + 1);
  }

  /** Likewise for the delete of the requests and late replays. */
  lemma LateReplaysStop(t: Tables, statements: seq<Statement>, cutoff: int)
    requires Meanwhile(statements, cutoff) && CanDeleteRequests(t, cutoff) && RefsOk(t)
    ensures CanDeleteRequests(ExecuteAll(t, statements), cutoff) <==> !exists i :: LateReplay(t, statements, i, cutoff)
  {
    hide Execute, ExecuteAll, StaleSession, Leaves, Meanwhile;
    var u := ExecuteAll(t, statements);
    GrowsFromStart(t, statements, cutoff);
    if !CanDeleteRequests(u, cutoff) {
      var r :| r in u.replays && StaleRequest(u, u.replays[r].requestID, cutoff);
      StaleSince(t, statements, cutoff, u.requests[u.replays[r].requestID].sessionID);
      assert r !in t.replays;
      var i := ReplayOrigin(t, statements, cutoff, r);
      Grows(t, statements, cutoff, i);
      assert LateReplay(t, statements, i, cutoff);
    }
    if i :| LateReplay(t, statements, i, cutoff) {
      LateReplayLands(t, statements, i, cutoff);
      var q := statements[i].replay.requestID;
      Grows(t, statements, cutoff, i);
      StaleSince(t, statements, cutoff, u.requests[q].sessionID);
      assert StaleRequest(u, q, cutoff);
    }
  }

  lemma LateReplayLands(t: Tables, statements: seq<Statement>, i: int, cutoff: int)
    requires Meanwhile(statements, cutoff) && LateReplay(t, statements, i, cutoff)
    ensures var u := ExecuteAll(t, statements);
            statements[i].id in u.replays && u.replays[statements[i].id] == statements[i].replay
  {
    hide Leaves, StaleSession;
    var before := statements[..i];
    assert statements[..i + 1] == before + [statements[i]];
    ExecuteLast(t, before, statements[i]);
    Grows(t, statements, cutoff, i + 1);
  }

  /** A prune that others interrupt succeeds if and only if no replay of a stale session's request
      is stored between its first two deletes, and no request of a stale session between its
      last two. Otherwise not a single session is deleted. */
  lemma PruneSucceedsIff(t: Tables, first: seq<Statement>, second: seq<Statement>, cutoff: int)
    requires RefsOk(t) && Meanwhile(first, cutoff) && Meanwhile(second, cutoff)
    ensures var a := DeleteReplays(t, cutoff);
            var b := DeleteRequests(ExecuteAll(a, first), cutoff);
            PruneAmid(t, first, second, cutoff).1 <==>
              !(exists i :: LateReplay(a, first, i, cutoff)) && !(exists i :: LateRequest(b, second, i, cutoff))
    ensures !PruneAmid(t, first, second, cutoff).1 ==>
              t.sessions.Keys <= PruneAmid(t, first, second, cutoff).0.sessions.Keys
  {
    hide ExecuteAll, LateReplay, LateRequest, StaleSession;
    var a := DeleteReplays(t, cutoff);
    ReplaysDeleted(t, cutoff);
    LateReplaysStop(a, first, cutoff);
    StaleSince(a, first, cutoff, "");
    if CanDeleteRequests(ExecuteAll(a, first), cutoff) {
      var b := DeleteRequests(ExecuteAll(a, first), cutoff);
      RequestsDeleted(ExecuteAll(a, first), cutoff);
      LateRequestsStop(b, second, cutoff);
      StaleSince(b, second, cutoff, "");
    }
  }

  lemma ReplaysDeleted(t: Tables, cutoff: int)
    requires RefsOk(t)
    ensures RefsOk(DeleteReplays(t, cutoff)) && CanDeleteRequests(DeleteReplays(t, cutoff), cutoff)
  {
  }

  lemma RequestsDeleted(t: Tables, cutoff: int)
    requires CanDeleteRequests(t, cutoff)
    ensures CanDeleteSessions(DeleteRequests(t, cutoff), cutoff)
  {
  }

  /** The cutoffs of all deletes among the statements. */
  predicate CutoffsUpTo(statements: seq<Statement>, limit: int) {
    forall i :: 0 <= i < |statements| ==>
      match statements[i]
      case PruneReplays(cutoff) => cutoff <= limit
      case PruneRequests(cutoff) => cutoff <= limit
      case PruneRows(cutoff) => cutoff <= limit
      case _ => true
  }

  /** The session is stored, and was not ended before the limit: not hosted, running, or recent. */
  predicate Kept(t: Tables, id: string, limit: int) {
    id in t.sessions && !Stale(t.sessions[id], limit)
  }

  /** A session that never counts as ended before the cutoffs keeps all its data. */
  lemma {:induction false} OtherDataSurvives(t: Tables, statements: seq<Statement>, limit: int, id: string)
    requires RefsOk(t) && CutoffsUpTo(statements, limit)
    requires forall n :: 0 <= n <= |statements| && id in ExecuteAll(t, statements[..n]).sessions ==>
               Kept(ExecuteAll(t, statements[..n]), id, limit)
    requires id in t.sessions
    ensures var u := ExecuteAll(t, statements);
            && id in u.sessions
            && (forall q :: q in t.requests && t.requests[q].sessionID == id ==>
                 q in u.requests && u.requests[q] == t.requests[q])
            && (forall r :: r in t.replays && t.requests[t.replays[r].requestID].sessionID == id ==>
                 r in u.replays && u.replays[r] == t.replays[r])
  {
    if statements != [] {
      var before, last := statements[..|statements| - 1], statements[|statements| - 1];
      forall n | 0 <= n <= |before| && id in ExecuteAll(t, before[..n]).sessions
        ensures Kept(ExecuteAll(t, before[..n]), id, limit)
      {
        assert before[..n] == statements[..n];
      }
      OtherDataSurvives(t, before, limit, id);
      ReferencesStayIntact(t, before);
      assert before == statements[..|before|];
      DataSurvivesStatement(ExecuteAll(t, before), last, limit, id);
    }
  }

  lemma DataSurvivesStatement(t: Tables, s: Statement, limit: int, id: string)
    requires RefsOk(t) && CutoffsUpTo([s], limit) && Kept(t, id, limit)
    ensures var u := Execute(t, s);
            && id in u.sessions
            && (forall q :: q in t.requests && t.requests[q].sessionID == id ==>
                 q in u.requests && u.requests[q] == t.requests[q])
            && (forall r :: r in t.replays && t.requests[t.replays[r].requestID].sessionID == id ==>
                 r in u.replays && u.replays[r] == t.replays[r])
  {
    assert [s][0] == s;
  }
}
