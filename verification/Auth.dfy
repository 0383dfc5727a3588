/** The registration gate (internal/server/auth.go), the dashboard gate (authorize in
    internal/server/http.go), and what pruning can do to the resume gate. */
module Auth {
  import opened Common
  import opened Secrets
  import opened Sessions

  /** How long after its end a session can still be resumed. */
  const GRACE: int := 30 * SECOND

  datatype Registration = Registration(sessionID: string, localPort: int, resumeToken: Bytes, quick: bool)

  /** The refusals a registration can meet, in the order in which they are checked. */
  datatype Refusal =
    | Paused | Busy | RateLimited | AtCapacity | TooManyActive
    | InvalidPort | NotQuick
    | InvalidSessionResume | InvalidSessionMode | Expired | InvalidResumeToken
    | NoFreeName
  {
    function Message(): string {
      match this
      case Paused => "new quick tunnels are temporarily unavailable"
      case Busy => "quick tunnel registration is busy; try again shortly"
      case RateLimited => "too many quick tunnel registrations from this network"
      case AtCapacity => "quick tunnel service is at capacity"
      case TooManyActive => "too many active quick tunnels from this network"
      case InvalidPort => "invalid local port"
      case NotQuick => "client must support quick tunnels"
      case InvalidSessionResume => "invalid session resume"
      case InvalidSessionMode => "invalid session mode"
      case Expired => "quick tunnel expired"
      case InvalidResumeToken => "invalid resume token"
      case NoFreeName => "could not allocate quick tunnel URL"
    }
  }

  function ValidateResume(rows: Table, now: int, lifetime: int, id: string, token: Bytes): Option<Refusal> {
    if id !in rows then Some(InvalidSessionResume)
    else if !rows[id].hosted then Some(InvalidSessionMode)
    else if now - rows[id].startedAt >= lifetime
         || (rows[id].endedAt.Some? && now - rows[id].endedAt.value > GRACE) then Some(Expired)
    else if token == [] || !FoldCompare(HashHostedSecret(token), rows[id].tunnelHash) then Some(InvalidResumeToken)
    else None
  }

  function ValidateRegistration(rows: Table, now: int, lifetime: int, reg: Registration): Option<Refusal> {
    if reg.localPort <= 0 || reg.localPort > 65535 then Some(InvalidPort)
    else if !reg.quick then Some(NotQuick)
    else if reg.sessionID != "" then ValidateResume(rows, now, lifetime, reg.sessionID, reg.resumeToken)
    else None
  }

  predicate Authorize(rows: Table, now: int, lifetime: int, retention: int, id: string, cookie: Bytes) {
    && id != "" && id in rows
    && rows[id].hosted && now - rows[id].startedAt <= lifetime + retention
    && FoldCompare(HashHostedSecret(cookie), rows[id].authHash)
  }

  /** The gate opens exactly for the one preimage of the stored digest, in time. */
  lemma ResumeGate(rows: Table, now: int, lifetime: int, id: string, token: Bytes)
    ensures ValidateResume(rows, now, lifetime, id, token).None? <==>
            && id in rows && rows[id].hosted
            && now < rows[id].startedAt + lifetime
            && (rows[id].endedAt.Some? ==> now <= rows[id].endedAt.value + GRACE)
            && token != [] && rows[id].tunnelHash == HashHostedSecret(token)
  {
  }

  /** What is checked before a resume: the port and the kind of client. */
  lemma RegistrationGate(rows: Table, now: int, lifetime: int, reg: Registration)
    ensures var verdict := ValidateRegistration(rows, now, lifetime, reg);
            && (verdict.None? <==>
                 && 1 <= reg.localPort <= 65535 && reg.quick
                 && (reg.sessionID != "" ==> ValidateResume(rows, now, lifetime, reg.sessionID, reg.resumeToken).None?))
            && (verdict == Some(InvalidPort) <==> reg.localPort < 1 || reg.localPort > 65535)
            && (verdict == Some(NotQuick) <==> 1 <= reg.localPort <= 65535 && !reg.quick)
            && (1 <= reg.localPort <= 65535 && reg.quick && reg.sessionID != "" ==>
                 verdict == ValidateResume(rows, now, lifetime, reg.sessionID, reg.resumeToken))
  {
  }

  /** Why a resume is refused: the first of the four reasons that applies. */
  lemma ResumeRefusals(rows: Table, now: int, lifetime: int, id: string, token: Bytes)
    ensures var verdict := ValidateResume(rows, now, lifetime, id, token);
            && (verdict == Some(InvalidSessionResume) <==> id !in rows)
            && (verdict == Some(InvalidSessionMode) <==> id in rows && !rows[id].hosted)
            && (verdict == Some(Expired) <==>
                 && id in rows && rows[id].hosted
                 && (rows[id].startedAt + lifetime <= now
                     || (rows[id].endedAt.Some? && rows[id].endedAt.value + 30 * SECOND < now)))
            && (verdict == Some(InvalidResumeToken) <==>
                 && id in rows && rows[id].hosted && now < rows[id].startedAt + lifetime
                 && (rows[id].endedAt.Some? ==> now <= rows[id].endedAt.value + 30 * SECOND)
                 && (token == [] || HashHostedSecret(token) != rows[id].tunnelHash))
  {
  }

  /** At most one token resumes a session, and a blanked row is closed to every token and cookie. */
  lemma OneTokenPerRow(rows: Table, id: string, now: int, later: int, lifetime: int, retention: int, a: Bytes, b: Bytes)
    requires ValidateResume(rows, now, lifetime, id, a).None?
    ensures ValidateResume(rows, later, lifetime, id, b).None? ==> a == b
    ensures rows[id].tunnelHash != []
  {
    HashIsInjective(a, b);
  }

  // --------------------------------------------------- pruning and resumes

  /** Nothing ended before it started, or in the future. */
  ghost predicate EndedInTime(rows: Table, now: int) {
    forall id :: id in rows && rows[id].endedAt.Some? ==> rows[id].startedAt <= rows[id].endedAt.value <= now
  }

  /** Whatever could be resumed with the one table can be resumed with the other. */
  ghost predicate StaysResumable(rows: Table, later: Table, now: int, lifetime: int) {
    forall id, token :: ValidateResume(rows, now, lifetime, id, token).None?
                        ==> ValidateResume(later, now, lifetime, id, token).None?
  }

  /** What is pruned is past its grace, or past the last instant of its lifetime. */
  ghost predicate Outlasts(rows: Table, now: int, retention: int, lifetime: int) {
    retention >= GRACE || (retention >= lifetime - 1 && EndedInTime(rows, now))
  }

  lemma PruneSpares(rows: Table, now: int, retention: int, lifetime: int)
    requires Outlasts(rows, now, retention, lifetime)
    ensures StaysResumable(rows, PruneSessions(rows, now - retention), now, lifetime)
  {
    forall id, token | ValidateResume(rows, now, lifetime, id, token).None?
      ensures ValidateResume(PruneSessions(rows, now - retention), now, lifetime, id, token).None?
    {
      ResumeGate(rows, now, lifetime, id, token);
      assert !Stale(rows[id], now - retention);
    }
  }

  /** Pruning at the instant of a resume cannot change its outcome for any token. */
  ghost predicate PruneSparesResumes(retention: int, lifetime: int) {
    forall rows: Table, now: int ::
      EndedInTime(rows, now) ==> StaysResumable(rows, PruneSessions(rows, now - retention), now, lifetime)
  }

  function EndedAtStart(): Table {
    map["id" := Row("name", 3000, 0, Some(0), [], HashHostedSecret([1]), true)]
  }

  lemma PruneLoses(now: int, retention: int, lifetime: int)
    requires retention < now <= GRACE && 0 <= now < lifetime
    ensures EndedInTime(EndedAtStart(), now)
    ensures !StaysResumable(EndedAtStart(), PruneSessions(EndedAtStart(), now - retention), now, lifetime)
  {
    var rows, later := EndedAtStart(), PruneSessions(EndedAtStart(), now - retention);
    ResumeGate(rows, now, lifetime, "id", [1]);
    assert "id" !in later;
    assert ValidateResume(rows, now, lifetime, "id", [1]).None? && ValidateResume(later, now, lifetime, "id", [1]).Some?;
  }

  lemma PruneSparesResumesIff(retention: int, lifetime: int)
    requires lifetime > 0
    ensures PruneSparesResumes(retention, lifetime) <==> retention >= GRACE || retention >= lifetime - 1
  {
    hide StaysResumable, PruneSessions, EndedInTime, EndedAtStart;
    if retention >= GRACE || retention >= lifetime - 1 {
      forall rows: Table, now: int | EndedInTime(rows, now)
        ensures StaysResumable(rows, PruneSessions(rows, now - retention), now, lifetime)
      {
        PruneSpares(rows, now, retention, lifetime);
      }
    } else {
      PruneLoses(if retention < 0 then 0 else retention + 1, retention, lifetime);
    }
  }
}
