/** The stored sessions (internal/storage/sessions.go): what each SQL statement does to the
    `sessions` table, as functions on the table. The class `Storage.Database` executes them. */
module Sessions {
  import opened Common
  import opened Secrets

  /** A session as the server hands it to the storage layer: with its secrets in the clear. */
  datatype Session = Session(
    id: string, subdomain: string, localPort: int, startedAt: int,
    authToken: Bytes, tunnelToken: Bytes, hosted: bool)

  /** A stored session. An empty hash is what revoking leaves behind. */
  datatype Row = Row(
    subdomain: string, localPort: int, startedAt: int, endedAt: Option<int>,
    authHash: Bytes, tunnelHash: Bytes, hosted: bool)

  type Table = map<string, Row>

  function StoredRow(session: Session): Row {
    var stored := (secret: Bytes) => if session.hosted then HashHostedSecret(secret) else secret;
    Row(session.subdomain, session.localPort, session.startedAt, None,
        stored(session.authToken), stored(session.tunnelToken), session.hosted)
  }

  function Upsert(rows: Table, session: Session): Table {
    rows[session.id := StoredRow(session)]
  }

  function End(rows: Table, id: string, at: int): Table {
    if id in rows then rows[id := rows[id].(endedAt := Some(at))] else rows
  }

  predicate Revocable(rows: Table, id: string) {
    id in rows && rows[id].hosted
  }

  function Revoke(rows: Table, id: string, at: int): Table {
    if Revocable(rows, id)
    then rows[id := rows[id].(authHash := [], tunnelHash := [], endedAt := Some(at))]
    else rows
  }

  predicate Orphaned(row: Row) {
    row.hosted && row.endedAt.None?
  }

  function EndOrphans(rows: Table, at: int): Table {
    map id | id in rows :: if Orphaned(rows[id]) then rows[id].(endedAt := Some(at)) else rows[id]
  }

  predicate Stale(row: Row, cutoff: int) {
    row.hosted && row.endedAt.Some? && row.endedAt.value < cutoff
  }

  function PruneSessions(rows: Table, cutoff: int): Table {
    map id | id in rows && !Stale(rows[id], cutoff) :: rows[id]
  }

  predicate SubdomainExists(rows: Table, subdomain: string) {
    exists id :: id in rows && rows[id].subdomain == subdomain
  }

  /** No other session, hosted or not, is stored under the public name of a hosted one. */
  ghost predicate DistinctSubdomains(rows: Table) {
    forall a, b :: a in rows && b in rows && rows[a].hosted && rows[a].subdomain == rows[b].subdomain ==> a == b
  }

  /** At a start every hosted session that was running is marked ended then, and no other row
      changes. */
  lemma OrphansEnd(rows: Table, at: int, id: string)
    requires id in rows
    ensures id in EndOrphans(rows, at)
    ensures var row := EndOrphans(rows, at)[id];
            if rows[id].hosted && rows[id].endedAt.None? then row == rows[id].(endedAt := Some(at)) else row == rows[id]
  {
  }

  /** Ending or revoking a session touches its own row only; both mark it ended. */
  lemma OnlyOwnRow(rows: Table, id: string, at: int, other: string)
    requires other in rows
    ensures other in End(rows, id, at) && other in Revoke(rows, id, at)
    ensures End(rows, id, at)[other] == if other == id then rows[id].(endedAt := Some(at)) else rows[other]
    ensures Revoke(rows, id, at)[other].endedAt
         == if other == id && rows[id].hosted then Some(at) else rows[other].endedAt
    ensures other != id || !rows[id].hosted ==> Revoke(rows, id, at)[other] == rows[other]
  {
  }
}
