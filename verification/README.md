# A model of the quick-tunnel control plane

Vexlo gives a developer a public URL for a local port. A client keeps one connection to the server;
the server hands out a subdomain, forwards public requests over the connection, and lets the client
resume its session with a rotating token after a disconnect. This project models the server's
control plane, its wire protocol and the reconnecting client, and proves what they guarantee over
all runs and all interleavings.

Objects that the program updates in place are classes here, and each of their methods is proved
against functions on plain values. The concurrent parts are step machines built from the same
functions: one step for each critical section and for each SQL statement, in any order that the locks
allow. Theorems about the machines quantify over whole runs.

| file | what it models |
|---|---|
| `Common.dfy`, `Secrets.dfy` | time; stored digests; the comparison of secrets |
| `Sessions.dfy`, `Storage.dfy` | the session table statement by statement; the database object; retention |
| `Auth.dfy` | the resume gate and the dashboard gate |
| `Registry.dfy`, `Manager.dfy` | the two in-memory maps; the tunnel manager object and its operations |
| `ControlPlane.dfy`, `Invariant.dfy` | the step machine of registrations, disconnects, revokes, scans, pruning and restarts; its inductive invariant |
| `Guarantees.dfy`, `Routes.dfy`, `Exactness.dfy` | theorems about every run; what routes lead to and when they are lost; guarantees that hold of some runs only, with the exact condition |
| `Overload.dfy`, `Counterexamples.dfy` | runs on the other side of those conditions, how far resumes can take the server among them |
| `Retention.dfy` | the times in the table over runs; what the retention loop spares; resumes lost to a prune |
| `Lasting.dfy`, `Progress.dfy` | what lasts and exactly until when; what can always be finished |
| `Reachability.dfy`, `Refinement.dfy`, `Admissions.dfy` | paths of the machine; the manager's `Register` as such a path; when each refusal is the answer, and how many registrations are accepted in a minute |
| `RateLimits.dfy`, `Slots.dfy`, `Handoffs.dfy`, `Correlation.dfy` | rate windows; admission slots; single-use dashboard handoffs; matching responses to requests |
| `Framing.dfy`, `Client.dfy`, `WriteQueue.dfy`, `HostRouting.dfy` | the wire format and concurrent senders; the reconnecting client; the database's write queue; routing by host |

Assumptions: session IDs, secrets and request IDs are fresh when drawn (names may repeat); the digest
has no collisions (`Secrets.SecretHash`, shown to be satisfiable); clocks do not run backwards and are
more than a minute past the zero time; storage statements succeed unless a foreign key stops them.
The first start finds no hosted sessions, and old sessions of any names; later starts are steps of the
machine. The machine leaves out the rate limiter, so what it says of all runs holds whatever the limiter
refuses; the limiter accepts all admissions of the runs in `Counterexamples.dfy`, `Overload.dfy` and `Retention.dfy`.

## Where the code does something else than one might expect

- The comparison of secrets loops over runes, not bytes (internal/server/auth.go:47). It is equality
  exactly if its first argument has no multi-byte rune (`Secrets.CompareIsEqualityIff`). Both callers
  pass an ASCII digest first, so both gates are sound.
- The two maps can disagree. A delayed `EndSession` marks a resumed, live session as ended
  (`Exactness.LiveRowsIff`, `Counterexamples.LiveSessionMarkedEnded`); after the retention period its row
  is pruned; then its name is free for another session, which takes over the route
  (`Counterexamples.NameHandedOver`, for a retention shorter than the lifetime), and loses it when the first session ends
  (`Counterexamples.RouteLostToStranger`, `Routes.RouteLastsIff`). The maps agree exactly as long as no
  tunnel is installed under a name that routes to another session (`Guarantees.RegistryAgreementIff`). That
  is so whenever no prune deletes the row of a session that is being served
  (`Routes.UnprunedMapsAgree`; a retention of at least the lifetime spares what is live after the scan,
  `Retention.ScannedPruneSparesLive`), and whenever no routed name is drawn again (`Guarantees.FreshNamesAgree`).
- While such a live, marked session is stale, a request captured between the last two deletes of a
  prune makes the prune fail for all sessions (`Storage.PruneSucceedsIff`).
- cmd/server/main.go:41-42 describes two limits as maxima of concurrent tunnels. Resumes skip them;
  each one is kept exactly as long as nothing is resumed into a full server or a full address
  (`Exactness.CapacityIff`, `Exactness.AddressCapacityIff`). An ordinary reconnect within the grace period
  breaks them, if sessions live for as many minutes as it takes to reach the limit at one registration
  a minute; the defaults of 100 and 5 tunnels and eight hours are such a configuration
  (`Counterexamples.ResumesExceedCapacity`, `Counterexamples.ResumesOverfillAddress`). What does hold in
  every run is `Guarantees.CapacityBounds`. Its bound on open tunnels is attained if sessions live long
  enough and EndSession lags behind (`Counterexamples.SlotBoundIsTight`).
- Fixed windows let through up to twice the limit less one in a minute; for the server's limits this is
  attained, from one address and in all (`Admissions.RegistrationsWithinRate`, `RateLimits.RateBound`, `RateLimits.RateBoundIsTight`,
  `RateLimits.TotalBoundIsTight`).
- The `registered` reply is written without the tunnel's write lock (internal/server/binary.go:58) when
  requests may already be forwarded. The stream survives exactly if no other write comes between
  its header and body and it does not come inside another frame (`Framing.UnlockedFrameSurvivesIff`). The
  client gets its reply, and the rotated token, only if no other write comes before it at all
  (`Framing.FirstFrameIsReplyIff`).
- Between storing and installing a resumed session, a claimed handoff yields a cookie that opens
  nothing (`Counterexamples.ClaimYieldsDeadCookie`, `Guarantees.ClaimedCookieOpensIff`).
- If counting a session's requests fails at the end of a resume, the row's secrets have already been
  replaced, by ones that the client never learns (`Manager.TunnelManager.Register`).
- Pruning can cost a client its resume exactly if the retention is below 30 seconds and below the
  lifetime less one instant (`Retention.PruneLosesResumeIff`).
- A host with a dot before the port finds no tunnel. Nothing, a dot or a port may follow the host, and
  nothing else (`HostRouting.PublicHostFindsTunnel`, `HostRouting.DotAndPortFindNothing`).
- An operation that is queued after the writer has stopped is never run (`WriteQueue.RunIffInTime`).

## Model

| member | source | states |
|---|---|---|
| Secrets.HashHostedSecret | internal/storage/sessions.go:32-35 | a stored digest is never empty and is ASCII, so it differs from a revoked hash and is compared byte by byte |
| Secrets.FoldCompare | internal/server/auth.go:42-51 | for an ASCII first argument the comparison is equality |
| Secrets.SubtleConstantTimeCompare | internal/server/auth.go:42-51 | the loop that accumulates differences answers whether the arguments agree wherever it looks |
| Secrets.CompareIsEqualityIff | internal/server/auth.go:42-51 | the comparison is equality for every second argument if and only if the first has no multi-byte rune |
| Secrets.RuneWidthOfRune | internal/server/auth.go:47 | the loop steps over the whole UTF-8 encoding of every code point |
| Secrets.WideStepsAreRunes | internal/server/auth.go:47 | it steps over more than one byte only where the UTF-8 encoding of a code point stands |
| Storage.Database.UpsertSession | internal/storage/sessions.go:12-30 | stores hashes for a hosted session, plain secrets otherwise; the row starts un-ended; nothing else changes |
| Storage.Database.EndSession | internal/storage/sessions.go:56-59 | sets the ended time of that row, if it exists, and nothing else |
| Storage.Database.RevokeHostedSession | internal/storage/sessions.go:84-97 | reports whether a hosted row exists; then blanks both hashes and ends it, otherwise changes nothing |
| Storage.Database.EndOrphanedHostedSessions | internal/storage/sessions.go:79-82 | ends exactly the hosted rows that have no ended time |
| Storage.Database.GetSession | internal/storage/sessions.go:99-111 | returns the row, or that there is none |
| Storage.Database.InsertRequest | internal/storage/requests.go:9-18 | stores the captured request; a duplicate ID or a missing session leaves the tables unchanged |
| Storage.Database.InsertReplay | internal/storage/requests.go:74-83 | stores the replay; a duplicate ID or a missing request leaves the tables unchanged |
| Storage.Database.PruneHostedBefore | internal/storage/sessions.go:126-135 | performs three deletes and stops at the first that a foreign key refuses |
| Storage.PruneRetains | internal/storage/sessions.go:126-135 | with intact references all three deletes succeed, and exactly the sessions that are not stale and what belongs to them are left, with intact references |
| Storage.RetainedIff | internal/storage/sessions.go:126-135 | a session is left if and only if it is not hosted, not ended or ended no earlier than the cutoff; a request or replay if and only if what it belongs to is; nothing left is changed |
| Storage.ReferencesStayIntact | internal/storage/db.go:55-81 | however statements interleave, enforced foreign keys keep a request for every replay and a session for every request |
| Storage.PruneSucceedsIff | internal/storage/sessions.go:126-135 | a prune that other statements interrupt succeeds if and only if no replay of a stale session's request is stored before its second delete and no request of a stale session between its last two; otherwise no session is deleted |
| Storage.OtherDataSurvives | internal/storage/sessions.go:126-135 | a session that is never ended before a cutoff keeps its row, and all requests and replays with their content, through any interleaving of statements |
| Storage.RowUnderStatement | internal/storage/sessions.go:12-135 | over every run of statements: which of them change a stored session, and into what |
| Storage.RequestLands | internal/storage/requests.go:9-18 | in every run of statements a request with a new ID is stored as it is if its session is, ended or not; otherwise nothing changes |
| Storage.ReplayLands | internal/storage/requests.go:74-83 | the same for a replay, whose request must be stored |
| Storage.RequestStays | internal/storage/sessions.go:126-135 | a stored request stays as it is until the second delete of a prune whose cutoff finds its session stale |
| Storage.ReplayStays | internal/storage/sessions.go:126-135 | a stored replay stays as it is until the first delete of a prune whose cutoff finds its session stale |
| Sessions.OrphansEnd | internal/storage/sessions.go:79-82 | ending orphans ends every hosted row that has no ended time, and changes no other |
| Sessions.OnlyOwnRow | internal/storage/sessions.go:56-97 | ending or revoking one session leaves the rows of all others alone |
| Auth.ResumeGate | internal/server/auth.go:24-40 | a resume passes if and only if the row is hosted, within its lifetime and grace, and the token is the preimage of the stored digest |
| Auth.OneTokenPerRow | internal/server/auth.go:36-38 | no two tokens resume the same row, and a row that can be resumed is not blanked |
| Auth.RegistrationGate | internal/server/auth.go:11-22 | a registration is valid if and only if its port is between 1 and 65535, it is a quick tunnel, and it is new or passes the resume gate; a bad port is reported before a bad mode, and both before the resume gate |
| Auth.ResumeRefusals | internal/server/auth.go:24-40 | for each of the four refusals of a resume, exactly when it is the answer |
| Auth.PruneSparesResumesIff | internal/server/server.go:131-135 | on tables in which nothing ended before it started or in the future, pruning at the instant of a resume changes no outcome if and only if the retention is at least 30 s or at least the lifetime less one instant |
| Manager.FreeNameIsFirst | internal/server/tunnel.go:262-274 | the name allocated is the first unused one of five draws; allocation fails only if all five are used |
| Manager.TunnelManager.CheckHostedCapacity | internal/server/tunnel.go:194-210 | refuses exactly if the server is full or the loop counts as many tunnels of the address as are allowed |
| Manager.TunnelManager.AllocateHostedSubdomain | internal/server/tunnel.go:262-274 | the bounded loop finds the first unused name |
| Manager.TunnelManager.InstallTunnel | internal/server/tunnel.go:276-289 | both maps get the tunnel; the connection that the session had is closed, no other |
| Manager.TunnelManager.RemoveTunnel | internal/server/tunnel.go:366-381 | unregisters and ends the session if and only if the tunnel is still the registered one; otherwise changes nothing |
| Manager.TunnelManager.ExpireHostedTunnels | internal/server/tunnel.go:415-427 | closes exactly the registered tunnels that have reached their lifetime, and keeps both maps |
| Manager.TunnelManager.RetentionTick | internal/server/server.go:124-136 | closes what is overdue, leaves exactly the retained data, and loses no possible resume if the retention outlasts the grace period or the lifetime |
| Manager.TunnelManager.AdmitHosted | internal/server/tunnel.go:143-154 | checks pause, rate and capacity in this order; a resume meets only the rate |
| Manager.TunnelManager.ResolveSession | internal/server/tunnel.go:224-260 | a new session gets the first unused name, a resumed one keeps name and start of its row; none if no name is free or the row is gone |
| Manager.NewSessionIs | internal/server/tunnel.go:224-260 | the session made has the port that the client sent and fresh secrets; a new one starts now under an unused name, a resumed one keeps ID, name and start |
| Manager.TunnelManager.Register | internal/server/tunnel.go:94-124 | refuses for the first failing check without touching table, maps, connections or handoffs; otherwise stores, supersedes, installs and issues a handoff, and nothing more; a failing upsert leaves all as it was, a failing count leaves the row rotated and all else as it was |
| Manager.TunnelManager.ClaimDashboardHandoff | internal/server/tunnel.go:318-333 | yields the registered tunnel's dashboard secret exactly for the session's own handoff in time; uses the handoff up in any case |
| Manager.TunnelManager.RevokeHosted | internal/server/tunnel.go:212-222 | blanks the row, closes that session's connection and no other; no token resumes it at any time afterwards |
| Invariant.InitInv | internal/server/server.go:32-64 | a server that starts over old, non-hosted sessions satisfies the invariant |
| Invariant.StoreStep | internal/storage/sessions.go:12-135 | every step keeps rows, registrations, secrets, revocations and names consistent |
| Invariant.TunnelStep | internal/server/tunnel.go:276-289 | every step keeps the registered tunnel the latest installed one of its session and the only live one |
| Invariant.LimitStep | internal/server/tunnel.go:194-210 | every step keeps the room that admission found and the count of tunnels that no resume made within the maximum, and a slot for each tunnel whose closed channel is open |
| Invariant.RunInv | internal/server/tunnel.go:94-124 | every reachable state satisfies the invariant |
| Guarantees.InstallAgreesIff | internal/server/tunnel.go:276-289 | installing keeps the two maps in agreement if and only if the name is free or routes to the same session |
| Guarantees.RegistryAgreementIff | internal/server/tunnel.go:276-381 | both maps hold the same tunnels under their own keys throughout a run if and only if no tunnel is installed under a name that routes to another session |
| Guarantees.FreshNamesAgree | internal/server/tunnel.go:262-274 | if no new session draws a routed name, the maps agree in every state |
| Guarantees.SupersededRemoval | internal/server/tunnel.go:366-371 | in every run the late removal of a superseded connection leaves both maps alone, and what superseded it comes from a later registration |
| Guarantees.TableAgreement | internal/server/tunnel.go:94-124 | between registrations the row of a registered tunnel is the stored form of its session, unless pruned or blanked by a revoke; it is marked ended only by a revoke or by an older connection |
| Guarantees.SubdomainsStayDistinct | internal/server/tunnel.go:224-274 | in every reachable state no stored session shares its name with a hosted one, whatever names are drawn and whatever old sessions are called |
| Guarantees.ResumeIff | internal/server/auth.go:24-40 | in every reachable state a token resumes a session if and only if it is that of the latest stored registration, in time, with the row neither pruned nor revoked |
| Guarantees.OldTokensStayDead | internal/server/tunnel.go:249-260 | a token that was replaced, belongs to another session or is a dashboard secret is never accepted again |
| Guarantees.RevocationIsPermanent | internal/server/tunnel.go:212-222 | after a revoke the session is never stored or installed again and opens for no token and no cookie |
| Guarantees.RevocationStopsTraffic | internal/server/tunnel.go:212-222 | from the moment at which a revoke has closed the session's connection, no connection of that session is ever live again |
| Guarantees.AuthorizeIff | internal/server/http.go:553-573 | a cookie opens a dashboard if and only if it is the latest dashboard secret of a stored, unrevoked session within lifetime plus retention |
| Guarantees.ClaimedCookieOpensIff | internal/server/tunnel.go:318-333 | the cookie of the tunnel that is registered at the time of a claim opens the dashboard, then and at any later time, if and only if that tunnel's registration is the latest stored one and the row is neither pruned nor revoked nor too old; at the time of the claim it is the latest unless a resume is between upsert and installation |
| Guarantees.ResumeChains | internal/server/tunnel.go:249-260 | all registrations of a session keep ID, name and start, draw new secrets, and each resume was validated within the lifetime |
| Guarantees.OneLiveConnection | internal/server/tunnel.go:276-289 | an open connection that is still read from is the registered one of its session, and the only one |
| Guarantees.CapacityBounds | internal/server/binary.go:12-60 | tunnels of new sessions never exceed the maximum; registered tunnels whose closed channel is open never exceed the maximum plus 100, the connection slots |
| Guarantees.NewTunnelFits | internal/server/tunnel.go:143-154 | a new session leaves the server and its address within their limits, resumed tunnels included |
| Guarantees.OverrunBound | internal/server/server.go:120-147 | if every scan is done within a given time of the look of the scan before, a tunnel that was live when the first one looked overruns its lifetime by less than that time |
| Guarantees.ScanClosesOverdue | internal/server/tunnel.go:415-427 | what was registered and overdue when a scan looked is closed when the scan ends, and for good |
| Lasting.ScansSpareTheYoung | internal/server/tunnel.go:415-427 | a scan closes only what has reached its lifetime |
| Lasting.LiveLastsIff | internal/server/tunnel.go:276-427 | a live tunnel stays live if and only if its connection does not fail, its session is not installed again or revoked, no scan closes it and the server does not restart; nothing that happens to another session matters |
| Lasting.SessionLastsIff | internal/server/tunnel.go:276-381 | a session stays registered with a tunnel if and only if it is not installed again, that tunnel is not removed and the server does not restart |
| Lasting.RowHistory | internal/storage/sessions.go:12-135 | over every run: which steps change the row of a session, and into what; it appears only when the session is stored |
| Lasting.OldSessionsKept | internal/storage/sessions.go:12-135 | in every run the rows of sessions that are not hosted stay as they are |
| Lasting.RevokedIsEnded | internal/storage/sessions.go:84-97 | in every reachable state a revoked session that is stored is marked ended |
| Lasting.RestartClears | internal/server/server.go:32-64 | a restart leaves no tunnel, no route, no slot taken, no registration under way and no scan |
| Lasting.RestartSparesSessions | internal/server/server.go:43-46 | after a restart the latest token of a session that was not ended is still accepted, throughout the grace period and the lifetime |
| Progress.LockIsReleased | internal/server/tunnel.go:94-124 | whoever holds the registration lock can give it back; a refusal changes nothing else |
| Progress.RevokeTakesEffect | internal/server/tunnel.go:212-222 | a stored hosted session can be revoked whenever no registration is under way; then its row is blank and ended, all other rows are as they were, and its connection is closed |
| Progress.ScanCompletes | internal/server/tunnel.go:415-427 | a scan can always be completed; it closes exactly the registered tunnels that have reached their lifetime |
| Progress.ConnectionGoes | internal/server/tunnel.go:366-381 | a lost connection can always be let go: its slot is free and, unless its session was taken over, the session unregistered and marked ended |
| Routes.RunRoutes | internal/server/tunnel.go:276-381 | in every reachable state a route leads to the registered tunnel of a session of that name |
| Routes.RouteLastsIff | internal/server/tunnel.go:366-373 | a routed tunnel stays routed if and only if there is no restart, no installation under its name and no removal of a registered tunnel of that name |
| Routes.RemovalTakesRoute | internal/server/tunnel.go:366-373 | a removal takes the route of another tunnel only if both are registered and the maps disagree |
| Routes.UnprunedMapsAgree | internal/storage/sessions.go:133 | if no prune deletes the row of a session that is being served, both maps agree in every state, whatever names are drawn |
| Exactness.CapacityIff | internal/server/tunnel.go:150-152 | the server stays within HostedMaxTunnels throughout a run if and only if no unregistered session is resumed while it is full |
| Exactness.AddressCapacityIff | internal/server/tunnel.go:200-208 | an address stays within HostedMaxPerIP throughout a run if and only if no session is resumed from it while it is full |
| Exactness.LiveRowsIff | internal/server/tunnel.go:374-376 | no served session is marked ended other than by a revoke, throughout a run, if and only if every delayed EndSession comes before its session is resumed |
| Counterexamples.LiveSessionMarkedEnded | internal/server/tunnel.go:374-376 | a run to a state where a live, unrevoked session is marked ended |
| Counterexamples.NameHandedOver | internal/server/tunnel.go:281-282 | for every configuration with room for two and a retention shorter than the lifetime, a run, with a scan before its prune, to a state where a live session's name routes to another session |
| Overload.OneTooMany | internal/server/tunnel.go:150-152 | the server or an address is filled up to a limit at one registration a minute; one session is lost, marked ended, replaced, and comes back at once: one tunnel too many, all live and in their lifetime |
| Overload.Overloaded | internal/server/tunnel.go:150-152 | if EndSession lags and sessions live long enough, up to as many sessions as there are slots are live at once, all resumed from one address at one registration a minute |
| Counterexamples.ResumesExceedCapacity | internal/server/tunnel.go:150-152 | for every configuration whose lifetime exceeds as many minutes as it allows tunnels, a run that the limiter accepts to one live tunnel more than the maximum |
| Counterexamples.ResumesOverfillAddress | internal/server/tunnel.go:150-152 | for every configuration whose lifetime allows it and whose slots suffice, a run that the limiter accepts to one tunnel more from an address than it may have |
| Counterexamples.SlotBoundIsTight | internal/server/server.go:61 | for every configuration whose lifetime exceeds as many minutes as there are connection slots, a run that the limiter accepts to as many open registered tunnels, with lagging EndSession calls |
| Counterexamples.ClaimYieldsDeadCookie | internal/server/tunnel.go:111-121 | a run to a state in which a claim yields a cookie that opens nothing, although the session is live, stored and not revoked |
| Counterexamples.RouteLostToStranger | internal/server/tunnel.go:372 | for the same configurations as NameHandedOver, a run in which the end of one session takes the route of another, which stays live and registered |
| Retention.SessionsEndInTime | internal/server/tunnel.go:374-376 | in every reachable state no hosted session has ended in the future, nor, unless revoked, before it started |
| Retention.ScannedPruneSparesLive | internal/server/server.go:130-135 | if the retention is at least the lifetime, and the time between the loop's two clock readings, a prune spares every unrevoked session that is live before and after the scan that precedes it |
| Retention.PruneLosesResumeIff | internal/server/auth.go:32-35 | a prune turns an acceptable resume into a rejection in some reachable state if and only if the retention is below 30 s and below the lifetime less one instant |
| Reachability.RegisterNew | internal/server/tunnel.go:94-124 | an uninterrupted new registration is a path of the machine |
| Reachability.Resume | internal/server/tunnel.go:94-124 | an uninterrupted accepted resume is a path of the machine |
| Refinement.RefusalIff | internal/server/tunnel.go:94-110 | for every state of the pause switch and every verdict of the limiter, the manager accepts a registration if and only if it is not a new one during a pause, the limiter accepts it and the machine lets it through |
| Refinement.RegisterIsARun | internal/server/tunnel.go:94-124 | for every registration that the manager accepts, what Register does to table and maps is what a run of the machine does, and its tunnel is live, forwarding to the port that the client sent |
| Refinement.ClaimOpensDashboardIff | internal/server/tunnel.go:318-333 | over every run, a claim yields a cookie exactly for a handoff of the session, in time, while the session is registered; the cookie opens the dashboard, then and later, exactly while its registration is the latest stored one, unrevoked, unpruned and not too old |
| Admissions.AdmissionReasons | internal/server/tunnel.go:143-154 | for pause, rate and capacity, the exact condition under which each is the answer |
| Admissions.RefusalReasons | internal/server/tunnel.go:94-110 | what is admitted is refused for its content, or because each of the five names drawn is in use, and for nothing else |
| Admissions.RegistrationsWithinRate | internal/server/tunnel.go:143-192 | in any sequence of calls, Register accepts fewer than 120 registrations in any minute, and fewer than 20 from each address, whatever else changes between the calls |
| RateLimits.RateLimiter.RateMapHasCapacity | internal/server/tunnel.go:164-174 | the deletion loop removes exactly the stale windows, and only when there are more than 10000 |
| RateLimits.RateLimiter.Allow | internal/server/tunnel.go:176-192 | counts globally, then makes room, then counts for the address; each refusal leaves the later windows alone |
| RateLimits.VerdictReasons | internal/server/tunnel.go:176-192 | for each verdict, the exact counts and sizes under which it is the answer |
| RateLimits.RateBound | internal/server/tunnel.go:126-192 | in any minute fewer than twice the limit are accepted, in all and from each address; the map never exceeds 10001 entries |
| RateLimits.PruningIsInvisible | internal/server/tunnel.go:164-174 | each decision of an address's window is that of a map that is never pruned |
| RateLimits.RateBoundIsTight | internal/server/tunnel.go:156-162 | calls from one address that attain the bound of the smaller limit, for all limits above one |
| RateLimits.TotalBoundIsTight | internal/server/tunnel.go:126-192 | calls from many addresses that attain the bound in all, for all limits whose calls fit into the map of windows |
| RateLimits.RegistrationRatesAreTight | internal/server/tunnel.go:176-192 | at registration a minute may see 119 calls accepted, and 19 from one address |
| RateLimits.EveryCallCounts | internal/server/tunnel.go:126-192 | in every run the global window opened less than a minute before the last call and has counted every call since, refused ones too |
| RateLimits.FewCalls | internal/server/tunnel.go:176-192 | ten registration calls are never refused, whenever they come |
| RateLimits.SpacedPair | internal/server/tunnel.go:176-192 | a minute after the last call, two registration calls at once are accepted, from whatever addresses |
| Handoffs.HandoffStore.NewDashboardHandoff | internal/server/tunnel.go:304-316 | drops exactly the expired handoffs and adds the new one, valid for five minutes |
| Handoffs.HandoffStore.TakeHandoff | internal/server/tunnel.go:318-324 | returns what is stored and removes it only for its own session |
| Handoffs.WinnersAreEntitled | internal/server/tunnel.go:325-327 | a claim that wins presents an issued secret, for its own session, not after its expiry |
| Handoffs.AvailableIff | internal/server/tunnel.go:318-327 | an issued handoff can be claimed for its session if and only if it is in time and not yet taken |
| Handoffs.OnlyOwnSessionTakes | internal/server/tunnel.go:318-327 | in every run a claim for another session consumes nothing, and fails whenever it is decided |
| Handoffs.WinsAtMostOnce | internal/server/tunnel.go:318-333 | over any run with concurrent claimers no secret wins twice |
| Handoffs.PurgingIsInvisible | internal/server/tunnel.go:309-313 | every claim has the outcome it would have with a ledger that is never purged |
| Handoffs.IssuingPurges | internal/server/tunnel.go:304-316 | over every run, when a handoff is issued it is stored for five minutes and no expired one is left |
| Slots.AcquireSlot | internal/server/http.go:303-313 | takes a slot if there is one and says so; a missing channel admits everything |
| Slots.ReleaseSlot | internal/server/http.go:315-323 | gives a slot back, or does nothing on an empty or missing channel |
| Slots.AcquireHostedSlots | internal/server/http.go:287-296 | takes a slot of the tunnel and one of the server, or neither |
| Slots.ReleaseHostedSlots | internal/server/http.go:298-301 | gives back one slot of each |
| Slots.SlotsConserved | internal/server/http.go:287-323 | in every interleaving each count is the number of requests that hold such a slot, within its limit |
| Slots.ReleasesAreMatched | internal/server/http.go:315-323 | no release ever finds its channel empty |
| Slots.IdleMeansFree | internal/server/http.go:298-301 | without requests under way every slot is free |
| Slots.AdmittedIff | internal/server/http.go:287-290 | over every run, a request gets a slot of its tunnel if and only if fewer than ten requests hold one |
| Slots.ServedIff | internal/server/http.go:291-295 | over every run, it then gets a slot of the server, and is served, if and only if fewer requests hold one than the server has; otherwise it rolls back |
| Correlation.PendingReplies.Expect | internal/server/tunnel.go:447-450 | adds an empty channel of its own under the ID |
| Correlation.PendingReplies.Dispatch | internal/server/tunnel.go:352-359 | moves the response into its channel, which has room, and forgets the ID; no other channel changes |
| Correlation.PendingReplies.Forget | internal/server/tunnel.go:451-455 | removes the ID and nothing else |
| Correlation.FirstReplyIsFirst | internal/server/tunnel.go:339-364 | the reply that a call is due is the first one with its ID that is read after it became pending |
| Correlation.EachGetsItsFirstReply | internal/server/tunnel.go:435-467 | a call that returns a response returns the first with its own ID; duplicates and other calls' responses never reach it |
| Correlation.ReceivedIsReturned | internal/server/tunnel.go:459-462 | over every run, a call that received a response returns it, and it is the first with its ID that was read since the call became pending |
| Correlation.ReturnsNothingIff | internal/server/tunnel.go:456-466 | a call returns without a response if and only if its send failed or it gave up |
| Correlation.CallsCanFinish | internal/server/tunnel.go:451-466 | no call is ever stuck: whatever it waits for, it can give up and return |
| Correlation.LoopNeverBlocks | internal/server/tunnel.go:357-359 | the read loop's send always has room, whatever the peer sends |
| Correlation.NoReplyIsLost | internal/server/tunnel.go:352-360 | while a call waits, its first response is in its channel or about to be |
| Correlation.ReplyReachesCall | internal/server/tunnel.go:352-466 | whenever the first response of a waiting call has been read, the call can return it without further help from the peer |
| Correlation.NothingReadAfterClose | internal/server/tunnel.go:339-345 | once the connection has failed, no response is read |
| Correlation.PendingOnlyWhileActive | internal/server/tunnel.go:448-455 | an ID is pending only while the call that drew it is active |
| Framing.DecodeEncodeIff | internal/protocol/protocol.go:84-104 | decoding undoes encoding, whatever follows, if and only if the payload has at least one byte and at most 8 MiB |
| Framing.EncodeDecode | internal/protocol/protocol.go:93-104 | what is decoded is the encoding of what it returns |
| Framing.HeaderIsBigEndian | internal/protocol/protocol.go:84-85 | the header is the length in big-endian order, modulo 2 to the 32nd |
| Framing.Stream.EncodeTo | internal/protocol/protocol.go:84-90 | two writes append exactly one frame |
| Framing.Stream.DecodeFrom | internal/protocol/protocol.go:93-116 | consumes exactly the frame and returns what the parser makes of it; a bad size, a truncated frame or a payload that does not parse is an error |
| Framing.DecodeFrames | internal/protocol/protocol.go:93-116 | any sequence of frames followed by anything decodes to that sequence and the rest |
| Framing.StreamIsMerge | internal/server/tunnel.go:429-433 | however locked senders interleave, the peer decodes whole frames only, each sender's in its own order |
| Framing.LockIsGivenBack | internal/server/tunnel.go:429-433 | whoever holds the write lock can finish its frame, which then stands whole at the end of the stream |
| Framing.SenderTakesLockIff | internal/server/tunnel.go:429-433 | a sender can take the write lock exactly while it is free and there is something to send |
| Framing.UnlockedFrameSurvivesIff | internal/server/binary.go:58 | with one unlocked sender, everything is decoded in order if and only if its two writes come together between two frames |
| Framing.FirstFrameIsReplyIff | internal/client/client.go:117-136 | the first frame that the client decodes is the unlocked reply if and only if no other write comes before its second one |
| Client.Client.RunOnce | internal/client/client.go:65-92 | sends the held pair; a success replaces both halves, anything else neither |
| Client.Client.Run | internal/client/client.go:39-59 | what is sent and held is determined by the replies so far, starting from no pair; every registration asks for a quick tunnel to the configured port |
| Client.PairComesFromOneReply | internal/client/client.go:39-59 | the pair is empty or came whole from the last successful registration |
| Client.HeldPair | internal/client/client.go:39-59 | the pair is that of the last successful registration, unless it has an ID and one of the four refusals of a resume came since; lost connections and all other errors keep it |
| Client.ForgetsIff | internal/client/client.go:130-132 | the client forgets for exactly the four refusals of the resume gate |
| Client.AcceptedOrForgotten | internal/client/client.go:125-134 | a validated resume is accepted, or makes the client forget the pair |
| Client.OtherRefusalsKeepPair | internal/client/client.go:133 | refusals for load, pausing and capacity keep the pair |
| Client.LatestPairResumes | internal/server/auth.go:11-40 | against any reachable server, a pair that the server issued resumes if and only if it is the latest of its session, in time, not pruned and not revoked |
| WriteQueue.Queue.Enqueue | internal/storage/db.go:180-185 | the operation goes to the end of the queue, or is dropped, which takes a closed queue |
| WriteQueue.Queue.Drain | internal/storage/db.go:163-178 | everything queued is run, in order |
| WriteQueue.HandedInOrder | internal/storage/db.go:147-178 | the operations run are a prefix of those accepted, in order; the rest is queued; nothing is dropped before Close |
| WriteQueue.RunIffInTime | internal/storage/db.go:163-195 | an accepted operation is run if and only if it was accepted before the writer stopped |
| WriteQueue.QueuedIsRun | internal/storage/db.go:163-178 | when the writer stops, every operation accepted before has been run, at its own place in the order |
| WriteQueue.QueueMoves | internal/storage/db.go:163-185 | as long as the writer runs it can take the oldest operation; one can be accepted exactly while fewer than 1024 are queued, and dropped exactly once the queue is closed |
| WriteQueue.ShutdownCompletes | internal/storage/db.go:163-178 | from every reachable state the writer can run all that is queued and stop, leaving nothing out |
| WriteQueue.ClosedForGood | internal/storage/db.go:187-190 | from Close on, an operation that waits can always be dropped |
| HostRouting.FindLabelIff | internal/server/tunnel.go:388-397 | a host selects a name if and only if, normalised, it is that one label under the base domain |
| HostRouting.LowerIff | internal/server/tunnel.go:389-390 | lower-casing makes two ASCII strings equal if and only if they agree up to the case of letters |
| HostRouting.TrimsSpaces | internal/server/tunnel.go:390 | trimming takes off all surrounding spaces and nothing else |
| HostRouting.PublicHostFindsTunnel | internal/server/tunnel.go:388-401 | a host that agrees with that of a tunnel's public URL up to the case of letters, followed by anything, finds that tunnel if and only if what follows is nothing, a dot or a port, and otherwise none; the base domain may be configured in any letter case, with spaces around it and with a trailing dot |
| HostRouting.OwnURLFindsTunnel | internal/server/tunnel.go:335-337 | the URL as it is handed out finds its tunnel, also for a base domain with a trailing dot |
| HostRouting.DotAndPortFindNothing | internal/server/tls.go:115-120 | the same host, in any letter case, with a dot before any port finds nothing |
| HostRouting.OtherHostsFindNothing | internal/server/tunnel.go:391-397 | a host that is not one label under the base domain finds nothing |

## Left out

- Auth.ResumeGate: one clock reading stands for the two that validateResume makes.
- Guarantees.RegistryAgreementIff: the rate limiter and the pause switch are not part of the machine, whose registrations may be refused at any time; `Manager.TunnelManager.Register` has them in full.
- Overload.Overloaded: whether EndSession can lag for minutes in practice; the program waits for nothing between unregistering a tunnel and calling it.
- Manager.TunnelManager.Register: of the storage calls only the upsert and the count may fail here; in the step machine all succeed.
- Storage.PruneSucceedsIff: other prunes and ended times before the cutoff do not come in between, as only one loop prunes and the cutoff lies a retention period back.
- RateLimits.TotalBoundIsTight: limits so far apart that the calls would overflow the map of windows; there the map refuses some of them.
- HostRouting.OwnURLFindsTunnel: a base domain with surrounding spaces, for which the URL itself is malformed.
- Refinement.RegisterIsARun: the machine numbers tunnels where the class has objects; the correspondence is stated through the functions that both are built from.
- Correlation.EachGetsItsFirstReply: what a call returns when several of its outcomes are ready at once is left open, as in the program; pings are not modelled.
- HostRouting.PublicHostFindsTunnel: host names are ASCII.
- WriteQueue.HandedInOrder: whether an operation's transaction commits; a cancelled context can still lose one.
- Client.Client.Run: dialling, waiting between attempts, and forwarding to the local port.
- The limit of 200 captures per connection, and its counter that is seeded while inserts may be queued.
- `PruneBefore` and everything about sessions that are not hosted, which only rest in the table.
- TLS, certificates, listeners, HTTP handlers, request listing and filtering, header and body capture, replay mutation, origin checks and operator authentication.
- JSON, gzip, SHA-256 and random number generation, which appear as payload bytes, a collision-free digest and fresh draws.
- The dashboard's browser code and its event hub, which does not order its channels.
- Panics in handlers, logging, command-line flags, installers and deployment.
