/** Single-use dashboard handoffs (newDashboardHandoff and claimDashboardHandoff in
    internal/server/tunnel.go): the map of hashed secrets, its purge, and claims whose critical
    section and expiry check are separate steps. */
module Handoffs {
  import opened Common
  import opened Secrets

  const HANDOFF_LIFETIME: int := 5 * MINUTE

  datatype Handoff = Handoff(sessionID: string, expires: int)
  type Ledger = map<Bytes, Handoff>

  predicate Over(h: Handoff, now: int) { now > h.expires }

  function Purge(ledger: Ledger, now: int): Ledger {
    map key | key in ledger && !Over(ledger[key], now) :: ledger[key]
  }

  /** Secrets appear only as the keys under which they are stored: their hashes. */
  function Issue(ledger: Ledger, sessionID: string, key: Bytes, now: int): Ledger {
    Purge(ledger, now)[key := Handoff(sessionID, now + HANDOFF_LIFETIME)]
  }

  function Find(ledger: Ledger, key: Bytes): Option<Handoff> {
    if key in ledger then Some(ledger[key]) else None
  }

  predicate Matches(found: Option<Handoff>, sessionID: string) {
    found.Some? && found.value.sessionID == sessionID
  }

  /** The critical section of a claim: takes the handoff away if it is the session's. */
  function Take(ledger: Ledger, sessionID: string, key: Bytes): Ledger {
    if Matches(Find(ledger, key), sessionID) then ledger - {key} else ledger
  }

  /** The check after the critical section. */
  predicate Succeeds(found: Option<Handoff>, sessionID: string, now: int) {
    Matches(found, sessionID) && !Over(found.value, now)
  }

  class HandoffStore {
    var handoffs: Ledger

    constructor ()
      ensures handoffs == map[]
    {
      handoffs := map[];
    }

    method NewDashboardHandoff(sessionID: string, secret: Bytes, now: int)
      modifies this
      ensures handoffs == Issue(old(handoffs), sessionID, HashHostedSecret(secret), now)
    {
      var todo := handoffs.Keys;
      while todo != {}
        invariant todo <= handoffs.Keys <= old(handoffs).Keys
        invariant forall key :: key in handoffs ==> handoffs[key] == old(handoffs)[key]
        invariant forall key :: key in old(handoffs) && key !in todo ==>
                    (key in handoffs <==> !Over(old(handoffs)[key], now))
        decreases todo
      {
        var key :| key in todo;
        if now > handoffs[key].expires {
          handoffs := handoffs - {key};
        }
        todo := todo - {key};
      }
      assert handoffs == Purge(old(handoffs), now);
      handoffs := handoffs[HashHostedSecret(secret) := Handoff(sessionID, now + HANDOFF_LIFETIME)];
    }

    /** Returns what was found; the caller goes on with Succeeds and the registered tunnel. */
    method TakeHandoff(sessionID: string, secret: Bytes) returns (found: Option<Handoff>)
      modifies this
      ensures found == Find(old(handoffs), HashHostedSecret(secret))
      ensures handoffs == Take(old(handoffs), sessionID, HashHostedSecret(secret))
    {
      var key := HashHostedSecret(secret);
      if key !in handoffs {
        return None;
      }
      found := Some(handoffs[key]);
      if handoffs[key].sessionID == sessionID {
        handoffs := handoffs - {key};
      }
    }
  }

  // ------------------------------------------------------- concurrent claims

  datatype Claim = Claim(sessionID: string, key: Bytes, found: Option<Handoff>)

  /** A claimer makes one claim. `issued` and `taker` are history; `unpurged` is a ledger that is
      never purged, run alongside with the same steps; `shadow` is what each claimer finds there. */
  datatype State = State(
    clock: int,
    ledger: Ledger,
    claims: map<nat, Claim>,
    done: set<nat>,
    issued: Ledger,
    taker: map<Bytes, nat>,
    unpurged: Ledger,
    shadow: map<nat, Option<Handoff>>)

  datatype Label =
    | Tick(d: nat)
    | NewHandoff(sessionID: string, secret: Bytes)
    | BeginClaim(claimer: nat, sessionID: string, secret: Bytes)
    | EndClaim(claimer: nat)

  /** A fresh secret was neither issued nor guessed before. */
  predicate Fresh(s: State, key: Bytes) {
    key !in s.issued && forall c :: c in s.claims ==> s.claims[c].key != key
  }

  predicate Enabled(s: State, l: Label) {
    match l
    case Tick(_) => true
    case NewHandoff(_, secret) => Fresh(s, HashHostedSecret(secret))
    case BeginClaim(claimer, _, _) => claimer !in s.claims
    case EndClaim(claimer) => claimer in s.claims && claimer !in s.done
  }

  function Apply(s: State, l: Label): State
    requires Enabled(s, l)
  {
    match l
    case Tick(d) => s.(clock := s.clock + d)
    case NewHandoff(sessionID, secret) => IssueStep(s, sessionID, HashHostedSecret(secret))
    case BeginClaim(claimer, sessionID, secret) => TakeStep(s, claimer, sessionID, HashHostedSecret(secret))
    case EndClaim(claimer) => s.(done := s.done + {claimer})
  }

  function IssueStep(s: State, sessionID: string, key: Bytes): State {
    var handoff := Handoff(sessionID, s.clock + HANDOFF_LIFETIME);
    s.(ledger := Issue(s.ledger, sessionID, key, s.clock),
       issued := s.issued[key := handoff],
       unpurged := s.unpurged[key := handoff])
  }

  function TakeStep(s: State, claimer: nat, sessionID: string, key: Bytes): State {
    s.(ledger := Take(s.ledger, sessionID, key),
       claims := s.claims[claimer := Claim(sessionID, key, Find(s.ledger, key))],
       taker := if Matches(Find(s.unpurged, key), sessionID) then s.taker[key := claimer] else s.taker,
       unpurged := Take(s.unpurged, sessionID, key),
       shadow := s.shadow[claimer := Find(s.unpurged, key)])
  }

  /** The claimer's check passes now. (It then still needs a registered tunnel.) */
  predicate Wins(s: State, claimer: nat) {
    claimer in s.claims && Succeeds(s.claims[claimer].found, s.claims[claimer].sessionID, s.clock)
  }

  ghost predicate IsRun(states: seq<State>, labels: seq<Label>) {
    && |states| == |labels| + 1
    && states[0] == State(states[0].clock, map[], map[], {}, map[], map[], map[], map[])
    && forall i {:trigger StepAt(states, labels, i)} :: 0 <= i < |labels| ==> StepAt(states, labels, i)
  }

  ghost predicate StepAt(states: seq<State>, labels: seq<Label>, i: int) {
    0 <= i < |labels| && i + 1 < |states| && Enabled(states[i], labels[i]) && states[i + 1] == Apply(states[i], labels[i])
  }

  // ------------------------------------------------------------- invariant

  /** An issued handoff is in the never-purged ledger until its one taker comes. */
  ghost predicate LedgerOk(unpurged: Ledger, issued: Ledger, taker: map<Bytes, nat>) {
    && (forall key :: key in unpurged ==> key in issued && unpurged[key] == issued[key])
    && (forall key :: key in issued ==> (key in unpurged <==> key !in taker))
    && (forall key :: key in taker ==> key in issued)
  }

  /** A claimer found what was issued, and is the taker of what it found for its session. */
  ghost predicate ClaimOk(claim: Claim, shadow: Option<Handoff>, c: nat, issued: Ledger, taker: map<Bytes, nat>, now: int) {
    && (shadow.Some? ==> claim.key in issued && shadow.value == issued[claim.key])
    && (Matches(shadow, claim.sessionID) ==> claim.key in taker && taker[claim.key] == c)
    && SameOutcome(claim.found, shadow, now)
  }

  predicate SameOutcome(found: Option<Handoff>, shadow: Option<Handoff>, now: int) {
    found == shadow || (found.None? && shadow.Some? && Over(shadow.value, now))
  }

  /** The purged ledger lacks only handoffs that are over. */
  ghost predicate PurgedOf(ledger: Ledger, unpurged: Ledger, now: int) {
    && (forall key :: key in ledger ==> key in unpurged && ledger[key] == unpurged[key])
    && (forall key :: key in unpurged && key !in ledger ==> Over(unpurged[key], now))
  }

  ghost predicate Inv(s: State) {
    && LedgerOk(s.unpurged, s.issued, s.taker)
    && s.shadow.Keys == s.claims.Keys
    && (forall c :: c in s.claims ==> ClaimOk(s.claims[c], s.shadow[c], c, s.issued, s.taker, s.clock))
    && PurgedOf(s.ledger, s.unpurged, s.clock)
  }

  lemma IssueInv(s: State, sessionID: string, key: Bytes)
    requires Inv(s) && Fresh(s, key)
    ensures Inv(IssueStep(s, sessionID, key))
  {
    var t := IssueStep(s, sessionID, key);
    forall c | c in t.claims
      ensures ClaimOk(t.claims[c], t.shadow[c], c, t.issued, t.taker, t.clock)
    {
      assert ClaimOk(s.claims[c], s.shadow[c], c, s.issued, s.taker, s.clock);
    }
  }

  lemma TakeInv(s: State, claimer: nat, sessionID: string, key: Bytes)
    requires Inv(s) && claimer !in s.claims
    ensures Inv(TakeStep(s, claimer, sessionID, key))
  {
    hide LedgerOk, PurgedOf, ClaimOk;
    var t := TakeStep(s, claimer, sessionID, key);
    TakeLedger(s, claimer, sessionID, key);
    forall c | c in t.claims
      ensures ClaimOk(t.claims[c], t.shadow[c], c, t.issued, t.taker, t.clock)
    {
      if c == claimer {
        NewClaimOk(s, claimer, sessionID, key);
      } else {
        assert ClaimOk(s.claims[c], s.shadow[c], c, s.issued, s.taker, s.clock);
        OldClaimOk(s, claimer, sessionID, key, c);
      }
    }
  }

  lemma TakeLedger(s: State, claimer: nat, sessionID: string, key: Bytes)
    requires LedgerOk(s.unpurged, s.issued, s.taker) && PurgedOf(s.ledger, s.unpurged, s.clock)
    ensures var t := TakeStep(s, claimer, sessionID, key);
            LedgerOk(t.unpurged, t.issued, t.taker) && PurgedOf(t.ledger, t.unpurged, t.clock)
  {
  }

  lemma NewClaimOk(s: State, claimer: nat, sessionID: string, key: Bytes)
    requires LedgerOk(s.unpurged, s.issued, s.taker) && PurgedOf(s.ledger, s.unpurged, s.clock)
    ensures var t := TakeStep(s, claimer, sessionID, key);
            ClaimOk(t.claims[claimer], t.shadow[claimer], claimer, t.issued, t.taker, t.clock)
  {
  }

  lemma OldClaimOk(s: State, claimer: nat, sessionID: string, key: Bytes, c: nat)
    requires LedgerOk(s.unpurged, s.issued, s.taker) && c != claimer && c in s.claims && c in s.shadow
    requires ClaimOk(s.claims[c], s.shadow[c], c, s.issued, s.taker, s.clock)
    ensures var t := TakeStep(s, claimer, sessionID, key);
            ClaimOk(t.claims[c], t.shadow[c], c, t.issued, t.taker, t.clock)
  {
  }

  lemma TickInv(s: State, d: nat)
    requires Inv(s)
    ensures Inv(s.(clock := s.clock + d))
  {
    forall c | c in s.claims
      ensures ClaimOk(s.claims[c], s.shadow[c], c, s.issued, s.taker, s.clock + d)
    {
      assert ClaimOk(s.claims[c], s.shadow[c], c, s.issued, s.taker, s.clock);
    }
  }

  lemma StepInv(s: State, l: Label)
    requires Inv(s) && Enabled(s, l)
    ensures Inv(Apply(s, l))
  {
    match l
    case Tick(d) => TickInv(s, d);
    case EndClaim(_) =>
    case NewHandoff(sessionID, secret) => IssueInv(s, sessionID, HashHostedSecret(secret));
    case BeginClaim(claimer, sessionID, secret) => TakeInv(s, claimer, sessionID, HashHostedSecret(secret));
  }

  lemma {:induction false} RunInv(states: seq<State>, labels: seq<Label>, n: nat)
    requires IsRun(states, labels) && n < |states|
    ensures Inv(states[n])
  {
    hide Apply, Enabled;
    if n > 0 {
      RunInv(states, labels, n - 1);
      assert StepAt(states, labels, n - 1);
      StepInv(states[n - 1], labels[n - 1]);
    }
  }

  // ------------------------------------------------------------ guarantees

  /** A claim that wins presents an issued secret, for its own session, in time. */
  lemma WinnersAreEntitled(states: seq<State>, labels: seq<Label>, n: nat, claimer: nat)
    requires IsRun(states, labels) && n < |states| && Wins(states[n], claimer)
    ensures var s := states[n];
            var claim := s.claims[claimer];
            claim.key in s.issued && s.issued[claim.key].sessionID == claim.sessionID
            && s.clock <= s.issued[claim.key].expires
  {
    RunInv(states, labels, n);
    assert ClaimOk(states[n].claims[claimer], states[n].shadow[claimer], claimer, states[n].issued, states[n].taker, states[n].clock);
  }

  /** In time, and until its one taker has come, a handoff is there for its session, whatever
      other sessions have tried and however often the ledger was purged. */
  lemma AvailableIff(states: seq<State>, labels: seq<Label>, n: nat, secret: Bytes)
    requires IsRun(states, labels) && n < |states| && HashHostedSecret(secret) in states[n].issued
    ensures var s := states[n];
            var key := HashHostedSecret(secret);
            Succeeds(Find(s.ledger, key), s.issued[key].sessionID, s.clock) <==>
              s.clock <= s.issued[key].expires && key !in s.taker
  {
    RunInv(states, labels, n);
  }

  lemma {:induction false} ClaimsStay(states: seq<State>, labels: seq<Label>, i: nat, j: nat, claimer: nat)
    requires IsRun(states, labels) && i <= j < |states| && claimer in states[i].claims
    ensures claimer in states[j].claims && states[j].claims[claimer] == states[i].claims[claimer]
    ensures states[i].done <= states[j].done
  {
    if i < j {
      ClaimsStay(states, labels, i, j - 1, claimer);
      assert StepAt(states, labels, j - 1);
    }
  }

  lemma ForeignTakesNothing(s: State, claimer: nat, sessionID: string, key: Bytes)
    requires Inv(s) && key in s.issued && s.issued[key].sessionID != sessionID
    ensures var t := TakeStep(s, claimer, sessionID, key);
            && t.ledger == s.ledger && t.taker == s.taker
            && !Matches(t.claims[claimer].found, sessionID)
  {
  }

  /** A claim for another session changes nothing, and whenever it is decided, it fails. */
  lemma OnlyOwnSessionTakes(states: seq<State>, labels: seq<Label>, n: nat, k: nat,
                            claimer: nat, sessionID: string, secret: Bytes)
    requires IsRun(states, labels) && n < k < |states| && labels[n] == BeginClaim(claimer, sessionID, secret)
    requires HashHostedSecret(secret) in states[n].issued
    requires states[n].issued[HashHostedSecret(secret)].sessionID != sessionID
    ensures states[n + 1].ledger == states[n].ledger && states[n + 1].taker == states[n].taker
    ensures claimer in states[k].claims && !Wins(states[k], claimer)
  {
    RunInv(states, labels, n);
    assert StepAt(states, labels, n);
    ForeignTakesNothing(states[n], claimer, sessionID, HashHostedSecret(secret));
    ClaimsStay(states, labels, n + 1, k, claimer);
  }

  /** Right after a handoff is issued, the ledger holds it for five minutes, and nothing over. */
  lemma IssuingPurges(states: seq<State>, labels: seq<Label>, n: nat, sessionID: string, secret: Bytes)
    requires IsRun(states, labels) && n < |labels| && labels[n] == NewHandoff(sessionID, secret)
    ensures var ledger := states[n + 1].ledger;
            && HashHostedSecret(secret) in ledger
            && ledger[HashHostedSecret(secret)] == Handoff(sessionID, states[n].clock + 5 * MINUTE)
            && forall key :: key in ledger ==> states[n].clock <= ledger[key].expires
  {
    assert StepAt(states, labels, n);
  }

  /** Over a whole run, no secret wins twice. */
  lemma WinsAtMostOnce(states: seq<State>, labels: seq<Label>, i: nat, j: nat, c: nat, d: nat)
    requires IsRun(states, labels) && i < j < |labels|
    requires labels[i] == EndClaim(c) && Wins(states[i], c)
    requires labels[j] == EndClaim(d) && Wins(states[j], d)
    ensures states[i].claims[c].key != states[j].claims[d].key
  {
    RunInv(states, labels, i);
    RunInv(states, labels, j);
    assert StepAt(states, labels, i) && StepAt(states, labels, j);
    ClaimsStay(states, labels, i, j, c);
    ClaimsStay(states, labels, i + 1, j, c);
    TakersDiffer(states[i], states[j], c, d);
  }

  lemma TakersDiffer(s: State, t: State, c: nat, d: nat)
    requires Inv(s) && Inv(t) && c in s.claims && c in t.claims && t.claims[c] == s.claims[c]
    requires Wins(s, c) && Wins(t, d) && c != d
    ensures s.claims[c].key != t.claims[d].key
  {
    assert ClaimOk(s.claims[c], s.shadow[c], c, s.issued, s.taker, s.clock);
    assert ClaimOk(t.claims[c], t.shadow[c], c, t.issued, t.taker, t.clock);
    assert ClaimOk(t.claims[d], t.shadow[d], d, t.issued, t.taker, t.clock);
  }

  /** Purging is invisible: every claim, whenever it began and is decided, has the outcome that
      it would have with a ledger that is never purged. */
  lemma PurgingIsInvisible(states: seq<State>, labels: seq<Label>, n: nat, claimer: nat)
    requires IsRun(states, labels) && n < |states| && claimer in states[n].claims
    ensures var s := states[n];
            claimer in s.shadow
            && (Wins(s, claimer) <==> Succeeds(s.shadow[claimer], s.claims[claimer].sessionID, s.clock))
  {
    RunInv(states, labels, n);
    var s := states[n];
    assert ClaimOk(s.claims[claimer], s.shadow[claimer], claimer, s.issued, s.taker, s.clock);
  }
}
