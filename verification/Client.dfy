/** The reconnecting client (Run, runOnce and registerTunnel in internal/client/client.go), and
    how its credentials fare against the server's control plane. */
module Client {
  import opened Common
  import opened Secrets
  import opened Sessions
  import opened Auth
  import opened ControlPlane
  import opened Invariant
  import opened Guarantees

  /** What the client remembers between connections. Both parts are empty, or neither. */
  datatype Pair = Pair(sessionID: string, resumeToken: Bytes)

  const NO_PAIR: Pair := Pair("", [])

  /** How an attempt to register ends, as the client sees it. */
  datatype Reply =
    | Registered(sessionID: string, tunnelToken: Bytes)
    | Failure(message: string)  // an error frame
    | Broken                    // no connection, or no usable reply

  /** The messages after which resuming is given up. */
  predicate IsRejection(message: string) {
    || message == "quick tunnel expired"
    || message == "invalid session resume"
    || message == "invalid session mode"
    || message == "invalid resume token"
  }

  function AfterReply(pair: Pair, reply: Reply): Pair {
    match reply
    case Registered(id, token) => Pair(id, token)
    case Failure(message) => if pair.sessionID != "" && IsRejection(message) then NO_PAIR else pair
    case Broken => pair
  }

  function AfterReplies(pair: Pair, replies: seq<Reply>): Pair {
    if replies == [] then pair
    else AfterReply(AfterReplies(pair, replies[..|replies| - 1]), replies[|replies| - 1])
  }

  function Request(pair: Pair, localPort: int): Registration {
    Registration(pair.sessionID, localPort, pair.resumeToken, true)
  }

  class Client {
    const localPort: int
    var sessionID: string
    var resumeToken: Bytes

    constructor (localPort: int)
      ensures this.localPort == localPort && Held() == NO_PAIR
    {
      this.localPort, sessionID, resumeToken := localPort, "", [];
    }

    function Held(): Pair
      reads this
    {
      Pair(sessionID, resumeToken)
    }

    /** One connection; `rejected` is the error that makes the caller forget the session. */
    method RunOnce(reply: Reply) returns (sent: Registration, rejected: bool)
      modifies this
      ensures sent == Request(old(Held()), localPort)
      ensures rejected <==> reply.Failure? && old(sessionID) != "" && IsRejection(reply.message)
      ensures Held() == if reply.Registered? then Pair(reply.sessionID, reply.tunnelToken) else old(Held())
    {
      sent := Registration(sessionID, localPort, resumeToken, true);
      rejected := false;
      match reply {
        case Registered(id, token) => sessionID, resumeToken := id, token;
        case Failure(message) => rejected := sessionID != "" && IsRejection(message);
        case Broken =>
      }
    }

    /** Reconnects once for each reply that the world has in store. */
    method Run(replies: seq<Reply>) returns (sent: seq<Registration>)
      modifies this
      ensures Held() == AfterReplies(NO_PAIR, replies)
      ensures |sent| == |replies|
      ensures forall i :: 0 <= i < |sent| ==> sent[i] == Request(AfterReplies(NO_PAIR, replies[..i]), localPort)
      ensures forall i :: 0 <= i < |sent| ==> sent[i].localPort == localPort && sent[i].quick
    {
      sessionID, resumeToken := "", [];
      sent := [];
      for i := 0 to |replies|
        invariant |sent| == i && Held() == AfterReplies(NO_PAIR, replies[..i])
        invariant forall j :: 0 <= j < i ==> sent[j] == Request(AfterReplies(NO_PAIR, replies[..j]), localPort)
      {
        var registration, rejected := RunOnce(replies[i]);
        if rejected {
          sessionID, resumeToken := "", [];
        }
        sent := sent + [registration];
        assert replies[..i + 1][..i] == replies[..i];
      }
      assert replies[..|replies|] == replies;
    }
  }

  // --------------------------------------------------- the pair over a run

  /** One of the four refusals, by their texts. */
  predicate GivesUpSession(reply: Reply) {
    reply.Failure? && (
      || reply.message == "quick tunnel expired"
      || reply.message == "invalid session resume"
      || reply.message == "invalid session mode"
      || reply.message == "invalid resume token")
  }

  /** Reply i is the last registration, of a session with an ID. */
  ghost predicate LastRegistered(replies: seq<Reply>, i: int) {
    && 0 <= i < |replies| && replies[i].Registered?
    && forall j :: i < j < |replies| ==> !replies[j].Registered?
  }

  ghost predicate GivenUpSince(replies: seq<Reply>, i: int) {
    exists j :: 0 <= i < j < |replies| && GivesUpSession(replies[j])
  }

  lemma ReplyKeepsOrReplaces(pair: Pair, reply: Reply)
    ensures reply.Registered? ==> AfterReply(pair, reply) == Pair(reply.sessionID, reply.tunnelToken)
    ensures !reply.Registered? ==>
              AfterReply(pair, reply) == if pair.sessionID != "" && GivesUpSession(reply) then NO_PAIR else pair
  {
  }

  lemma GivenUpLater(before: seq<Reply>, last: Reply, i: int)
    requires 0 <= i < |before|
    ensures GivenUpSince(before + [last], i) <==> GivenUpSince(before, i) || GivesUpSession(last)
  {
    hide GivesUpSession;
    var all := before + [last];
    if GivesUpSession(last) { assert GivesUpSession(all[|before|]); }
    if j :| i < j < |before| && GivesUpSession(before[j]) { assert GivesUpSession(all[j]); }
  }

  /** The pair after any replies, with any error texts: that of the last registration, unless the
      session has been given up since, by one of the four refusals; nothing before the first one.
      In particular a lost connection never costs the client its session. */
  lemma {:induction false} HeldPair(replies: seq<Reply>, i: int)
    ensures LastRegistered(replies, i) ==>
              AfterReplies(NO_PAIR, replies)
              == if replies[i].sessionID != "" && GivenUpSince(replies, i) then NO_PAIR
                 else Pair(replies[i].sessionID, replies[i].tunnelToken)
    ensures (forall j :: 0 <= j < |replies| ==> !replies[j].Registered?) ==> AfterReplies(NO_PAIR, replies) == NO_PAIR
  {
    hide AfterReply, GivesUpSession, GivenUpSince;
    if replies != [] {
      var before, last := replies[..|replies| - 1], replies[|replies| - 1];
      assert replies == before + [last];
      HeldPair(before, i);
      ReplyKeepsOrReplaces(AfterReplies(NO_PAIR, before), last);
      if 0 <= i < |before| {
        GivenUpLater(before, last, i);
      } else if i == |before| {
        NotGivenUpYet(replies, i);
      }
    }
  }

  lemma NotGivenUpYet(replies: seq<Reply>, i: int)
    requires i == |replies| - 1
    ensures !GivenUpSince(replies, i)
  {
  }

  /** The pair is that of reply i, and no later reply was another registration. */
  ghost predicate CameFrom(pair: Pair, replies: seq<Reply>, i: int) {
    LastRegistered(replies, i) && replies[i] == Registered(pair.sessionID, pair.resumeToken)
  }

  /** The pair is empty, or came whole from the last successful registration: no failure ever
      changes one half of it. */
  lemma PairComesFromOneReply(replies: seq<Reply>)
    ensures var pair := AfterReplies(NO_PAIR, replies);
            pair == NO_PAIR || exists i :: CameFrom(pair, replies, i)
  {
    hide AfterReplies, GivenUpSince;
    if exists i :: 0 <= i < |replies| && replies[i].Registered? {
      var i := LastOne(replies);
      HeldPair(replies, i);
      assert AfterReplies(NO_PAIR, replies) != NO_PAIR ==> CameFrom(AfterReplies(NO_PAIR, replies), replies, i);
    } else {
      HeldPair(replies, 0);
    }
  }

  lemma {:induction false} LastOne(replies: seq<Reply>) returns (i: int)
    requires exists j :: 0 <= j < |replies| && replies[j].Registered?
    ensures LastRegistered(replies, i)
  {
    var last := |replies| - 1;
    if replies[last].Registered? {
      i := last;
    } else {
      var j :| 0 <= j < |replies| && replies[j].Registered?;
      assert replies[..last][j].Registered?;
      i := LastOne(replies[..last]);
      assert forall k :: i < k < last ==> replies[..last][k] == replies[k];
    }
  }

  // ------------------------------------------------------ against the server

  /** Exactly the refusals of validateResume make the client forget its session. */
  lemma ForgetsIff(why: Refusal)
    ensures IsRejection(why.Message()) <==>
              why == InvalidSessionResume || why == InvalidSessionMode || why == Expired || why == InvalidResumeToken
  {
    assert IsRejection(why.Message()) ==> |why.Message()| in {20, 22};
  }

  /** A resume that reaches validation is accepted, or makes the client forget the pair. */
  lemma AcceptedOrForgotten(rows: Table, now: int, lifetime: int, pair: Pair)
    requires pair.sessionID != ""
    ensures match ValidateResume(rows, now, lifetime, pair.sessionID, pair.resumeToken)
            case None => true
            case Some(why) => AfterReply(pair, Failure(why.Message())) == NO_PAIR
  {
    var refusal := ValidateResume(rows, now, lifetime, pair.sessionID, pair.resumeToken);
    if refusal.Some? { ForgetsIff(refusal.value); }
  }

  /** Refusals for load, pausing or capacity leave the pair as it is. */
  lemma OtherRefusalsKeepPair(pair: Pair, why: Refusal)
    requires why !in {InvalidSessionResume, InvalidSessionMode, Expired, InvalidResumeToken}
    ensures AfterReply(pair, Failure(why.Message())) == pair
  {
    ForgetsIff(why);
  }

  /** A client that has the pair of a session's latest registration resumes it, within lifetime
      and grace, if the row has been neither pruned nor revoked; with an older pair of the same
      session it never does. */
  lemma LatestPairResumes(c: ControlPlane.Config, states: seq<State>, labels: seq<Label>, n: nat, pair: Pair, i: nat, localPort: int)
    requires IsBehaviour(c, states, labels) && n < |states|
    requires 0 < localPort <= 65535
    requires pair.sessionID in states[n].issued && i < |states[n].issued[pair.sessionID]|
    requires pair.resumeToken == states[n].issued[pair.sessionID][i].session.tunnelToken
    ensures var s := states[n];
            var id := pair.sessionID;
            ValidateRegistration(s.rows, s.clock, c.lifetime, Request(pair, localPort)).None? <==>
              && i == |s.issued[id]| - 1
              && id in s.rows && id !in s.revoked
              && s.clock < s.issued[id][0].session.startedAt + c.lifetime
              && (s.rows[id].endedAt.Some? ==> s.clock <= s.rows[id].endedAt.value + GRACE)
  {
    hide IssuedOk, RowsOk, LockSessionOk, TunnelInv, LimitInv, ValidateResume;
    RunInv(c, states, labels, n);
    ResumeIff(c, states, labels, n, pair.sessionID, pair.resumeToken);
    TokensDiffer(c, states[n], pair.sessionID, i);
  }

  lemma TokensDiffer(c: ControlPlane.Config, s: State, id: string, i: nat)
    requires IssuedOk(c.lifetime, s.issued, s.origin) && id in s.issued && i < |s.issued[id]|
    ensures id != ""
    ensures s.issued[id][i].session.tunnelToken == s.issued[id][|s.issued[id]| - 1].session.tunnelToken
       <==> i == |s.issued[id]| - 1
  {
    IssueFacts(c, s, id, i);
    IssueFacts(c, s, id, |s.issued[id]| - 1);
  }
}
