/** Matching responses to requests on one tunnel (Forward and readLoop in
    internal/server/tunnel.go): the pending map, one-slot reply channels, and any interleaving
    of callers, timeouts, a peer that sends anything, and the read loop. */
module Correlation {
  import opened Common
  import opened Secrets

  datatype Response = Response(id: string, body: Bytes)

  // ------------------------------------------------------- the pending map

  /** A channel with one slot. A send would block while the slot is full. */
  class ReplyChannel {
    var slot: Option<Response>

    constructor ()
      ensures slot.None?
    {
      slot := None;
    }
  }

  class PendingReplies {
    var pending: map<string, ReplyChannel>

    /** Every pending channel is empty, and no channel waits under two IDs. */
    ghost predicate Valid()
      reads this, pending.Values
    {
      && (forall id :: id in pending ==> pending[id].slot.None?)
      && (forall a, b :: a in pending && b in pending && pending[a] == pending[b] ==> a == b)
    }

    constructor ()
      ensures Valid() && pending == map[]
    {
      pending := map[];
    }

    method Expect(id: string) returns (channel: ReplyChannel)
      requires Valid()
      modifies this
      ensures Valid() && fresh(channel) && channel.slot.None?
      ensures pending == old(pending)[id := channel]
    {
      channel := new ReplyChannel();
      pending := pending[id := channel];
    }

    /** What the read loop does with a response: the send never blocks. */
    method Dispatch(response: Response)
      requires Valid()
      modifies this, pending.Values
      ensures Valid() && pending == old(pending) - {response.id}
      ensures response.id in old(pending) ==> old(pending)[response.id].slot == Some(response)
      ensures forall id :: id in pending ==> pending[id].slot == old(pending[id].slot)
    {
      if response.id in pending {
        var channel := pending[response.id];
        pending := pending - {response.id};
        channel.slot := Some(response);
      }
      assert pending == old(pending) - {response.id};
    }

    method Forget(id: string)
      requires Valid()
      modifies this
      ensures Valid() && pending == old(pending) - {id}
    {
      pending := pending - {id};
    }
  }

  // --------------------------------------------------- concurrent forwards

  datatype Stage =
    | Sending
    | Waiting
    | Leaving(result: Option<Response>)  // has its result, not yet removed from pending
    | Returned(result: Option<Response>)

  /** One call of Forward. `from` is how many responses had been read when it became pending. */
  datatype Forward = Forward(id: string, from: nat, stage: Stage)

  datatype Loop =
    | Reading
    | Delivering(forward: nat, response: Response)
    | Exited

  /** Each forward has a reply channel of its own, under its own number. */
  datatype State = State(
    pending: map<string, nat>,
    channels: map<nat, Option<Response>>,
    forwards: map<nat, Forward>,
    loop: Loop,
    log: seq<Response>)  // history: what the loop has read

  datatype Label =
    | Begin(forward: nat, id: string)
    | Sent(forward: nat)
    | SendFails(forward: nat)
    | Read(response: Response)
    | Deliver
    | Receive(forward: nat)
    | GiveUp(forward: nat)   // deadline, or the tunnel has closed
    | Forget(forward: nat)
    | Close

  predicate Active(s: State, f: nat) {
    f in s.forwards && !s.forwards[f].stage.Returned?
  }

  /** Fresh enough: no other call that is still active uses the ID. */
  predicate Unused(s: State, id: string) {
    forall f :: f in s.forwards && Active(s, f) ==> s.forwards[f].id != id
  }

  predicate InStage(s: State, f: nat, stage: Stage) {
    f in s.forwards && s.forwards[f].stage == stage
  }

  predicate Enabled(s: State, l: Label) {
    match l
    case Begin(f, id) => f !in s.forwards && Unused(s, id)
    case Sent(f) => InStage(s, f, Sending)
    case SendFails(f) => InStage(s, f, Sending)
    case Read(_) => s.loop.Reading?
    case Deliver => s.loop.Delivering? && CanSend(s)
    case Receive(f) => InStage(s, f, Waiting) && f in s.channels && s.channels[f].Some?
    case GiveUp(f) => InStage(s, f, Waiting)
    case Forget(f) => f in s.forwards && s.forwards[f].stage.Leaving?
    case Close => s.loop.Reading?
  }

  /** The channel that the loop sends on has room. */
  predicate CanSend(s: State)
    requires s.loop.Delivering?
  {
    s.loop.forward in s.channels && s.channels[s.loop.forward].None?
  }

  function Move(s: State, f: nat, stage: Stage): map<nat, Forward>
    requires f in s.forwards
  {
    s.forwards[f := s.forwards[f].(stage := stage)]
  }

  function Apply(s: State, l: Label): State
    requires Enabled(s, l)
  {
    match l
    case Begin(f, id) =>
      s.(pending := s.pending[id := f], channels := s.channels[f := None],
         forwards := s.forwards[f := Forward(id, |s.log|, Sending)])
    case Sent(f) => s.(forwards := Move(s, f, Waiting))
    case SendFails(f) => s.(forwards := Move(s, f, Leaving(None)))
    case Read(response) =>
      var read := s.(log := s.log + [response], pending := s.pending - {response.id});
      if response.id in s.pending then read.(loop := Delivering(s.pending[response.id], response)) else read
    case Deliver => s.(channels := s.channels[s.loop.forward := Some(s.loop.response)], loop := Reading)
    case Receive(f) => s.(forwards := Move(s, f, Leaving(s.channels[f])), channels := s.channels[f := None])
    case GiveUp(f) => s.(forwards := Move(s, f, Leaving(None)))
    case Forget(f) =>
      s.(pending := s.pending - {s.forwards[f].id}, forwards := Move(s, f, Returned(s.forwards[f].stage.result)))
    case Close => s.(loop := Exited)
  }

  ghost predicate IsRun(states: seq<State>, labels: seq<Label>) {
    && |states| == |labels| + 1
    && states[0] == State(map[], map[], map[], Reading, [])
    && forall i {:trigger StepAt(states, labels, i)} :: 0 <= i < |labels| ==> StepAt(states, labels, i)
  }

  ghost predicate StepAt(states: seq<State>, labels: seq<Label>, i: int) {
    0 <= i < |labels| && i + 1 < |states| && Enabled(states[i], labels[i]) && states[i + 1] == Apply(states[i], labels[i])
  }

  // -------------------------------------------------------------- invariant

  /** The first response with the ID among those read from some point on. */
  function FirstReply(log: seq<Response>, from: nat, id: string): Option<Response> {
    if |log| <= from then None
    else
      var earlier := FirstReply(log[..|log| - 1], from, id);
      if earlier.Some? then earlier
      else if log[|log| - 1].id == id then Some(log[|log| - 1])
      else None
  }

  lemma {:induction false} FirstReplyIsFirst(log: seq<Response>, from: nat, id: string)
    ensures match FirstReply(log, from, id)
            case None => forall k :: from <= k < |log| ==> log[k].id != id
            case Some(r) => exists k :: from <= k < |log| && log[k] == r && r.id == id
                                        && forall j :: from <= j < k ==> log[j].id != id
  {
    if |log| > from {
      FirstReplyIsFirst(log[..|log| - 1], from, id);
      var last := |log| - 1;
      if FirstReply(log[..last], from, id).Some? {
        var k :| from <= k < last && log[k] == FirstReply(log, from, id).value && log[k].id == id
                 && forall j :: from <= j < k ==> log[..last][j].id != id;
        assert forall j :: from <= j < k ==> log[j].id == log[..last][j].id;
      } else {
        assert forall j :: from <= j < last ==> log[j].id == log[..last][j].id;
      }
    }
  }

  lemma FirstReplyAppend(log: seq<Response>, r: Response, from: nat, id: string)
    ensures FirstReply(log + [r], from, id) ==
            if FirstReply(log, from, id).Some? then FirstReply(log, from, id)
            else if |log| >= from && r.id == id then Some(r) else None
  {
    assert (log + [r])[..|log|] == log;
    if |log| < from {
      NothingYet(log, from, id);
    }
  }

  lemma NothingYet(log: seq<Response>, from: nat, id: string)
    requires |log| <= from
    ensures FirstReply(log, from, id).None?
  {
  }

  /** Where the reply of a forward is: nowhere yet, in the loop's hands, or in its channel. */
  predicate NotYet(w: Forward, f: nat, pending: map<string, nat>, channel: Option<Response>, loop: Loop) {
    w.id in pending && pending[w.id] == f && channel.None? && !(loop.Delivering? && loop.forward == f)
  }

  predicate Arrived(f: nat, reply: Response, channel: Option<Response>, loop: Loop) {
    || (channel == Some(reply) && !(loop.Delivering? && loop.forward == f))
    || (channel.None? && loop == Delivering(f, reply))
  }

  predicate Idle(f: nat, channel: Option<Response>, loop: Loop) {
    channel.None? || !(loop.Delivering? && loop.forward == f)
  }

  predicate AnswerOk(w: Forward, f: nat, reply: Option<Response>, pending: map<string, nat>, channel: Option<Response>, loop: Loop) {
    match w.stage
    case Leaving(Some(r)) => reply == Some(r) && channel.None? && !(loop.Delivering? && loop.forward == f)
    case Returned(result) => (result.Some? ==> reply == result) && Idle(f, channel, loop)
    case _ => if reply.None? then NotYet(w, f, pending, channel, loop) else Arrived(f, reply.value, channel, loop)
  }

  ghost predicate PendingOk(s: State) {
    && (forall id :: id in s.pending ==>
         Active(s, s.pending[id]) && s.forwards[s.pending[id]].id == id
         && FirstReply(s.log, s.forwards[s.pending[id]].from, id).None?)
    && (forall f, g :: Active(s, f) && Active(s, g) && s.forwards[f].id == s.forwards[g].id ==> f == g)
    && (s.loop.Delivering? ==> s.loop.forward in s.forwards && s.loop.response.id == s.forwards[s.loop.forward].id)
  }

  function Reply(s: State, f: nat): Option<Response>
    requires f in s.forwards
  {
    FirstReply(s.log, s.forwards[f].from, s.forwards[f].id)
  }

  ghost predicate ForwardOk(s: State, f: nat)
    requires f in s.forwards
  {
    && f in s.channels && s.forwards[f].from <= |s.log|
    && AnswerOk(s.forwards[f], f, Reply(s, f), s.pending, s.channels[f], s.loop)
  }

  ghost predicate Inv(s: State) {
    && PendingOk(s)
    && forall f :: f in s.forwards ==> ForwardOk(s, f)
  }

  lemma BeginInv(s: State, f: nat, id: string)
    requires Inv(s) && Enabled(s, Begin(f, id))
    ensures Inv(Apply(s, Begin(f, id)))
  {
    var t := Apply(s, Begin(f, id));
    NothingYet(s.log, |s.log|, id);
    forall g | g in t.forwards ensures ForwardOk(t, g) {
      if g != f { assert ForwardOk(s, g); }
    }
    assert forall g :: g != f ==> (Active(t, g) <==> Active(s, g));
  }

  lemma ReadInv(s: State, r: Response)
    requires Inv(s) && Enabled(s, Read(r))
    ensures Inv(Apply(s, Read(r)))
  {
    var t := Apply(s, Read(r));
    forall f | f in s.forwards
      ensures Reply(t, f) == if Reply(s, f).Some? then Reply(s, f) else if r.id == s.forwards[f].id then Some(r) else None
    {
      assert ForwardOk(s, f);
      FirstReplyAppend(s.log, r, s.forwards[f].from, s.forwards[f].id);
    }
    forall f | f in t.forwards ensures ForwardOk(t, f) {
      assert ForwardOk(s, f);
    }
    assert forall g :: Active(t, g) <==> Active(s, g);
  }

  lemma StepInv(s: State, l: Label)
    requires Inv(s) && Enabled(s, l)
    ensures Inv(Apply(s, l))
  {
    match l
    case Begin(f, id) => BeginInv(s, f, id);
    case Read(response) => ReadInv(s, response);
    case Sent(f) => MoveInv(s, f, Waiting);
    case SendFails(f) => MoveInv(s, f, Leaving(None));
    case Receive(f) => ReceiveInv(s, f);
    case GiveUp(f) => MoveInv(s, f, Leaving(None));
    case Forget(f) => ForgetInv(s, f);
    case Deliver => DeliverInv(s);
    case Close => CloseInv(s);
  }

  /** Sent, SendFails and GiveUp: one active forward moves on, still active and unanswered. */
  lemma MoveInv(s: State, f: nat, stage: Stage)
    requires Inv(s) && f in s.forwards && (s.forwards[f].stage.Sending? || s.forwards[f].stage.Waiting?)
    requires stage == Waiting || stage == Leaving(None)
    ensures Inv(s.(forwards := Move(s, f, stage)))
  {
    var t := s.(forwards := Move(s, f, stage));
    forall g | g in t.forwards ensures ForwardOk(t, g) {
      assert ForwardOk(s, g) && Reply(t, g) == Reply(s, g);
    }
    assert forall g :: Active(t, g) <==> Active(s, g);
  }

  lemma ReceiveInv(s: State, f: nat)
    requires Inv(s) && Enabled(s, Receive(f))
    ensures Inv(Apply(s, Receive(f)))
  {
    var t := Apply(s, Receive(f));
    forall g | g in t.forwards ensures ForwardOk(t, g) {
      assert ForwardOk(s, g) && Reply(t, g) == Reply(s, g);
    }
    assert forall g :: Active(t, g) <==> Active(s, g);
  }

  lemma ForgetInv(s: State, f: nat)
    requires Inv(s) && Enabled(s, Forget(f))
    ensures Inv(Apply(s, Forget(f)))
  {
    var t := Apply(s, Forget(f));
    assert ForwardOk(s, f);
    assert forall g :: Active(t, g) <==> Active(s, g) && g != f;
    forall g | g in t.forwards ensures ForwardOk(t, g) {
      assert ForwardOk(s, g) && Reply(t, g) == Reply(s, g);
    }
  }

  lemma DeliverInv(s: State)
    requires Inv(s) && Enabled(s, Deliver)
    ensures Inv(Apply(s, Deliver))
  {
    var t := Apply(s, Deliver);
    forall g | g in t.forwards ensures ForwardOk(t, g) {
      assert ForwardOk(s, g) && Reply(t, g) == Reply(s, g);
    }
    assert forall g :: Active(t, g) <==> Active(s, g);
  }

  lemma CloseInv(s: State)
    requires Inv(s) && s.loop.Reading?
    ensures Inv(s.(loop := Exited))
  {
    var t := s.(loop := Exited);
    forall g | g in t.forwards ensures ForwardOk(t, g) {
      assert ForwardOk(s, g) && Reply(t, g) == Reply(s, g);
    }
    assert forall g :: Active(t, g) <==> Active(s, g);
  }

  lemma {:induction false} RunInv(states: seq<State>, labels: seq<Label>, n: nat)
    requires IsRun(states, labels) && n < |states|
    ensures Inv(states[n])
  {
    hide Apply, Enabled;
    if n > 0 {
      RunInv(states, labels, n - 1);
      assert StepAt(states, labels, n - 1);
      StepInv(states[n - 1], labels[n - 1]);
    }
  }

  // ------------------------------------------------------------ guarantees

  /** A call of Forward that returns a response returns the first one with its own ID that was
      read after the call became pending. Duplicates and other calls' responses never reach it. */
  lemma EachGetsItsFirstReply(states: seq<State>, labels: seq<Label>, n: nat, f: nat) returns (k: nat)
    requires IsRun(states, labels) && n < |states| && f in states[n].forwards
    requires states[n].forwards[f].stage.Returned? && states[n].forwards[f].stage.result.Some?
    ensures var s := states[n];
            var w := s.forwards[f];
            && w.from <= k < |s.log| && s.log[k] == w.stage.result.value && s.log[k].id == w.id
            && forall j :: w.from <= j < k ==> s.log[j].id != w.id
  {
    RunInv(states, labels, n);
    var s := states[n];
    assert ForwardOk(s, f);
    FirstReplyIsFirst(s.log, s.forwards[f].from, s.forwards[f].id);
    k :| s.forwards[f].from <= k < |s.log| && s.log[k] == s.forwards[f].stage.result.value
         && s.log[k].id == s.forwards[f].id && forall j :: s.forwards[f].from <= j < k ==> s.log[j].id != s.forwards[f].id;
  }

  /** The call has its result, and perhaps has returned it. */
  predicate HasResult(s: State, f: nat, result: Option<Response>) {
    f in s.forwards && (s.forwards[f].stage == Leaving(result) || s.forwards[f].stage == Returned(result))
  }

  predicate EndsEmpty(l: Label, f: nat) {
    l == GiveUp(f) || l == SendFails(f)
  }

  lemma ResultStep(s: State, l: Label, f: nat, result: Option<Response>)
    requires Enabled(s, l) && HasResult(s, f, result)
    ensures HasResult(Apply(s, l), f, result) && Apply(s, l).forwards[f].from == s.forwards[f].from
    ensures Apply(s, l).forwards[f].id == s.forwards[f].id
    ensures l != Receive(f) && !EndsEmpty(l, f)
  {
  }

  lemma {:induction false} ResultStays(states: seq<State>, labels: seq<Label>, m: nat, n: nat, f: nat, result: Option<Response>)
    requires IsRun(states, labels) && m <= n < |states| && HasResult(states[m], f, result)
    ensures HasResult(states[n], f, result) && states[n].forwards[f].from == states[m].forwards[f].from
    ensures states[n].forwards[f].id == states[m].forwards[f].id
    decreases n
  {
    hide Apply, Enabled, HasResult;
    if m < n {
      ResultStays(states, labels, m, n - 1, f, result);
      assert StepAt(states, labels, n - 1);
      ResultStep(states[n - 1], labels[n - 1], f, result);
    }
  }

  lemma ResultBegins(s: State, l: Label, f: nat, result: Option<Response>)
    requires Enabled(s, l) && HasResult(Apply(s, l), f, result) && !HasResult(s, f, result)
    ensures result.None? ==> EndsEmpty(l, f)
    ensures result.Some? ==> l == Receive(f) && f in s.channels && s.channels[f] == result
  {
  }

  lemma {:induction false} ResultOrigin(states: seq<State>, labels: seq<Label>, n: nat, f: nat, result: Option<Response>) returns (m: nat)
    requires IsRun(states, labels) && n < |states| && HasResult(states[n], f, result)
    ensures m < n && (if result.None? then EndsEmpty(labels[m], f) else labels[m] == Receive(f))
  {
    hide Apply, Enabled;
    assert n > 0;
    assert StepAt(states, labels, n - 1);
    if HasResult(states[n - 1], f, result) {
      m := ResultOrigin(states, labels, n - 1, f, result);
    } else {
      ResultBegins(states[n - 1], labels[n - 1], f, result);
      m := n - 1;
    }
  }

  lemma ReceiveGivesResult(s: State, f: nat)
    requires Inv(s) && Enabled(s, Receive(f))
    ensures s.channels[f].Some? && HasResult(Apply(s, Receive(f)), f, s.channels[f])
    ensures Reply(s, f) == s.channels[f]
  {
    assert ForwardOk(s, f);
  }

  /** A call that receives a response returns it, whatever happens afterwards: the first response
      with its ID that was read after it became pending. */
  lemma ReceivedIsReturned(states: seq<State>, labels: seq<Label>, n: nat, k: nat, f: nat) returns (j: nat)
    requires IsRun(states, labels) && n < |labels| && n < k < |states| && labels[n] == Receive(f)
    requires f in states[k].forwards && states[k].forwards[f].stage.Returned?
    ensures f in states[n].forwards
    ensures var w, log := states[n].forwards[f], states[n].log;
            && w.from <= j < |log| && log[j].id == w.id
            && states[k].forwards[f].stage.result == Some(log[j])
            && forall i :: w.from <= i < j ==> log[i].id != w.id
  {
    RunInv(states, labels, n);
    assert StepAt(states, labels, n);
    ReceiveGivesResult(states[n], f);
    ResultStays(states, labels, n + 1, k, f, states[n].channels[f]);
    var w, log := states[n].forwards[f], states[n].log;
    FirstReplyIsFirst(log, w.from, w.id);
    j :| w.from <= j < |log| && log[j] == states[n].channels[f].value && log[j].id == w.id
         && forall i :: w.from <= i < j ==> log[i].id != w.id;
  }

  /** A call returns without a response if and only if its send failed or it gave up waiting. */
  lemma ReturnsNothingIff(states: seq<State>, labels: seq<Label>, n: nat, f: nat)
    requires IsRun(states, labels) && n < |states| && f in states[n].forwards && states[n].forwards[f].stage.Returned?
    ensures states[n].forwards[f].stage.result.None? <==> exists m :: 0 <= m < n && EndsEmpty(labels[m], f)
  {
    hide Apply, Enabled, EndsEmpty;
    var result := states[n].forwards[f].stage.result;
    var origin := ResultOrigin(states, labels, n, f, result);
    if m :| 0 <= m < n && EndsEmpty(labels[m], f) {
      assert StepAt(states, labels, m);
      EmptyGivesNone(states[m], labels[m], f);
      ResultStays(states, labels, m + 1, n, f, None);
    }
  }

  lemma EmptyGivesNone(s: State, l: Label, f: nat)
    requires Enabled(s, l) && EndsEmpty(l, f)
    ensures HasResult(Apply(s, l), f, None)
  {
  }

  /** No call gets stuck: each one that has not returned can take a step of its own. */
  lemma CallsCanFinish(s: State, f: nat)
    requires Active(s, f)
    ensures match s.forwards[f].stage
            case Sending => Enabled(s, Sent(f)) && Enabled(s, SendFails(f))
            case Waiting => Enabled(s, GiveUp(f)) && (f in s.channels && s.channels[f].Some? ==> Enabled(s, Receive(f)))
            case Leaving(result) => Enabled(s, Forget(f)) && InStage(Apply(s, Forget(f)), f, Returned(result))
            case Returned(_) => false
  {
  }

  /** The read loop never blocks on the channel that it sends on. */
  lemma LoopNeverBlocks(states: seq<State>, labels: seq<Label>, n: nat)
    requires IsRun(states, labels) && n < |states| && states[n].loop.Delivering?
    ensures CanSend(states[n]) && Enabled(states[n], Deliver)
  {
    RunInv(states, labels, n);
    assert ForwardOk(states[n], states[n].loop.forward);
  }

  /** No response is lost: while a call waits, the first response with its ID that has been read
      is in its channel, or is about to be put there. */
  lemma NoReplyIsLost(states: seq<State>, labels: seq<Label>, n: nat, f: nat, k: nat)
    requires IsRun(states, labels) && n < |states| && InStage(states[n], f, Waiting)
    requires states[n].forwards[f].from <= k < |states[n].log|
    requires states[n].log[k].id == states[n].forwards[f].id
    requires forall j :: states[n].forwards[f].from <= j < k ==> states[n].log[j].id != states[n].forwards[f].id
    ensures var s := states[n];
            f in s.channels && Arrived(f, s.log[k], s.channels[f], s.loop)
  {
    RunInv(states, labels, n);
    var s := states[n];
    assert ForwardOk(s, f);
    FirstReplyIsFirst(s.log, s.forwards[f].from, s.forwards[f].id);
    var i :| s.forwards[f].from <= i < |s.log| && s.log[i] == Reply(s, f).value && s.log[i].id == s.forwards[f].id
             && forall j :: s.forwards[f].from <= j < i ==> s.log[j].id != s.forwards[f].id;
    assert i == k;
  }

  lemma RunExtends(states: seq<State>, labels: seq<Label>, l: Label)
    requires IsRun(states, labels) && Enabled(states[|states| - 1], l)
    ensures IsRun(states + [Apply(states[|states| - 1], l)], labels + [l])
  {
    hide Apply, Enabled;
    var s', l' := states + [Apply(states[|states| - 1], l)], labels + [l];
    forall i | 0 <= i < |l'| ensures StepAt(s', l', i) {
      if i < |labels| { assert StepAt(states, labels, i); }
    }
  }

  /** A call that waits when its first response has been read can return it, without any further
      help from the peer. */
  lemma ReplyReachesCall(states: seq<State>, labels: seq<Label>, f: nat, k: nat)
      returns (states': seq<State>, labels': seq<Label>)
    requires IsRun(states, labels) && InStage(states[|states| - 1], f, Waiting)
    requires var s := states[|states| - 1];
             s.forwards[f].from <= k < |s.log| && s.log[k].id == s.forwards[f].id
             && forall j :: s.forwards[f].from <= j < k ==> s.log[j].id != s.forwards[f].id
    ensures IsRun(states', labels') && states <= states' && labels <= labels'
    ensures forall i :: |labels| <= i < |labels'| ==> labels'[i] in [Deliver, Receive(f), Forget(f)]
    ensures InStage(states'[|states'| - 1], f, Returned(Some(states[|states| - 1].log[k])))
  {
    var s, reply := states[|states| - 1], states[|states| - 1].log[k];
    NoReplyIsLost(states, labels, |states| - 1, f, k);
    states', labels' := states, labels;
    if s.channels[f].None? {
      LoopNeverBlocks(states, labels, |states| - 1);
      RunExtends(states, labels, Deliver);
      s := Apply(s, Deliver);
      states', labels' := states' + [s], labels' + [Deliver];
    }
    RunExtends(states', labels', Receive(f));
    s := Apply(s, Receive(f));
    states', labels' := states' + [s], labels' + [Receive(f)];
    RunExtends(states', labels', Forget(f));
    states', labels' := states' + [Apply(s, Forget(f))], labels' + [Forget(f)];
  }

  /** Once the connection is closed, nothing more is read. */
  lemma {:induction false} NothingReadAfterClose(states: seq<State>, labels: seq<Label>, m: nat, n: nat)
    requires IsRun(states, labels) && m < n < |states| && labels[m].Close?
    ensures states[n].log == states[m].log && states[n].loop.Exited?
    decreases n
  {
    assert StepAt(states, labels, n - 1);
    if m < n - 1 { NothingReadAfterClose(states, labels, m, n - 1); }
  }

  /** An ID is pending only while the call that drew it is active. */
  lemma PendingOnlyWhileActive(states: seq<State>, labels: seq<Label>, n: nat, id: string)
    requires IsRun(states, labels) && n < |states| && id in states[n].pending
    ensures var f := states[n].pending[id]; Active(states[n], f) && states[n].forwards[f].id == id
  {
    RunInv(states, labels, n);
  }
}
