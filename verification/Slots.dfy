/** Admission of concurrent requests (internal/server/http.go): a slot of the tunnel, then a slot
    of the server, with roll-back; each acquire and release is a step of its own. */
module Slots {
  const PER_TUNNEL: nat := 10

  // ------------------------------------------------------- the slots themselves

  /** A buffered channel of empty structs, used as a counting semaphore. */
  class Slot {
    const capacity: nat
    var taken: nat

    constructor (capacity: nat)
      ensures this.capacity == capacity && taken == 0
    {
      this.capacity := capacity;
      taken := 0;
    }
  }

  /** Never waits. A missing channel admits everything. */
  method AcquireSlot(slot: Slot?) returns (ok: bool)
    modifies slot
    ensures slot == null ==> ok
    ensures slot != null ==>
              && ok == (old(slot.taken) < slot.capacity)
              && slot.taken == (if ok then old(slot.taken) + 1 else old(slot.taken))
  {
    if slot == null {
      return true;
    }
    ok := slot.taken < slot.capacity;
    if ok {
      slot.taken := slot.taken + 1;
    }
  }

  method ReleaseSlot(slot: Slot?)
    modifies slot
    ensures slot != null ==> slot.taken == Less(old(slot.taken))
  {
    if slot != null && slot.taken > 0 {
      slot.taken := slot.taken - 1;
    }
  }

  /** Both or neither. */
  method AcquireHostedSlots(tunnel: Slot, server: Slot) returns (ok: bool)
    requires tunnel != server
    modifies tunnel, server
    ensures ok == (old(tunnel.taken) < tunnel.capacity && old(server.taken) < server.capacity)
    ensures tunnel.taken == old(tunnel.taken) + (if ok then 1 else 0)
    ensures server.taken == old(server.taken) + (if ok then 1 else 0)
  {
    ok := AcquireSlot(tunnel);
    if ok {
      ok := AcquireSlot(server);
      if !ok {
        ReleaseSlot(tunnel);
      }
    }
  }

  method ReleaseHostedSlots(tunnel: Slot, server: Slot)
    requires tunnel != server
    modifies tunnel, server
    ensures tunnel.taken == Less(old(tunnel.taken))
    ensures server.taken == Less(old(server.taken))
  {
    ReleaseSlot(tunnel);
    ReleaseSlot(server);
  }

  // --------------------------------------------------------- concurrent requests

  /** Where a request is in acquireHostedSlots and releaseHostedSlots. */
  datatype Stage =
    | Half(tunnel: string)        // has the tunnel's slot, not yet the server's
    | RollingBack(tunnel: string) // was refused a server slot, still has the tunnel's
    | Holding(tunnel: string)     // is being served
    | Leaving(tunnel: string)     // has given the tunnel's slot back, not yet the server's

  datatype State = State(
    maxInFlight: nat,
    tunnels: map<string, nat>,  // slots taken of each tunnel
    server: nat,                // slots taken of the server
    requests: map<nat, Stage>)

  datatype Label =
    | Open(tunnel: string)
    | TakeTunnel(request: nat, tunnel: string)
    | TakeServer(request: nat)
    | RollBack(request: nat)
    | ReleaseTunnel(request: nat)
    | ReleaseServer(request: nat)

  predicate Enabled(s: State, l: Label) {
    match l
    case Open(tunnel) => tunnel !in s.tunnels
    case TakeTunnel(r, tunnel) => r !in s.requests && tunnel in s.tunnels && s.tunnels[tunnel] < PER_TUNNEL
    case TakeServer(r) => r in s.requests && s.requests[r].Half?
    case RollBack(r) => r in s.requests && s.requests[r].RollingBack? && s.requests[r].tunnel in s.tunnels
    case ReleaseTunnel(r) => r in s.requests && s.requests[r].Holding? && s.requests[r].tunnel in s.tunnels
    case ReleaseServer(r) => r in s.requests && s.requests[r].Leaving?
  }

  /** A release of an empty channel does nothing. */
  function Less(n: nat): nat {
    if n > 0 then n - 1 else 0
  }

  function Apply(s: State, l: Label): State
    requires Enabled(s, l)
  {
    match l
    case Open(tunnel) => s.(tunnels := s.tunnels[tunnel := 0])
    case TakeTunnel(r, tunnel) =>
      s.(tunnels := s.tunnels[tunnel := s.tunnels[tunnel] + 1], requests := s.requests[r := Half(tunnel)])
    case TakeServer(r) =>
      var tunnel := s.requests[r].tunnel;
      if s.server < s.maxInFlight
      then s.(server := s.server + 1, requests := s.requests[r := Holding(tunnel)])
      else s.(requests := s.requests[r := RollingBack(tunnel)])
    case RollBack(r) =>
      var tunnel := s.requests[r].tunnel;
      s.(tunnels := s.tunnels[tunnel := Less(s.tunnels[tunnel])], requests := s.requests - {r})
    case ReleaseTunnel(r) =>
      var tunnel := s.requests[r].tunnel;
      s.(tunnels := s.tunnels[tunnel := Less(s.tunnels[tunnel])], requests := s.requests[r := Leaving(tunnel)])
    case ReleaseServer(r) => s.(server := Less(s.server), requests := s.requests - {r})
  }

  /** The requests that have taken a slot of the tunnel and not yet given it back. */
  function TunnelHolders(requests: map<nat, Stage>, tunnel: string): set<nat> {
    set r | r in requests && !requests[r].Leaving? && requests[r].tunnel == tunnel
  }

  function ServerHolders(requests: map<nat, Stage>): set<nat> {
    set r | r in requests && (requests[r].Holding? || requests[r].Leaving?)
  }

  ghost predicate Conserved(s: State) {
    && (forall r :: r in s.requests ==> s.requests[r].tunnel in s.tunnels)
    && (forall tunnel :: tunnel in s.tunnels ==>
         s.tunnels[tunnel] == |TunnelHolders(s.requests, tunnel)| && s.tunnels[tunnel] <= PER_TUNNEL)
    && s.server == |ServerHolders(s.requests)| && s.server <= s.maxInFlight
  }

  /** Two sets that agree apart from r differ in size by what they say about r. */
  lemma SameApartFrom(a: set<nat>, b: set<nat>, r: nat)
    requires forall q :: q != r ==> (q in a <==> q in b)
    ensures |a| - (if r in a then 1 else 0) == |b| - (if r in b then 1 else 0)
  {
    assert a - {r} == b - {r};
    WithoutOne(a, r);
    WithoutOne(b, r);
  }

  lemma WithoutOne(s: set<nat>, r: nat)
    ensures |s| == |s - {r}| + (if r in s then 1 else 0)
  {
    if r in s {
      assert s == (s - {r}) + {r};
    } else {
      assert s == s - {r};
    }
  }

  ghost predicate OnlyChanges(requests: map<nat, Stage>, later: map<nat, Stage>, r: nat) {
    forall q :: q != r ==> (q in requests <==> q in later) && (q in requests ==> later[q] == requests[q])
  }

  lemma TunnelConserves(s: State, l: Label, tunnel: string)
    requires Conserved(s) && Enabled(s, l) && !l.Open? && tunnel in Apply(s, l).tunnels
    ensures var t := Apply(s, l); t.tunnels[tunnel] == |TunnelHolders(t.requests, tunnel)| <= PER_TUNNEL
  {
    var t := Apply(s, l);
    var before, after := TunnelHolders(s.requests, tunnel), TunnelHolders(t.requests, tunnel);
    assert OnlyChanges(s.requests, t.requests, l.request);
    SameApartFrom(before, after, l.request);
    if s.tunnels[tunnel] == 0 { assert l.request !in before; }
  }

  lemma ServerConserves(s: State, l: Label)
    requires Conserved(s) && Enabled(s, l) && !l.Open?
    ensures var t := Apply(s, l); t.server == |ServerHolders(t.requests)| <= t.maxInFlight
  {
    var t := Apply(s, l);
    assert OnlyChanges(s.requests, t.requests, l.request);
    SameApartFrom(ServerHolders(s.requests), ServerHolders(t.requests), l.request);
    if s.server == 0 { assert l.request !in ServerHolders(s.requests); }
  }

  lemma StepConserves(s: State, l: Label)
    requires Conserved(s) && Enabled(s, l)
    ensures Conserved(Apply(s, l)) && Apply(s, l).maxInFlight == s.maxInFlight
  {
    var t := Apply(s, l);
    if l.Open? {
      assert TunnelHolders(s.requests, l.tunnel) == {};
    } else {
      forall tunnel | tunnel in t.tunnels
        ensures t.tunnels[tunnel] == |TunnelHolders(t.requests, tunnel)| <= PER_TUNNEL
      {
        TunnelConserves(s, l, tunnel);
      }
      ServerConserves(s, l);
    }
  }

  predicate IsRelease(l: Label) {
    l.RollBack? || l.ReleaseTunnel? || l.ReleaseServer?
  }

  /** The channel that a release receives from is not empty. */
  predicate FindsSlot(s: State, l: Label) {
    match l
    case RollBack(r) => r in s.requests && s.requests[r].tunnel in s.tunnels && s.tunnels[s.requests[r].tunnel] > 0
    case ReleaseTunnel(r) => r in s.requests && s.requests[r].tunnel in s.tunnels && s.tunnels[s.requests[r].tunnel] > 0
    case ReleaseServer(_) => s.server > 0
    case _ => false
  }

  /** A run from a server with no tunnels and no requests. */
  ghost predicate IsRun(states: seq<State>, labels: seq<Label>) {
    && |states| == |labels| + 1
    && states[0] == State(states[0].maxInFlight, map[], 0, map[])
    && forall i {:trigger StepAt(states, labels, i)} :: 0 <= i < |labels| ==> StepAt(states, labels, i)
  }

  ghost predicate StepAt(states: seq<State>, labels: seq<Label>, i: int) {
    0 <= i < |labels| && i + 1 < |states| && Enabled(states[i], labels[i]) && states[i + 1] == Apply(states[i], labels[i])
  }

  /** In every reachable state, each tunnel's count is the number of requests between acquiring
      and giving back its slot, the server's count is the number of requests that have a server
      slot, and neither exceeds its limit. */
  lemma {:induction false} SlotsConserved(states: seq<State>, labels: seq<Label>, n: nat)
    requires IsRun(states, labels) && n < |states|
    ensures Conserved(states[n]) && states[n].maxInFlight == states[0].maxInFlight
  {
    if n == 0 {
      assert ServerHolders(states[0].requests) == {};
    } else {
      SlotsConserved(states, labels, n - 1);
      assert StepAt(states, labels, n - 1);
      StepConserves(states[n - 1], labels[n - 1]);
    }
  }

  /** No release ever finds its channel empty, so every acquired slot is given back once. */
  lemma ReleasesAreMatched(states: seq<State>, labels: seq<Label>, n: nat)
    requires IsRun(states, labels) && n < |labels| && IsRelease(labels[n])
    ensures FindsSlot(states[n], labels[n])
  {
    SlotsConserved(states, labels, n);
    assert StepAt(states, labels, n);
    var s, l := states[n], labels[n];
    assert l.ReleaseServer? ==> l.request in ServerHolders(s.requests);
    assert !l.ReleaseServer? ==> l.request in TunnelHolders(s.requests, s.requests[l.request].tunnel);
  }

  /** A request that has its tunnel's slot is served if and only if the server has a slot for it,
      that is, if fewer than the limit are being served or leaving; else it has to roll back. */
  lemma ServedIff(states: seq<State>, labels: seq<Label>, n: nat, r: nat)
    requires IsRun(states, labels) && n < |labels| && labels[n] == TakeServer(r)
    ensures r in states[n].requests && states[n].requests[r].Half? && r in states[n + 1].requests
    ensures states[n + 1].requests[r].tunnel == states[n].requests[r].tunnel
    ensures states[n + 1].requests[r].Holding? <==> |ServerHolders(states[n].requests)| < states[0].maxInFlight
    ensures states[n + 1].requests[r].RollingBack? <==> |ServerHolders(states[n].requests)| == states[0].maxInFlight
  {
    SlotsConserved(states, labels, n);
    assert StepAt(states, labels, n);
  }

  /** A request gets its tunnel's slot if and only if fewer than ten are taken. */
  lemma AdmittedIff(states: seq<State>, labels: seq<Label>, n: nat, r: nat, tunnel: string)
    requires IsRun(states, labels) && n < |states| && r !in states[n].requests && tunnel in states[n].tunnels
    ensures Enabled(states[n], TakeTunnel(r, tunnel)) <==> |TunnelHolders(states[n].requests, tunnel)| < 10
    ensures Enabled(states[n], TakeTunnel(r, tunnel)) ==>
              var t := Apply(states[n], TakeTunnel(r, tunnel)); r in t.requests && t.requests[r] == Half(tunnel)
  {
    SlotsConserved(states, labels, n);
  }

  /** When no request is under way, every slot is free again. */
  lemma IdleMeansFree(states: seq<State>, labels: seq<Label>, n: nat)
    requires IsRun(states, labels) && n < |states| && states[n].requests == map[]
    ensures states[n].server == 0 && forall tunnel :: tunnel in states[n].tunnels ==> states[n].tunnels[tunnel] == 0
  {
    SlotsConserved(states, labels, n);
    assert ServerHolders(states[n].requests) == {};
    assert forall tunnel :: TunnelHolders(states[n].requests, tunnel) == {};
  }
}
