/** Guarantees that one would expect of the control plane and that hold only of some of its runs;
    for each, exactly which ones. The module Counterexamples has runs on the other side. (The
    agreement of the two maps is in the module Guarantees.) */
module Exactness {
  import opened Common
  import opened Secrets
  import opened Sessions
  import opened Auth
  import opened Registry
  import opened ControlPlane
  import opened Invariant
  import opened Guarantees

  // ---------------------------------------------------------------- capacity

  predicate WithinCapacity(c: Config, s: State) {
    |s.registry.bySession| <= c.maxTunnels
  }

  /** A session that is not registered is being resumed while the service is full. */
  predicate ResumesIntoFull(c: Config, s: State) {
    && s.lock.Upserted? && s.lock.resumed
    && s.lock.session.id !in s.registry.bySession && |s.registry.bySession| >= c.maxTunnels
  }

  lemma MapSize<T>(m: map<string, T>, id: string, t: T)
    ensures |m[id := t]| == |m| + (if id in m then 0 else 1)
  {
    assert |m| == |m.Keys| && |m[id := t]| == |m[id := t].Keys|;
    assert m[id := t].Keys == m.Keys + {id};
  }

  lemma SmallerMap<T>(m: map<string, T>, id: string)
    ensures |m - {id}| <= |m|
  {
    SubsetSize((m - {id}).Keys, m.Keys);
    assert |m| == |m.Keys| && |m - {id}| == |(m - {id}).Keys|;
  }

  lemma InstallCapacity(c: Config, s: State)
    requires Inv(c, s) && WithinCapacity(c, s) && s.lock.Upserted?
    ensures WithinCapacity(c, InstallStep(s)) <==> !ResumesIntoFull(c, s)
  {
    MapSize(s.registry.bySession, s.lock.session.id, s.lock.conn);
    if !s.lock.resumed { NewTunnelFitsStep(c, s); }
  }

  lemma OtherCapacity(c: Config, s: State, l: Label)
    requires WithinCapacity(c, s) && Enabled(c, s, l) && !l.InstallTunnel? && c.maxTunnels > 0
    ensures WithinCapacity(c, Apply(c, s, l))
  {
    if l.RemoveTunnel? { SmallerMap(s.registry.bySession, s.conns[l.conn].session.id); }
  }

  /** The service stays within HostedMaxTunnels throughout a run if and only if no lost session
      is resumed while it is full. New sessions never matter. */
  lemma CapacityIff(c: Config, states: seq<State>, labels: seq<Label>)
    requires IsBehaviour(c, states, labels)
    ensures (forall n :: 0 <= n < |states| ==> WithinCapacity(c, states[n]))
       <==> (forall n :: 0 <= n < |labels| && labels[n].InstallTunnel? ==> !ResumesIntoFull(c, states[n]))
  {
    hide Inv, Apply, Enabled, WithinCapacity, ResumesIntoFull;
    if forall n :: 0 <= n < |states| ==> WithinCapacity(c, states[n]) {
      forall n | 0 <= n < |labels| && labels[n].InstallTunnel?
        ensures !ResumesIntoFull(c, states[n])
      {
        RunInv(c, states, labels, n);
        assert StepAt(c, states, labels, n) && WithinCapacity(c, states[n]) && WithinCapacity(c, states[n + 1]);
        InstallIs(c, states[n], states[n + 1]);
        InstallCapacity(c, states[n]);
      }
    }
    if forall n :: 0 <= n < |labels| && labels[n].InstallTunnel? ==> !ResumesIntoFull(c, states[n]) {
      forall n | 0 <= n < |states|
        ensures WithinCapacity(c, states[n])
      {
        RunCapacity(c, states, labels, n);
      }
    }
  }

  lemma InstallIs(c: Config, s: State, t: State)
    requires Next(c, s, InstallTunnel, t)
    ensures s.lock.Upserted? && t == InstallStep(s)
  {
  }

  lemma {:induction false} RunCapacity(c: Config, states: seq<State>, labels: seq<Label>, n: nat)
    requires IsBehaviour(c, states, labels) && n < |states|
    requires forall i :: 0 <= i < |labels| && labels[i].InstallTunnel? ==> !ResumesIntoFull(c, states[i])
    ensures WithinCapacity(c, states[n])
  {
    hide Inv, Apply, Enabled, ResumesIntoFull;
    if n > 0 {
      RunCapacity(c, states, labels, n - 1);
      RunInv(c, states, labels, n - 1);
      assert StepAt(c, states, labels, n - 1);
      if labels[n - 1].InstallTunnel? {
        InstallIs(c, states[n - 1], states[n]);
        InstallCapacity(c, states[n - 1]);
      } else {
        OtherCapacity(c, states[n - 1], labels[n - 1]);
      }
    }
  }

  // ------------------------------------------------ capacity of one address

  predicate WithinAddress(c: Config, s: State, ip: string) {
    |SessionsFrom(SourceIPs(s), ip)| <= c.maxPerIP
  }

  /** A session that does not count for the address is being resumed from it while it is full. */
  predicate ResumesIntoFullAddress(c: Config, s: State, ip: string) {
    && s.lock.Upserted? && s.lock.resumed && s.lock.ip == ip
    && s.lock.session.id !in SessionsFrom(SourceIPs(s), ip) && |SessionsFrom(SourceIPs(s), ip)| >= c.maxPerIP
  }

  lemma InstallSources(s: State)
    requires s.lock.Upserted? && s.lock.conn !in s.conns
    requires forall id :: id in s.registry.bySession ==> s.registry.bySession[id] in s.conns
    ensures SourceIPs(InstallStep(s)) == SourceIPs(s)[s.lock.session.id := s.lock.ip]
  {
    hide InstallStep;
    InstallFields(s);
    var t := InstallStep(s);
    assert forall id :: id in SourceIPs(t) <==> id in s.registry.bySession || id == s.lock.session.id;
  }

  lemma OneSourceMore(ips: map<string, string>, id: string, from: string, ip: string)
    ensures |SessionsFrom(ips[id := from], ip)| <= |SessionsFrom(ips, ip)| + (if from == ip && id !in SessionsFrom(ips, ip) then 1 else 0)
    ensures from == ip && id !in SessionsFrom(ips, ip) ==> |SessionsFrom(ips[id := from], ip)| == |SessionsFrom(ips, ip)| + 1
  {
    var before, after := SessionsFrom(ips, ip), SessionsFrom(ips[id := from], ip);
    if from == ip {
      assert after == before + {id};
    } else {
      SubsetSize(after, before);
    }
  }

  lemma InstallAddress(c: Config, s: State, ip: string)
    requires Inv(c, s) && WithinAddress(c, s, ip) && s.lock.Upserted?
    ensures WithinAddress(c, InstallStep(s), ip) <==> !ResumesIntoFullAddress(c, s, ip)
  {
    hide StoreInv, LimitInv, InstallStep, SourceIPs;
    assert HoldsConn(s.lock, s.lock.conn);
    InstallSources(s);
    OneSourceMore(SourceIPs(s), s.lock.session.id, s.lock.ip, ip);
    if !s.lock.resumed { NewTunnelFitsStep(c, s); }
  }

  lemma OtherAddress(c: Config, s: State, l: Label, ip: string)
    requires WithinAddress(c, s, ip) && Enabled(c, s, l) && !l.InstallTunnel?
    ensures WithinAddress(c, Apply(c, s, l), ip)
  {
    hide Apply, Enabled;
    StepAges(c, s, l);
    SourcesShrink(s, Apply(c, s, l), ip);
  }

  lemma SourcesShrink(s: State, t: State, ip: string)
    requires Aged(s.registry, s.conns, t.registry, t.conns)
    ensures |SessionsFrom(SourceIPs(t), ip)| <= |SessionsFrom(SourceIPs(s), ip)|
  {
    assert forall r :: r in t.conns ==> OlderTunnel(s.conns[r], t.conns[r]);
    SubsetSize(SessionsFrom(SourceIPs(t), ip), SessionsFrom(SourceIPs(s), ip));
  }

  /** The same for HostedMaxPerIP: an address has too many tunnels at some time if and only if
      a session is resumed from it while it is full. */
  lemma AddressCapacityIff(c: Config, states: seq<State>, labels: seq<Label>, ip: string)
    requires IsBehaviour(c, states, labels)
    ensures (forall n :: 0 <= n < |states| ==> WithinAddress(c, states[n], ip))
       <==> (forall n :: 0 <= n < |labels| && labels[n].InstallTunnel? ==> !ResumesIntoFullAddress(c, states[n], ip))
  {
    hide Inv, Apply, Enabled, WithinAddress, ResumesIntoFullAddress;
    if forall n :: 0 <= n < |states| ==> WithinAddress(c, states[n], ip) {
      forall n | 0 <= n < |labels| && labels[n].InstallTunnel?
        ensures !ResumesIntoFullAddress(c, states[n], ip)
      {
        RunInv(c, states, labels, n);
        assert StepAt(c, states, labels, n) && WithinAddress(c, states[n], ip) && WithinAddress(c, states[n + 1], ip);
        InstallIs(c, states[n], states[n + 1]);
        InstallAddress(c, states[n], ip);
      }
    }
    if forall n :: 0 <= n < |labels| && labels[n].InstallTunnel? ==> !ResumesIntoFullAddress(c, states[n], ip) {
      forall n | 0 <= n < |states|
        ensures WithinAddress(c, states[n], ip)
      {
        RunAddress(c, states, labels, ip, n);
      }
    }
  }

  lemma StartsWithin(c: Config, s: State, ip: string)
    requires ValidConfig(c) && Init(s)
    ensures WithinAddress(c, s, ip)
  {
    assert SessionsFrom(SourceIPs(s), ip) == {};
  }

  lemma {:induction false} RunAddress(c: Config, states: seq<State>, labels: seq<Label>, ip: string, n: nat)
    requires IsBehaviour(c, states, labels) && n < |states|
    requires forall i :: 0 <= i < |labels| && labels[i].InstallTunnel? ==> !ResumesIntoFullAddress(c, states[i], ip)
    ensures WithinAddress(c, states[n], ip)
  {
    hide Inv, Apply, Enabled, WithinAddress, ResumesIntoFullAddress;
    if n == 0 {
      StartsWithin(c, states[0], ip);
    } else {
      RunAddress(c, states, labels, ip, n - 1);
      RunInv(c, states, labels, n - 1);
      assert StepAt(c, states, labels, n - 1);
      if labels[n - 1].InstallTunnel? {
        InstallIs(c, states[n - 1], states[n]);
        InstallAddress(c, states[n - 1], ip);
      } else {
        OtherAddress(c, states[n - 1], labels[n - 1], ip);
      }
    }
  }

  // -------------------------------------------------------- rows of live sessions

  /** The session is registered, or stored and about to be. */
  predicate Serving(s: State, id: string) {
    id in s.registry.bySession || InUpsert(s.lock, id)
  }

  /** What is being served is not marked ended, unless its user revoked it. */
  ghost predicate EndedOnlyByRevoke(s: State) {
    forall id :: id in s.rows && s.rows[id].endedAt.Some? && Serving(s, id) ==> id in s.revoked
  }

  /** The EndSession of a connection comes when its session is being served again. */
  predicate LateEnd(s: State, l: Label) {
    && l.EndRow? && l.conn in s.conns
    && var id := s.conns[l.conn].session.id;
       id in s.rows && id !in s.revoked && Serving(s, id)
  }

  lemma EndedStep(c: Config, s: State, l: Label)
    requires EndedOnlyByRevoke(s) && Enabled(c, s, l) && !l.EndRow?
    ensures EndedOnlyByRevoke(Apply(c, s, l))
  {
    var t := Apply(c, s, l);
    assert forall id :: Serving(t, id) ==> Serving(s, id) || (l.UpsertRow? && InUpsert(t.lock, id));
  }

  lemma EndRowStep(c: Config, s: State, l: Label)
    requires EndedOnlyByRevoke(s) && Enabled(c, s, l) && l.EndRow?
    ensures EndedOnlyByRevoke(Apply(c, s, l)) <==> !LateEnd(s, l)
  {
    var t, id := Apply(c, s, l), s.conns[l.conn].session.id;
    assert forall x :: Serving(t, x) <==> Serving(s, x);
    if LateEnd(s, l) { assert t.rows[id].endedAt.Some? && Serving(t, id); }
  }

  /** No session is marked ended while it is being served, throughout a run, if and only if every
      delayed EndSession comes before its session is resumed. */
  lemma LiveRowsIff(c: Config, states: seq<State>, labels: seq<Label>)
    requires IsBehaviour(c, states, labels)
    ensures (forall n :: 0 <= n < |states| ==> EndedOnlyByRevoke(states[n]))
       <==> (forall n :: 0 <= n < |labels| && labels[n].EndRow? ==> !LateEnd(states[n], labels[n]))
  {
    hide Apply, Enabled, EndedOnlyByRevoke, LateEnd;
    if forall n :: 0 <= n < |states| ==> EndedOnlyByRevoke(states[n]) {
      forall n | 0 <= n < |labels| && labels[n].EndRow?
        ensures !LateEnd(states[n], labels[n])
      {
        assert StepAt(c, states, labels, n) && EndedOnlyByRevoke(states[n]) && EndedOnlyByRevoke(states[n + 1]);
        EndRowStep(c, states[n], labels[n]);
      }
    }
    if forall n :: 0 <= n < |labels| && labels[n].EndRow? ==> !LateEnd(states[n], labels[n]) {
      forall n | 0 <= n < |states|
        ensures EndedOnlyByRevoke(states[n])
      {
        RunEnded(c, states, labels, n);
      }
    }
  }

  lemma {:induction false} RunEnded(c: Config, states: seq<State>, labels: seq<Label>, n: nat)
    requires IsBehaviour(c, states, labels) && n < |states|
    requires forall i :: 0 <= i < |labels| && labels[i].EndRow? ==> !LateEnd(states[i], labels[i])
    ensures EndedOnlyByRevoke(states[n])
  {
    hide Apply, Enabled, LateEnd;
    if n > 0 {
      RunEnded(c, states, labels, n - 1);
      assert StepAt(c, states, labels, n - 1);
      if labels[n - 1].EndRow? {
        EndRowStep(c, states[n - 1], labels[n - 1]);
      } else {
        EndedStep(c, states[n - 1], labels[n - 1]);
      }
    }
  }
}
