/** The two in-memory maps of the tunnel manager (internal/server/tunnel.go), over any type of
    tunnel reference: the class TunnelManager uses heap objects, the step machine numbers. */
module Registry {
  import opened Common
  import opened Auth

  datatype Registry<T> = Registry(tunnels: map<string, T>, bySession: map<string, T>)

  predicate Registered<T(==)>(g: Registry<T>, id: string, t: T) {
    id in g.bySession && g.bySession[id] == t
  }

  function Install<T>(g: Registry<T>, subdomain: string, id: string, t: T): Registry<T> {
    Registry(g.tunnels[subdomain := t], g.bySession[id := t])
  }

  /** Removes t under both keys, unless another tunnel has taken over the session. */
  function Remove<T(==)>(g: Registry<T>, subdomain: string, id: string, t: T): Registry<T> {
    if Registered(g, id, t) then Registry(g.tunnels - {subdomain}, g.bySession - {id}) else g
  }

  /** The admission check of a new registration, on the source address of each session. */
  function CheckCapacity(ips: map<string, string>, ip: string, maxTunnels: int, maxPerIP: int): Option<Refusal> {
    if |ips| >= maxTunnels then Some(AtCapacity)
    else if |SessionsFrom(ips, ip)| >= maxPerIP then Some(TooManyActive)
    else None
  }

  function SessionsFrom(ips: map<string, string>, ip: string): set<string> {
    set id | id in ips && ips[id] == ip
  }
}
