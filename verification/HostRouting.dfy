/** Routing public requests by host name (FindByHost and publicURL in internal/server/tunnel.go,
    stripPort in internal/server/tls.go). Host names are ASCII. */
module HostRouting {
  import opened Common

  // ---------------------------------------------------- string operations

  function LowerChar(c: char): char {
    if 'A' <= c <= 'Z' then ((c as int) + 32) as char else c
  }

  function Lower(s: string): (r: string)
    ensures |r| == |s| && forall i :: 0 <= i < |s| ==> r[i] == LowerChar(s[i])
  {
    seq(|s|, i requires 0 <= i < |s| => LowerChar(s[i]))
  }

  predicate HasSuffix(s: string, suffix: string) {
    |suffix| <= |s| && s[|s| - |suffix|..] == suffix
  }

  function TrimSuffix(s: string, suffix: string): string {
    if HasSuffix(s, suffix) then s[..|s| - |suffix|] else s
  }

  predicate IsSpace(c: char) {
    c == ' ' || '\t' <= c <= '\r'
  }

  function TrimSpace(s: string): string {
    if s != [] && IsSpace(s[0]) then TrimSpace(s[1..])
    else if s != [] && IsSpace(s[|s| - 1]) then TrimSpace(s[..|s| - 1])
    else s
  }

  /** Everything before the first colon. */
  function StripPort(host: string): string {
    if host == [] || host[0] == ':' then [] else [host[0]] + StripPort(host[1..])
  }

  // --------------------------------------------------------------- routing

  /** The configured base domain, without surrounding spaces and one trailing dot. */
  function Domain(baseDomain: string): string {
    TrimSuffix(TrimSpace(baseDomain), ".")
  }

  function Base(baseDomain: string): string {
    Lower(Domain(baseDomain))
  }

  function Normal(host: string): string {
    Lower(StripPort(TrimSuffix(host, ".")))
  }

  /** The name that a host selects, before it is looked up among the tunnels. */
  function FindLabel(baseDomain: string, host: string): Option<string> {
    var name, base := Normal(host), Base(baseDomain);
    if base == "" || name == base || !HasSuffix(name, "." + base) then None
    else
      var sub := TrimSuffix(name, "." + base);
      if sub == "" || '.' in sub then None else Some(sub)
  }

  function FindByHost<T>(tunnels: map<string, T>, baseDomain: string, host: string): Option<T> {
    var sub := FindLabel(baseDomain, host);
    if sub.Some? && sub.value in tunnels then Some(tunnels[sub.value]) else None
  }

  /** The host of a tunnel's public URL. */
  function PublicHost(subdomain: string, baseDomain: string): string {
    subdomain + "." + baseDomain
  }

  // ----------------------------------------------------------- guarantees

  /** A host selects a name if and only if it is that one label under the base domain. */
  lemma FindLabelIff(baseDomain: string, host: string, sub: string)
    ensures FindLabel(baseDomain, host) == Some(sub) <==>
              && Base(baseDomain) != "" && sub != "" && '.' !in sub
              && Normal(host) == sub + "." + Base(baseDomain)
  {
    var name, suffix := Normal(host), "." + Base(baseDomain);
    if name == sub + "." + Base(baseDomain) {
      assert name == sub + suffix;
      assert name[|name| - |suffix|..] == suffix && name[..|name| - |suffix|] == sub;
    }
    if HasSuffix(name, suffix) && TrimSuffix(name, suffix) == sub {
      assert name == sub + suffix;
    }
  }

  /** The two characters are the same, or the same letter in different case. */
  predicate SameLetter(a: char, b: char) {
    || a == b
    || ('A' <= a <= 'Z' && b as int == a as int + 32)
    || ('A' <= b <= 'Z' && a as int == b as int + 32)
  }

  /** Equal in any letter case. */
  predicate EqualFold(a: string, b: string) {
    |a| == |b| && forall i :: 0 <= i < |a| ==> SameLetter(a[i], b[i])
  }

  lemma LowerCharIff(a: char, b: char)
    ensures LowerChar(a) == LowerChar(b) <==> SameLetter(a, b)
  {
  }

  /** Lowering forgets the case of letters, and nothing else. */
  lemma LowerIff(a: string, b: string)
    ensures Lower(a) == Lower(b) <==> EqualFold(a, b)
  {
    forall i | 0 <= i < |a| && i < |b|
      ensures LowerChar(a[i]) == LowerChar(b[i]) <==> SameLetter(a[i], b[i])
    {
      LowerCharIff(a[i], b[i]);
    }
    if Lower(a) == Lower(b) {
      assert forall i :: 0 <= i < |a| ==> Lower(a)[i] == Lower(b)[i];
    }
  }

  /** Names of tunnels are in lower case. */
  predicate PlainLabel(sub: string) {
    sub != "" && '.' !in sub && ':' !in sub && forall i :: 0 <= i < |sub| ==> !('A' <= sub[i] <= 'Z')
  }

  lemma PlainIsLower(sub: string)
    requires PlainLabel(sub)
    ensures Lower(sub) == sub
  {
  }

  predicate PlainDomain(domain: string) {
    domain != "" && ':' !in domain && domain[|domain| - 1] != '.'
  }

  lemma {:induction false} StripPortSplits(host: string, tail: string)
    requires ':' !in host
    ensures StripPort(host + tail) == host + StripPort(tail)
  {
    if host == [] {
      assert host + tail == tail;
    } else {
      assert (host + tail)[1..] == host[1..] + tail;
      StripPortSplits(host[1..], tail);
    }
  }

  lemma DotSuffix(s: string)
    ensures HasSuffix(s, ".") <==> s != "" && s[|s| - 1] == '.'
  {
    if s != "" { assert s[|s| - 1..] == [s[|s| - 1]]; }
  }

  /** What may follow a host: nothing, a dot, or a port, of whatever form. */
  predicate IsDotOrPort(tail: string) {
    tail == "" || tail == "." || tail[0] == ':'
  }

  /** What normalising leaves of it. */
  function Rest(tail: string): string {
    StripPort(TrimSuffix(tail, "."))
  }

  lemma RestIsEmptyIff(tail: string)
    ensures Rest(tail) == "" <==> IsDotOrPort(tail)
  {
    DotSuffix(tail);
  }

  lemma NormalSplits(host: string, tail: string)
    requires ':' !in host && host != "" && host[|host| - 1] != '.'
    ensures Normal(host + tail) == Lower(host) + Lower(Rest(tail))
  {
    DotSuffix(host + tail);
    DotSuffix(tail);
    if tail == "" {
      assert host + tail == host;
    } else {
      assert (host + tail)[|host + tail| - 1] == tail[|tail| - 1];
      assert HasSuffix(tail, ".") ==> (host + tail)[..|host + tail| - 1] == host + tail[..|tail| - 1];
    }
    assert TrimSuffix(host + tail, ".") == host + TrimSuffix(tail, ".");
    StripPortSplits(host, TrimSuffix(tail, "."));
  }

  /** The label in front of the base ends at the first dot, so there is only one way to split. */
  lemma OneLabelOnly(sub: string, other: string, base: string, more: string)
    requires '.' !in sub && '.' !in other
    requires sub + "." + base + more == other + "." + base
    ensures more == "" && sub == other
  {
    var name := other + "." + base;
    assert name[|sub|] == '.' && name[|other|] == '.';
    assert name[..|sub|] == sub && name[..|other|] == other;
    assert '.' !in name[..|sub|] && '.' !in name[..|other|];
  }

  lemma SameCase(a: string, b: string, c: char)
    requires EqualFold(a, b) && (c == ':' || c == '.')
    ensures |a| == |b| && forall i :: 0 <= i < |a| ==> (a[i] == c <==> b[i] == c)
  {
    forall i | 0 <= i < |a| ensures a[i] == c <==> b[i] == c {
      assert SameLetter(a[i], b[i]);
    }
  }

  lemma VariantIsPlain(sub: string, domain: string, host: string)
    requires PlainLabel(sub) && PlainDomain(domain) && EqualFold(host, PublicHost(sub, domain))
    ensures ':' !in host && host != "" && host[|host| - 1] != '.'
    ensures Lower(host) == sub + "." + Lower(domain)
  {
    var public := PublicHost(sub, domain);
    SameCase(host, public, ':');
    SameCase(host, public, '.');
    assert ':' !in public;
    assert public[|public| - 1] == domain[|domain| - 1];
    LowerIff(host, public);
    PlainIsLower(sub);
    assert Lower(public) == Lower(sub) + "." + Lower(domain);
  }

  /** A domain with spaces around it, and perhaps one trailing dot. */
  predicate IsConfigured(baseDomain: string, domain: string) {
    TrimSpace(baseDomain) == domain || TrimSpace(baseDomain) == domain + "."
  }

  lemma ConfiguredDomain(baseDomain: string, domain: string)
    requires PlainDomain(domain) && IsConfigured(baseDomain, domain)
    ensures Domain(baseDomain) == domain
  {
    DotSuffix(domain);
    DotSuffix(domain + ".");
  }

  /** The host of a tunnel's public URL, in any letter case, under a base domain in any letter case,
      finds that tunnel if and only if what follows it is nothing, a dot, or a port. Followed by
      anything else it finds no tunnel. */
  lemma PublicHostFindsTunnel<T>(tunnels: map<string, T>, sub: string, baseDomain: string, domain: string, host: string, tail: string)
    requires PlainLabel(sub) && PlainDomain(domain) && IsConfigured(baseDomain, domain)
    requires EqualFold(host, PublicHost(sub, domain))
    ensures FindByHost(tunnels, baseDomain, host + tail)
         == if IsDotOrPort(tail) && sub in tunnels then Some(tunnels[sub]) else None
  {
    ConfiguredDomain(baseDomain, domain);
    VariantIsPlain(sub, domain, host);
    NormalSplits(host, tail);
    RestIsEmptyIff(tail);
    var base, more := Base(baseDomain), Lower(Rest(tail));
    FindLabelIff(baseDomain, host + tail, sub);
    if IsDotOrPort(tail) {
      assert sub + "." + base + more == sub + "." + base;
    } else if FindLabel(baseDomain, host + tail).Some? {
      var other := FindLabel(baseDomain, host + tail).value;
      FindLabelIff(baseDomain, host + tail, other);
      OneLabelOnly(sub, other, base, more);
    }
  }

  predicate Blank(c: char) {
    c in [' ', '\t', '\n', '\U{0b}', '\U{0c}', '\r']
  }

  predicate AllSpaces(s: string) {
    forall i :: 0 <= i < |s| ==> Blank(s[i])
  }

  lemma BlankIff(c: char)
    ensures IsSpace(c) <==> Blank(c)
  {
  }

  /** Spaces around a configured domain make no difference. */
  lemma {:induction false} TrimsSpaces(before: string, s: string, after: string)
    requires AllSpaces(before) && AllSpaces(after) && s != "" && !Blank(s[0]) && !Blank(s[|s| - 1])
    ensures TrimSpace(before + s + after) == s
    decreases |before| + |after|
  {
    hide Blank, IsSpace;
    var all := before + s + after;
    forall c ensures IsSpace(c) <==> Blank(c) { BlankIff(c); }
    if before != "" {
      assert all[1..] == before[1..] + s + after;
      TrimsSpaces(before[1..], s, after);
    } else if after != "" {
      assert all[0] == s[0] && all[..|all| - 1] == before + s + after[..|after| - 1];
      TrimsSpaces(before, s, after[..|after| - 1]);
    } else {
      assert all == s;
    }
  }

  /** The URL as it is handed out finds its tunnel, also for a base domain with a trailing dot. */
  lemma OwnURLFindsTunnel<T>(tunnels: map<string, T>, sub: string, domain: string, dot: string)
    requires PlainLabel(sub) && PlainDomain(domain) && (dot == "" || dot == ".")
    requires !Blank(domain[0]) && !Blank(domain[|domain| - 1])
    ensures FindByHost(tunnels, domain + dot, PublicHost(sub, domain + dot)) == if sub in tunnels then Some(tunnels[sub]) else None
  {
    var baseDomain := domain + dot;
    TrimsSpaces("", baseDomain, "");
    assert "" + baseDomain + "" == baseDomain;
    assert dot == "" ==> baseDomain == domain;
    assert PublicHost(sub, baseDomain) == PublicHost(sub, domain) + dot;
    PublicHostFindsTunnel(tunnels, sub, baseDomain, domain, PublicHost(sub, domain), dot);
  }

  /** A dot before the port is not removed, so that form of the same host finds nothing,
      whatever the port. */
  lemma DotAndPortFindNothing<T>(tunnels: map<string, T>, sub: string, baseDomain: string, domain: string, host: string, port: string)
    requires PlainLabel(sub) && PlainDomain(domain) && IsConfigured(baseDomain, domain)
    requires EqualFold(host, PublicHost(sub, domain))
    ensures FindByHost(tunnels, baseDomain, host + (".:" + port)).None?
  {
    PublicHostFindsTunnel(tunnels, sub, baseDomain, domain, host, ".:" + port);
  }

  /** A host that, normalised, is not one label under the base domain finds no tunnel. */
  lemma OtherHostsFindNothing<T>(tunnels: map<string, T>, baseDomain: string, host: string)
    requires forall sub :: sub != "" && '.' !in sub ==> Normal(host) != sub + "." + Base(baseDomain)
    ensures FindByHost(tunnels, baseDomain, host).None?
  {
    if FindLabel(baseDomain, host).Some? {
      FindLabelIff(baseDomain, host, FindLabel(baseDomain, host).value);
    }
  }
}
