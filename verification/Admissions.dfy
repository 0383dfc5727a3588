/** What the manager's checks come to: for which registrations each refusal is the answer, and how
    many registrations get past all of them within a minute. */
module Admissions {
  import opened Common
  import opened Sessions
  import opened Auth
  import opened Registry
  import Manager
  import RateLimits

  // ------------------------------------------------------------ reasons

  /** Pause, rate and capacity, each with the exact condition under which it is the answer. */
  lemma AdmissionReasons(paused: bool, verdict: RateLimits.Verdict, ips: map<string, string>, cfg: Manager.Config,
                         isNew: bool, ip: string)
    ensures var refusal := Manager.Admission(paused, verdict, ips, cfg, isNew, ip);
            var active := |set id | id in ips && ips[id] == ip|;
            var counted := isNew && !paused && verdict.Accepted?;
            && (refusal == Some(Paused) <==> isNew && paused)
            && (refusal == Some(Busy) <==> !(isNew && paused) && verdict.Busy?)
            && (refusal == Some(RateLimited) <==> !(isNew && paused) && verdict.TooManyFromIP?)
            && (refusal == Some(AtCapacity) <==> counted && |ips| >= cfg.maxTunnels)
            && (refusal == Some(TooManyActive) <==> counted && |ips| < cfg.maxTunnels && active >= cfg.maxPerIP)
            && (refusal.None? <==>
                 !(isNew && paused) && verdict.Accepted? && (isNew ==> |ips| < cfg.maxTunnels && active < cfg.maxPerIP))
  {
    assert SessionsFrom(ips, ip) == set id | id in ips && ips[id] == ip;
  }

  /** Some stored session, hosted or not, has the name. */
  predicate InUse(rows: Table, name: string) {
    exists id :: id in rows && rows[id].subdomain == name
  }

  lemma InUseIff(rows: Table, name: string)
    ensures InUse(rows, name) <==> SubdomainExists(rows, name)
  {
  }

  /** What is admitted is refused for its own content, or because all names drawn are in use. */
  lemma RefusalReasons(paused: bool, verdict: RateLimits.Verdict, ips: map<string, string>, rows: Table, cfg: Manager.Config,
                       reg: Registration, ip: string, now: int, names: nat -> string)
    ensures var refusal := Manager.FirstRefusal(paused, verdict, ips, rows, cfg, reg, ip, now, names);
            var admission := Manager.Admission(paused, verdict, ips, cfg, reg.sessionID == "", ip);
            var invalid := ValidateRegistration(rows, now, cfg.lifetime, reg);
            var allUsed := forall k :: 0 <= k < 5 ==> InUse(rows, names(k));
            && (admission.Some? ==> refusal == admission)
            && (admission.None? && invalid.Some? ==> refusal == invalid)
            && (refusal == Some(NoFreeName) <==> admission.None? && invalid.None? && reg.sessionID == "" && allUsed)
            && (refusal.None? <==> admission.None? && invalid.None? && (reg.sessionID == "" ==> !allUsed))
  {
    hide ValidateRegistration, Manager.Admission, Manager.FreeName, InUse, SubdomainExists;
    forall k: nat ensures InUse(rows, names(k)) <==> SubdomainExists(rows, names(k)) {
      InUseIff(rows, names(k));
    }
    Manager.FreeNameIsFirst(rows, names, 0);
    AdmissionNamesNothing(paused, verdict, ips, cfg, reg.sessionID == "", ip);
    ValidationNamesNothing(rows, now, cfg.lifetime, reg);
  }

  lemma AdmissionNamesNothing(paused: bool, verdict: RateLimits.Verdict, ips: map<string, string>, cfg: Manager.Config,
                              isNew: bool, ip: string)
    ensures Manager.Admission(paused, verdict, ips, cfg, isNew, ip) != Some(NoFreeName)
  {
  }

  lemma ValidationNamesNothing(rows: Table, now: int, lifetime: int, reg: Registration)
    ensures ValidateRegistration(rows, now, lifetime, reg) != Some(NoFreeName)
  {
  }

  // -------------------------------------------------- registrations in a minute

  /** One call of Register, with all that it finds: of the server's state only the limiter is
      carried on from call to call, the rest may have changed in any way. */
  datatype Attempt = Attempt(
    at: int, ip: string, reg: Registration, validated: int, names: nat -> string,
    paused: bool, ips: map<string, string>, rows: Table)

  datatype Tally = Tally(limiter: RateLimits.Limiter, made: seq<RateLimits.Call>, accepted: seq<RateLimits.Call>)

  predicate SkipsLimiter(a: Attempt) {
    a.paused && a.reg.sessionID == ""
  }

  /** The limiter's calls, and the calls that Register accepts, as its contract has it. */
  function Attempts(attempts: seq<Attempt>, cfg: Manager.Config): Tally {
    if attempts == [] then Tally(RateLimits.Limiter(RateLimits.ZERO, map[]), [], [])
    else AttemptStep(Attempts(attempts[..|attempts| - 1], cfg), attempts[|attempts| - 1], cfg)
  }

  function AttemptStep(before: Tally, a: Attempt, cfg: Manager.Config): Tally {
    var (limiter, verdict) := RateLimits.Check(before.limiter, RateLimits.REGISTRATION_LIMITS, a.at, a.ip);
    var refusal := Manager.FirstRefusal(a.paused, verdict, a.ips, a.rows, cfg, a.reg, a.ip, a.validated, a.names);
    var call := RateLimits.Call(a.at, a.ip);
    Tally(if SkipsLimiter(a) then before.limiter else limiter,
          if SkipsLimiter(a) then before.made else before.made + [call],
          if refusal.None? then before.accepted + [call] else before.accepted)
  }

  /** Registrations come in the order of the clock, which is past the first minute. */
  ghost predicate InOrder(attempts: seq<Attempt>) {
    && (forall i :: 0 <= i < |attempts| ==> attempts[i].at >= MINUTE)
    && (forall i, j :: 0 <= i < j < |attempts| ==> attempts[i].at <= attempts[j].at)
  }

  /** Fewer accepted by Register than by its limiter, in any span of time and from any address. */
  ghost predicate FewerThan(accepted: seq<RateLimits.Call>, all: seq<RateLimits.Call>) {
    && (forall from, to :: RateLimits.Count(RateLimits.Times(accepted), from, to) <= RateLimits.Count(RateLimits.Times(all), from, to))
    && (forall ip, from, to :: RateLimits.Count(RateLimits.TimesFrom(accepted, ip), from, to)
                               <= RateLimits.Count(RateLimits.TimesFrom(all, ip), from, to))
  }

  lemma BothGrow(accepted: seq<RateLimits.Call>, all: seq<RateLimits.Call>, call: RateLimits.Call)
    requires FewerThan(accepted, all)
    ensures FewerThan(accepted, all + [call]) && FewerThan(accepted + [call], all + [call])
  {
    forall from, to
      ensures RateLimits.Count(RateLimits.Times(all + [call]), from, to)
           == RateLimits.Count(RateLimits.Times(all), from, to) + (if from <= call.now < to then 1 else 0)
      ensures RateLimits.Count(RateLimits.Times(accepted + [call]), from, to)
           == RateLimits.Count(RateLimits.Times(accepted), from, to) + (if from <= call.now < to then 1 else 0)
    {
      OneMoreTime(all, call, from, to);
      OneMoreTime(accepted, call, from, to);
    }
    forall ip, from, to
      ensures RateLimits.Count(RateLimits.TimesFrom(all + [call], ip), from, to)
           == RateLimits.Count(RateLimits.TimesFrom(all, ip), from, to) + (if call.ip == ip && from <= call.now < to then 1 else 0)
      ensures RateLimits.Count(RateLimits.TimesFrom(accepted + [call], ip), from, to)
           == RateLimits.Count(RateLimits.TimesFrom(accepted, ip), from, to) + (if call.ip == ip && from <= call.now < to then 1 else 0)
    {
      OneMoreFrom(all, call, ip, from, to);
      OneMoreFrom(accepted, call, ip, from, to);
    }
  }

  lemma OneMoreTime(calls: seq<RateLimits.Call>, call: RateLimits.Call, from: int, to: int)
    ensures RateLimits.Count(RateLimits.Times(calls + [call]), from, to)
         == RateLimits.Count(RateLimits.Times(calls), from, to) + (if from <= call.now < to then 1 else 0)
  {
    RateLimits.TimesAppend(calls, call);
    RateLimits.CountAppend(RateLimits.Times(calls), call.now, from, to);
  }

  lemma OneMoreFrom(calls: seq<RateLimits.Call>, call: RateLimits.Call, ip: string, from: int, to: int)
    ensures RateLimits.Count(RateLimits.TimesFrom(calls + [call], ip), from, to)
         == RateLimits.Count(RateLimits.TimesFrom(calls, ip), from, to) + (if call.ip == ip && from <= call.now < to then 1 else 0)
  {
    assert (calls + [call])[..|calls|] == calls;
    RateLimits.CountAppend(RateLimits.TimesFrom(calls, ip), call.now, from, to);
    assert RateLimits.TimesFrom(calls, ip) + [] == RateLimits.TimesFrom(calls, ip);
  }

  /** Register accepts nothing that its limiter, run on the same calls, refuses. */
  lemma {:induction false} AcceptedAreWithin(attempts: seq<Attempt>, cfg: Manager.Config)
    ensures var tally := Attempts(attempts, cfg);
            var run := RateLimits.RunCalls(tally.made, RateLimits.REGISTRATION_LIMITS);
            tally.limiter == run.limiter && FewerThan(tally.accepted, run.accepted)
  {
    if attempts != [] {
      hide Manager.FirstRefusal, RateLimits.Check, FewerThan;
      var before, a := attempts[..|attempts| - 1], attempts[|attempts| - 1];
      AcceptedAreWithin(before, cfg);
      var tally := Attempts(before, cfg);
      var call := RateLimits.Call(a.at, a.ip);
      RateLimits.RunAppend(tally.made, RateLimits.REGISTRATION_LIMITS, call);
      var run := RateLimits.RunCalls(tally.made, RateLimits.REGISTRATION_LIMITS);
      BothGrow(tally.accepted, run.accepted, call);
      OnlyAccepted(a.paused, RateLimits.Check(tally.limiter, RateLimits.REGISTRATION_LIMITS, a.at, a.ip).1, a, cfg);
    }
  }

  lemma OnlyAccepted(paused: bool, verdict: RateLimits.Verdict, a: Attempt, cfg: Manager.Config)
    ensures Manager.FirstRefusal(paused, verdict, a.ips, a.rows, cfg, a.reg, a.ip, a.validated, a.names).None? ==>
              verdict.Accepted? && !(paused && a.reg.sessionID == "")
  {
    hide ValidateRegistration, Manager.FreeName, CheckCapacity;
  }

  lemma {:induction false} MadeInOrder(attempts: seq<Attempt>, cfg: Manager.Config)
    requires InOrder(attempts)
    ensures RateLimits.Ordered(Attempts(attempts, cfg).made)
    ensures forall i :: 0 <= i < |Attempts(attempts, cfg).made| ==>
              attempts != [] && Attempts(attempts, cfg).made[i].now <= attempts[|attempts| - 1].at
  {
    if attempts != [] {
      hide Manager.FirstRefusal, RateLimits.Check;
      MadeInOrder(attempts[..|attempts| - 1], cfg);
    }
  }

  /** Within any minute the server accepts fewer than 120 registrations in all and fewer than 20 from
      each address, whatever else is going on. */
  lemma RegistrationsWithinRate(attempts: seq<Attempt>, cfg: Manager.Config, from: int, ip: string)
    requires InOrder(attempts)
    ensures var accepted := Attempts(attempts, cfg).accepted;
            && RateLimits.PerMinute(RateLimits.Times(accepted), from) < 120
            && RateLimits.PerMinute(RateLimits.TimesFrom(accepted, ip), from) < 20
  {
    MadeInOrder(attempts, cfg);
    AcceptedAreWithin(attempts, cfg);
    RateLimits.RateBound(Attempts(attempts, cfg).made, RateLimits.REGISTRATION_LIMITS, from, ip);
  }
}
