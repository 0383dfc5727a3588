/** The fixed-window rate limiters of internal/server/tunnel.go: a global window and a
    self-pruning map of windows by source address. Registrations use limits 60 and 10, public
    requests 6000 and 120. */
module RateLimits {
  import opened Common

  datatype Window = Window(start: int, count: int)

  /** Go's zero value: started at the zero time, longer ago than a minute. */
  const ZERO: Window := Window(0, 0)

  const MAX_TRACKED: int := 10000

  function Advance(w: Window, now: int, limit: int): (Window, bool) {
    var current := if now - w.start >= MINUTE then Window(now, 0) else w;
    var counted := current.(count := current.count + 1);
    (counted, counted.count <= limit)
  }

  predicate Stale(w: Window, now: int) {
    now - w.start >= MINUTE
  }

  function Prune(windows: map<string, Window>, now: int): map<string, Window> {
    map ip | ip in windows && !Stale(windows[ip], now) :: windows[ip]
  }

  function Lookup(windows: map<string, Window>, ip: string): Window {
    if ip in windows then windows[ip] else ZERO
  }

  datatype Limits = Limits(total: int, perIP: int)
  datatype Verdict = Accepted | Busy | TooManyFromIP
  datatype Limiter = Limiter(total: Window, byIP: map<string, Window>)

  function MakeRoom(windows: map<string, Window>, now: int): map<string, Window> {
    if |windows| <= MAX_TRACKED then windows else Prune(windows, now)
  }

  function Check(l: Limiter, limits: Limits, now: int, ip: string): (Limiter, Verdict) {
    var (total, ok) := Advance(l.total, now, limits.total);
    if !ok then (Limiter(total, l.byIP), Busy)
    else
      var room := MakeRoom(l.byIP, now);
      if |room| > MAX_TRACKED then (Limiter(total, room), Busy)
      else
        var (w, admitted) := Advance(Lookup(room, ip), now, limits.perIP);
        (Limiter(total, room[ip := w]), if admitted then Accepted else TooManyFromIP)
  }

  // ---------------------------------------------------------- the mutable limiter

  class RateLimiter {
    const limits: Limits
    var total: Window
    var byIP: map<string, Window>

    constructor (limits: Limits)
      ensures this.limits == limits && View() == Limiter(ZERO, map[])
    {
      this.limits := limits;
      total, byIP := ZERO, map[];
    }

    function View(): Limiter
      reads this
    {
      Limiter(total, byIP)
    }

    /** Deletes the stale windows one by one, but only once there are too many. */
    method RateMapHasCapacity(now: int) returns (ok: bool)
      modifies this`byIP
      ensures byIP == MakeRoom(old(byIP), now) && ok == (|byIP| <= MAX_TRACKED)
    {
      if |byIP| <= MAX_TRACKED {
        return true;
      }
      var todo := byIP.Keys;
      while todo != {}
        invariant todo <= byIP.Keys <= old(byIP).Keys
        invariant forall ip :: ip in byIP ==> byIP[ip] == old(byIP)[ip]
        invariant forall ip :: ip in old(byIP) && ip !in todo ==> (ip in byIP <==> !Stale(old(byIP)[ip], now))
        decreases todo
      {
        var ip :| ip in todo;
        if now - byIP[ip].start >= MINUTE {
          byIP := byIP - {ip};
        }
        todo := todo - {ip};
      }
      assert byIP == Prune(old(byIP), now);
      ok := |byIP| <= MAX_TRACKED;
    }

    method Allow(now: int, ip: string) returns (verdict: Verdict)
      modifies this
      ensures (View(), verdict) == Check(old(View()), limits, now, ip)
    {
      var (counted, ok) := Advance(total, now, limits.total);
      total := counted;
      if !ok {
        return Busy;
      }
      var room := RateMapHasCapacity(now);
      if !room {
        return Busy;
      }
      var (w, admitted) := Advance(Lookup(byIP, ip), now, limits.perIP);
      byIP := byIP[ip := w];
      verdict := if admitted then Accepted else TooManyFromIP;
    }
  }

  // ------------------------------------------------------------ counting calls

  /** How many of the times lie in [from, to). */
  function Count(times: seq<int>, from: int, to: int): nat {
    if times == [] then 0
    else Count(times[..|times| - 1], from, to) + (if from <= times[|times| - 1] < to then 1 else 0)
  }

  function PerMinute(times: seq<int>, from: int): nat {
    Count(times, from, from + MINUTE)
  }

  function CountAfter(times: seq<int>, instant: int, to: int): nat {
    Count(times, instant + 1, to)
  }

  lemma {:induction false} CountSplits(times: seq<int>, from: int, mid: int, to: int)
    requires from <= mid <= to
    ensures Count(times, from, to) == Count(times, from, mid) + Count(times, mid, to)
  {
    if times != [] { CountSplits(times[..|times| - 1], from, mid, to); }
  }

  lemma {:induction false} CountShrinks(times: seq<int>, from: int, to: int, a: int, b: int)
    requires from <= a && b <= to
    ensures Count(times, a, b) <= Count(times, from, to)
  {
    if times != [] { CountShrinks(times[..|times| - 1], from, to, a, b); }
  }

  lemma {:induction false} CountNone(times: seq<int>, from: int, to: int)
    requires forall i :: 0 <= i < |times| ==> times[i] < from
    ensures Count(times, from, to) == 0
  {
    if times != [] { CountNone(times[..|times| - 1], from, to); }
  }

  lemma CountAppend(times: seq<int>, now: int, from: int, to: int)
    ensures Count(times + [now], from, to) == Count(times, from, to) + (if from <= now < to then 1 else 0)
  {
    assert (times + [now])[..|times|] == times;
  }

  // ----------------------------------------------- what one window lets through

  /** `log` holds times of calls that the window admitted (perhaps not all of them). */
  ghost predicate WindowOk(w: Window, log: seq<int>, limit: int, clock: int) {
    && w.start <= clock && w.count >= 0
    && (forall i :: 0 <= i < |log| ==> log[i] <= clock && log[i] < w.start + MINUTE)
    && (w.count == 0 ==> w == ZERO && log == [])
    && (forall to :: Count(log, w.start, to) <= Min(w.count, limit))
    && (forall to :: w.count > 0 ==> CountAfter(log, w.start, to) <= Min(w.count, limit) - 1)
    && (forall from :: from > w.start - MINUTE ==> Count(log, from, w.start) <= limit - 1)
    && (forall from :: PerMinute(log, from) <= 2 * limit - 1)
  }

  function Min(a: int, b: int): int {
    if a < b then a else b
  }

  lemma WindowAdvances(w: Window, log: seq<int>, limit: int, clock: int, now: int)
    requires WindowOk(w, log, limit, clock) && clock <= now && MINUTE <= now && limit >= 1
    ensures var (w', ok) := Advance(w, now, limit);
            WindowOk(w', log, limit, now) && (ok ==> WindowOk(w', log + [now], limit, now))
  {
    if Stale(w, now) {
      WindowReopens(w, log, limit, clock, now);
    } else {
      WindowContinues(w, log, limit, clock, now);
    }
  }

  lemma WindowReopens(w: Window, log: seq<int>, limit: int, clock: int, now: int)
    requires WindowOk(w, log, limit, clock) && clock <= now && limit >= 1 && Stale(w, now)
    ensures WindowOk(Window(now, 1), log, limit, now) && WindowOk(Window(now, 1), log + [now], limit, now)
  {
    var longer := log + [now];
    forall from, to | from >= now
      ensures Count(log, from, to) == 0 && Count(longer, from, to) == (if from <= now < to then 1 else 0)
    {
      CountNone(log, from, to);
      CountAppend(log, now, from, to);
    }
    forall from | from > now - MINUTE
      ensures Count(log, from, now) <= limit - 1 && Count(longer, from, now) <= limit - 1
    {
      CountShrinks(log, w.start + 1, now, from, now);
      assert w.count > 0 ==> CountAfter(log, w.start, now) <= limit - 1;
      CountAppend(log, now, from, now);
    }
    forall from
      ensures PerMinute(longer, from) <= 2 * limit - 1
    {
      CountAppend(log, now, from, from + MINUTE);
      assert PerMinute(log, from) <= 2 * limit - 1;
      if from <= now < from + MINUTE { CountSplits(log, from, now, from + MINUTE); }
    }
  }

  lemma WindowContinues(w: Window, log: seq<int>, limit: int, clock: int, now: int)
    requires WindowOk(w, log, limit, clock) && clock <= now && w.count > 0 && !Stale(w, now)
    ensures var next := w.(count := w.count + 1);
            WindowOk(next, log, limit, now) && (next.count <= limit ==> WindowOk(next, log + [now], limit, now))
  {
    var next := w.(count := w.count + 1);
    if next.count <= limit {
      var longer := log + [now];
      forall from, to
        ensures Count(longer, from, to) == Count(log, from, to) + (if from <= now < to then 1 else 0)
      {
        CountAppend(log, now, from, to);
      }
      forall to
        ensures CountAfter(longer, w.start, to) <= w.count
      {
        assert CountAfter(log, w.start, to) <= w.count - 1;
      }
      forall from
        ensures PerMinute(longer, from) <= 2 * limit - 1
      {
        assert PerMinute(log, from) <= 2 * limit - 1;
        if from <= now < from + MINUTE {
          if from <= w.start {
            CountSplits(longer, from, w.start, from + MINUTE);
          } else {
            CountShrinks(longer, w.start, from + MINUTE, from, from + MINUTE);
          }
        }
      }
    }
  }

  // ------------------------------------------------- runs of the whole limiter

  datatype Call = Call(now: int, ip: string)

  /** A sequence of calls has been made: the limiter, the accepted calls, and, as a yardstick, a
      map of windows that is never pruned and sees the same per-address calls. */
  datatype Run = Run(limiter: Limiter, unpruned: map<string, Window>, accepted: seq<Call>)

  /** Whether the call got as far as its own address's window. */
  predicate ReachesAddress(l: Limiter, limits: Limits, call: Call) {
    Advance(l.total, call.now, limits.total).1 && |MakeRoom(l.byIP, call.now)| <= MAX_TRACKED
  }

  function RunStep(run: Run, limits: Limits, call: Call): Run {
    var (next, verdict) := Check(run.limiter, limits, call.now, call.ip);
    Run(next,
        if ReachesAddress(run.limiter, limits, call)
        then run.unpruned[call.ip := Advance(Lookup(run.unpruned, call.ip), call.now, limits.perIP).0]
        else run.unpruned,
        if verdict.Accepted? then run.accepted + [call] else run.accepted)
  }

  function RunCalls(calls: seq<Call>, limits: Limits): Run {
    if calls == [] then Run(Limiter(ZERO, map[]), map[], [])
    else RunStep(RunCalls(calls[..|calls| - 1], limits), limits, calls[|calls| - 1])
  }

  /** Clocks do not run backwards, and are more than a minute past the zero time. */
  ghost predicate Ordered(calls: seq<Call>) {
    && (forall i :: 0 <= i < |calls| ==> calls[i].now >= MINUTE)
    && (forall i, j :: 0 <= i < j < |calls| ==> calls[i].now <= calls[j].now)
  }

  function LastTime(calls: seq<Call>): int {
    if calls == [] then 0 else calls[|calls| - 1].now
  }

  function Times(calls: seq<Call>): seq<int> {
    if calls == [] then [] else Times(calls[..|calls| - 1]) + [calls[|calls| - 1].now]
  }

  function TimesFrom(calls: seq<Call>, ip: string): seq<int> {
    if calls == [] then []
    else TimesFrom(calls[..|calls| - 1], ip) + (if calls[|calls| - 1].ip == ip then [calls[|calls| - 1].now] else [])
  }

  /** The calls that a window has counted in its minute, this one included. */
  function Counted(w: Window, now: int): int {
    if now - w.start >= MINUTE then 1 else w.count + 1
  }

  /** Whether and why a call is refused: too many in all, or too many addresses to keep track of;
      or else too many from its own address. */
  lemma VerdictReasons(l: Limiter, limits: Limits, now: int, ip: string)
    requires limits.total >= 1 && limits.perIP >= 1
    ensures var verdict := Check(l, limits, now, ip).1;
            var recent := set other | other in l.byIP && now - l.byIP[other].start < MINUTE;
            var own := if ip in l.byIP then Counted(l.byIP[ip], now) else Counted(ZERO, now);
            && (verdict.Busy? <==> Counted(l.total, now) > limits.total || (|l.byIP| > 10000 && |recent| > 10000))
            && (verdict.TooManyFromIP? <==> !verdict.Busy? && own > limits.perIP)
            && (verdict.Accepted? <==> !verdict.Busy? && own <= limits.perIP)
  {
    var kept := Prune(l.byIP, now);
    assert kept.Keys == set other | other in l.byIP && now - l.byIP[other].start < MINUTE;
    assert |kept| == |kept.Keys|;
  }

  /** The pruned map is the unpruned one without some stale windows. */
  ghost predicate PrunedOf(windows: map<string, Window>, unpruned: map<string, Window>, now: int) {
    && (forall ip :: ip in windows ==> ip in unpruned && windows[ip] == unpruned[ip])
    && (forall ip :: ip in unpruned && ip !in windows ==> Stale(unpruned[ip], now))
  }

  ghost predicate RunOk(run: Run, limits: Limits, clock: int) {
    && PrunedOf(run.limiter.byIP, run.unpruned, clock)
    && |run.limiter.byIP| <= MAX_TRACKED + 1
    && WindowOk(run.limiter.total, Times(run.accepted), limits.total, clock)
    && (forall ip :: WindowOk(Lookup(run.unpruned, ip), TimesFrom(run.accepted, ip), limits.perIP, clock))
  }

  lemma WindowWaits(w: Window, log: seq<int>, limit: int, clock: int, now: int)
    requires WindowOk(w, log, limit, clock) && clock <= now
    ensures WindowOk(w, log, limit, now)
  {
  }

  /** A stale or missing window decides like a fresh one, so pruning changes no decision. */
  lemma PruningDecidesNothing(windows: map<string, Window>, unpruned: map<string, Window>, clock: int, now: int, ip: string, limit: int)
    requires PrunedOf(windows, unpruned, clock) && clock <= now && MINUTE <= now
    ensures var room := MakeRoom(windows, now);
            PrunedOf(room, unpruned, now)
            && Advance(Lookup(room, ip), now, limit) == Advance(Lookup(unpruned, ip), now, limit)
  {
  }

  lemma TotalStepOk(run: Run, limits: Limits, clock: int, call: Call)
    requires RunOk(run, limits, clock) && clock <= call.now && MINUTE <= call.now && limits.total >= 1
    ensures var next := RunStep(run, limits, call);
            WindowOk(next.limiter.total, Times(next.accepted), limits.total, call.now)
  {
    WindowAdvances(run.limiter.total, Times(run.accepted), limits.total, clock, call.now);
    assert (run.accepted + [call])[..|run.accepted|] == run.accepted;
  }

  lemma VerdictIs(l: Limiter, limits: Limits, call: Call)
    ensures Check(l, limits, call.now, call.ip).1.Accepted? <==>
              ReachesAddress(l, limits, call)
              && Advance(Lookup(MakeRoom(l.byIP, call.now), call.ip), call.now, limits.perIP).1
  {
  }

  lemma AddressStepOk(run: Run, limits: Limits, clock: int, call: Call, ip: string)
    requires RunOk(run, limits, clock) && clock <= call.now && MINUTE <= call.now && limits.perIP >= 1
    ensures var next := RunStep(run, limits, call);
            WindowOk(Lookup(next.unpruned, ip), TimesFrom(next.accepted, ip), limits.perIP, call.now)
  {
    hide WindowOk, Check, MakeRoom, Advance, PrunedOf;
    VerdictIs(run.limiter, limits, call);
    var next, longer := RunStep(run, limits, call), run.accepted + [call];
    assert longer[..|run.accepted|] == run.accepted;
    if ip != call.ip {
      assert TimesFrom(longer, ip) == TimesFrom(run.accepted, ip) + [] == TimesFrom(run.accepted, ip);
      WindowWaits(Lookup(run.unpruned, ip), TimesFrom(run.accepted, ip), limits.perIP, clock, call.now);
    } else if !ReachesAddress(run.limiter, limits, call) {
      WindowWaits(Lookup(run.unpruned, ip), TimesFrom(run.accepted, ip), limits.perIP, clock, call.now);
    } else {
      PruningDecidesNothing(run.limiter.byIP, run.unpruned, clock, call.now, ip, limits.perIP);
      WindowAdvances(Lookup(run.unpruned, ip), TimesFrom(run.accepted, ip), limits.perIP, clock, call.now);
    }
  }

  lemma PrunedStepOk(run: Run, limits: Limits, clock: int, call: Call)
    requires RunOk(run, limits, clock) && clock <= call.now && MINUTE <= call.now
    ensures var next := RunStep(run, limits, call);
            PrunedOf(next.limiter.byIP, next.unpruned, call.now) && |next.limiter.byIP| <= MAX_TRACKED + 1
  {
    PruningDecidesNothing(run.limiter.byIP, run.unpruned, clock, call.now, call.ip, limits.perIP);
    PruneShrinks(run.limiter.byIP, call.now);
  }

  lemma PruneShrinks(windows: map<string, Window>, now: int)
    ensures |Prune(windows, now)| <= |windows|
  {
    var kept := Prune(windows, now).Keys;
    assert windows.Keys == kept + (windows.Keys - kept);
    assert |windows| == |windows.Keys| && |Prune(windows, now)| == |kept|;
  }

  lemma StepOk(run: Run, limits: Limits, clock: int, call: Call)
    requires RunOk(run, limits, clock) && clock <= call.now && MINUTE <= call.now
    requires limits.total >= 1 && limits.perIP >= 1
    ensures RunOk(RunStep(run, limits, call), limits, call.now)
  {
    PrunedStepOk(run, limits, clock, call);
    TotalStepOk(run, limits, clock, call);
    forall ip
      ensures var next := RunStep(run, limits, call);
              WindowOk(Lookup(next.unpruned, ip), TimesFrom(next.accepted, ip), limits.perIP, call.now)
    {
      AddressStepOk(run, limits, clock, call, ip);
    }
  }

  lemma {:induction false} CallsOk(calls: seq<Call>, limits: Limits)
    requires Ordered(calls) && limits.total >= 1 && limits.perIP >= 1
    ensures RunOk(RunCalls(calls, limits), limits, LastTime(calls))
  {
    if calls != [] {
      var before := calls[..|calls| - 1];
      CallsOk(before, limits);
      StepOk(RunCalls(before, limits), limits, LastTime(before), calls[|calls| - 1]);
    }
  }

  /** Whatever the calls, fewer than twice the limit are accepted within any minute, in all and
      from each address, and the map of windows stays small. */
  lemma RateBound(calls: seq<Call>, limits: Limits, from: int, ip: string)
    requires Ordered(calls) && limits.total >= 1 && limits.perIP >= 1
    ensures var run := RunCalls(calls, limits);
            && PerMinute(Times(run.accepted), from) <= 2 * limits.total - 1
            && PerMinute(TimesFrom(run.accepted, ip), from) <= 2 * limits.perIP - 1
            && |run.limiter.byIP| <= MAX_TRACKED + 1
  {
    CallsOk(calls, limits);
  }

  /** Each decision of the pruning limiter that reaches an address's window is the decision of
      the map that is never pruned. */
  lemma PruningIsInvisible(calls: seq<Call>, limits: Limits, call: Call)
    requires Ordered(calls + [call]) && limits.total >= 1 && limits.perIP >= 1
    ensures var run := RunCalls(calls, limits);
            ReachesAddress(run.limiter, limits, call) ==>
              (Check(run.limiter, limits, call.now, call.ip).1.Accepted?
               <==> Advance(Lookup(run.unpruned, call.ip), call.now, limits.perIP).1)
  {
    assert (calls + [call])[|calls|] == call;
    assert forall i :: 0 <= i < |calls| ==> (calls + [call])[i] == calls[i];
    CallsOk(calls, limits);
    var run := RunCalls(calls, limits);
    PruningDecidesNothing(run.limiter.byIP, run.unpruned, LastTime(calls), call.now, call.ip, limits.perIP);
  }

  // ----------------------------------------------------- the bound is attained

  function Burst(n: nat, now: int): seq<Call> {
    if n == 0 then [] else Burst(n - 1, now) + [Call(now, "x")]
  }

  /** All calls came from one address, so its window counts what the global one counts. */
  ghost predicate OneAddress(run: Run, w: Window) {
    run.limiter == Limiter(w, map["x" := w])
  }

  function Least(limits: Limits): int {
    Min(limits.total, limits.perIP)
  }

  lemma RunAppend(calls: seq<Call>, limits: Limits, call: Call)
    ensures RunCalls(calls + [call], limits) == RunStep(RunCalls(calls, limits), limits, call)
  {
    assert (calls + [call])[..|calls|] == calls;
  }

  lemma OneMoreCall(run: Run, limits: Limits, w: Window, now: int)
    requires OneAddress(run, w) && limits.total >= 1 && limits.perIP >= 1
    requires Stale(w, now) || w.count + 1 <= Least(limits)
    ensures var next := RunStep(run, limits, Call(now, "x"));
            && OneAddress(next, if Stale(w, now) then Window(now, 1) else Window(w.start, w.count + 1))
            && next.accepted == run.accepted + [Call(now, "x")]
  {
    assert |run.limiter.byIP| == 1;
    assert MakeRoom(run.limiter.byIP, now) == run.limiter.byIP;
  }

  lemma FirstCall(limits: Limits, now: int)
    requires limits.total >= 1 && limits.perIP >= 1 && now >= MINUTE
    ensures var next := RunCalls([Call(now, "x")], limits);
            OneAddress(next, Window(now, 1)) && next.accepted == [Call(now, "x")]
  {
    RunAppend([], limits, Call(now, "x"));
    assert [] + [Call(now, "x")] == [Call(now, "x")];
  }

  /** A window that has room for n more calls accepts n more calls. */
  lemma {:induction false} BurstFits(calls: seq<Call>, limits: Limits, w: Window, n: nat, now: int)
    requires OneAddress(RunCalls(calls, limits), w) && RunCalls(calls, limits).accepted == calls
    requires limits.total >= 1 && limits.perIP >= 1 && n > 0
    requires if Stale(w, now) then n <= Least(limits) else w.count + n <= Least(limits)
    ensures var run := RunCalls(calls + Burst(n, now), limits);
            && OneAddress(run, if Stale(w, now) then Window(now, n) else Window(w.start, w.count + n))
            && run.accepted == calls + Burst(n, now)
  {
    hide RunStep, Check;
    var call := Call(now, "x");
    var before := calls + Burst(n - 1, now);
    assert calls + Burst(n, now) == before + [call];
    if n == 1 {
      assert before == calls;
      OneMoreCall(RunCalls(calls, limits), limits, w, now);
    } else {
      BurstFits(calls, limits, w, n - 1, now);
      OneMoreCall(RunCalls(before, limits), limits,
                  if Stale(w, now) then Window(now, n - 1) else Window(w.start, w.count + n - 1), now);
    }
    RunAppend(before, limits, call);
  }

  lemma TimesAppend(calls: seq<Call>, call: Call)
    ensures Times(calls + [call]) == Times(calls) + [call.now]
  {
    assert (calls + [call])[..|calls|] == calls;
  }

  lemma {:induction false} CountSame(calls: seq<Call>, more: seq<Call>, now: int, from: int)
    requires forall i :: 0 <= i < |more| ==> more[i].now == now
    ensures PerMinute(Times(calls + more), from)
         == PerMinute(Times(calls), from) + (if from <= now < from + MINUTE then |more| else 0)
  {
    hide Times, Count;
    if more == [] {
      assert calls + more == calls;
    } else {
      var before, last := more[..|more| - 1], more[|more| - 1];
      CountSame(calls, before, now, from);
      assert calls + more == (calls + before) + [last];
      TimesAppend(calls + before, last);
      CountAppend(Times(calls + before), now, from, from + MINUTE);
    }
  }

  lemma {:induction false} BurstTimes(n: nat, now: int)
    ensures |Burst(n, now)| == n && forall i :: 0 <= i < n ==> Burst(n, now)[i] == Call(now, "x")
  {
    if n > 0 { BurstTimes(n - 1, now); }
  }

  /** One call opens a window, the rest of its limit comes at its very end, a full limit follows. */
  function WorstCase(limit: int): seq<Call>
    requires limit > 1
  {
    [Call(MINUTE, "x")] + Burst(limit - 1, 2 * MINUTE - 1) + Burst(limit, 2 * MINUTE)
  }

  lemma {:induction false} AllFromX(calls: seq<Call>)
    requires forall i :: 0 <= i < |calls| ==> calls[i].ip == "x"
    ensures TimesFrom(calls, "x") == Times(calls)
  {
    if calls != [] { AllFromX(calls[..|calls| - 1]); }
  }

  /** The smaller one of the two bounds of RateBound is attained: from one address if its limit
      is the smaller one, as it is in the server, and in all otherwise. */
  lemma RateBoundIsTight(limits: Limits)
    requires limits.total > 1 && limits.perIP > 1
    ensures var calls := WorstCase(Least(limits));
            var run := RunCalls(calls, limits);
            && Ordered(calls)
            && PerMinute(TimesFrom(run.accepted, "x"), 2 * MINUTE - 1) == 2 * Least(limits) - 1
            && PerMinute(Times(run.accepted), 2 * MINUTE - 1) == 2 * Least(limits) - 1
  {
    hide RunStep, RunCalls, PerMinute, Times, TimesFrom;
    var n, end := Least(limits), 2 * MINUTE - 1;
    var a := [Call(MINUTE, "x")];
    var b := a + Burst(n - 1, end);
    FirstCall(limits, MINUTE);
    BurstFits(a, limits, Window(MINUTE, 1), n - 1, end);
    BurstFits(b, limits, Window(MINUTE, n), n, 2 * MINUTE);
    BurstTimes(n - 1, end);
    BurstTimes(n, 2 * MINUTE);
    OpenerOnly(a, end);
    CountSame(a, Burst(n - 1, end), end, end);
    CountSame(b, Burst(n, 2 * MINUTE), 2 * MINUTE, end);
    AllFromX(WorstCase(n));
  }

  // ------------------------------------------- the bound in all, from many addresses

  function Address(a: nat): (ip: string)
    ensures |ip| == a
  {
    seq(a, _ => 'x')
  }

  /** How many addresses have been used up before the current one, and how often that was used. */
  datatype Spot = Spot(address: nat, used: nat)

  function NextSpot(spot: Spot, perIP: nat): Spot {
    if spot.used == perIP then Spot(spot.address + 1, 1) else Spot(spot.address, spot.used + 1)
  }

  function SpotAfter(n: nat, perIP: nat): (spot: Spot)
    requires perIP >= 1
    ensures spot.used <= perIP && (n > 0 ==> spot.used >= 1)
  {
    if n == 0 then Spot(0, 0) else NextSpot(SpotAfter(n - 1, perIP), perIP)
  }

  /** The calls that some addresses make which are used as often as they may. */
  function FullCalls(addresses: nat, perIP: nat): nat {
    addresses * perIP
  }

  lemma NoneFull(perIP: nat)
    ensures FullCalls(0, perIP) == 0
  {
  }

  lemma OneMoreAddress(addresses: nat, perIP: nat)
    ensures FullCalls(addresses + 1, perIP) == FullCalls(addresses, perIP) + perIP
  {
  }

  lemma NextSpotCounts(spot: Spot, perIP: nat)
    requires spot.used <= perIP
    ensures var next := NextSpot(spot, perIP);
            FullCalls(next.address, perIP) + next.used == FullCalls(spot.address, perIP) + spot.used + 1
  {
    hide FullCalls;
    OneMoreAddress(spot.address, perIP);
  }

  lemma {:induction false} SpotCounts(n: nat, perIP: nat)
    requires perIP >= 1
    ensures FullCalls(SpotAfter(n, perIP).address, perIP) + SpotAfter(n, perIP).used == n
  {
    hide FullCalls, NextSpot;
    if n == 0 {
      NoneFull(perIP);
    } else {
      SpotCounts(n - 1, perIP);
      NextSpotCounts(SpotAfter(n - 1, perIP), perIP);
    }
  }

  /** Calls that use every address as often as it is allowed to; `done` calls came before. */
  function Spread(done: nat, n: nat, now: int, perIP: nat): (calls: seq<Call>)
    requires perIP >= 1
    ensures |calls| == n && forall i :: 0 <= i < n ==> calls[i].now == now
  {
    if n == 0 then [] else Spread(done, n - 1, now, perIP) + [Call(now, Address(SpotAfter(done + n, perIP).address))]
  }

  /** After n such calls: no address has been used more often than it was called from. */
  ghost predicate SpreadOk(byIP: map<string, Window>, n: nat, perIP: nat)
    requires perIP >= 1
  {
    var spot := SpotAfter(n, perIP);
    && |byIP| <= spot.address + 1
    && (n == 0 ==> byIP == map[])
    && (n > 0 ==> Address(spot.address) in byIP && byIP[Address(spot.address)].count <= spot.used)
    && (forall ip :: ip in byIP ==> |ip| <= spot.address)
  }

  lemma SpreadInsert(byIP: map<string, Window>, n: nat, perIP: nat, now: int)
    requires perIP >= 1 && now >= MINUTE && SpreadOk(byIP, n, perIP)
    ensures var ip := Address(SpotAfter(n + 1, perIP).address);
            var (w, ok) := Advance(Lookup(byIP, ip), now, perIP);
            ok && SpreadOk(byIP[ip := w], n + 1, perIP)
  {
    var ip := Address(SpotAfter(n + 1, perIP).address);
    var w := Advance(Lookup(byIP, ip), now, perIP).0;
    assert byIP[ip := w].Keys == byIP.Keys + {ip};
    assert |byIP| == |byIP.Keys| && |byIP[ip := w]| == |byIP[ip := w].Keys|;
  }

  lemma SpreadCall(run: Run, limits: Limits, n: nat, now: int)
    requires limits.total >= 1 && limits.perIP >= 1 && now >= MINUTE
    requires SpreadOk(run.limiter.byIP, n, limits.perIP) && SpotAfter(n, limits.perIP).address < MAX_TRACKED
    requires Stale(run.limiter.total, now) || run.limiter.total.count + 1 <= limits.total
    ensures var call := Call(now, Address(SpotAfter(n + 1, limits.perIP).address));
            var next := RunStep(run, limits, call);
            && next.accepted == run.accepted + [call]
            && next.limiter.total == Advance(run.limiter.total, now, limits.total).0
            && SpreadOk(next.limiter.byIP, n + 1, limits.perIP)
  {
    SmallMap(run.limiter.byIP, n, limits.perIP, now);
    hide SpreadOk, SpotAfter, MakeRoom;
    SpreadInsert(run.limiter.byIP, n, limits.perIP, now);
  }

  lemma SmallMap(byIP: map<string, Window>, n: nat, perIP: nat, now: int)
    requires perIP >= 1 && SpreadOk(byIP, n, perIP) && SpotAfter(n, perIP).address < MAX_TRACKED
    ensures MakeRoom(byIP, now) == byIP && |byIP| <= MAX_TRACKED
  {
  }

  /** Calls up to the n-th do not fill the map of windows. */
  predicate FitInMap(n: nat, perIP: nat) {
    n <= perIP * MAX_TRACKED
  }

  lemma SpotBelow(n: nat, perIP: nat)
    requires perIP >= 1 && FitInMap(n + 1, perIP)
    ensures SpotAfter(n, perIP).address < MAX_TRACKED
  {
    hide FullCalls;
    SpotCounts(n, perIP);
    FullCallsGrow(SpotAfter(n, perIP).address, perIP);
  }

  lemma FullCallsGrow(addresses: nat, perIP: nat)
    ensures addresses >= MAX_TRACKED ==> FullCalls(addresses, perIP) >= perIP * MAX_TRACKED
  {
  }

  lemma FewerFit(m: nat, n: nat, perIP: nat)
    requires m <= n && FitInMap(n, perIP)
    ensures FitInMap(m, perIP)
  {
  }

  /** The calls were spread over addresses and all accepted; the global window is the given one. */
  ghost predicate SpreadSoFar(calls: seq<Call>, limits: Limits, w: Window)
    requires limits.perIP >= 1
  {
    var run := RunCalls(calls, limits);
    run.accepted == calls && run.limiter.total == w && SpreadOk(run.limiter.byIP, |calls|, limits.perIP)
  }

  lemma SpreadOneMore(calls: seq<Call>, limits: Limits, w: Window, now: int)
    requires limits.total >= 1 && limits.perIP >= 1 && now >= MINUTE && SpreadSoFar(calls, limits, w)
    requires FitInMap(|calls| + 1, limits.perIP) && (Stale(w, now) || w.count + 1 <= limits.total)
    ensures var call := Call(now, Address(SpotAfter(|calls| + 1, limits.perIP).address));
            SpreadSoFar(calls + [call], limits, if Stale(w, now) then Window(now, 1) else Window(w.start, w.count + 1))
  {
    hide RunStep, SpreadOk, FitInMap, SpotAfter, RunCalls;
    SpotBelow(|calls|, limits.perIP);
    SpreadCall(RunCalls(calls, limits), limits, |calls|, now);
    RunAppend(calls, limits, Call(now, Address(SpotAfter(|calls| + 1, limits.perIP).address)));
  }

  /** A global window that has room for n more calls accepts n more calls spread over addresses. */
  lemma {:induction false} SpreadFits(calls: seq<Call>, limits: Limits, w: Window, n: nat, now: int)
    requires limits.total >= 1 && limits.perIP >= 1 && now >= MINUTE && SpreadSoFar(calls, limits, w)
    requires FitInMap(|calls| + n, limits.perIP) && n > 0
    requires if Stale(w, now) then n <= limits.total else w.count + n <= limits.total
    ensures SpreadSoFar(calls + Spread(|calls|, n, now, limits.perIP), limits,
                        if Stale(w, now) then Window(now, n) else Window(w.start, w.count + n))
  {
    hide SpreadSoFar, FitInMap, SpotAfter;
    var before := calls + Spread(|calls|, n - 1, now, limits.perIP);
    var call := Call(now, Address(SpotAfter(|before| + 1, limits.perIP).address));
    assert calls + Spread(|calls|, n, now, limits.perIP) == before + [call];
    if n == 1 {
      assert before == calls;
      SpreadOneMore(calls, limits, w, now);
    } else {
      FewerFit(|calls| + (n - 1), |calls| + n, limits.perIP);
      SpreadFits(calls, limits, w, n - 1, now);
      SpreadOneMore(before, limits, if Stale(w, now) then Window(now, n - 1) else Window(w.start, w.count + n - 1), now);
    }
  }

  /** The bound for all addresses together is attained, too, whatever the limit of each address,
      if that many calls fit into the map of windows. */
  lemma TotalBoundIsTight(limits: Limits) returns (calls: seq<Call>)
    requires limits.total > 1 && limits.perIP >= 1 && 2 * limits.total <= limits.perIP * MAX_TRACKED
    ensures Ordered(calls)
    ensures PerMinute(Times(RunCalls(calls, limits).accepted), 2 * MINUTE - 1) == 2 * limits.total - 1
  {
    hide RunCalls, PerMinute, Times, SpreadOk, FitInMap, SpotAfter, Spread;
    var n, end, perIP := limits.total, 2 * MINUTE - 1, limits.perIP;
    AllFit(limits);
    SpreadStarts(limits);
    var a := [] + Spread(0, 1, MINUTE, perIP);
    SpreadFits([], limits, ZERO, 1, MINUTE);
    var b := a + Spread(1, n - 1, end, perIP);
    SpreadFits(a, limits, Window(MINUTE, 1), n - 1, end);
    calls := b + Spread(n, n, 2 * MINUTE, perIP);
    SpreadFits(b, limits, Window(MINUTE, n), n, 2 * MINUTE);
    OpenerOnly(a, end);
    CountSame(a, Spread(1, n - 1, end, perIP), end, end);
    CountSame(b, Spread(n, n, 2 * MINUTE, perIP), 2 * MINUTE, end);
  }

  lemma AllFit(limits: Limits)
    requires limits.total > 1 && limits.perIP >= 1 && 2 * limits.total <= limits.perIP * MAX_TRACKED
    ensures FitInMap(1, limits.perIP) && FitInMap(limits.total, limits.perIP) && FitInMap(2 * limits.total, limits.perIP)
  {
  }

  lemma SpreadStarts(limits: Limits)
    requires limits.perIP >= 1
    ensures SpreadSoFar([], limits, ZERO)
  {
  }

  lemma OpenerOnly(a: seq<Call>, end: int)
    requires |a| == 1 && a[0].now == MINUTE && end == 2 * MINUTE - 1
    ensures PerMinute(Times(a), end) == 0
  {
    CountSame([], a, MINUTE, end);
    assert [] + a == a;
  }

  // -------------------------------------------------- calls that are all accepted

  const REGISTRATION_LIMITS: Limits := Limits(60, 10)

  /** The limiter of registrations, when it starts out empty, accepts all of the calls. */
  ghost predicate WithinRates(calls: seq<Call>) {
    Ordered(calls) && RunCalls(calls, REGISTRATION_LIMITS).accepted == calls
  }

  /** At registration, a minute may see 119 calls accepted, 19 of them from one address. */
  lemma RegistrationRatesAreTight() returns (many: seq<Call>, same: seq<Call>)
    ensures Ordered(many) && PerMinute(Times(RunCalls(many, REGISTRATION_LIMITS).accepted), 2 * MINUTE - 1) == 119
    ensures Ordered(same) && PerMinute(TimesFrom(RunCalls(same, REGISTRATION_LIMITS).accepted, "x"), 2 * MINUTE - 1) == 19
  {
    hide RunCalls, PerMinute, Times, TimesFrom;
    many := TotalBoundIsTight(REGISTRATION_LIMITS);
    same := WorstCase(Least(REGISTRATION_LIMITS));
    RateBoundIsTight(REGISTRATION_LIMITS);
  }

  lemma AcceptedExtends(calls: seq<Call>, call: Call)
    requires WithinRates(calls) && LastTime(calls) <= call.now && call.now >= MINUTE
    requires Check(RunCalls(calls, REGISTRATION_LIMITS).limiter, REGISTRATION_LIMITS, call.now, call.ip).1.Accepted?
    ensures WithinRates(calls + [call])
  {
    hide Check;
    RunAppend(calls, REGISTRATION_LIMITS, call);
  }

  ghost predicate FewSoFar(l: Limiter, n: nat) {
    && l.total.count <= n && |l.byIP| <= n
    && forall ip :: ip in l.byIP ==> l.byIP[ip].count <= n
  }

  lemma FewStep(l: Limiter, n: nat, now: int, ip: string)
    requires FewSoFar(l, n) && n < 10 && now >= MINUTE
    ensures var (next, verdict) := Check(l, REGISTRATION_LIMITS, now, ip); verdict.Accepted? && FewSoFar(next, n + 1)
  {
    var w := Advance(Lookup(l.byIP, ip), now, 10).0;
    assert l.byIP[ip := w].Keys == l.byIP.Keys + {ip};
    assert |l.byIP| == |l.byIP.Keys| && |l.byIP[ip := w]| == |l.byIP[ip := w].Keys|;
  }

  /** As many calls as one address may make are never refused, whenever they come. */
  lemma {:induction false} FewCalls(calls: seq<Call>)
    requires Ordered(calls) && |calls| <= 10
    ensures WithinRates(calls) && FewSoFar(RunCalls(calls, REGISTRATION_LIMITS).limiter, |calls|)
  {
    if calls != [] {
      hide Check, FewSoFar;
      var before, call := calls[..|calls| - 1], calls[|calls| - 1];
      assert calls == before + [call];
      FewCalls(before);
      FewStep(RunCalls(before, REGISTRATION_LIMITS).limiter, |before|, call.now, call.ip);
      AcceptedExtends(before, call);
    } else {
      assert FewSoFar(Limiter(ZERO, map[]), 0);
    }
  }

  /** Nothing counts any more, except for the given address. */
  ghost predicate StaleBut(l: Limiter, now: int, ip: string) {
    forall other :: other in l.byIP && other != ip ==> Stale(l.byIP[other], now)
  }

  lemma StaleAfterMinute(calls: seq<Call>, now: int, ip: string)
    requires Ordered(calls) && LastTime(calls) + MINUTE <= now
    ensures var l := RunCalls(calls, REGISTRATION_LIMITS).limiter;
            Stale(l.total, now) && StaleBut(l, now, ip) && (ip in l.byIP ==> Stale(l.byIP[ip], now))
  {
    CallsOk(calls, REGISTRATION_LIMITS);
    var run := RunCalls(calls, REGISTRATION_LIMITS);
    forall other | other in run.limiter.byIP
      ensures Stale(run.limiter.byIP[other], now)
    {
      assert WindowOk(Lookup(run.unpruned, other), TimesFrom(run.accepted, other), 10, LastTime(calls));
    }
  }

  lemma RoomWhenStale(l: Limiter, now: int, ip: string)
    requires StaleBut(l, now, ip)
    ensures |MakeRoom(l.byIP, now)| <= MAX_TRACKED
  {
    var kept := Prune(l.byIP, now);
    assert kept.Keys <= {ip};
    assert |kept| == |kept.Keys| <= 1 by { if ip in kept.Keys { assert kept.Keys == {ip}; } else { assert kept.Keys == {}; } }
  }

  /** A minute after the last call, a call is accepted, and so is one more right after it. */
  lemma CallAfterMinute(l: Limiter, now: int, ip: string)
    requires Stale(l.total, now) && StaleBut(l, now, ip) && (ip in l.byIP ==> Stale(l.byIP[ip], now)) && now >= MINUTE
    ensures var (next, verdict) := Check(l, REGISTRATION_LIMITS, now, ip);
            && verdict.Accepted? && next.total == Window(now, 1)
            && StaleBut(next, now, ip) && ip in next.byIP && next.byIP[ip] == Window(now, 1)
  {
    RoomWhenStale(l, now, ip);
  }

  lemma CallRightAfter(l: Limiter, now: int, ip: string, second: string)
    requires l.total == Window(now, 1) && StaleBut(l, now, ip) && now >= MINUTE
    requires ip in l.byIP && l.byIP[ip] == Window(now, 1)
    ensures Check(l, REGISTRATION_LIMITS, now, second).1.Accepted?
  {
    RoomWhenStale(l, now, ip);
  }

  lemma SpacedCall(calls: seq<Call>, now: int, ip: string)
    requires WithinRates(calls) && LastTime(calls) + MINUTE <= now
    ensures WithinRates(calls + [Call(now, ip)])
  {
    LastTimeOrdered(calls);
    StaleAfterMinute(calls, now, ip);
    CallAfterMinute(RunCalls(calls, REGISTRATION_LIMITS).limiter, now, ip);
    AcceptedExtends(calls, Call(now, ip));
  }

  lemma SpacedPair(calls: seq<Call>, now: int, first: string, second: string)
    requires WithinRates(calls) && LastTime(calls) + MINUTE <= now
    ensures WithinRates(calls + [Call(now, first)] + [Call(now, second)])
  {
    hide Check;
    LastTimeOrdered(calls);
    StaleAfterMinute(calls, now, first);
    CallAfterMinute(RunCalls(calls, REGISTRATION_LIMITS).limiter, now, first);
    AcceptedExtends(calls, Call(now, first));
    RunAppend(calls, REGISTRATION_LIMITS, Call(now, first));
    CallRightAfter(RunCalls(calls + [Call(now, first)], REGISTRATION_LIMITS).limiter, now, first, second);
    AcceptedExtends(calls + [Call(now, first)], Call(now, second));
  }

  lemma LastTimeOrdered(calls: seq<Call>)
    requires Ordered(calls)
    ensures LastTime(calls) >= 0 && forall i :: 0 <= i < |calls| ==> calls[i].now <= LastTime(calls)
  {
  }

  // ------------------------------------------------- every call counts

  lemma {:induction false} TimesBefore(calls: seq<Call>, from: int, to: int)
    requires forall i :: 0 <= i < |calls| ==> calls[i].now < from
    ensures Count(Times(calls), from, to) == 0
  {
    if calls != [] {
      TimesBefore(calls[..|calls| - 1], from, to);
      CountAppend(Times(calls[..|calls| - 1]), calls[|calls| - 1].now, from, to);
    }
  }

  lemma GlobalWindowMoves(l: Limiter, limits: Limits, now: int, ip: string)
    ensures Check(l, limits, now, ip).0.total == if now - l.total.start >= MINUTE then Window(now, 1) else Window(l.total.start, l.total.count + 1)
  {
  }

  /** The global window has counted every call since it opened, less than a minute before the last
      one, the refused ones too: whoever keeps calling keeps the server busy for the rest of it. */
  lemma {:induction false} EveryCallCounts(calls: seq<Call>, limits: Limits)
    requires Ordered(calls) && calls != []
    ensures var w := RunCalls(calls, limits).limiter.total;
            && LastTime(calls) - MINUTE < w.start <= LastTime(calls)
            && w.count == Count(Times(calls), w.start, LastTime(calls) + 1)
  {
    hide Check;
    var before, call := calls[..|calls| - 1], calls[|calls| - 1];
    var run := RunCalls(before, limits);
    var w, next := run.limiter.total, RunCalls(calls, limits).limiter.total;
    GlobalWindowMoves(run.limiter, limits, call.now, call.ip);
    CountAppend(Times(before), call.now, next.start, call.now + 1);
    if before != [] {
      EveryCallCounts(before, limits);
      assert LastTime(before) == calls[|calls| - 2].now;
      if next.start == w.start {
        CountSplits(Times(before), w.start, LastTime(before) + 1, call.now + 1);
        TimesBefore(before, LastTime(before) + 1, call.now + 1);
      } else {
        TimesBefore(before, call.now, call.now + 1);
      }
    }
  }
}
