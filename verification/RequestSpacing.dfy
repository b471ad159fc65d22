/** Request spacing across processes: the rate limiter, the single-slot lease, and the discipline of
    waiting before each request and cooling down before release. */
module RequestSpacing {
  import opened Wrappers

  type Process = nat

  /** A clock that never goes back. Every reading and every sleep may take longer than asked, except on
      an exact clock, which shows the earliest that can happen. */
  class Clock {
    const exact: bool
    var now: real

    constructor (now: real, exact: bool)
      ensures this.now == now && this.exact == exact
    {
      this.now, this.exact := now, exact;
    }

    method Read() returns (t: real)
      modifies this
      ensures t == now >= old(now)
      ensures exact ==> now == old(now)
    {
      if !exact {
        assert 0.0 >= 0.0;
        var elapsed: real :| elapsed >= 0.0;
        now := now + elapsed;
      }
      t := now;
    }

    method Sleep(seconds: real)
      requires seconds > 0.0
      modifies this
      ensures now >= old(now) + seconds
      ensures exact ==> now == old(now) + seconds
    {
      var _ := Read();
      now := now + seconds;
    }
  }

  /** The earliest token `wait` can record when called at `now`. */
  function NextToken(last: Option<real>, now: real, interval: real): real {
    if last.Some? && interval - (now - last.value) > 0.0 then last.value + interval else now
  }

  /** The earliest `wait_after_global_lease` can return when called at `now`. */
  function AfterLease(last: Option<real>, now: real, interval: real): real {
    if last.None? then if interval > 0.0 then now + interval else now
    else if interval - (now - last.value) > 0.0 then last.value + interval else now
  }

  class RequestRateLimiter {
    const interval: real
    var last: Option<real>

    constructor (requestsPerMinute: nat)
      requires requestsPerMinute > 0
      ensures interval == 60.0 / requestsPerMinute as real && last == None
    {
      interval := 60.0 / requestsPerMinute as real;
      last := None;
    }

    /** Take a token: its time is at least one interval after this limiter's previous token. */
    method Wait(clock: Clock) returns (token: real)
      modifies this, clock
      ensures last == Some(token) && old(clock.now) <= token == clock.now
      ensures old(last).Some? ==> token - old(last).value >= interval
      ensures token >= NextToken(old(last), old(clock.now), interval)
      ensures clock.exact ==> token == NextToken(old(last), old(clock.now), interval)
    {
      var now := clock.Read();
      if last.Some? {
        var remaining := interval - (now - last.value);
        if remaining > 0.0 {
          clock.Sleep(remaining);
          now := clock.Read();
        }
      }
      last := Some(now);
      token := now;
    }

    method WaitAfterGlobalLease(clock: Clock)
      modifies clock
      ensures clock.now >= old(clock.now)
      ensures last.None? && interval > 0.0 ==> clock.now >= old(clock.now) + interval
      ensures last.Some? ==> clock.now - last.value >= interval
      ensures clock.now >= AfterLease(last, old(clock.now), interval)
      ensures clock.exact ==> clock.now == AfterLease(last, old(clock.now), interval)
    {
      var remaining := interval;
      if last.Some? {
        var now := clock.Read();
        remaining := remaining - (now - last.value);
      }
      if remaining > 0.0 {
        clock.Sleep(remaining);
      }
    }

    /** Wait out the last token's interval without taking another. */
    method Cooldown(clock: Clock)
      modifies clock
      ensures clock.now >= old(clock.now)
      ensures last.Some? ==> clock.now - last.value >= interval
    {
      if last.None? {
        return;
      }
      var now := clock.Read();
      var remaining := interval - (now - last.value);
      if remaining > 0.0 {
        clock.Sleep(remaining);
      }
    }
  }

  /** A configured lease key makes all scopes share their slots; without one every scope has its own. */
  lemma ScopesShareSlots(lease: InMemoryScopeLease, a: string, b: string)
    ensures lease.KeyFor(a) == lease.KeyFor(b) <==> a == b || (lease.leaseKey.Some? && lease.leaseKey.value != "")
    ensures lease.leaseKey.Some? && lease.leaseKey.value != "" ==> lease.KeyFor(a) == lease.leaseKey.value
  {
  }

  class InMemoryScopeLease {
    const leaseKey: Option<string>
    var slots: set<(string, nat)>

    constructor (leaseKey: Option<string>)
      ensures this.leaseKey == leaseKey && slots == {}
    {
      this.leaseKey := leaseKey;
      slots := {};
    }

    /** A configured non-empty lease key replaces the scope's own key. */
    function KeyFor(scope: string): string {
      if leaseKey.Some? && leaseKey.value != "" then leaseKey.value else scope
    }

    /** The lowest free slot below the limit, or nothing when all are taken. */
    method Acquire(scope: string, maxConcurrency: nat) returns (slot: Option<nat>)
      modifies this
      ensures slot.Some? ==>
                && slot.value < maxConcurrency && (KeyFor(scope), slot.value) !in old(slots)
                && (forall s :: 0 <= s < slot.value ==> (KeyFor(scope), s) in old(slots))
                && slots == old(slots) + {(KeyFor(scope), slot.value)}
      ensures slot.None? ==> slots == old(slots) && forall s :: 0 <= s < maxConcurrency ==> (KeyFor(scope), s) in slots
    {
      var key := KeyFor(scope);
      for s := 0 to maxConcurrency
        invariant slots == old(slots)
        invariant forall t :: 0 <= t < s ==> (key, t) in slots
      {
        if (key, s) !in slots {
          slots := slots + {(key, s)};
          return Some(s);
        }
      }
      slot := None;
    }

    method Release(scope: string, slot: nat)
      modifies this
      ensures slots == old(slots) - {(KeyFor(scope), slot)}
    {
      slots := slots - {(KeyFor(scope), slot)};
    }
  }

  // ---- Any number of processes under one slot ----

  predicate NotLater(token: Option<real>, now: real) {
    token.Some? ==> token.value <= now
  }

  /** Where a process stands in `sync_once`. */
  datatype Stage = Idle | Holding | Cooled

  ghost predicate Spaced(tokens: seq<real>, interval: real) {
    forall i, j :: 0 <= i < j < |tokens| ==> tokens[j] - tokens[i] >= interval
  }

  /** Every token's interval is over, except perhaps that of the newest, which is then `pending`. */
  ghost predicate Settled(tokens: seq<real>, interval: real, now: real, pending: Option<real>) {
    forall i :: 0 <= i < |tokens| ==>
      tokens[i] + interval <= now || (i == |tokens| - 1 && pending == Some(tokens[i]) && tokens[i] <= now)
  }

  lemma TokenStaysSpaced(tokens: seq<real>, interval: real, before: real, pending: Option<real>, token: real)
    requires Spaced(tokens, interval) && Settled(tokens, interval, before, pending) && before <= token
    requires pending.Some? ==> token - pending.value >= interval
    ensures Spaced(tokens + [token], interval)
    ensures Settled(tokens + [token], interval, token, Some(token))
  {
  }

  class Collector {
    const clock: Clock
    const lease: InMemoryScopeLease
    const limiters: map<Process, RequestRateLimiter>
    const scope: string
    const interval: real
    var stages: map<Process, Stage>
    var tokens: seq<real>
    ghost var holder: Option<Process>

    ghost function Repr(): set<object> {
      {clock, lease} + (set p | p in limiters :: limiters[p] as object)
    }

    function StageOf(p: Process): Stage
      reads this
    {
      if p in stages then stages[p] else Idle
    }

    /** The token whose interval the holder has still to wait out. */
    ghost function Pending(): Option<real>
      reads this, Repr()
    {
      if holder.Some? && StageOf(holder.value) == Holding && holder.value in limiters
      then limiters[holder.value].last else None
    }

    /** The single slot has at most one holder, and no token is in the future. */
    ghost predicate Coherent()
      reads this, Repr()
    {
      && interval > 0.0
      && (forall p :: p in limiters ==> limiters[p].interval == interval)
      && (forall p: Process :: StageOf(p) != Idle <==> holder == Some(p))
      && (holder.Some? ==> holder.value in limiters)
      && ((lease.KeyFor(scope), 0) in lease.slots <==> holder.Some?)
      && (forall i :: 0 <= i < |tokens| ==> tokens[i] <= clock.now)
      && (forall p :: p in limiters ==> NotLater(limiters[p].last, clock.now))
    }

    /** Besides, all tokens so far are spaced, and nobody but the holder has an interval to wait out. */
    ghost predicate Valid()
      reads this, Repr()
    {
      Coherent() && Spaced(tokens, interval) && Settled(tokens, interval, clock.now, Pending())
    }

    constructor (clock: Clock, lease: InMemoryScopeLease, limiters: map<Process, RequestRateLimiter>, scope: string,
                 interval: real)
      requires interval > 0.0 && lease.slots == {}
      requires forall p :: p in limiters ==> limiters[p].interval == interval && NotLater(limiters[p].last, clock.now)
      ensures Valid() && tokens == [] && forall p: Process :: StageOf(p) == Idle
      ensures this.clock == clock && this.lease == lease && this.limiters == limiters && this.interval == interval
    {
      this.clock, this.lease, this.limiters, this.scope, this.interval := clock, lease, limiters, scope, interval;
      stages, tokens, holder := map[], [], None;
    }

    /** The single slot: it is granted only when no process is between acquire and release. */
    method Acquire(p: Process) returns (ok: bool)
      requires Coherent() && p in limiters
      modifies this`stages, this`holder, lease, clock
      ensures Coherent() && (old(Valid()) ==> Valid())
      ensures clock.now >= old(clock.now) && (clock.exact ==> clock.now == old(clock.now))
      ensures ok <==> forall q: Process :: old(StageOf(q)) == Idle
      ensures stages == if ok then old(stages)[p := Holding] else old(stages)
      ensures !ok ==> lease.slots == old(lease.slots)
    {
      var _ := clock.Read();
      var slot := lease.Acquire(scope, 1);
      ok := slot.Some?;
      if ok {
        assert old(Valid()) ==> Settled(tokens, interval, clock.now, None);
        stages, holder := stages[p := Holding], Some(p);
      }
    }

    method Now() returns (t: real)
      requires Valid()
      modifies clock
      ensures Valid() && t == clock.now >= old(clock.now)
    {
      t := clock.Read();
    }

    method Pause(seconds: real)
      requires Valid() && seconds > 0.0
      modifies clock
      ensures Valid() && clock.now >= old(clock.now) + seconds
    {
      clock.Sleep(seconds);
    }

    method Settle(p: Process)
      requires Valid() && StageOf(p) == Holding
      modifies clock
      ensures Valid() && clock.now >= old(clock.now)
      ensures limiters[p].last.None? ==> clock.now >= old(clock.now) + interval
    {
      limiters[p].WaitAfterGlobalLease(clock);
    }

    /** One rate-limited request: exactly one more token, an interval after every token of every process. */
    method Request(p: Process) returns (token: real)
      requires Valid() && StageOf(p) == Holding
      modifies this`tokens, clock, limiters[p]
      ensures Valid() && tokens == old(tokens) + [token]
      ensures clock.now == token >= old(clock.now)
      ensures forall i :: 0 <= i < |old(tokens)| ==> token - old(tokens)[i] >= interval
    {
      ghost var before := clock.now;
      ghost var pending := limiters[p].last;
      token := limiters[p].Wait(clock);
      TokenStaysSpaced(tokens, interval, before, pending, token);
      tokens := tokens + [token];
      assert tokens[|tokens| - 1] == token;
    }

    method Cooldown(p: Process)
      requires Valid() && StageOf(p) == Holding
      modifies this`stages, clock
      ensures Valid() && stages == old(stages)[p := Cooled]
      ensures clock.now >= old(clock.now)
    {
      limiters[p].Cooldown(clock);
      stages := stages[p := Cooled];
    }

    method Release(p: Process)
      requires Valid() && StageOf(p) == Cooled
      modifies this`stages, this`holder, lease
      ensures Valid() && stages == old(stages)[p := Idle]
    {
      lease.Release(scope, 0);
      stages, holder := stages[p := Idle], None;
    }

    /** `run` releases the slot while its last token's interval may still be open. */
    method ReleaseWithoutCooldown(p: Process)
      requires Coherent() && StageOf(p) == Holding
      modifies this`stages, this`holder, lease
      ensures Coherent() && stages == old(stages)[p := Idle] && forall q: Process :: StageOf(q) == Idle
      ensures Valid() <==> Spaced(tokens, interval) && Settled(tokens, interval, clock.now, None)
    {
      lease.Release(scope, 0);
      stages, holder := stages[p := Idle], None;
    }

    /** The first request after the lease, whatever happened before: on every clock the spacing holds if
        the condition does, and on an exact clock only then. */
    method FirstRequest(p: Process, waits: bool) returns (token: real)
      requires Coherent() && StageOf(p) == Holding
      modifies this`tokens, clock, limiters[p]
      ensures Coherent() && tokens == old(tokens) + [token] && limiters[p].last == Some(token)
      ensures clock.now == token >= old(clock.now)
      ensures waits && old(limiters[p].last).None? ==> token >= old(clock.now) + interval
      ensures clock.exact ==> token == EarliestToken(waits, old(limiters[p].last), old(clock.now), interval)
      ensures old(tokens) != [] && Spaced(old(tokens), interval) ==>
                var keeps := KeepsInterval(waits, old(limiters[p].last), old(tokens[|tokens| - 1]), old(clock.now),
                                           interval);
                (keeps ==> Spaced(tokens, interval)) && (clock.exact && !keeps ==> !Spaced(tokens, interval))
    {
      hide Spaced, Settled, NextToken, AfterLease, KeepsInterval;
      ghost var last, acquired := limiters[p].last, clock.now;
      if waits {
        limiters[p].WaitAfterGlobalLease(clock);
        NextTokenGrows(last, AfterLease(last, acquired, interval), clock.now, interval);
      }
      token := limiters[p].Wait(clock);
      if tokens != [] && Spaced(tokens, interval) {
        RunKeepsSpacingIff(waits, last, tokens[|tokens| - 1], acquired, interval);
        NewestDecides(tokens, interval, token);
      }
      tokens := tokens + [token];
    }

    /** Every further request of the run keeps the interval from the one before. */
    method FurtherRequest(p: Process)
      requires Coherent() && StageOf(p) == Holding && tokens != [] && limiters[p].last == Some(tokens[|tokens| - 1])
      modifies this`tokens, clock, limiters[p]
      ensures Coherent() && |tokens| == |old(tokens)| + 1 && old(tokens) <= tokens
      ensures limiters[p].last == Some(tokens[|tokens| - 1]) && clock.now >= old(clock.now)
      ensures Spaced(tokens, interval) <==> Spaced(old(tokens), interval)
    {
      hide Spaced;
      var token := limiters[p].Wait(clock);
      if Spaced(tokens, interval) {
        NewestDecides(tokens, interval, token);
      }
      PrefixIsSpaced(tokens, interval, token);
      tokens := tokens + [token];
    }

    /** Whether a run can keep spaced tokens spaced, as its process can check before the lease. */
    predicate RunKeeps(p: Process, waits: bool, requests: nat)
      requires p in limiters
      reads this, clock, limiters[p]
    {
      || requests == 0 || tokens == []
      || KeepsInterval(waits, limiters[p].last, tokens[|tokens| - 1], clock.now, interval)
    }

    /** A whole run of any number of requests: on every clock it keeps the tokens spaced if the condition
        holds, and on an exact clock only then. */
    method Run(p: Process, waits: bool, requests: nat)
      requires Coherent() && p in limiters && (forall q: Process :: StageOf(q) == Idle) && Spaced(tokens, interval)
      modifies this`tokens, this`stages, this`holder, lease, clock, limiters[p]
      ensures Coherent() && (forall q: Process :: StageOf(q) == Idle) && clock.now >= old(clock.now)
      ensures |tokens| == |old(tokens)| + requests && old(tokens) <= tokens
      ensures old(RunKeeps(p, waits, requests)) ==> Spaced(tokens, interval)
      ensures clock.exact && !old(RunKeeps(p, waits, requests)) ==> !Spaced(tokens, interval)
      ensures waits && old(limiters[p].last).None? ==> clock.now >= old(clock.now) + interval
      ensures requests == 0 && !waits && clock.exact ==> clock.now == old(clock.now)
    {
      hide Spaced, Settled;
      ghost var before, keeps, start := tokens, RunKeeps(p, waits, requests), clock.now;
      var ok := Acquire(p);
      if requests == 0 {
        if waits {
          limiters[p].WaitAfterGlobalLease(clock);
        }
      } else {
        if before != [] {
          KeepsIntervalLater(waits, limiters[p].last, before[|before| - 1], start, clock.now, interval);
        }
        var token := FirstRequest(p, waits);
        OneIsSpaced(token, interval);
        assert before == [] ==> tokens == [token];
        ghost var spaced, taken := Spaced(tokens, interval), clock.now;
        for n := 1 to requests
          invariant Coherent() && StageOf(p) == Holding && clock.now >= taken
          invariant |tokens| == |before| + n && before <= tokens && limiters[p].last == Some(tokens[|tokens| - 1])
          invariant Spaced(tokens, interval) <==> spaced
        {
          FurtherRequest(p);
        }
      }
      ReleaseWithoutCooldown(p);
    }

    /** Runs that all wait after the lease, each with a limiter of its own that has no token yet, keep
        the spacing, whoever makes them and however many there are. */
    method FreshRuns(plan: seq<(Process, nat)>)
      requires Coherent() && (forall q: Process :: StageOf(q) == Idle) && Spaced(tokens, interval)
      requires forall i :: 0 <= i < |plan| ==> plan[i].0 in limiters && limiters[plan[i].0].last.None?
      requires forall i, j :: 0 <= i < j < |plan| ==> limiters[plan[i].0] != limiters[plan[j].0]
      modifies this`tokens, this`stages, this`holder, lease, clock
      modifies set i | 0 <= i < |plan| :: limiters[plan[i].0]
      ensures Coherent() && (forall q: Process :: StageOf(q) == Idle) && Spaced(tokens, interval)
      ensures old(tokens) <= tokens
    {
      hide Spaced, Settled;
      for i := 0 to |plan|
        invariant Coherent() && (forall q: Process :: StageOf(q) == Idle) && Spaced(tokens, interval)
        invariant forall k :: i <= k < |plan| ==> limiters[plan[k].0].last.None?
        invariant old(tokens) <= tokens
      {
        Run(plan[i].0, true, plan[i].1);
      }
    }

    /** A run that makes one request and releases. */
    method ShortRun(p: Process, waits: bool) returns (token: real)
      requires Coherent() && p in limiters && forall q: Process :: StageOf(q) == Idle
      modifies this`tokens, this`stages, this`holder, lease, clock, limiters[p]
      ensures Coherent() && forall q: Process :: StageOf(q) == Idle
      ensures tokens == old(tokens) + [token] && limiters[p].last == Some(token) && clock.now == token
      ensures clock.exact ==> token == EarliestToken(waits, old(limiters[p].last), old(clock.now), interval)
    {
      var ok := Acquire(p);
      token := FirstRequest(p, waits);
      ReleaseWithoutCooldown(p);
    }
  }

  // ---- What spacing means per minute ----

  ghost function InWindow(tokens: seq<real>, start: real): set<nat> {
    set i: nat | i < |tokens| && start <= tokens[i] < start + 60.0
  }

  lemma {:induction false} SetInRange(s: set<nat>, lo: nat, n: nat)
    requires forall x :: x in s ==> lo <= x < lo + n
    ensures |s| <= n
  {
    if n == 0 {
      assert s == {};
    } else {
      SetInRange(s - {lo + n - 1}, lo, n - 1);
      assert s <= (s - {lo + n - 1}) + {lo + n - 1};
    }
  }

  lemma {:induction false} SpacingAddsUp(tokens: seq<real>, interval: real, i: nat, j: nat)
    requires Spaced(tokens, interval) && i <= j < |tokens|
    ensures tokens[j] - tokens[i] >= (j - i) as real * interval
    decreases j - i
  {
    if i < j {
      SpacingAddsUp(tokens, interval, i, j - 1);
      assert tokens[j] - tokens[j - 1] >= interval;
      assert (j - i) as real * interval == (j - 1 - i) as real * interval + interval;
    }
  }

  lemma SmallerFactor(a: real, b: real, c: real, ac: real, bc: real)
    requires ac == a * c && bc == b * c && ac < bc && c > 0.0
    ensures a < b
  {
  }

  lemma FewerThanTheRate(gap: real, interval: real, rpm: real)
    requires rpm > 0.0 && interval == 60.0 / rpm
    requires gap * interval < 60.0
    ensures gap < rpm
  {
    assert rpm * interval == 60.0;
    SmallerFactor(gap, rpm, interval, gap * interval, 60.0);
  }

  lemma WindowSpan(tokens: seq<real>, interval: real, rpm: nat, start: real, lo: nat, j: nat)
    requires rpm > 0 && interval == 60.0 / rpm as real && Spaced(tokens, interval)
    requires lo <= j && lo in InWindow(tokens, start) && j in InWindow(tokens, start)
    ensures j - lo < rpm
  {
    hide Spaced;
    var gap := (j - lo) as real;
    assert gap * interval <= tokens[j] - tokens[lo] by {
      SpacingAddsUp(tokens, interval, lo, j);
    }
    assert tokens[j] - tokens[lo] < 60.0;
    FewerThanTheRate(gap, interval, rpm as real);
  }

  /** No half-open 60-second window holds more than the approved number of requests. */
  lemma WindowHoldsAtMostTheRate(tokens: seq<real>, rpm: nat, start: real)
    requires rpm > 0 && Spaced(tokens, 60.0 / rpm as real)
    ensures |InWindow(tokens, start)| <= rpm
  {
    hide Spaced;
    var interval := 60.0 / rpm as real;
    var w := InWindow(tokens, start);
    if w != {} {
      var lo := Least(w);
      forall j | j in w
        ensures lo <= j < lo + rpm
      {
        WindowSpan(tokens, interval, rpm, start, lo, j);
      }
      SetInRange(w, lo, rpm);
    }
  }

  lemma {:induction false} Least(s: set<nat>) returns (m: nat)
    requires s != {}
    ensures m in s && forall x :: x in s ==> m <= x
  {
    var pick :| pick in s;
    var below := set x | x in s && x < pick;
    if below == {} {
      m := pick;
      forall x | x in s
        ensures m <= x
      {
        assert x !in below;
      }
    } else {
      assert pick !in below && below <= s;
      m := Least(below);
      forall x | x in s
        ensures m <= x
      {
        if x < pick {
          assert x in below;
        }
      }
    }
  }

  // ---- The checkpointed run releases without cooling down ----

  /** What the next process can check when it has acquired the slot: its own last token, the newest
      token of all, and whether it waits after the lease. */
  predicate KeepsInterval(waits: bool, last: Option<real>, newest: real, acquired: real, interval: real) {
    || acquired - newest >= interval
    || (last.Some? && last.value >= newest)
    || (waits && last.None?)
  }

  function EarliestToken(waits: bool, last: Option<real>, acquired: real, interval: real): real {
    NextToken(last, if waits then AfterLease(last, acquired, interval) else acquired, interval)
  }

  /** The earliest first token after the lease keeps the interval from the newest one under exactly that
      condition, with the wait after the lease and without it. */
  lemma RunKeepsSpacingIff(waits: bool, last: Option<real>, newest: real, acquired: real, interval: real)
    requires interval > 0.0 && newest <= acquired && (last.Some? ==> last.value <= acquired)
    ensures EarliestToken(waits, last, acquired, interval) - newest >= interval
            <==> KeepsInterval(waits, last, newest, acquired, interval)
  {
  }

  lemma NextTokenGrows(last: Option<real>, a: real, b: real, interval: real)
    requires a <= b
    ensures NextToken(last, a, interval) <= NextToken(last, b, interval)
  {
  }

  lemma NewestDecides(tokens: seq<real>, interval: real, token: real)
    requires tokens != [] && Spaced(tokens, interval) && interval > 0.0
    ensures Spaced(tokens + [token], interval) <==> token - tokens[|tokens| - 1] >= interval
  {
    var more, n := tokens + [token], |tokens|;
    assert more[n] == token && more[n - 1] == tokens[n - 1];
    if token - tokens[n - 1] >= interval {
      forall i, j | 0 <= i < j < |more|
        ensures more[j] - more[i] >= interval
      {
        if j == n && i < n - 1 {
          assert tokens[n - 1] - tokens[i] >= interval;
        }
      }
    }
  }

  /** The condition can only become true while a process waits for the slot or the clock. */
  lemma KeepsIntervalLater(waits: bool, last: Option<real>, newest: real, a: real, b: real, interval: real)
    requires a <= b
    ensures KeepsInterval(waits, last, newest, a, interval) ==> KeepsInterval(waits, last, newest, b, interval)
  {
  }

  lemma PrefixIsSpaced(tokens: seq<real>, interval: real, token: real)
    ensures Spaced(tokens + [token], interval) ==> Spaced(tokens, interval)
  {
    assert forall i :: 0 <= i < |tokens| ==> (tokens + [token])[i] == tokens[i];
  }

  lemma OneIsSpaced(token: real, interval: real)
    ensures Spaced([token], interval)
  {
  }

  /** Two processes of ten requests per minute that have made none, on an exact clock. */
  method TwoProcesses() returns (c: Collector)
    ensures c.Coherent() && forall p: Process :: c.StageOf(p) == Idle
    ensures c.tokens == [] && c.interval == 6.0 && c.clock.exact && c.clock.now == 0.0
    ensures c.limiters.Keys == {0, 1} && c.limiters[0] != c.limiters[1]
    ensures c.limiters[0].last.None? && c.limiters[1].last.None?
    ensures fresh(c) && fresh(c.clock) && fresh(c.lease) && fresh(c.limiters[0]) && fresh(c.limiters[1])
  {
    hide Spaced, Settled;
    var clock := new Clock(0.0, true);
    var lease := new InMemoryScopeLease(None);
    var first := new RequestRateLimiter(10);
    var second := new RequestRateLimiter(10);
    c := new Collector(clock, lease, map[0 := first, 1 := second], "scope", 6.0);
  }

  /** A reachable state that breaks the spacing, with the wait after the lease and without it: the first
      process makes a request, then the second, then the first again. */
  method RunBreaksSpacing(waits: bool) returns (tokens: seq<real>, interval: real)
    ensures |tokens| == 3 && interval == 6.0 && !Spaced(tokens, interval)
  {
    hide Spaced, Settled, EarliestToken;
    var c := TwoProcesses();
    var a := c.ShortRun(0, waits);
    var b := c.ShortRun(1, waits);
    var d := c.ShortRun(0, waits);
    tokens, interval := c.tokens, c.interval;
    assert tokens == [a, b, d];
    ThreeTokens(waits, a, b, d);
    TooClose(tokens, interval, if waits then 1 else 0);
  }

  lemma ThreeTokens(waits: bool, a: real, b: real, d: real)
    requires a == EarliestToken(waits, None, 0.0, 6.0) && b == EarliestToken(waits, None, a, 6.0)
    requires d == EarliestToken(waits, Some(a), b, 6.0)
    ensures if waits then d - b < 6.0 else b - a < 6.0
  {
  }

  lemma TooClose(tokens: seq<real>, interval: real, i: nat)
    requires i + 1 < |tokens| && tokens[i + 1] - tokens[i] < interval
    ensures !Spaced(tokens, interval)
  {
  }
}
