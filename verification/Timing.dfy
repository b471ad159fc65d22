/** The T-60 timing contract, written twice: as a check of the operational configuration and as the
    scheduler's own settings. Times and durations are exact seconds. */
module Timing {
  import opened Wrappers

  /** The configuration's timing section. */
  datatype Section = Section(cutoffMinutes: int, tolerance: int, grace: int, requestTimeout: int, attempts: int,
                             initialDelay: int, multiplier: real, maxDelay: int,
                             allowT10: bool, allowAtScheduled: bool, allowAtActual: bool)

  datatype Fault = WindowOrder | BudgetTooLong | T10Allowed | AtScheduledAllowed | AtActualAllowed

  /** The scheduler's settings. */
  datatype Settings = Settings(cutoff: real, tolerance: real, grace: real, requestTimeout: real, maxAttempts: int,
                               initialDelay: real, multiplier: real, maxDelay: real)

  datatype Refusal = CutoffNot60 | ToleranceTooLong | GraceTooLong | NoAttempts | RetryBudget | T10RetryAllowed

  function Min(a: real, b: real): real {
    if b < a then b else a
  }

  function Power(base: real, n: nat): real {
    if n == 0 then 1.0 else base * Power(base, n - 1)
  }

  // ---- The configuration check ----

  function DelayOf(t: Section, index: nat): real {
    Min(t.initialDelay as real * Power(t.multiplier, index), t.maxDelay as real)
  }

  /** The first n waits of an attempt chain. */
  function DelaySum(t: Section, n: nat): real {
    if n == 0 then 0.0 else DelaySum(t, n - 1) + DelayOf(t, n - 1)
  }

  lemma DelaySumStep(t: Section, n: nat)
    ensures DelaySum(t, 0) == 0.0 && DelaySum(t, n + 1) == DelaySum(t, n) + DelayOf(t, n)
  {
  }

  predicate WindowOk(t: Section) {
    0 <= t.tolerance < t.grace < t.cutoffMinutes * 60
  }

  function ConfiguredBudget(t: Section, delays: real): real {
    t.requestTimeout as real * t.attempts as real + delays
  }

  predicate BudgetOk(t: Section) {
    ConfiguredBudget(t, DelaySum(t, if t.attempts > 1 then t.attempts - 1 else 0)) <= t.grace as real
  }

  function Sum(s: seq<real>): real {
    if s == [] then 0.0 else Sum(s[..|s| - 1]) + s[|s| - 1]
  }

  function If(faulty: bool, fault: Fault): seq<Fault> {
    if faulty then [fault] else []
  }

  method ValidateTiming(t: Section) returns (errors: seq<Fault>)
    ensures errors == If(!WindowOk(t), WindowOrder) + If(!BudgetOk(t), BudgetTooLong) + If(t.allowT10, T10Allowed)
                      + If(t.allowAtScheduled, AtScheduledAllowed) + If(t.allowAtActual, AtActualAllowed)
  {
    hide DelayOf, DelaySum, ConfiguredBudget;
    errors := [];
    if !(0 <= t.tolerance < t.grace < t.cutoffMinutes * 60) {
      errors := errors + [WindowOrder];
    }
    assert errors == If(!WindowOk(t), WindowOrder);
    ghost var found := errors;
    var delays: seq<real> := [];
    DelaySumStep(t, 0);
    var index: nat := 0;
    while index < t.attempts - 1
      invariant index == 0 || index <= t.attempts - 1
      decreases t.attempts - index
      invariant errors == found && Sum(delays) == DelaySum(t, index)
    {
      var delay := DelayOf(t, index);
      DelaySumStep(t, index);
      assert (delays + [delay])[..|delays|] == delays;
      delays := delays + [delay];
      index := index + 1;
    }
    if ConfiguredBudget(t, Sum(delays)) > t.grace as real {
      errors := errors + [BudgetTooLong];
    }
    assert errors == found + If(!BudgetOk(t), BudgetTooLong);
    found := errors;
    if t.allowT10 {
      errors := errors + [T10Allowed];
    }
    assert errors == found + If(t.allowT10, T10Allowed);
    found := errors;
    if t.allowAtScheduled {
      errors := errors + [AtScheduledAllowed];
    }
    assert errors == found + If(t.allowAtScheduled, AtScheduledAllowed);
    if t.allowAtActual {
      errors := errors + [AtActualAllowed];
    }
  }

  // ---- The scheduler's settings ----

  function RetryDelay(s: Settings, completed: nat): real
    requires completed >= 1
  {
    Min(s.initialDelay * Power(s.multiplier, completed - 1), s.maxDelay)
  }

  /** The waits after attempts `from`, `from + 1`, … up to the one before `upto`. */
  function RetryTotal(s: Settings, from: int, upto: int): real
    requires from >= 1
    decreases upto - from
  {
    if from >= upto then 0.0 else RetryDelay(s, from) + RetryTotal(s, from + 1, upto)
  }

  /** What n attempts add up to, waits included. */
  function Budget(s: Settings, n: int): real {
    s.requestTimeout * n as real + RetryTotal(s, 1, n)
  }

  function WorstCase(s: Settings): real {
    Budget(s, s.maxAttempts)
  }

  /** The constructor's check: what it refuses first, if anything. */
  function PostInit(s: Settings): Option<Refusal> {
    if s.cutoff != 3600.0 then Some(CutoffNot60)
    else if !(0.0 <= s.tolerance < s.grace) then Some(ToleranceTooLong)
    else if s.grace >= s.cutoff then Some(GraceTooLong)
    else if s.maxAttempts < 1 then Some(NoAttempts)
    else if WorstCase(s) > s.grace then Some(RetryBudget)
    else None
  }

  function SettingsOf(t: Section): Settings {
    Settings(60.0 * t.cutoffMinutes as real, t.tolerance as real, t.grace as real, t.requestTimeout as real, t.attempts,
             t.initialDelay as real, t.multiplier, t.maxDelay as real)
  }

  function FromOperationalConfig(t: Section): Option<Refusal> {
    if t.allowT10 then Some(T10RetryAllowed) else PostInit(SettingsOf(t))
  }

  // ---- The two checks agree ----

  lemma {:induction false} RetryTotalFromTheEnd(s: Settings, from: int, upto: int)
    requires 1 <= from <= upto
    ensures RetryTotal(s, from, upto + 1) == RetryTotal(s, from, upto) + RetryDelay(s, upto)
    decreases upto - from
  {
    if from < upto {
      RetryTotalFromTheEnd(s, from + 1, upto);
    }
  }

  lemma SameDelay(t: Section, n: nat)
    requires n >= 1
    ensures DelayOf(t, n - 1) == RetryDelay(SettingsOf(t), n)
  {
  }

  lemma {:induction false} DelaysAgree(t: Section, n: nat)
    ensures DelaySum(t, n) == RetryTotal(SettingsOf(t), 1, n + 1)
  {
    hide Power, Min, DelayOf, RetryDelay;
    if n > 0 {
      SameDelay(t, n);
      DelaysAgree(t, n - 1);
      RetryTotalFromTheEnd(SettingsOf(t), 1, n);
    }
  }

  /** The scheduler accepts exactly the sections the configuration accepts with a sixty-minute cutoff and
      at least one attempt. */
  lemma SameSettingsAccepted(t: Section)
    ensures FromOperationalConfig(t).None?
            <==> WindowOk(t) && BudgetOk(t) && !t.allowT10 && t.cutoffMinutes == 60 && t.attempts >= 1
  {
    hide DelaySum, RetryTotal, Min, Power, WorstCase, BudgetOk;
    assert SettingsOf(t).cutoff == 3600.0 <==> t.cutoffMinutes == 60;
    if t.attempts >= 1 {
      SameBudget(t);
    }
  }

  lemma SameBudget(t: Section)
    requires t.attempts >= 1
    ensures BudgetOk(t) <==> WorstCase(SettingsOf(t)) <= SettingsOf(t).grace
  {
    hide DelaySum, RetryTotal;
    DelaysAgree(t, t.attempts - 1);
  }

  /** Without attempts the timing check by itself has nothing to refuse, but the scheduler does. */
  lemma TimingCheckAcceptsNoAttempts(t: Section)
    requires WindowOk(t) && t.requestTimeout >= 0 && t.attempts <= 0
    ensures BudgetOk(t) && FromOperationalConfig(t).Some?
  {
    assert t.requestTimeout as real * t.attempts as real <= 0.0;
  }

  predicate IsLesser(x: real, a: real, b: real) {
    x <= a && x <= b && (x == a || x == b)
  }

  /** The waits between attempts: the initial delay first, then the multiplier times the one before as long
      as that was below the maximum; nothing exceeds the maximum. */
  lemma DelaysMultiply(s: Settings, n: nat, delay: real)
    requires n >= 1 && delay == RetryDelay(s, n)
    ensures IsLesser(RetryDelay(s, 1), s.initialDelay, s.maxDelay)
    ensures delay <= s.maxDelay
    ensures delay < s.maxDelay ==> IsLesser(RetryDelay(s, n + 1), s.multiplier * delay, s.maxDelay)
  {
    var p := Power(s.multiplier, n - 1);
    assert Power(s.multiplier, 0) == 1.0;
    DelayIs(s, 1, s.initialDelay);
    DelayIs(s, n, s.initialDelay * p);
    if delay < s.maxDelay {
      NextDelay(s, n, delay);
    }
  }

  lemma NextDelay(s: Settings, n: nat, delay: real)
    requires n >= 1 && delay == s.initialDelay * Power(s.multiplier, n - 1)
    ensures IsLesser(RetryDelay(s, n + 1), s.multiplier * delay, s.maxDelay)
  {
    var p := Power(s.multiplier, n - 1);
    assert Power(s.multiplier, n) == s.multiplier * p;
    hide Power;
    Reorder(s.initialDelay, s.multiplier, p);
    DelayIs(s, n + 1, s.multiplier * delay);
  }

  lemma DelayIs(s: Settings, n: nat, base: real)
    requires n >= 1 && base == s.initialDelay * Power(s.multiplier, n - 1)
    ensures IsLesser(RetryDelay(s, n), base, s.maxDelay)
  {
  }

  lemma Reorder(a: real, b: real, c: real)
    ensures a * (b * c) == b * (a * c)
  {
  }

  // ---- Windows and deadlines ----

  function EarliestOf(first: real, second: real, third: Option<real>): real {
    if third.None? then Min(first, second) else Min(Min(first, second), third.value)
  }

  function PredictionDeadline(t: Section, scheduled: real, actual: Option<real>): real {
    var cutoff := scheduled - (t.cutoffMinutes * 60) as real;
    EarliestOf(cutoff + t.grace as real, scheduled, actual)
  }

  predicate InitialStartEligible(t: Section, started: real, scheduled: real) {
    var cutoff := scheduled - (t.cutoffMinutes * 60) as real;
    cutoff <= started <= cutoff + t.tolerance as real
  }

  predicate CompletionEligible(t: Section, completed: real, scheduled: real, actual: Option<real>) {
    if completed >= PredictionDeadline(t, scheduled, actual) || completed >= scheduled then false
    else actual.None? || completed < actual.value
  }

  function DeadlineAt(s: Settings, scheduled: real, actual: Option<real>): real {
    EarliestOf(scheduled - s.cutoff + s.grace, scheduled, actual)
  }

  predicate StartIsOnTime(s: Settings, started: real, scheduled: real) {
    scheduled - s.cutoff <= started <= scheduled - s.cutoff + s.tolerance
  }

  predicate CompletionIsOnTime(s: Settings, completed: real, scheduled: real, actual: Option<real>) {
    completed < DeadlineAt(s, scheduled, actual) && completed < scheduled && (actual.None? || completed < actual.value)
  }

  /** Both files compute the same deadline and the same two eligibilities. */
  lemma SameWindows(t: Section, time: real, scheduled: real, actual: Option<real>)
    ensures PredictionDeadline(t, scheduled, actual) == DeadlineAt(SettingsOf(t), scheduled, actual)
    ensures InitialStartEligible(t, time, scheduled) <==> StartIsOnTime(SettingsOf(t), time, scheduled)
    ensures CompletionEligible(t, time, scheduled, actual) <==>
            CompletionIsOnTime(SettingsOf(t), time, scheduled, actual)
  {
    assert (t.cutoffMinutes * 60) as real == 60.0 * t.cutoffMinutes as real;
  }

  /** Under accepted settings a completion is on time exactly when it comes before the end of the grace
      period and before a known actual start: the scheduled start itself never decides. */
  lemma OnTimeMeans(s: Settings, completed: real, scheduled: real, actual: Option<real>)
    requires PostInit(s).None?
    ensures CompletionIsOnTime(s, completed, scheduled, actual)
            <==> completed < scheduled - s.cutoff + s.grace && (actual.Some? ==> completed < actual.value)
  {
  }

  // ---- Attempt chains ----

  datatype Attempt = Attempt(wait: real, duration: real)

  /** How long an attempt may be waited for: a negative retry delay is no wait. */
  function LongestWait(s: Settings, completed: nat): real
    requires completed >= 1
  {
    var delay := RetryDelay(s, completed);
    if delay < 0.0 then 0.0 else delay
  }

  /** The first attempt starts at once; each later one after a wait no longer than the retry delay. */
  predicate IsChain(s: Settings, chain: seq<Attempt>) {
    && 1 <= |chain| <= s.maxAttempts
    && chain[0].wait == 0.0
    && (forall i :: 0 <= i < |chain| ==> 0.0 <= chain[i].duration <= s.requestTimeout)
    && forall i :: 1 <= i < |chain| ==> 0.0 <= chain[i].wait <= LongestWait(s, i)
  }

  function EndOf(start: real, chain: seq<Attempt>): real {
    if chain == [] then start else
      var last := chain[|chain| - 1];
      EndOf(start, chain[..|chain| - 1]) + last.wait + last.duration
  }

  /** The longest n attempts can take, waits included. */
  function Longest(s: Settings, n: nat): real {
    if n == 0 then 0.0
    else (if n == 1 then 0.0 else Longest(s, n - 1) + LongestWait(s, n - 1)) + s.requestTimeout
  }

  lemma {:induction false} ChainBound(s: Settings, chain: seq<Attempt>, start: real, n: nat)
    requires IsChain(s, chain) && 1 <= n <= |chain|
    ensures EndOf(start, chain[..n]) <= start + Longest(s, n)
  {
    hide LongestWait;
    assert chain[..n][..n - 1] == chain[..n - 1];
    if n > 1 {
      ChainBound(s, chain, start, n - 1);
    } else {
      assert EndOf(start, chain[..0]) == start;
    }
  }

  lemma {:induction false} LongestGrows(s: Settings, n: nat, m: nat)
    requires s.requestTimeout >= 0.0 && n <= m
    ensures Longest(s, n) <= Longest(s, m)
    decreases m
  {
    hide RetryDelay;
    if n < m {
      LongestGrows(s, n, m - 1);
    }
  }

  lemma ChainWithinLongest(s: Settings, chain: seq<Attempt>, start: real)
    requires IsChain(s, chain)
    ensures EndOf(start, chain) <= start + Longest(s, s.maxAttempts)
  {
    hide Longest, EndOf, LongestWait;
    assert s.requestTimeout >= chain[0].duration;
    ChainBound(s, chain, start, |chain|);
    assert chain[..|chain|] == chain;
    LongestGrows(s, |chain|, s.maxAttempts);
  }

  function SlowestChain(s: Settings, n: nat): seq<Attempt> {
    seq(n, i requires 0 <= i < n => Attempt(if i == 0 then 0.0 else LongestWait(s, i), s.requestTimeout))
  }

  lemma {:induction false} SlowestEnds(s: Settings, start: real, n: nat)
    ensures EndOf(start, SlowestChain(s, n)) == start + Longest(s, n)
  {
    hide LongestWait;
    if n > 0 {
      assert SlowestChain(s, n)[..n - 1] == SlowestChain(s, n - 1);
      SlowestEnds(s, start, n - 1);
    }
  }

  lemma SlowestIsChain(s: Settings)
    requires s.requestTimeout >= 0.0 && s.maxAttempts >= 1
    ensures IsChain(s, SlowestChain(s, s.maxAttempts))
  {
    hide RetryDelay;
  }

  ghost predicate EveryChainEndsWithinGrace(s: Settings) {
    forall start: real, chain: seq<Attempt> :: IsChain(s, chain) ==> EndOf(start, chain) <= start + s.grace
  }

  ghost predicate EveryTimelyChainCompletes(s: Settings) {
    forall start: real, scheduled: real, chain: seq<Attempt> ::
      StartIsOnTime(s, start, scheduled) && IsChain(s, chain) ==>
        CompletionIsOnTime(s, EndOf(start, chain), scheduled, None)
  }

  /** Every chain of attempts ends within the grace period of its own start exactly when the longest one
      does; with a negative timeout there is none. */
  lemma ChainsEndWithinGraceIff(s: Settings)
    requires PostInit(s).None?
    ensures EveryChainEndsWithinGrace(s) <==> s.requestTimeout < 0.0 || Longest(s, s.maxAttempts) <= s.grace
  {
    hide EndOf, Longest, WorstCase, IsChain;
    if s.requestTimeout >= 0.0 {
      SlowestIsChain(s);
      SlowestEnds(s, 0.0, s.maxAttempts);
    }
    forall start: real, chain: seq<Attempt> | IsChain(s, chain)
      ensures s.requestTimeout >= 0.0 && EndOf(start, chain) <= start + Longest(s, s.maxAttempts)
    {
      ChainNeedsTimeout(s, chain);
      ChainWithinLongest(s, chain, start);
    }
  }

  lemma ChainNeedsTimeout(s: Settings, chain: seq<Attempt>)
    requires IsChain(s, chain)
    ensures s.requestTimeout >= 0.0
  {
    assert chain[0].duration <= s.requestTimeout;
  }

  /** The deadline counts from the cutoff, not from the start of the chain. So the accepted settings alone
      do not put every timely chain before it; they do exactly when the tolerance and the longest chain
      together are shorter than the grace period. */
  lemma TimelyChainsCompleteIff(s: Settings)
    requires PostInit(s).None?
    ensures EveryTimelyChainCompletes(s)
            <==> s.requestTimeout < 0.0 || s.tolerance + Longest(s, s.maxAttempts) < s.grace
  {
    hide EndOf, Longest, WorstCase, IsChain;
    if s.requestTimeout >= 0.0 {
      var start := s.tolerance - s.cutoff;
      SlowestIsChain(s);
      SlowestEnds(s, start, s.maxAttempts);
      assert StartIsOnTime(s, start, 0.0);
    }
    forall start: real, scheduled: real, chain: seq<Attempt> | StartIsOnTime(s, start, scheduled) && IsChain(s, chain)
      ensures s.requestTimeout >= 0.0 && EndOf(start, chain) <= start + Longest(s, s.maxAttempts)
    {
      ChainNeedsTimeout(s, chain);
      ChainWithinLongest(s, chain, start);
    }
  }

  // ---- Ordinary settings ----

  lemma OneMoreTime(x: real, n: int)
    ensures x * n as real == x * (n - 1) as real + x
  {
    assert n as real == (n - 1) as real + 1.0;
  }

  lemma BudgetStep(s: Settings, n: nat)
    requires n >= 1
    ensures Budget(s, n) == (if n == 1 then 0.0 else Budget(s, n - 1) + RetryDelay(s, n - 1)) + s.requestTimeout
  {
    hide RetryDelay;
    OneMoreTime(s.requestTimeout, n);
    if n > 1 {
      RetryTotalFromTheEnd(s, 1, n - 1);
    } else {
      assert RetryTotal(s, 1, n) == 0.0;
      assert s.requestTimeout * (n - 1) as real == 0.0;
    }
  }

  predicate OrdinaryDelays(s: Settings) {
    s.initialDelay >= 0.0 && s.multiplier >= 0.0 && s.maxDelay >= 0.0
  }

  lemma {:induction false} PowerIsNonNegative(base: real, n: nat)
    requires base >= 0.0
    ensures Power(base, n) >= 0.0
  {
    if n > 0 {
      PowerIsNonNegative(base, n - 1);
    }
  }

  lemma DelayIsNonNegative(s: Settings, n: nat)
    requires OrdinaryDelays(s) && n >= 1
    ensures RetryDelay(s, n) >= 0.0
  {
    PowerIsNonNegative(s.multiplier, n - 1);
  }

  lemma {:induction false} LongestIsBudget(s: Settings, n: nat)
    requires OrdinaryDelays(s) && n >= 1
    ensures Longest(s, n) == Budget(s, n)
  {
    hide Budget, RetryDelay;
    BudgetStep(s, n);
    if n > 1 {
      LongestIsBudget(s, n - 1);
      DelayIsNonNegative(s, n - 1);
    }
  }

  /** Without negative delays the longest chain takes the worst case the constructor adds up, so every
      accepted setting keeps every chain within the grace period of its start. */
  lemma OrdinaryChainsEndWithinGrace(s: Settings)
    requires PostInit(s).None? && OrdinaryDelays(s)
    ensures Longest(s, s.maxAttempts) == WorstCase(s) && EveryChainEndsWithinGrace(s)
  {
    hide Longest, Budget, EveryChainEndsWithinGrace;
    LongestIsBudget(s, s.maxAttempts);
    ChainsEndWithinGraceIff(s);
  }

  /** A negative delay lowers the worst case below what one attempt can take. */
  lemma NegativeDelayBreaksTheBound()
    ensures var s := Settings(3600.0, 0.0, 50.0, 100.0, 2, -200.0, 1.0, 30.0);
            PostInit(s).None? && !EveryChainEndsWithinGrace(s)
  {
    var s := Settings(3600.0, 0.0, 50.0, 100.0, 2, -200.0, 1.0, 30.0);
    assert Power(1.0, 0) == 1.0;
    assert RetryDelay(s, 1) == -200.0;
    assert RetryTotal(s, 2, 2) == 0.0 && RetryTotal(s, 1, 2) == -200.0;
    assert WorstCase(s) == 0.0;
    assert Longest(s, 1) == 100.0 && Longest(s, 2) == 200.0;
    hide EveryChainEndsWithinGrace;
    ChainsEndWithinGraceIff(s);
  }

  lemma ThreeAttempts(s: Settings)
    requires s.requestTimeout == 60.0 && s.maxAttempts == 3 && s.initialDelay == 5.0 && s.multiplier == 2.0 &&
             s.maxDelay == 30.0
    ensures WorstCase(s) == 195.0 == Longest(s, 3)
  {
    assert Power(2.0, 0) == 1.0 && Power(2.0, 1) == 2.0;
    assert RetryDelay(s, 1) == 5.0 && RetryDelay(s, 2) == 10.0;
    assert RetryTotal(s, 3, 3) == 0.0;
    assert RetryTotal(s, 2, 3) == 10.0;
    assert RetryTotal(s, 1, 3) == 15.0;
    assert Longest(s, 1) == 60.0 && Longest(s, 2) == 125.0;
  }

  /** The shipped settings meet both conditions. */
  lemma ShippedSettings()
    ensures var t := Section(60, 30, 300, 60, 3, 5, 2.0, 30, false, false, false);
            && WindowOk(t) && BudgetOk(t) && FromOperationalConfig(t).None?
            && EveryChainEndsWithinGrace(SettingsOf(t)) && EveryTimelyChainCompletes(SettingsOf(t))
  {
    hide Longest, WorstCase, EveryChainEndsWithinGrace, EveryTimelyChainCompletes;
    var t := Section(60, 30, 300, 60, 3, 5, 2.0, 30, false, false, false);
    ThreeAttempts(SettingsOf(t));
    SameBudget(t);
    TimelyChainsCompleteIff(SettingsOf(t));
    ChainsEndWithinGraceIff(SettingsOf(t));
  }

  /** With a longer tolerance the same attempts are accepted, and a timely chain can end too late. */
  lemma LongToleranceIsAccepted()
    ensures var s := Settings(3600.0, 200.0, 300.0, 60.0, 3, 5.0, 2.0, 30.0);
            PostInit(s).None? && EveryChainEndsWithinGrace(s) && !EveryTimelyChainCompletes(s)
  {
    hide Longest, WorstCase, EveryChainEndsWithinGrace, EveryTimelyChainCompletes;
    var s := Settings(3600.0, 200.0, 300.0, 60.0, 3, 5.0, 2.0, 30.0);
    ThreeAttempts(s);
    TimelyChainsCompleteIff(s);
    ChainsEndWithinGraceIff(s);
  }
}
