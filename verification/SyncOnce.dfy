/** One recurring sync job: lease, page loop with retries and a deadline, cooldown, release. */
module SyncOnce {
  import opened Wrappers
  import opened RequestSpacing

  type Cursor = string

  datatype Action = Accepted | RetryLater | Quarantine

  datatype SourceResponse = SourceResponse(status: Option<int>, retryAfter: Option<int>, receivedAt: real,
                                           action: Action)

  datatype SourcePage = SourcePage(responses: seq<SourceResponse>, next: Option<Cursor>)

  /** What the adapter answers to one request. */
  datatype Answer = ConnectionFailed | Broken | Delivered(page: SourcePage)

  /** The adapter's answer may depend on how many requests were made before. */
  type Transport = (Option<Cursor>, nat) -> Answer

  datatype Request = Request(cursor: Option<Cursor>, startedAt: real, timeout: real)

  datatype Nap = Nap(at: real, seconds: real)

  datatype Failure =
    | LeaseUnavailable | DeadlineReached | RetryBudgetExceeded | ObservationBackdated | AttemptsExhausted
    | AdapterBroken | NotAccepted | Quarantined | CursorRepeated

  datatype FetchResult = Fetched(page: SourcePage) | FetchFailed(failure: Failure)

  datatype SyncResult = Synced(accepted: nat) | Failed(failure: Failure)

  function Power(base: real, n: nat): real {
    if n == 0 then 1.0 else base * Power(base, n - 1)
  }

  function Min(a: real, b: real): real {
    if b < a then b else a
  }

  datatype RetryPolicy = RetryPolicy(maxAttempts: nat, initialDelay: real, multiplier: real, maxDelay: real) {
    /** Nothing when a server asks for more than the policy allows. */
    function Delay(attempt: nat, retryAfter: Option<int>, jitter: real): Option<real>
      requires attempt > 0
    {
      if retryAfter.Some? then
        if retryAfter.value as real > maxDelay then None else Some(retryAfter.value as real)
      else
        Some(Min(initialDelay * Power(multiplier, attempt - 1) + (if jitter > 0.0 then jitter else 0.0), maxDelay))
    }
  }

  lemma {:induction false} PowerGrows(base: real, a: nat, b: nat)
    requires base >= 1.0 && a <= b
    ensures 1.0 <= Power(base, a) <= Power(base, b)
    decreases b
  {
    if b > 0 {
      if a == b {
        PowerGrows(base, a - 1, b - 1);
      } else {
        PowerGrows(base, a, b - 1);
      }
    }
  }

  /** A wait is never longer than the policy allows nor shorter than the server asked for, and is refused
      exactly when both cannot be. */
  lemma DelayIsBounded(policy: RetryPolicy, attempt: nat, retryAfter: Option<int>, jitter: real)
    requires attempt > 0
    ensures var d := policy.Delay(attempt, retryAfter, jitter);
            && (d.None? <==> retryAfter.Some? && retryAfter.value as real > policy.maxDelay)
            && (d.Some? ==> d.value <= policy.maxDelay && (retryAfter.Some? ==> d.value >= retryAfter.value as real))
  {
  }

  predicate IsLesser(x: real, a: real, b: real) {
    x <= a && x <= b && (x == a || x == b)
  }

  /** The wait the policy itself chooses: the initial delay after the first attempt, and after each further
      one the multiplier times the wait before, as long as that one was below the maximum; positive jitter
      comes on top, and nothing exceeds the maximum. */
  lemma BackoffMultiplies(policy: RetryPolicy, attempt: nat, jitter: real, delay: real)
    requires attempt > 0 && policy.Delay(attempt, None, 0.0) == Some(delay)
    ensures policy.Delay(1, None, jitter).Some?
    ensures IsLesser(policy.Delay(1, None, jitter).value,
                     policy.initialDelay + (if jitter > 0.0 then jitter else 0.0), policy.maxDelay)
    ensures var next, jittered := policy.Delay(attempt + 1, None, 0.0), policy.Delay(attempt, None, jitter);
            next.Some? && jittered.Some? &&
            (delay < policy.maxDelay ==>
               && IsLesser(next.value, policy.multiplier * delay, policy.maxDelay)
               && IsLesser(jittered.value, delay + (if jitter > 0.0 then jitter else 0.0), policy.maxDelay))
  {
    var p := Power(policy.multiplier, attempt - 1);
    assert Power(policy.multiplier, 0) == 1.0;
    DelayIs(policy, 1, jitter, policy.initialDelay);
    DelayIs(policy, attempt, 0.0, policy.initialDelay * p);
    if delay < policy.maxDelay {
      NextDelay(policy, attempt, jitter, delay);
    }
  }

  lemma NextDelay(policy: RetryPolicy, attempt: nat, jitter: real, delay: real)
    requires attempt > 0 && delay == policy.initialDelay * Power(policy.multiplier, attempt - 1)
    ensures var next, jittered := policy.Delay(attempt + 1, None, 0.0), policy.Delay(attempt, None, jitter);
            && next.Some? && jittered.Some?
            && IsLesser(next.value, policy.multiplier * delay, policy.maxDelay)
            && IsLesser(jittered.value, delay + (if jitter > 0.0 then jitter else 0.0), policy.maxDelay)
  {
    var p := Power(policy.multiplier, attempt - 1);
    assert Power(policy.multiplier, attempt) == policy.multiplier * p;
    hide Power;
    Reorder(policy.initialDelay, policy.multiplier, p);
    DelayIs(policy, attempt, jitter, delay);
    DelayIs(policy, attempt + 1, 0.0, policy.multiplier * delay);
  }

  lemma DelayIs(policy: RetryPolicy, attempt: nat, jitter: real, base: real)
    requires attempt > 0 && base == policy.initialDelay * Power(policy.multiplier, attempt - 1)
    ensures policy.Delay(attempt, None, jitter).Some?
    ensures policy.Delay(attempt, None, jitter).value
            == Min(base + (if jitter > 0.0 then jitter else 0.0), policy.maxDelay)
  {
  }

  lemma Reorder(a: real, b: real, c: real)
    ensures a * (b * c) == b * (a * c)
  {
  }

  /** With a multiplier of at least one and no negative initial delay, waits do not shrink. */
  lemma DelayNeverShrinks(policy: RetryPolicy, attempt: nat, later: nat, jitter: real)
    requires 0 < attempt <= later && policy.multiplier >= 1.0 && policy.initialDelay >= 0.0
    ensures policy.Delay(attempt, None, jitter).value <= policy.Delay(later, None, jitter).value
  {
    PowerGrows(policy.multiplier, attempt - 1, later - 1);
    var p, q := Power(policy.multiplier, attempt - 1), Power(policy.multiplier, later - 1);
    assert policy.initialDelay * q == policy.initialDelay * p + policy.initialDelay * (q - p);
  }

  predicate RetryableStatus(r: SourceResponse) {
    r.status.Some? && (r.status.value == 429 || r.status.value >= 500)
  }

  /** A response to retry that asks for a wait: status 429, or 500 and above. */
  predicate Demands(r: SourceResponse) {
    r.status.Some? && (r.status.value == 429 || r.status.value >= 500) && r.retryAfter.Some?
  }

  predicate IsDemand(responses: seq<SourceResponse>, value: int) {
    exists r :: r in responses && Demands(r) && r.retryAfter.value == value
  }

  /** The longest time a response to retry asks for, zero if they ask for less, nothing if none asks. */
  predicate IsLongestDemand(responses: seq<SourceResponse>, longest: Option<int>) {
    && (forall r :: r in responses && Demands(r) ==> longest.Some? && longest.value >= r.retryAfter.value)
    && (longest.Some? ==> longest.value >= 0 && exists r :: r in responses && Demands(r))
    && (longest.Some? && longest.value > 0 ==> IsDemand(responses, longest.value))
  }

  lemma OneMoreDemand(responses: seq<SourceResponse>, r: SourceResponse, longest: Option<int>)
    requires IsLongestDemand(responses, longest)
    ensures var known := if longest.Some? then longest.value else 0;
            IsLongestDemand(responses + [r],
                            if !Demands(r) then longest
                            else Some(if r.retryAfter.value > known then r.retryAfter.value else known))
  {
    assert r in responses + [r];
    if longest.Some? && longest.value > 0 {
      var s :| s in responses && Demands(s) && s.retryAfter.value == longest.value;
      assert s in responses + [r];
    }
    if longest.Some? {
      var s :| s in responses && Demands(s);
      assert s in responses + [r];
    }
  }

  predicate Clean(page: SourcePage) {
    forall i :: 0 <= i < |page.responses| ==> !RetryableStatus(page.responses[i])
  }

  // ---- The chain a fixed source defines ----

  datatype Spot = At(cursor: Option<Cursor>) | End

  type Source = Option<Cursor> -> SourcePage

  function SpotAfter(source: Source, n: nat): Spot {
    if n == 0 then At(None) else
      match SpotAfter(source, n - 1)
      case End => End
      case At(c) => if source(c).next.None? then End else At(source(c).next)
  }

  function TotalOf(source: Source, n: nat): nat {
    if n == 0 then 0 else
      TotalOf(source, n - 1) +
      match SpotAfter(source, n - 1)
      case End => 0
      case At(c) => |source(c).responses|
  }

  /** A page that is not retried is the source's page for that cursor. */
  ghost predicate Serves(transport: Transport, source: Source) {
    forall c, k :: transport(c, k).Delivered? && Clean(transport(c, k).page) ==> transport(c, k).page == source(c)
  }

  /** Every cursor the adapter hands out belongs to this set. */
  ghost predicate CursorsFrom(transport: Transport, cursors: set<Cursor>) {
    forall c, k :: transport(c, k).Delivered? && transport(c, k).page.next.Some? ==>
              transport(c, k).page.next.value in cursors
  }

  /** Once a cursor repeats, the chain goes on for ever. */
  lemma {:induction false} RepeatedCursorNeverEnds(source: Source, i: nat, n: nat, m: nat)
    requires i < n && SpotAfter(source, n).At? && SpotAfter(source, i) == SpotAfter(source, n)
    ensures SpotAfter(source, m).At?
    decreases m
  {
    if m <= n {
      EarlierSpotsAreOpen(source, m, n);
    } else {
      SameSpotSameFuture(source, i, n, m - n);
      RepeatedCursorNeverEnds(source, i, n, i + (m - n));
    }
  }

  lemma NeverEnds(source: Source, n: nat)
    requires SpotAfter(source, n).At? && exists i: nat :: i < n && SpotAfter(source, i) == SpotAfter(source, n)
    ensures forall m: nat :: SpotAfter(source, m).At?
  {
    hide SpotAfter;
    var i: nat :| i < n && SpotAfter(source, i) == SpotAfter(source, n);
    forall m: nat
      ensures SpotAfter(source, m).At?
    {
      RepeatedCursorNeverEnds(source, i, n, m);
    }
  }

  lemma {:induction false} EarlierSpotsAreOpen(source: Source, m: nat, n: nat)
    requires m <= n && SpotAfter(source, n).At?
    ensures SpotAfter(source, m).At?
    decreases n - m
  {
    if m < n {
      EarlierSpotsAreOpen(source, m + 1, n);
    }
  }

  lemma {:induction false} SameSpotSameFuture(source: Source, i: nat, n: nat, k: nat)
    requires SpotAfter(source, i) == SpotAfter(source, n)
    ensures SpotAfter(source, i + k) == SpotAfter(source, n + k)
  {
    if k > 0 {
      SameSpotSameFuture(source, i, n, k - 1);
      assert i + k - 1 == i + (k - 1) && n + k - 1 == n + (k - 1);
    }
  }

  // ---- The runner ----

  /** A request starts before the deadline and times out after the limit or at the deadline, whichever
      comes first. */
  predicate TimelyRequest(q: Request, deadline: Option<real>, limit: real) {
    if deadline.None? then q.timeout == limit
    else
      && q.startedAt < deadline.value
      && q.timeout == if q.startedAt + limit <= deadline.value then limit else deadline.value - q.startedAt
  }

  predicate TimelyNap(n: Nap, deadline: Option<real>) {
    deadline.Some? ==> n.at + n.seconds < deadline.value
  }

  /** The request and nap logs only grow; new requests start before the deadline and time out no later
      than it, and new retry sleeps end before it. */
  ghost predicate Extends(requests: seq<Request>, requests': seq<Request>, naps: seq<Nap>, naps': seq<Nap>,
                          deadline: Option<real>, limit: real)
  {
    && requests <= requests' && naps <= naps'
    && (forall i :: |requests| <= i < |requests'| ==> TimelyRequest(requests'[i], deadline, limit))
    && (forall i :: |naps| <= i < |naps'| ==> TimelyNap(naps'[i], deadline))
  }

  /** All further tokens come at this time or later. */
  ghost predicate Since(tokens: seq<real>, tokens': seq<real>, start: real) {
    tokens <= tokens' && forall i :: |tokens| <= i < |tokens'| ==> tokens'[i] >= start
  }

  lemma NothingSince(tokens: seq<real>, start: real)
    ensures Since(tokens, tokens, start)
  {
  }

  lemma LaterIsSince(tokens: seq<real>, tokens': seq<real>, later: real)
    requires Since(tokens, tokens', later)
    ensures forall start: real :: start <= later ==> Since(tokens, tokens', start)
  {
  }

  lemma SinceOn(a: seq<real>, b: seq<real>, c: seq<real>, start: real, later: real)
    requires Since(a, b, start) && Since(b, c, later) && start <= later
    ensures Since(a, c, start)
  {
  }

  lemma NothingYet(requests: seq<Request>, naps: seq<Nap>, deadline: Option<real>, limit: real)
    ensures Extends(requests, requests, naps, naps, deadline, limit)
  {
  }

  lemma ExtendsOn(r0: seq<Request>, r1: seq<Request>, r2: seq<Request>, n0: seq<Nap>, n1: seq<Nap>, n2: seq<Nap>,
                  deadline: Option<real>, limit: real)
    requires Extends(r0, r1, n0, n1, deadline, limit) && Extends(r1, r2, n1, n2, deadline, limit)
    ensures Extends(r0, r2, n0, n2, deadline, limit)
  {
  }

  lemma OneMoreRequest(requests: seq<Request>, before: seq<Request>, after: seq<Request>, naps: seq<Nap>,
                       naps': seq<Nap>,
                       deadline: Option<real>, limit: real)
    requires Extends(requests, before, naps, naps', deadline, limit)
    requires after == before || exists q :: after == before + [q] && TimelyRequest(q, deadline, limit)
    ensures Extends(requests, after, naps, naps', deadline, limit)
  {
  }

  /** Every answer is a page with nothing to retry that the sink accepts. */
  ghost predicate NothingGoesWrong(transport: Transport) {
    forall c, k ::
      && transport(c, k).Delivered? && Clean(transport(c, k).page)
      && forall i :: 0 <= i < |transport(c, k).page.responses| ==> transport(c, k).page.responses[i].action == Accepted
  }

  function Universe(cursors: set<Cursor>): set<Option<Cursor>> {
    {None} + set c | c in cursors :: Some(c)
  }

  lemma {:induction false} SomeSize(cursors: set<Cursor>)
    ensures |set c | c in cursors :: Some(c)| == |cursors|
  {
    if cursors != {} {
      var x :| x in cursors;
      SomeSize(cursors - {x});
      assert (set c | c in cursors :: Some(c)) == (set c | c in cursors - {x} :: Some(c)) + {Some(x)};
    }
  }

  lemma SubsetSize<T>(a: set<T>, b: set<T>)
    requires a <= b
    ensures |a| <= |b|
  {
    assert b == a + (b - a);
  }

  lemma UniverseSize(cursors: set<Cursor>, seen: set<Option<Cursor>>)
    requires seen <= Universe(cursors)
    ensures |seen| <= |cursors| + 1
  {
    SomeSize(cursors);
    SubsetSize(seen, Universe(cursors));
  }

  lemma MoreAttempts(attempts: nat, pages: nat, limit: nat)
    requires pages <= limit
    ensures attempts * pages + attempts == attempts * (pages + 1) <= attempts * (limit + 1)
  {
  }

  /** The page loop's bookkeeping after some pages: where it is, what it has seen, what it has counted. */
  ghost predicate OnChain(source: Source, cursors: set<Cursor>, seen: set<Option<Cursor>>, cursor: Option<Cursor>,
                          pages: nat, accepted: nat)
  {
    && SpotAfter(source, pages) == At(cursor) && accepted == TotalOf(source, pages)
    && seen <= Universe(cursors) && |seen| == pages + 1 && pages <= |cursors|
    && forall c :: c in seen ==> exists i :: 0 <= i <= pages && SpotAfter(source, i) == At(c)
  }

  lemma StartOfChain(source: Source, cursors: set<Cursor>)
    ensures OnChain(source, cursors, {None}, None, 0, 0)
  {
    assert SpotAfter(source, 0) == At(None);
  }

  lemma NextOnChain(source: Source, cursors: set<Cursor>, seen: set<Option<Cursor>>, cursor: Option<Cursor>, pages: nat,
                    accepted: nat)
    requires OnChain(source, cursors, seen, cursor, pages, accepted)
    requires source(cursor).next.Some? ==> source(cursor).next.value in cursors
    ensures var next := source(cursor).next;
            && SpotAfter(source, pages).At?
            && TotalOf(source, pages + 1) == accepted + |source(cursor).responses|
            && (next.None? ==> SpotAfter(source, pages + 1) == End)
            && (next.Some? ==> SpotAfter(source, pages + 1) == At(next))
            && (next.Some? && next in seen ==>
                exists i :: 0 <= i < pages + 1 && SpotAfter(source, i) == SpotAfter(source, pages + 1))
            && (next.Some? && next !in seen ==>
                  OnChain(source, cursors, seen + {next}, next, pages + 1, accepted + |source(cursor).responses|))
  {
    var next := source(cursor).next;
    if next.Some? && next !in seen {
      UniverseSize(cursors, seen + {next});
      forall c | c in seen + {next}
        ensures exists i :: 0 <= i <= pages + 1 && SpotAfter(source, i) == At(c)
      {
        if c in seen {
          var i :| 0 <= i <= pages && SpotAfter(source, i) == At(c);
        } else {
          assert SpotAfter(source, pages + 1) == At(c);
        }
      }
    }
  }

  lemma ServedPage(transport: Transport, source: Source, cursors: set<Cursor>, c: Option<Cursor>, k: nat)
    requires Serves(transport, source) && CursorsFrom(transport, cursors)
    requires transport(c, k).Delivered? && Clean(transport(c, k).page)
    ensures transport(c, k).page == source(c)
    ensures source(c).next.Some? ==> source(c).next.value in cursors
  {
  }

  predicate FetchFailure(f: Failure) {
    f in {RetryBudgetExceeded, ObservationBackdated, AttemptsExhausted, AdapterBroken}
  }

  /** Some response claims to have come before the request was made. */
  predicate Backdated(page: SourcePage, q: Request) {
    exists i :: 0 <= i < |page.responses| && page.responses[i].receivedAt < q.startedAt
  }

  /** No status is 429, or 500 and above. */
  predicate GoodStatuses(page: SourcePage) {
    forall i :: 0 <= i < |page.responses| && page.responses[i].status.Some? ==>
      page.responses[i].status.value != 429 && page.responses[i].status.value < 500
  }

  lemma CleanIsGood(page: SourcePage)
    ensures Clean(page) <==> GoodStatuses(page)
  {
    if GoodStatuses(page) {
      forall i | 0 <= i < |page.responses|
        ensures !RetryableStatus(page.responses[i])
      {
        assert page.responses[i].status.Some? ==> page.responses[i].status.value < 500;
      }
    }
    if Clean(page) {
      forall i | 0 <= i < |page.responses| && page.responses[i].status.Some?
        ensures page.responses[i].status.value != 429 && page.responses[i].status.value < 500
      {
        assert !RetryableStatus(page.responses[i]);
      }
    }
  }

  /** A wait of so many seconds after this answer to attempt number `attempt`: the policy's own after a
      failed connection, and what the responses to retry ask for at the longest after a page. */
  ghost predicate NapFits(policy: RetryPolicy, jitter: nat -> real, answer: Answer, attempt: nat, seconds: real)
    requires attempt > 0
  {
    match answer
    case ConnectionFailed => policy.Delay(attempt, None, jitter(attempt)) == Some(seconds)
    case Delivered(page) =>
      exists longest :: IsLongestDemand(page.responses, longest) &&
                        policy.Delay(attempt, longest, jitter(attempt)) == Some(seconds)
    case Broken => false
  }

  /** Every wait follows the request of its number. */
  ghost predicate NapsFit(policy: RetryPolicy, jitter: nat -> real, transport: Transport, cursor: Option<Cursor>,
                          first: nat, naps: seq<Nap>, naps': seq<Nap>)
  {
    naps <= naps' && forall j :: |naps| <= j < |naps'| ==>
      NapFits(policy, jitter, transport(cursor, first + j - |naps|), j - |naps| + 1, naps'[j].seconds)
  }

  lemma OneMoreNap(policy: RetryPolicy, jitter: nat -> real, transport: Transport, cursor: Option<Cursor>, first: nat,
                   naps: seq<Nap>, before: seq<Nap>, n: Nap)
    requires NapsFit(policy, jitter, transport, cursor, first, naps, before)
    requires NapFits(policy, jitter, transport(cursor, first + |before| - |naps|), |before| - |naps| + 1, n.seconds)
    ensures NapsFit(policy, jitter, transport, cursor, first, naps, before + [n])
  {
    hide NapFits;
  }

  lemma DemandIsNap(policy: RetryPolicy, jitter: nat -> real, answer: Answer, attempt: nat, retryAfter: Option<int>,
                    seconds: real)
    requires attempt > 0 && policy.Delay(attempt, retryAfter, jitter(attempt)) == Some(seconds)
    requires if answer.ConnectionFailed? then retryAfter == None
             else answer.Delivered? && IsLongestDemand(answer.page.responses, retryAfter)
    ensures NapFits(policy, jitter, answer, attempt, seconds)
  {
  }

  lemma NoNaps(policy: RetryPolicy, jitter: nat -> real, transport: Transport, cursor: Option<Cursor>, first: nat,
               naps: seq<Nap>)
    ensures NapsFit(policy, jitter, transport, cursor, first, naps, naps)
  {
  }

  lemma GoodMeans(page: SourcePage)
    requires GoodStatuses(page)
    ensures forall i :: 0 <= i < |page.responses| && page.responses[i].status.Some? ==>
              page.responses[i].status.value != 429 && page.responses[i].status.value < 500
  {
  }

  /** A failed connection, or a page in time with a status that forbids it. */
  predicate IsRetried(answer: Answer, q: Request) {
    answer.ConnectionFailed? || (answer.Delivered? && !Backdated(answer.page, q) && !Clean(answer.page))
  }

  /** What the last attempt of a fetch came to, with the answer it got if it made a request. */
  predicate Ended(transport: Transport, cursor: Option<Cursor>, before: seq<Request>, after: seq<Request>, last: bool,
                  r: FetchResult, deadline: Option<real>)
  {
    if after == before then
      deadline.Some? && r == FetchFailed(RetryBudgetExceeded)
    else
      && |after| == |before| + 1 && before <= after
      && var answer := transport(cursor, |before|);
         match answer
         case Broken => r == FetchFailed(AdapterBroken)
         case ConnectionFailed => r == FetchFailed(if last then AttemptsExhausted else RetryBudgetExceeded)
         case Delivered(page) =>
           if Backdated(page, after[|before|]) then r == FetchFailed(ObservationBackdated)
           else if Clean(page) then r == Fetched(page)
           else r == FetchFailed(if last then AttemptsExhausted else RetryBudgetExceeded)
  }

  /** What becomes of a first answer that is a page: refused if backdated, returned if no status forbids
      it, and retried otherwise if there is an attempt left and the policy can wait as long as asked. */
  predicate FirstPageDecides(page: SourcePage, requests: seq<Request>, first: nat, r: FetchResult)
    requires first < |requests|
  {
    if Backdated(page, requests[first]) then |requests| == first + 1 && r == FetchFailed(ObservationBackdated)
    else if GoodStatuses(page) then |requests| == first + 1 && r == Fetched(page)
    else |requests| > first + 1 || r == FetchFailed(AttemptsExhausted) || r == FetchFailed(RetryBudgetExceeded)
  }

  lemma EndedDecides(transport: Transport, cursor: Option<Cursor>, before: seq<Request>, after: seq<Request>,
                     first: nat, last: bool, r: FetchResult, deadline: Option<real>)
    requires Ended(transport, cursor, before, after, last, r, deadline) && first <= |before|
    requires first < |before| ==> IsRetried(transport(cursor, first), before[first])
    ensures r.FetchFailed? ==> FetchFailure(r.failure) && (r.failure == AttemptsExhausted ==> last && after != before)
    ensures after == before || (|after| == |before| + 1 && before <= after)
    ensures deadline.None? ==> after != before
    ensures r.Fetched? ==>
              && |after| == |before| + 1 && transport(cursor, |before|) == Delivered(r.page) && Clean(r.page)
              && !Backdated(r.page, after[|before|]) && GoodStatuses(r.page)
              && forall i :: 0 <= i < |r.page.responses| && r.page.responses[i].status.Some? ==>
                   r.page.responses[i].status.value != 429 && r.page.responses[i].status.value < 500
    ensures deadline.None? && transport(cursor, first).Delivered? ==>
              FirstPageDecides(transport(cursor, first).page, after, first, r)
  {
    hide Clean, GoodStatuses, Backdated;
    if transport(cursor, first).Delivered? {
      CleanIsGood(transport(cursor, first).page);
    }
    if r.Fetched? {
      CleanIsGood(r.page);
      GoodMeans(r.page);
    }
  }

  datatype AttemptResult = Got(page: SourcePage) | Again(retryAfter: Option<int>) | GiveUp(failure: Failure)

  class BackfillRunner {
    const collector: Collector
    const process: Process
    const policy: RetryPolicy
    const requestTimeout: real
    const waitAfterGlobalLease: bool
    const jitter: nat -> real
    var requests: seq<Request>
    var naps: seq<Nap>

    constructor (collector: Collector, process: Process, policy: RetryPolicy, requestTimeout: real,
                 waitAfterGlobalLease: bool,
                 jitter: nat -> real)
      requires requestTimeout > 0.0
      ensures this.collector == collector && this.process == process && this.policy == policy
      ensures this.requestTimeout == requestTimeout && requests == [] && naps == []
    {
      this.collector, this.process, this.policy := collector, process, policy;
      this.requestTimeout, this.waitAfterGlobalLease, this.jitter := requestTimeout, waitAfterGlobalLease, jitter;
      requests, naps := [], [];
    }

    ghost predicate Ready()
      reads this, collector, collector.Repr()
    {
      collector.Valid() && this as object !in collector.Repr() && collector as object !in collector.Repr()
      && process in collector.limiters
    }

    method SleepForRetry(attempt: nat, retryAfter: Option<int>, deadline: Option<real>)
      returns (failure: Option<Failure>)
      requires Ready() && attempt > 0 && collector.StageOf(process) == Holding
      modifies this`naps, collector.clock
      ensures Ready() && collector.clock.now >= old(collector.clock.now)
      ensures failure.None? ==>
                && var delay := policy.Delay(attempt, retryAfter, jitter(attempt));
                && delay.Some? && (delay.value > 0.0 ==> collector.clock.now >= old(collector.clock.now) + delay.value)
                && exists n :: naps == old(naps) + [n] && n.seconds == delay.value && TimelyNap(n, deadline)
      ensures failure.Some? ==> naps == old(naps) && failure.value == RetryBudgetExceeded
      ensures failure.Some? ==>
                var delay := policy.Delay(attempt, retryAfter, jitter(attempt));
                delay.None? || (deadline.Some? && collector.clock.now + delay.value >= deadline.value)
    {
      hide Spaced, Settled, NotLater;
      var delay := policy.Delay(attempt, retryAfter, jitter(attempt));
      if delay.None? {
        return Some(RetryBudgetExceeded);
      }
      var now := collector.Now();
      if deadline.Some? && now + delay.value >= deadline.value {
        return Some(RetryBudgetExceeded);
      }
      naps := naps + [Nap(now, delay.value)];
      if delay.value > 0.0 {
        collector.Pause(delay.value);
      }
      failure := None;
    }

    /** The scan over a delivered page: backdated observations, and what to retry. */
    method Inspect(page: SourcePage, requestedAt: real)
      returns (backdated: bool, retryable: bool, retryAfter: Option<int>)
      ensures backdated <==> exists i :: 0 <= i < |page.responses| && page.responses[i].receivedAt < requestedAt
      ensures !backdated ==> (retryable <==> !Clean(page))
      ensures !backdated ==>
                (retryable <==> exists i :: 0 <= i < |page.responses| && page.responses[i].status.Some? &&
                                            (page.responses[i].status.value == 429 ||
                                             page.responses[i].status.value >= 500))
      ensures !backdated ==> IsLongestDemand(page.responses, retryAfter)
    {
      backdated, retryable, retryAfter := false, false, None;
      for i := 0 to |page.responses|
        invariant !backdated && forall j :: 0 <= j < i ==> page.responses[j].receivedAt >= requestedAt
        invariant retryable <==> exists j :: 0 <= j < i && RetryableStatus(page.responses[j])
        invariant IsLongestDemand(page.responses[..i], retryAfter)
      {
        var r := page.responses[i];
        assert page.responses[..i + 1] == page.responses[..i] + [r];
        OneMoreDemand(page.responses[..i], r, retryAfter);
        if r.receivedAt < requestedAt {
          backdated := true;
          return;
        }
        if RetryableStatus(r) {
          retryable := true;
          if r.retryAfter.Some? {
            var known := if retryAfter.Some? then retryAfter.value else 0;
            retryAfter := Some(if r.retryAfter.value > known then r.retryAfter.value else known);
          }
        }
      }
      assert page.responses[..|page.responses|] == page.responses;
    }

    /** One pass of the retry loop: rate limit, deadline, request, inspection. */
    method Attempt(transport: Transport, cursor: Option<Cursor>, deadline: Option<real>) returns (r: AttemptResult)
      requires Ready() && collector.StageOf(process) == Holding
      modifies this`requests, collector`tokens, collector.clock, collector.limiters[process]
      ensures Ready() && Since(old(collector.tokens), collector.tokens, old(collector.clock.now))
      ensures collector.clock.now >= old(collector.clock.now)
      ensures requests == old(requests) ||
              exists q :: requests == old(requests) + [q] && TimelyRequest(q, deadline, requestTimeout)
      ensures deadline.None? ==> requests != old(requests)
      ensures requests != old(requests) ==>
                && |requests| == |old(requests)| + 1 && old(requests) <= requests
                && requests[|old(requests)|].cursor == cursor
      ensures r.Got? ==>
                && requests != old(requests) && transport(cursor, |old(requests)|) == Delivered(r.page)
                && Clean(r.page) && !Backdated(r.page, requests[|old(requests)|])
      ensures r.Again? ==>
                && requests != old(requests)
                && var answer := transport(cursor, |old(requests)|);
                   if answer.ConnectionFailed? then r.retryAfter == None
                   else && answer.Delivered? && !Clean(answer.page)
                        && !Backdated(answer.page, requests[|old(requests)|])
                        && IsLongestDemand(answer.page.responses, r.retryAfter)
      ensures r == GiveUp(ObservationBackdated) ==>
                && requests != old(requests) && transport(cursor, |old(requests)|).Delivered?
                && Backdated(transport(cursor, |old(requests)|).page, requests[|old(requests)|])
      ensures r.GiveUp? ==> FetchFailure(r.failure) && r.failure != AttemptsExhausted
      ensures r == GiveUp(RetryBudgetExceeded) ==>
              requests == old(requests) && deadline.Some? && collector.clock.now >= deadline.value
      ensures r == GiveUp(AdapterBroken) ==> requests != old(requests) && transport(cursor, |old(requests)|).Broken?
      ensures deadline.None? && NothingGoesWrong(transport) ==> r.Got? || r == GiveUp(ObservationBackdated)
    {
      hide Spaced, Settled, NotLater;
      var _ := collector.Request(process);
      var requestedAt := collector.Now();
      var timeout := requestTimeout;
      if deadline.Some? {
        var remaining := deadline.value - requestedAt;
        if remaining <= 0.0 {
          return GiveUp(RetryBudgetExceeded);
        }
        timeout := Min(timeout, remaining);
      }
      var answer := transport(cursor, |requests|);
      requests := requests + [Request(cursor, requestedAt, timeout)];
      match answer {
        case Broken =>
          r := GiveUp(AdapterBroken);
        case ConnectionFailed =>
          r := Again(None);
        case Delivered(page) =>
          var backdated, retryable, retryAfter := Inspect(page, requestedAt);
          r := if backdated then GiveUp(ObservationBackdated) else if retryable then Again(retryAfter) else Got(page);
      }
    }

    /** One attempt and the wait after it, or the result. */
    method TryOnce(transport: Transport, cursor: Option<Cursor>, deadline: Option<real>, attempt: nat)
      returns (ended: Option<FetchResult>)
      requires Ready() && collector.StageOf(process) == Holding && 0 < attempt <= policy.maxAttempts
      modifies this`requests, this`naps, collector`tokens, collector.clock, collector.limiters[process]
      ensures Ready() && Since(old(collector.tokens), collector.tokens, old(collector.clock.now))
      ensures collector.clock.now >= old(collector.clock.now)
      ensures Extends(old(requests), requests, old(naps), naps, deadline, requestTimeout)
      ensures |requests| <= |old(requests)| + 1 && old(requests) <= requests && old(naps) <= naps
      ensures ended.None? ==>
                && |requests| == |old(requests)| + 1 && |naps| == |old(naps)| + 1 && attempt < policy.maxAttempts
                && IsRetried(transport(cursor, |old(requests)|), requests[|old(requests)|])
                && NapFits(policy, jitter, transport(cursor, |old(requests)|), attempt, naps[|old(naps)|].seconds)
      ensures ended.Some? ==>
                naps == old(naps) && Ended(transport, cursor, old(requests), requests, attempt == policy.maxAttempts,
                                           ended.value, deadline)
      ensures deadline.None? && NothingGoesWrong(transport) ==>
                ended.Some? && (ended.value.Fetched? || ended.value == FetchFailed(ObservationBackdated))
    {
      hide Spaced, Settled, NotLater, Clean, NothingGoesWrong, TimelyRequest, TimelyNap, Collector.Coherent, Backdated,
           NapFits, IsLongestDemand;
      ghost var before, answer := requests, transport(cursor, |requests|);
      var outcome := Attempt(transport, cursor, deadline);
      NothingYet(before, naps, deadline, requestTimeout);
      OneMoreRequest(before, before, requests, naps, naps, deadline, requestTimeout);
      match outcome {
        case Got(page) => ended := Some(Fetched(page));
        case GiveUp(failure) => ended := Some(FetchFailed(failure));
        case Again(retryAfter) =>
          if attempt == policy.maxAttempts {
            return Some(FetchFailed(AttemptsExhausted));
          }
          var failure := SleepForRetry(attempt, retryAfter, deadline);
          if failure.Some? {
            return Some(FetchFailed(failure.value));
          }
          DemandIsNap(policy, jitter, answer, attempt, retryAfter, naps[|naps| - 1].seconds);
          ended := None;
      }
    }

    method FetchWithRetry(transport: Transport, cursor: Option<Cursor>, deadline: Option<real>) returns (r: FetchResult)
      requires Ready() && collector.StageOf(process) == Holding
      modifies this`requests, this`naps, collector`tokens, collector.clock, collector.limiters[process]
      ensures Ready() && Since(old(collector.tokens), collector.tokens, old(collector.clock.now))
      ensures collector.clock.now >= old(collector.clock.now)
      ensures Extends(old(requests), requests, old(naps), naps, deadline, requestTimeout)
      ensures |requests| <= |old(requests)| + policy.maxAttempts
      ensures r.FetchFailed? ==> FetchFailure(r.failure)
      ensures r == FetchFailed(AttemptsExhausted) ==> |requests| == |old(requests)| + policy.maxAttempts
      ensures r.Fetched? ==>
                && |requests| > |old(requests)|
                && transport(cursor, |requests| - 1) == Delivered(r.page) && Clean(r.page)
      ensures deadline.None? && NothingGoesWrong(transport) && policy.maxAttempts > 0 ==>
              r.Fetched? || r == FetchFailed(ObservationBackdated)
      ensures r.Fetched? ==>
                && !Backdated(r.page, requests[|requests| - 1])
                && forall i :: 0 <= i < |r.page.responses| && r.page.responses[i].status.Some? ==>
                     r.page.responses[i].status.value != 429 && r.page.responses[i].status.value < 500
      ensures NapsFit(policy, jitter, transport, cursor, |old(requests)|, old(naps), naps)
      ensures |naps| - |old(naps)| <= |requests| - |old(requests)| <= |naps| - |old(naps)| + 1
      ensures deadline.None? && policy.maxAttempts > 0 && transport(cursor, |old(requests)|).Delivered? ==>
                |requests| > |old(requests)| &&
                FirstPageDecides(transport(cursor, |old(requests)|).page, requests, |old(requests)|, r)
    {
      hide Spaced, Settled, NotLater, Clean, NothingGoesWrong, Extends, Collector.Coherent, Collector.Repr, Backdated,
           NapsFit, NapFits, GoodStatuses, FirstPageDecides, IsRetried, Ended, Since;
      NoNaps(policy, jitter, transport, cursor, |requests|, naps);
      NothingYet(requests, naps, deadline, requestTimeout);
      NothingSince(collector.tokens, collector.clock.now);
      var attempt := 1;
      while attempt <= policy.maxAttempts
        invariant attempt == 1 || 1 < attempt <= policy.maxAttempts
        invariant Ready() && Since(old(collector.tokens), collector.tokens, old(collector.clock.now))
        invariant collector.clock.now >= old(collector.clock.now)
        invariant |requests| == |old(requests)| + attempt - 1 && old(requests) <= requests
        invariant |naps| == |old(naps)| + attempt - 1
        invariant Extends(old(requests), requests, old(naps), naps, deadline, requestTimeout)
        invariant deadline.None? && NothingGoesWrong(transport) ==> attempt == 1
        invariant NapsFit(policy, jitter, transport, cursor, |old(requests)|, old(naps), naps)
        invariant attempt > 1 ==> IsRetried(transport(cursor, |old(requests)|), requests[|old(requests)|])
      {
        ghost var before, napsBefore, taken, start := requests, naps, collector.tokens, collector.clock.now;
        var ended := TryOnce(transport, cursor, deadline, attempt);
        SinceOn(old(collector.tokens), taken, collector.tokens, old(collector.clock.now), start);
        ExtendsOn(old(requests), before, requests, old(naps), napsBefore, naps, deadline, requestTimeout);
        if ended.Some? {
          EndedDecides(transport, cursor, before, requests, |old(requests)|, attempt == policy.maxAttempts, ended.value,
                       deadline);
          return ended.value;
        }
        OneMoreNap(policy, jitter, transport, cursor, |old(requests)|, old(naps), napsBefore, naps[|napsBefore|]);
        assert naps == napsBefore + [naps[|napsBefore|]];
        attempt := attempt + 1;
      }
      r := FetchFailed(AttemptsExhausted);
    }

    /** Ingest a page's responses in order; the sink refusing one ends the job. */
    method IngestPage(page: SourcePage) returns (accepted: nat, failure: Option<Failure>)
      ensures failure.None? ==> accepted == |page.responses|
      ensures failure.None? <==> forall i :: 0 <= i < |page.responses| ==> page.responses[i].action == Accepted
      ensures failure.Some? ==> failure.value in {NotAccepted, Quarantined}
      ensures failure.Some? ==>
                && accepted < |page.responses|
                && (forall i :: 0 <= i < accepted ==> page.responses[i].action == Accepted)
                && failure.value == if page.responses[accepted].action == RetryLater then NotAccepted else Quarantined
    {
      accepted := 0;
      while accepted < |page.responses|
        invariant accepted <= |page.responses|
        invariant forall i :: 0 <= i < accepted ==> page.responses[i].action == Accepted
      {
        match page.responses[accepted].action {
          case RetryLater => return accepted, Some(NotAccepted);
          case Quarantine => return accepted, Some(Quarantined);
          case Accepted =>
        }
        accepted := accepted + 1;
      }
      failure := None;
    }

    /** One page of the loop: deadline, fetch with retries, ingest every response. */
    method SyncPage(transport: Transport, cursor: Option<Cursor>, deadline: Option<real>) returns (r: FetchResult)
      requires Ready() && collector.StageOf(process) == Holding
      modifies this`requests, this`naps, collector`tokens, collector.clock, collector.limiters[process]
      ensures Ready() && Since(old(collector.tokens), collector.tokens, old(collector.clock.now))
      ensures collector.clock.now >= old(collector.clock.now)
      ensures Extends(old(requests), requests, old(naps), naps, deadline, requestTimeout)
      ensures |requests| <= |old(requests)| + policy.maxAttempts
      ensures r.FetchFailed? ==> r.failure != CursorRepeated && r.failure != LeaseUnavailable
      ensures deadline.Some? && old(collector.clock.now) >= deadline.value ==> r == FetchFailed(DeadlineReached)
      ensures r == FetchFailed(DeadlineReached) ==>
                deadline.Some? && collector.clock.now >= deadline.value && requests == old(requests)
      ensures r.Fetched? ==>
                && |requests| > |old(requests)|
                && transport(cursor, |requests| - 1) == Delivered(r.page) && Clean(r.page)
                && forall i :: 0 <= i < |r.page.responses| ==> r.page.responses[i].action == Accepted
      ensures deadline.None? && NothingGoesWrong(transport) && policy.maxAttempts > 0 ==>
              r.Fetched? || r == FetchFailed(ObservationBackdated)
    {
      hide Extends, Clean, Spaced, Settled, NotLater;
      NothingYet(requests, naps, deadline, requestTimeout);
      var now := collector.Now();
      if deadline.Some? && now >= deadline.value {
        return FetchFailed(DeadlineReached);
      }
      r := FetchWithRetry(transport, cursor, deadline);
      if r.Fetched? {
        var _, failure := IngestPage(r.page);
        if failure.Some? {
          return FetchFailed(failure.value);
        }
      }
    }

    /** The page loop of one job. It stops on every finite source, cyclic ones included. */
    method SyncPages(transport: Transport, source: Source, deadline: Option<real>, ghost cursors: set<Cursor>)
      returns (r: SyncResult, ghost pages: nat)
      requires Ready() && collector.StageOf(process) == Holding
      requires Serves(transport, source) && CursorsFrom(transport, cursors)
      modifies this`requests, this`naps, collector`tokens, collector.clock, collector.limiters[process]
      ensures Ready() && Since(old(collector.tokens), collector.tokens, old(collector.clock.now))
      ensures collector.clock.now >= old(collector.clock.now)
      ensures Extends(old(requests), requests, old(naps), naps, deadline, requestTimeout)
      ensures pages <= |cursors| + 1 && |requests| <= |old(requests)| + policy.maxAttempts * (|cursors| + 1)
      ensures r.Synced? ==>
                && pages > 0 && SpotAfter(source, pages - 1).At? && SpotAfter(source, pages).End?
                && r.accepted == TotalOf(source, pages)
      ensures r != Failed(LeaseUnavailable)
      ensures r == Failed(DeadlineReached) ==> deadline.Some? && collector.clock.now >= deadline.value
      ensures deadline.Some? && old(collector.clock.now) >= deadline.value ==>
                r == Failed(DeadlineReached) && requests == old(requests)
      ensures r == Failed(CursorRepeated) ==>
                && SpotAfter(source, pages).At?
                && exists i :: 0 <= i < pages && SpotAfter(source, i) == SpotAfter(source, pages)
      ensures deadline.None? && NothingGoesWrong(transport) && policy.maxAttempts > 0 ==>
              r.Synced? || r.failure in {CursorRepeated, ObservationBackdated}
    {
      hide Spaced, Settled, NotLater, OnChain, TotalOf, SpotAfter, Extends, Serves, CursorsFrom, NothingGoesWrong,
           Clean, Since;
      var accepted: nat := 0;
      var cursor: Option<Cursor> := None;
      var seen: set<Option<Cursor>> := {None};
      pages := 0;
      StartOfChain(source, cursors);
      NothingSince(collector.tokens, collector.clock.now);
      NothingYet(requests, naps, deadline, requestTimeout);
      while true
        invariant Ready() && Since(old(collector.tokens), collector.tokens, old(collector.clock.now))
        invariant collector.clock.now >= old(collector.clock.now)
        invariant Extends(old(requests), requests, old(naps), naps, deadline, requestTimeout)
        invariant OnChain(source, cursors, seen, cursor, pages, accepted)
        invariant deadline.Some? && old(collector.clock.now) >= deadline.value ==> requests == old(requests)
        invariant |requests| <= |old(requests)| + policy.maxAttempts * pages && pages <= |cursors|
        decreases |cursors| - pages
      {
        ghost var before, napsBefore, taken, start := requests, naps, collector.tokens, collector.clock.now;
        var fetched := SyncPage(transport, cursor, deadline);
        SinceOn(old(collector.tokens), taken, collector.tokens, old(collector.clock.now), start);
        ExtendsOn(old(requests), before, requests, old(naps), napsBefore, naps, deadline, requestTimeout);
        MoreAttempts(policy.maxAttempts, pages, |cursors|);
        if fetched.FetchFailed? {
          return Failed(fetched.failure), pages;
        }
        ServedPage(transport, source, cursors, cursor, |requests| - 1);
        var page := fetched.page;
        NextOnChain(source, cursors, seen, cursor, pages, accepted);
        accepted := accepted + |page.responses|;
        pages := pages + 1;
        cursor := page.next;
        if cursor.None? {
          return Synced(accepted), pages;
        }
        if cursor in seen {
          return Failed(CursorRepeated), pages;
        }
        seen := seen + {cursor};
      }
    }

    /** The whole job: nothing is held and nothing is unsettled afterwards, whichever way it ends. */
    method Sync(transport: Transport, source: Source, deadline: Option<real>, ghost cursors: set<Cursor>)
      returns (r: SyncResult, ghost pages: nat)
      requires Ready() && collector.StageOf(process) == Idle
      requires Serves(transport, source) && CursorsFrom(transport, cursors)
      modifies this`requests, this`naps, collector, collector.lease, collector.clock, collector.limiters[process]
      ensures Ready() && Since(old(collector.tokens), collector.tokens, old(collector.clock.now))
      ensures collector.StageOf(process) == Idle
      ensures Extends(old(requests), requests, old(naps), naps, deadline, requestTimeout)
      ensures |requests| <= |old(requests)| + policy.maxAttempts * (|cursors| + 1)
      ensures r == Failed(LeaseUnavailable) <==> exists q: Process :: old(collector.StageOf(q)) != Idle
      ensures r == Failed(LeaseUnavailable) ==> requests == old(requests) && collector.tokens == old(collector.tokens)
      ensures r.Synced? ==>
                && 0 < pages <= |cursors| + 1 && SpotAfter(source, pages - 1).At? && SpotAfter(source, pages).End?
                && r.accepted == TotalOf(source, pages)
      ensures r == Failed(CursorRepeated) ==> forall m: nat :: SpotAfter(source, m).At?
      ensures r == Failed(DeadlineReached) ==> deadline.Some? && collector.clock.now >= deadline.value
      ensures deadline.Some? && old(collector.clock.now) >= deadline.value ==>
                r.Failed? && r.failure in {LeaseUnavailable, DeadlineReached} && requests == old(requests)
      ensures deadline.None? && NothingGoesWrong(transport) && policy.maxAttempts > 0 ==>
              r.Synced? || r.failure in {LeaseUnavailable, CursorRepeated, ObservationBackdated}
      ensures waitAfterGlobalLease && old(collector.limiters[process].last).None? ==>
                Since(old(collector.tokens), collector.tokens, old(collector.clock.now) + collector.interval)
    {
      hide Spaced, Settled, NotLater, Since, Extends, Serves, CursorsFrom, TotalOf, SpotAfter, Collector.Coherent,
           Collector.Repr;
      NothingYet(requests, naps, deadline, requestTimeout);
      pages := 0;
      NothingSince(collector.tokens, collector.clock.now);
      NothingSince(collector.tokens, collector.clock.now + collector.interval);
      var acquired := collector.Acquire(process);
      if !acquired {
        return Failed(LeaseUnavailable), 0;
      }
      if waitAfterGlobalLease {
        collector.Settle(process);
      }
      ghost var start := collector.clock.now;
      r, pages := SyncPages(transport, source, deadline, cursors);
      LaterIsSince(old(collector.tokens), collector.tokens, start);
      if r == Failed(CursorRepeated) {
        NeverEnds(source, pages);
      }
      collector.Cooldown(process);
      collector.Release(process);
    }
  }
}
