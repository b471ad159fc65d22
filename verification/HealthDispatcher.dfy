/** The alert table and one dispatcher process working on it while others do the same. */
module HealthDispatcher {
  import opened Wrappers
  import opened HealthDispatch

  datatype Key = Key(destination: string, checkId: string)

  /** A validated check; `evidence` stands for its stable evidence. */
  datatype Check = Check(checkId: string, status: Status, evidence: string)

  datatype Report = Report(evaluatedAt: real, checks: seq<Check>)

  /** A transaction of some other dispatcher process. */
  datatype Foreign = Foreign(key: Key, step: Step)

  /** What the outside world answers for one check: token, clocks, POST result, and the transactions of
      other processes: `earlier` before the check's own first transaction, `others` during its POST. */
  datatype Turn = Turn(token: Token, now: real, delivered: bool, sentAt: real, earlier: seq<Foreign>,
                       others: seq<Foreign>)

  datatype Outcome = Quiet | Suppressed | Failed(key: IdempotencyKey) | Delivered(key: IdempotencyKey)

  datatype DispatchResult = DispatchResult(planned: int, sent: int, suppressed: int, failed: int) {
    /** Zero when nothing failed, otherwise three. */
    function ExitCode(): (code: int)
      ensures code in {0, 3} && (code == 0 <==> failed == 0)
    {
      if failed == 0 then 0 else 3
    }
  }

  function FingerprintOf(destination: string, c: Check): Fingerprint {
    Digest(destination, c.checkId, c.status, c.evidence)
  }

  function ObservationOf(destination: string, r: Report, i: nat, t: Turn, timeout: real): Observation
    requires i < |r.checks|
  {
    var c := r.checks[i];
    Observation(r.evaluatedAt, c.status, if c.status == Healthy then Blank else FingerprintOf(destination, c),
                t.token, t.now, timeout, t.sentAt, t.delivered)
  }

  /** Two checks have the same fingerprint exactly when they agree in everything stable about them. */
  lemma FingerprintTells(destination: string, a: Check, other: string, b: Check)
    ensures FingerprintOf(destination, a) == FingerprintOf(other, b) <==>
            destination == other && a.checkId == b.checkId && a.status == b.status && a.evidence == b.evidence
  {
  }

  /** What the reservation of a check asks for: the report's evaluation time and the turn's own clock. */
  lemma ObservationReserves(destination: string, r: Report, i: nat, t: Turn, timeout: real)
    requires i < |r.checks| && r.checks[i].status != Healthy
    ensures var o := ObservationOf(destination, r, i, t, timeout);
            && ReserveStep(o) == Reserve(t.token, FingerprintOf(destination, r.checks[i]), r.checks[i].status,
                                         r.evaluatedAt, t.now, timeout)
            && ValidObservation(o) && o.sentAt == t.sentAt && o.delivered == t.delivered
  {
  }

  predicate DistinctChecks(r: Report) {
    forall i, j :: 0 <= i < j < |r.checks| ==> r.checks[i].checkId != r.checks[j].checkId
  }

  /** The counters a sequence of outcomes amounts to. */
  function Tally(outcomes: seq<Outcome>): (t: DispatchResult)
    ensures t.planned == t.sent + t.suppressed + t.failed
    ensures t.sent >= 0 && t.suppressed >= 0 && t.failed >= 0
    ensures t.ExitCode() == 0 <==> forall i :: 0 <= i < |outcomes| ==> !outcomes[i].Failed?
  {
    if outcomes == [] then DispatchResult(0, 0, 0, 0) else
      var t := Tally(outcomes[..|outcomes| - 1]);
      match outcomes[|outcomes| - 1]
      case Quiet => t
      case Suppressed => t.(planned := t.planned + 1, suppressed := t.suppressed + 1)
      case Delivered(_) => t.(planned := t.planned + 1, sent := t.sent + 1)
      case Failed(_) => t.(planned := t.planned + 1, failed := t.failed + 1)
  }

  function Places(outcomes: seq<Outcome>, p: Outcome -> bool): set<nat> {
    set i: nat | i < |outcomes| && p(outcomes[i])
  }

  lemma OneMorePlace(outcomes: seq<Outcome>, p: Outcome -> bool)
    requires outcomes != []
    ensures |Places(outcomes, p)| ==
            |Places(outcomes[..|outcomes| - 1], p)| + if p(outcomes[|outcomes| - 1]) then 1 else 0
  {
    var n := |outcomes| - 1;
    assert Places(outcomes, p) == Places(outcomes[..n], p) + if p(outcomes[n]) then {n} else {};
  }

  /** The counters are the numbers of checks with these outcomes. */
  lemma {:induction false} TallyCounts(outcomes: seq<Outcome>)
    ensures Tally(outcomes).sent == |Places(outcomes, (o: Outcome) => o.Delivered?)|
    ensures Tally(outcomes).suppressed == |Places(outcomes, (o: Outcome) => o.Suppressed?)|
    ensures Tally(outcomes).failed == |Places(outcomes, (o: Outcome) => o.Failed?)|
  {
    if outcomes == [] {
      assert forall p :: Places(outcomes, p) == {};
    } else {
      TallyCounts(outcomes[..|outcomes| - 1]);
      hide Places;
      OneMorePlace(outcomes, (o: Outcome) => o.Delivered?);
      OneMorePlace(outcomes, (o: Outcome) => o.Suppressed?);
      OneMorePlace(outcomes, (o: Outcome) => o.Failed?);
    }
  }

  /** The step at position n of a history took effect and left exactly this event. */
  ghost predicate Did(h: seq<Step>, n: nat, s: Step, e: Event) {
    n < |h| && h[n] == s && Apply(Run(h[..n]).row, s).events == [e]
  }

  ghost predicate DidNothing(h: seq<Step>, n: nat, s: Step) {
    n < |h| && h[n] == s && Apply(Run(h[..n]).row, s).events == []
  }

  /** What an outcome means in the history of its row. */
  ghost predicate Justified(h: seq<Step>, o: Observation, outcome: Outcome) {
    match outcome
    case Quiet => o.status == Healthy && Recover(o.evaluatedAt) in h
    case Suppressed => o.status != Healthy && exists n :: DidNothing(h, n, ReserveStep(o))
    case Delivered(key) =>
      && o.status != Healthy && o.delivered && key.fingerprint == o.fingerprint
      && (exists n :: Did(h, n, ReserveStep(o), Granted(o.token, o.fingerprint, o.status, key.episode)))
      && (exists m :: Did(h, m, MarkSent(o.token, o.sentAt), Sent(o.token, key.episode)))
    case Failed(key) =>
      && o.status != Healthy && key.fingerprint == o.fingerprint
      && (exists n :: Did(h, n, ReserveStep(o), Granted(o.token, o.fingerprint, o.status, key.episode)))
      && (o.delivered ==> exists m :: DidNothing(h, m, MarkSent(o.token, o.sentAt)))
      && (!o.delivered ==> Release(o.token) in h)
  }

  lemma JustifiedStaysSo(h: seq<Step>, h': seq<Step>, o: Observation, outcome: Outcome)
    requires h <= h' && Justified(h, o, outcome)
    ensures Justified(h', o, outcome)
  {
    forall n | 0 <= n < |h|
      ensures h'[n] == h[n] && h'[..n] == h[..n]
    {
    }
    forall n: nat, s: Step
      ensures DidNothing(h, n, s) ==> DidNothing(h', n, s)
    {
    }
    forall n: nat, s: Step, e: Event
      ensures Did(h, n, s, e) ==> Did(h', n, s, e)
    {
    }
  }

  /** The part of other processes' work that falls on one row. */
  function StepsOn(others: seq<Foreign>, k: Key): seq<Step> {
    if others == [] then [] else
      StepsOn(others[..|others| - 1], k) +
      if others[|others| - 1].key == k then [others[|others| - 1].step] else []
  }

  predicate Unused(h: seq<Step>, token: Token) {
    forall i :: 0 <= i < |h| && h[i].Reserve? ==> h[i].token != token
  }

  predicate UnusedByOthers(others: seq<Foreign>, token: Token) {
    forall i :: 0 <= i < |others| && others[i].step.Reserve? ==> others[i].step.token != token
  }

  lemma {:induction false} StepsOnUnused(others: seq<Foreign>, k: Key, token: Token)
    requires UnusedByOthers(others, token)
    ensures Unused(StepsOn(others, k), token)
  {
    if others != [] {
      StepsOnUnused(others[..|others| - 1], k, token);
    }
  }

  lemma LiveTokenIsLastGrant(h: seq<Step>, token: Token)
    requires Alerts(h) && Live(Run(h).row, token)
    ensures var log := Run(h).events;
            |log| > 0 && log[|log| - 1].Granted? && log[|log| - 1].token == token &&
            log[|log| - 1].episode == Run(h).row.value.episode
  {
    RunInvariant(h);
  }

  /** While a fresh token is live, the row is still in the episode that was granted to it. */
  lemma OwnGrantEpisode(h: seq<Step>, n: nat, s: Step, e: Event)
    requires Alerts(h) && Did(h, n, s, e) && s.Reserve?
    requires Unused(h[..n], s.token) && Unused(h[n + 1..], s.token)
    requires Live(Run(h).row, s.token)
    ensures Run(h).row.value.episode == e.episode
  {
    hide Run, Apply;
    LiveTokenIsLastGrant(h, s.token);
    var log := Run(h).events;
    var k := GrantComesFromReserve(h, |log| - 1);
    assert k == n;
    RunAppend(h[..n], s);
    assert h[..n + 1] == h[..n] + [s];
    EpisodeAndObservationTimeNeverDecrease(h[..n + 1], h[n + 1..]);
    assert h == h[..n + 1] + h[n + 1..];
  }

  ghost predicate Matches(row: Option<Row>, h: seq<Step>) {
    row == Run(h).row && Alerts(h)
  }

  function RowIn(rows: map<Key, Row>, k: Key): Option<Row> {
    if k in rows then Some(rows[k]) else None
  }

  ghost function HistoryIn(history: map<Key, seq<Step>>, k: Key): seq<Step> {
    if k in history then history[k] else []
  }

  ghost predicate AllMatch(rows: map<Key, Row>, history: map<Key, seq<Step>>) {
    forall k :: Matches(RowIn(rows, k), HistoryIn(history, k))
  }

  /** One transaction on one row, and nothing else. */
  ghost predicate Stepped(rows: map<Key, Row>, history: map<Key, seq<Step>>,
                          rows': map<Key, Row>, history': map<Key, seq<Step>>, k: Key, s: Step)
  {
    && RowIn(rows', k) == Apply(RowIn(rows, k), s).row
    && history' == history[k := HistoryIn(history, k) + [s]]
    && forall other :: other != k ==> RowIn(rows', other) == RowIn(rows, other)
  }

  /** Every history is the one before followed by the others' steps on that row. */
  ghost predicate Interleaved(before: map<Key, seq<Step>>, after: map<Key, seq<Step>>, others: seq<Foreign>) {
    forall k :: HistoryIn(after, k) == HistoryIn(before, k) + StepsOn(others, k)
  }

  lemma StepsOnAppend(others: seq<Foreign>, f: Foreign, k: Key)
    ensures StepsOn(others + [f], k) == StepsOn(others, k) + if f.key == k then [f.step] else []
  {
    assert (others + [f])[..|others|] == others;
  }

  lemma InterleavedNone(before: map<Key, seq<Step>>)
    ensures Interleaved(before, before, [])
  {
    forall k
      ensures HistoryIn(before, k) == HistoryIn(before, k) + StepsOn([], k)
    {
      assert HistoryIn(before, k) + [] == HistoryIn(before, k);
    }
  }

  lemma InterleavedOnce(before: map<Key, seq<Step>>, middle: map<Key, seq<Step>>, others: seq<Foreign>, f: Foreign)
    requires Interleaved(before, middle, others)
    ensures Interleaved(before, middle[f.key := HistoryIn(middle, f.key) + [f.step]], others + [f])
  {
    var after := middle[f.key := HistoryIn(middle, f.key) + [f.step]];
    forall k
      ensures HistoryIn(after, k) == HistoryIn(before, k) + StepsOn(others + [f], k)
    {
      StepsOnAppend(others, f, k);
      var h, more := HistoryIn(before, k), StepsOn(others, k);
      assert HistoryIn(middle, k) == h + more;
      assert h + more + [f.step] == h + (more + [f.step]);
    }
  }

  lemma CommitKeepsMatches(rows: map<Key, Row>, history: map<Key, seq<Step>>, rows': map<Key, Row>, k: Key, s: Step)
    requires AllMatch(rows, history) && IsAlert(s)
    requires RowIn(rows', k) == Apply(RowIn(rows, k), s).row
    requires forall other :: other != k ==> RowIn(rows', other) == RowIn(rows, other)
    ensures AllMatch(rows', history[k := HistoryIn(history, k) + [s]])
  {
    RunAppend(HistoryIn(history, k), s);
    hide Run, Apply;
    var history' := history[k := HistoryIn(history, k) + [s]];
    forall x
      ensures Matches(RowIn(rows', x), HistoryIn(history', x))
    {
      assert Matches(RowIn(rows, x), HistoryIn(history, x));
    }
  }

  lemma RowMatches(rows: map<Key, Row>, history: map<Key, seq<Step>>, k: Key)
    requires AllMatch(rows, history)
    ensures RowIn(rows, k) == Run(HistoryIn(history, k)).row && Alerts(HistoryIn(history, k))
  {
    assert Matches(RowIn(rows, k), HistoryIn(history, k));
  }

  lemma GrantIsLive(row: Option<Row>, o: Observation)
    requires Apply(row, ReserveStep(o)).events != []
    ensures Live(Apply(row, ReserveStep(o)).row, o.token)
  {
  }

  lemma SuppressedIsJustified(h: seq<Step>, o: Observation)
    requires o.status != Healthy && Apply(Run(h).row, ReserveStep(o)).events == []
    ensures Justified(h + [ReserveStep(o)], o, Suppressed)
  {
    assert (h + [ReserveStep(o)])[..|h|] == h;
    assert DidNothing(h + [ReserveStep(o)], |h|, ReserveStep(o));
  }

  lemma PostedIsJustified(h: seq<Step>, mid: seq<Step>, o: Observation, episode: nat)
    requires o.status != Healthy && Alerts(h + [ReserveStep(o)] + mid) && Unused(h, o.token) && Unused(mid, o.token)
    requires Apply(Run(h).row, ReserveStep(o)).events == [Granted(o.token, o.fingerprint, o.status, episode)]
    ensures var h2, key := h + [ReserveStep(o)] + mid, IdempotencyKey(o.fingerprint, episode);
            && (!o.delivered ==> Justified(h2 + [Release(o.token)], o, Failed(key)))
            && (o.delivered ==> Justified(h2 + [MarkSent(o.token, o.sentAt)], o,
                                          if Live(Run(h2).row, o.token) then Delivered(key) else Failed(key)))
  {
    var r, e := ReserveStep(o), Granted(o.token, o.fingerprint, o.status, episode);
    var h2 := h + [r] + mid;
    assert h2[..|h|] == h && h2[|h| + 1..] == mid;
    assert Did(h2, |h|, r, e);
    var released, marked := h2 + [Release(o.token)], h2 + [MarkSent(o.token, o.sentAt)];
    assert released[..|h|] == h && marked[..|h|] == h && marked[..|h2|] == h2;
    assert Did(released, |h|, r, e) && Did(marked, |h|, r, e);
    assert released[|h2|] == Release(o.token);
    if Live(Run(h2).row, o.token) {
      OwnGrantEpisode(h2, |h|, r, e);
      assert Did(marked, |h2|, MarkSent(o.token, o.sentAt), Sent(o.token, episode));
    } else {
      assert DidNothing(marked, |h2|, MarkSent(o.token, o.sentAt));
    }
  }

  function KeyOf(destination: string, r: Report, i: nat): Key
    requires i < |r.checks|
  {
    Key(destination, r.checks[i].checkId)
  }

  predicate OnlyAlerts(others: seq<Foreign>) {
    forall i :: 0 <= i < |others| ==> IsAlert(others[i].step)
  }

  predicate LegalTurns(turns: seq<Turn>) {
    forall i :: 0 <= i < |turns| ==> OnlyAlerts(turns[i].earlier) && OnlyAlerts(turns[i].others)
  }

  predicate NoInterference(turns: seq<Turn>) {
    forall i :: 0 <= i < |turns| ==> turns[i].earlier == [] && turns[i].others == []
  }

  /** From check n on, the tokens of the alerts are still unused, and no other process uses them. */
  ghost predicate ReadyFrom(history: map<Key, seq<Step>>, destination: string, r: Report, turns: seq<Turn>, n: nat)
    requires |turns| == |r.checks|
  {
    forall i :: n <= i < |r.checks| ==>
      && Unused(HistoryIn(history, KeyOf(destination, r, i)), turns[i].token)
      && forall j :: 0 <= j < |turns| ==>
           UnusedByOthers(turns[j].earlier, turns[i].token) && UnusedByOthers(turns[j].others, turns[i].token)
  }

  ghost predicate Named(destination: string, r: Report, k: Key) {
    exists i :: 0 <= i < |r.checks| && KeyOf(destination, r, i) == k
  }

  /** Rows the report does not name are as they were. */
  ghost predicate OthersStay(before: map<Key, seq<Step>>, after: map<Key, seq<Step>>, destination: string, r: Report) {
    forall k: Key :: !Named(destination, r, k) ==> HistoryIn(after, k) == HistoryIn(before, k)
  }

  ghost predicate RecoveriesDone(before: map<Key, seq<Step>>, after: map<Key, seq<Step>>, destination: string,
                                 r: Report, n: nat) {
    && OthersStay(before, after, destination, r)
    && forall i :: 0 <= i < |r.checks| ==>
         var k := KeyOf(destination, r, i);
         HistoryIn(after, k) == HistoryIn(before, k) +
                                if i < n && r.checks[i].status == Healthy then [Recover(r.evaluatedAt)] else []
  }

  ghost predicate RecoveredTo(history: map<Key, seq<Step>>, destination: string, r: Report, n: nat) {
    forall i :: 0 <= i < n && i < |r.checks| && r.checks[i].status == Healthy ==>
      Recover(r.evaluatedAt) in HistoryIn(history, KeyOf(destination, r, i))
  }

  ghost predicate HealthyRecovered(history: map<Key, seq<Step>>, destination: string, r: Report) {
    RecoveredTo(history, destination, r, |r.checks|)
  }

  /** No history loses a step. */
  ghost predicate OnlyGrows(before: map<Key, seq<Step>>, after: map<Key, seq<Step>>) {
    forall k: Key :: HistoryIn(before, k) <= HistoryIn(after, k)
  }

  ghost predicate JustifiedTo(history: map<Key, seq<Step>>, destination: string, r: Report, turns: seq<Turn>,
                              timeout: real,
                              outcomes: seq<Outcome>)
    requires |turns| == |r.checks| && |outcomes| <= |r.checks|
  {
    forall i :: 0 <= i < |outcomes| ==>
      Justified(HistoryIn(history, KeyOf(destination, r, i)), ObservationOf(destination, r, i, turns[i], timeout),
                outcomes[i])
  }

  /** Healthy checks and the first n alerts have run their script on the row as it was; all other rows are
      untouched. */
  ghost predicate ScriptsDone(rows: map<Key, Row>, before: map<Key, seq<Step>>, after: map<Key, seq<Step>>,
                              destination: string, r: Report, turns: seq<Turn>, timeout: real, n: nat)
    requires |turns| == |r.checks|
  {
    && OthersStay(before, after, destination, r)
    && forall i :: 0 <= i < |r.checks| ==>
         var k := KeyOf(destination, r, i);
         HistoryIn(after, k) ==
         if i < n || r.checks[i].status == Healthy
         then HistoryIn(before, k) +
             Script(RowIn(rows, k), ObservationOf(destination, r, i, turns[i], timeout))
         else HistoryIn(before, k)
  }

  lemma OneRecovery(before: map<Key, seq<Step>>, middle: map<Key, seq<Step>>, after: map<Key, seq<Step>>,
                    destination: string,
                    r: Report, n: nat)
    requires DistinctChecks(r) && n < |r.checks| && RecoveriesDone(before, middle, destination, r, n)
    requires var k := KeyOf(destination, r, n);
             after ==
             if r.checks[n].status == Healthy then middle[k := HistoryIn(middle, k) + [Recover(r.evaluatedAt)]]
             else middle
    ensures RecoveriesDone(before, after, destination, r, n + 1)
  {
    var k := KeyOf(destination, r, n);
    assert forall other: Key :: other != k ==> HistoryIn(after, other) == HistoryIn(middle, other);
    assert Named(destination, r, k);
    hide HistoryIn, Named;
    forall i | 0 <= i < |r.checks| && i != n
      ensures KeyOf(destination, r, i) != k
    {
    }
  }

  lemma RecoveriesAreScripts(rows: map<Key, Row>, before: map<Key, seq<Step>>, after: map<Key, seq<Step>>,
                             destination: string, r: Report, turns: seq<Turn>, timeout: real)
    requires |turns| == |r.checks| && RecoveriesDone(before, after, destination, r, |r.checks|)
    ensures ScriptsDone(rows, before, after, destination, r, turns, timeout, 0)
  {
  }

  lemma NothingRecovered(history: map<Key, seq<Step>>, destination: string, r: Report)
    ensures RecoveriesDone(history, history, destination, r, 0) && RecoveredTo(history, destination, r, 0)
    ensures OnlyGrows(history, history)
  {
  }

  /** A recovery on one row leaves the tokens unused and the recoveries made. */
  lemma RecoveryKeeps(before: map<Key, seq<Step>>, after: map<Key, seq<Step>>, destination: string, r: Report,
                      turns: seq<Turn>, n: nat)
    requires |turns| == |r.checks| && n < |r.checks| && ReadyFrom(before, destination, r, turns, 0)
    requires RecoveredTo(before, destination, r, n)
    requires var k := KeyOf(destination, r, n);
             after ==
             if r.checks[n].status == Healthy then before[k := HistoryIn(before, k) + [Recover(r.evaluatedAt)]]
             else before
    ensures ReadyFrom(after, destination, r, turns, 0) && RecoveredTo(after, destination, r, n + 1) &&
            OnlyGrows(before, after)
  {
    hide UnusedByOthers;
    forall i | 0 <= i < |r.checks|
      ensures Unused(HistoryIn(after, KeyOf(destination, r, i)), turns[i].token)
    {
    }
    if r.checks[n].status == Healthy {
      var h := HistoryIn(after, KeyOf(destination, r, n));
      assert h[|h| - 1] == Recover(r.evaluatedAt);
    }
  }

  /** Transactions of others leave the tokens unused and the recoveries made. */
  lemma InterleavedKeepsReady(before: map<Key, seq<Step>>, after: map<Key, seq<Step>>, others: seq<Foreign>,
                              destination: string, r: Report, turns: seq<Turn>, n: nat, m: nat)
    requires |turns| == |r.checks| && Interleaved(before, after, others)
    requires ReadyFrom(before, destination, r, turns, n) && RecoveredTo(before, destination, r, m)
    requires forall i :: n <= i < |turns| ==> UnusedByOthers(others, turns[i].token)
    ensures ReadyFrom(after, destination, r, turns, n) && RecoveredTo(after, destination, r, m) &&
            OnlyGrows(before, after)
  {
    hide StepsOn, UnusedByOthers;
    forall i | n <= i < |r.checks|
      ensures Unused(HistoryIn(after, KeyOf(destination, r, i)), turns[i].token)
    {
      StepsOnUnused(others, KeyOf(destination, r, i), turns[i].token);
    }
  }

  lemma OthersUseNone(history: map<Key, seq<Step>>, destination: string, r: Report, turns: seq<Turn>, n: nat, j: nat)
    requires |turns| == |r.checks| && ReadyFrom(history, destination, r, turns, n) && j < |turns|
    ensures forall i :: n <= i < |turns| ==> UnusedByOthers(turns[j].earlier, turns[i].token)
  {
    hide UnusedByOthers, Unused;
  }

  lemma GrowthKeepsJustified(before: map<Key, seq<Step>>, after: map<Key, seq<Step>>, destination: string, r: Report,
                             turns: seq<Turn>, timeout: real, outcomes: seq<Outcome>)
    requires |turns| == |r.checks| && |outcomes| <= |r.checks| && OnlyGrows(before, after)
    requires JustifiedTo(before, destination, r, turns, timeout, outcomes)
    ensures JustifiedTo(after, destination, r, turns, timeout, outcomes)
  {
    hide Justified;
    forall i | 0 <= i < |outcomes|
      ensures Justified(HistoryIn(after, KeyOf(destination, r, i)),
                        ObservationOf(destination, r, i, turns[i], timeout), outcomes[i])
    {
      JustifiedStaysSo(HistoryIn(before, KeyOf(destination, r, i)), HistoryIn(after, KeyOf(destination, r, i)),
                       ObservationOf(destination, r, i, turns[i], timeout), outcomes[i]);
    }
  }

  lemma GrowsOn(a: map<Key, seq<Step>>, b: map<Key, seq<Step>>, c: map<Key, seq<Step>>)
    requires OnlyGrows(a, b) && OnlyGrows(b, c)
    ensures OnlyGrows(a, c)
  {
    hide HistoryIn;
  }

  lemma NothingJustified(history: map<Key, seq<Step>>, destination: string, r: Report, turns: seq<Turn>, timeout: real)
    requires |turns| == |r.checks|
    ensures JustifiedTo(history, destination, r, turns, timeout, [])
  {
  }

  lemma JustifiedEach(history: map<Key, seq<Step>>, destination: string, r: Report, turns: seq<Turn>, timeout: real,
                      outcomes: seq<Outcome>)
    requires |turns| == |r.checks| == |outcomes| && JustifiedTo(history, destination, r, turns, timeout, outcomes)
    ensures forall i :: 0 <= i < |r.checks| ==>
              Justified(HistoryIn(history, KeyOf(destination, r, i)),
                        ObservationOf(destination, r, i, turns[i], timeout), outcomes[i])
  {
    hide Justified;
  }

  lemma RecoveredIsQuiet(history: map<Key, seq<Step>>, destination: string, r: Report, turns: seq<Turn>, timeout: real,
                         i: nat)
    requires |turns| == |r.checks| && i < |r.checks| && r.checks[i].status == Healthy &&
             HealthyRecovered(history, destination, r)
    ensures var k := KeyOf(destination, r, i);
            && Justified(HistoryIn(history, k), ObservationOf(destination, r, i, turns[i], timeout),
                         Quiet)
            && Turned(history, history, k, turns[i].others)
  {
  }

  lemma TurnIsReady(history: map<Key, seq<Step>>, destination: string, r: Report, turns: seq<Turn>, i: nat)
    requires |turns| == |r.checks| && i < |r.checks| && ReadyFrom(history, destination, r, turns, i)
    ensures Unused(HistoryIn(history, KeyOf(destination, r, i)), turns[i].token)
    ensures UnusedByOthers(turns[i].others, turns[i].token)
  {
  }

  /** One turn lengthens histories: its own row's, and the others' by other processes' steps. */
  ghost predicate Turned(before: map<Key, seq<Step>>, after: map<Key, seq<Step>>, k: Key, others: seq<Foreign>) {
    && HistoryIn(before, k) <= HistoryIn(after, k)
    && forall other :: other != k ==>
         HistoryIn(after, other) == HistoryIn(before, other) ||
         HistoryIn(after, other) == HistoryIn(before, other) + StepsOn(others, other)
  }

  lemma TurnedOnce(before: map<Key, seq<Step>>, after: map<Key, seq<Step>>, k: Key, s: Step, others: seq<Foreign>)
    requires after == before[k := HistoryIn(before, k) + [s]]
    ensures Turned(before, after, k, others) && HistoryIn(after, k) == HistoryIn(before, k) + [s]
  {
  }

  lemma TurnedByAlert(before: map<Key, seq<Step>>, reserved: map<Key, seq<Step>>, posted: map<Key, seq<Step>>, k: Key,
                      s: Step, others: seq<Foreign>, closing: Step)
    requires reserved == before[k := HistoryIn(before, k) + [s]] && Interleaved(reserved, posted, others)
    ensures HistoryIn(posted, k) == HistoryIn(before, k) + [s] + StepsOn(others, k)
    ensures var after := posted[k := HistoryIn(posted, k) + [closing]];
            && Turned(before, after, k, others)
            && HistoryIn(after, k) == HistoryIn(before, k) + [s] + StepsOn(others, k) + [closing]
            && (others == [] ==> HistoryIn(after, k) == HistoryIn(before, k) + [s, closing])
  {
    hide StepsOn;
    assert others == [] ==> StepsOn(others, k) == [] by { NoSteps(k); }
  }

  lemma NoSteps(k: Key)
    ensures StepsOn([], k) == []
  {
  }

  lemma OneTurn(before: map<Key, seq<Step>>, after: map<Key, seq<Step>>, destination: string, r: Report,
                turns: seq<Turn>,
                timeout: real, outcomes: seq<Outcome>, outcome: Outcome)
    requires |turns| == |r.checks| && |outcomes| < |r.checks| && DistinctChecks(r)
    requires JustifiedTo(before, destination, r, turns, timeout, outcomes)
    requires HealthyRecovered(before, destination, r) && ReadyFrom(before, destination, r, turns, |outcomes|)
    requires Turned(before, after, KeyOf(destination, r, |outcomes|), turns[|outcomes|].others)
    requires Justified(HistoryIn(after, KeyOf(destination, r, |outcomes|)),
                       ObservationOf(destination, r, |outcomes|, turns[|outcomes|], timeout), outcome)
    ensures JustifiedTo(after, destination, r, turns, timeout, outcomes + [outcome])
    ensures HealthyRecovered(after, destination, r) && ReadyFrom(after, destination, r, turns, |outcomes| + 1)
  {
    hide Justified, StepsOn;
    var n := |outcomes|;
    forall i | 0 <= i < n
      ensures Justified(HistoryIn(after, KeyOf(destination, r, i)),
                        ObservationOf(destination, r, i, turns[i], timeout), outcomes[i])
    {
      JustifiedStaysSo(HistoryIn(before, KeyOf(destination, r, i)), HistoryIn(after, KeyOf(destination, r, i)),
                       ObservationOf(destination, r, i, turns[i], timeout), outcomes[i]);
    }
    forall i | n < i < |r.checks|
      ensures Unused(HistoryIn(after, KeyOf(destination, r, i)), turns[i].token)
    {
      StepsOnUnused(turns[n].others, KeyOf(destination, r, i), turns[i].token);
    }
  }

  lemma OneQuietTurn(rows0: map<Key, Row>, history0: map<Key, seq<Step>>, rows: map<Key, Row>,
                     before: map<Key, seq<Step>>, after: map<Key, seq<Step>>, destination: string, r: Report,
                     turns: seq<Turn>, timeout: real, n: nat)
    requires |turns| == |r.checks| && n < |r.checks| && DistinctChecks(r) && turns[n].others == []
    requires AllMatch(rows0, history0) && AllMatch(rows, before)
    requires ScriptsDone(rows0, history0, before, destination, r, turns, timeout, n)
    requires var k := KeyOf(destination, r, n);
             && Turned(before, after, k, [])
             && HistoryIn(after, k) ==
                if r.checks[n].status == Healthy then HistoryIn(before, k)
                else HistoryIn(before, k) +
                     Script(RowIn(rows, k), ObservationOf(destination, r, n, turns[n], timeout))
    ensures ScriptsDone(rows0, history0, after, destination, r, turns, timeout, n + 1)
  {
    hide AllMatch, Script, Run, HistoryIn, RowIn, Turned, StepsOn;
    var k := KeyOf(destination, r, n);
    RowMatches(rows0, history0, k);
    RowMatches(rows, before, k);
    OtherHistoriesStay(before, after, k);
    forall i | 0 <= i < |r.checks| && i != n
      ensures KeyOf(destination, r, i) != k
    {
    }
  }

  lemma OtherHistoriesStay(before: map<Key, seq<Step>>, after: map<Key, seq<Step>>, k: Key)
    requires Turned(before, after, k, [])
    ensures forall other: Key :: other != k ==> HistoryIn(after, other) == HistoryIn(before, other)
  {
    hide HistoryIn;
    forall other: Key | other != k
      ensures HistoryIn(after, other) == HistoryIn(before, other)
    {
      assert StepsOn([], other) == [];
    }
  }

  // ---- One report after another ----

  /** What the row of a check observes of one report: the check of that name, if the report has it. */
  ghost function ObservedIn(destination: string, r: Report, turns: seq<Turn>, timeout: real, k: Key): seq<Observation>
    requires |turns| == |r.checks|
  {
    if !Named(destination, r, k) then [] else
      var i :| 0 <= i < |r.checks| && KeyOf(destination, r, i) == k;
      [ObservationOf(destination, r, i, turns[i], timeout)]
  }

  predicate TurnsFit(reports: seq<Report>, turns: seq<seq<Turn>>) {
    |turns| == |reports| && forall n :: 0 <= n < |reports| ==> |turns[n]| == |reports[n].checks|
  }

  ghost function ObservationsOf(destination: string, reports: seq<Report>, turns: seq<seq<Turn>>, timeout: real, k: Key)
    : seq<Observation>
    requires TurnsFit(reports, turns)
    decreases |reports|
  {
    if reports == [] then [] else
      var n := |reports| - 1;
      ObservationsOf(destination, reports[..n], turns[..n], timeout, k)
      + ObservedIn(destination, reports[n], turns[n], timeout, k)
  }

  /** Reports evaluated one after the other, with tokens that no other report uses. */
  predicate Series(reports: seq<Report>, turns: seq<seq<Turn>>) {
    && TurnsFit(reports, turns)
    && (forall n :: 0 <= n < |reports| ==> DistinctChecks(reports[n]) && NoInterference(turns[n]))
    && (forall m, n :: 0 <= m < n < |reports| ==> reports[m].evaluatedAt < reports[n].evaluatedAt)
    && forall m, n, i, j :: 0 <= m < n < |turns| && 0 <= i < |turns[m]| && 0 <= j < |turns[n]| ==>
         turns[m][i].token != turns[n][j].token
  }

  ghost predicate ReportsDone(history: map<Key, seq<Step>>, destination: string, reports: seq<Report>,
                              turns: seq<seq<Turn>>, timeout: real)
    requires TurnsFit(reports, turns)
  {
    forall k :: HistoryIn(history, k) == RunReports(ObservationsOf(destination, reports, turns, timeout, k))
  }

  /** The observation is of one of the reports. */
  ghost predicate IsOf(o: Observation, reports: seq<Report>, turns: seq<seq<Turn>>)
    requires TurnsFit(reports, turns)
  {
    && ValidObservation(o)
    && exists n, i :: 0 <= n < |reports| && 0 <= i < |turns[n]|
                      && o.token == turns[n][i].token && o.evaluatedAt == reports[n].evaluatedAt
  }

  ghost predicate InOrder(obs: seq<Observation>, reports: seq<Report>, turns: seq<seq<Turn>>)
    requires TurnsFit(reports, turns)
  {
    && (forall i :: 0 <= i < |obs| ==> IsOf(obs[i], reports, turns))
    && forall i, j :: 0 <= i < j < |obs| ==> obs[i].evaluatedAt < obs[j].evaluatedAt
  }

  lemma {:induction false} ObservationsInOrder(destination: string, reports: seq<Report>, turns: seq<seq<Turn>>,
                                               timeout: real, k: Key)
    requires Series(reports, turns)
    ensures InOrder(ObservationsOf(destination, reports, turns, timeout, k), reports, turns)
    decreases |reports|
  {
    if reports != [] {
      var n := |reports| - 1;
      var init := ObservationsOf(destination, reports[..n], turns[..n], timeout, k);
      ObservationsInOrder(destination, reports[..n], turns[..n], timeout, k);
      OneMoreInOrder(init, ObservedIn(destination, reports[n], turns[n], timeout, k), reports, turns);
    }
  }

  lemma OneMoreInOrder(init: seq<Observation>, seen: seq<Observation>, reports: seq<Report>, turns: seq<seq<Turn>>)
    requires Series(reports, turns) && reports != []
    requires InOrder(init, reports[..|reports| - 1], turns[..|reports| - 1])
    requires |seen| <= 1 && forall i :: 0 <= i < |seen| ==>
               IsOf(seen[i], reports, turns) && seen[i].evaluatedAt == reports[|reports| - 1].evaluatedAt
    ensures InOrder(init + seen, reports, turns)
  {
    var n := |reports| - 1;
    forall i | 0 <= i < |init|
      ensures IsOf(init[i], reports, turns) && init[i].evaluatedAt < reports[n].evaluatedAt
    {
      assert IsOf(init[i], reports[..n], turns[..n]);
      var m, j :| 0 <= m < n && 0 <= j < |turns[m]|
                  && init[i].token == turns[m][j].token && init[i].evaluatedAt == reports[m].evaluatedAt;
      assert reports[m].evaluatedAt < reports[n].evaluatedAt;
    }
  }

  lemma {:induction false} ReportsUse(obs: seq<Observation>, token: Token)
    requires forall i :: 0 <= i < |obs| ==> obs[i].token != token
    ensures Unused(RunReports(obs), token)
  {
    hide Run, Apply;
    if obs != [] {
      ReportsUse(obs[..|obs| - 1], token);
    }
  }

  /** No token of the next report has been used by the ones before. */
  lemma NextIsReady(history: map<Key, seq<Step>>, destination: string, reports: seq<Report>, turns: seq<seq<Turn>>,
                    timeout: real, n: nat)
    requires Series(reports, turns) && n < |reports|
    requires ReportsDone(history, destination, reports[..n], turns[..n], timeout)
    ensures ReadyFrom(history, destination, reports[n], turns[n], 0) && LegalTurns(turns[n])
  {
    hide RunReports, ObservationsOf;
    var r := reports[n];
    forall i | 0 <= i < |r.checks|
      ensures Unused(HistoryIn(history, KeyOf(destination, r, i)), turns[n][i].token)
    {
      var obs := ObservationsOf(destination, reports[..n], turns[..n], timeout, KeyOf(destination, r, i));
      ObservationsInOrder(destination, reports[..n], turns[..n], timeout, KeyOf(destination, r, i));
      forall j | 0 <= j < |obs|
        ensures obs[j].token != turns[n][i].token
      {
        assert IsOf(obs[j], reports[..n], turns[..n]);
      }
      ReportsUse(obs, turns[n][i].token);
    }
  }

  lemma OneMoreDone(rows: map<Key, Row>, before: map<Key, seq<Step>>, after: map<Key, seq<Step>>, destination: string,
                    reports: seq<Report>, turns: seq<seq<Turn>>, timeout: real, n: nat)
    requires Series(reports, turns) && n < |reports| && AllMatch(rows, before)
    requires ReportsDone(before, destination, reports[..n], turns[..n], timeout)
    requires ScriptsDone(rows, before, after, destination, reports[n], turns[n], timeout, |reports[n].checks|)
    ensures ReportsDone(after, destination, reports[..n + 1], turns[..n + 1], timeout)
  {
    hide AllMatch, Script, Run, HistoryIn, RowIn;
    assert reports[..n + 1][..n] == reports[..n] && turns[..n + 1][..n] == turns[..n];
    forall k
      ensures HistoryIn(after, k) ==
              RunReports(ObservationsOf(destination, reports[..n + 1], turns[..n + 1], timeout, k))
    {
      var init := ObservationsOf(destination, reports[..n], turns[..n], timeout, k);
      var seen := ObservedIn(destination, reports[n], turns[n], timeout, k);
      RowMatches(rows, before, k);
      if seen == [] {
        assert init + seen == init;
      } else {
        assert (init + seen)[..|init|] == init;
      }
    }
  }

  lemma NothingDone(history: map<Key, seq<Step>>, destination: string, timeout: real)
    requires history == map[]
    ensures ReportsDone(history, destination, [], [], timeout)
  {
  }

  lemma AlertsOfSeries(history: map<Key, seq<Step>>, destination: string, reports: seq<Report>, turns: seq<seq<Turn>>,
                       timeout: real, k: Key)
    requires Series(reports, turns) && ReportsDone(history, destination, reports, turns, timeout)
    ensures var obs, h := ObservationsOf(destination, reports, turns, timeout, k), HistoryIn(history, k);
            h == RunReports(obs) && Run(h).events == ExpectedLog(obs) && RowAfter(obs, Run(h).row)
  {
    hide Run, ExpectedLog, RowAfter, RunReports, ObservationsOf, HistoryIn;
    ObservationsInOrder(destination, reports, turns, timeout, k);
    AlertsAreRetriedUntilDelivered(ObservationsOf(destination, reports, turns, timeout, k));
  }

  class DispatchState {
    var rows: map<Key, Row>
    ghost var history: map<Key, seq<Step>>

    constructor ()
      ensures Valid() && rows == map[] && history == map[]
    {
      rows := map[];
      history := map[];
    }

    function RowOf(k: Key): Option<Row>
      reads this
    {
      RowIn(rows, k)
    }

    ghost function HistoryOf(k: Key): seq<Step>
      reads this
    {
      HistoryIn(history, k)
    }

    /** Every row is what its history of transactions makes it, so the results about runs hold of it. */
    ghost predicate Valid()
      reads this
    {
      AllMatch(rows, history)
    }

    method RecordRecovery(k: Key, evaluatedAt: real) returns (changed: bool)
      requires Valid()
      modifies this
      ensures Valid() && Stepped(old(rows), old(history), rows, history, k, Recover(evaluatedAt))
      ensures changed <==> Apply(old(RowOf(k)), Recover(evaluatedAt)).events != []
    {
      ghost var s := Recover(evaluatedAt);
      history := history[k := HistoryOf(k) + [s]];
      if k in rows && evaluatedAt <= rows[k].latest {
        changed := false;
      } else {
        var episode := if k in rows then rows[k].episode else 0;
        rows := rows[k := Row(Blank, true, None, None, None, episode, evaluatedAt, Healthy)];
        changed := true;
      }
      CommitKeepsMatches(old(rows), old(history), rows, k, s);
    }

    method Reserve(k: Key, fingerprint: Fingerprint, status: Status, token: Token, evaluatedAt: real, now: real,
                   timeout: real)
      returns (granted: Option<nat>)
      requires Valid()
      requires fingerprint.Digest? && status != Healthy
      modifies this
      ensures Valid()
      ensures var s := Step.Reserve(token, fingerprint, status, evaluatedAt, now, timeout);
              && Stepped(old(rows), old(history), rows, history, k, s)
              && (granted.None? ==> Apply(old(RowOf(k)), s).events == [])
              && (granted.Some? ==>
                  Apply(old(RowOf(k)), s).events == [Granted(token, fingerprint, status, granted.value)])
      ensures granted.Some? <==>
              || k !in old(rows)
              || (old(rows)[k].latest < evaluatedAt
                  && (old(rows)[k].fingerprint != fingerprint || old(rows)[k].status != status))
              || (old(rows)[k].latest <= evaluatedAt && old(rows)[k].fingerprint == fingerprint
                  && old(rows)[k].status == status && !old(rows)[k].sent
                  && (old(rows)[k].reservedUntil.None? || old(rows)[k].reservedUntil.value <= now))
    {
      var s := Step.Reserve(token, fingerprint, status, evaluatedAt, now, timeout);
      history := history[k := HistoryOf(k) + [s]];
      var episode := 1;
      var refused := false;
      if k in rows {
        var r := rows[k];
        var same := SameObservation(r, fingerprint, status);
        if evaluatedAt < r.latest || (evaluatedAt == r.latest && !same) {
          refused := true;
        } else if same && (r.sent || ActiveReservation(r, now)) {
          if evaluatedAt > r.latest {
            rows := rows[k := r.(latest := evaluatedAt)];
          }
          refused := true;
        } else {
          episode := r.episode;
          if evaluatedAt > r.latest && !same {
            episode := episode + 1;
          }
          episode := if episode < 1 then 1 else episode;
        }
      }
      if refused {
        granted := None;
      } else {
        rows := rows[k := Pending(s, episode)];
        granted := Some(episode);
      }
      CommitKeepsMatches(old(rows), old(history), rows, k, s);
    }

    method ReleaseReservation(k: Key, token: Token)
      requires Valid()
      modifies this
      ensures Valid() && Stepped(old(rows), old(history), rows, history, k, Release(token))
    {
      ghost var s := Release(token);
      history := history[k := HistoryOf(k) + [s]];
      if k in rows && !rows[k].sent && rows[k].token == Some(token) {
        rows := rows[k := rows[k].(token := None, reservedUntil := None)];
      }
      CommitKeepsMatches(old(rows), old(history), rows, k, s);
    }

    /** False is the source's `state_reservation_lost`. */
    method RecordSent(k: Key, token: Token, sentAt: real) returns (marked: bool)
      requires Valid()
      modifies this
      ensures Valid() && Stepped(old(rows), old(history), rows, history, k, MarkSent(token, sentAt))
      ensures marked <==> Live(old(RowOf(k)), token)
    {
      ghost var s := MarkSent(token, sentAt);
      history := history[k := HistoryOf(k) + [s]];
      marked := k in rows && !rows[k].sent && rows[k].token == Some(token);
      if marked {
        rows := rows[k := rows[k].(sent := true, token := None, reservedUntil := None, sentAt := Some(sentAt))];
      }
      CommitKeepsMatches(old(rows), old(history), rows, k, s);
    }

    method Do(f: Foreign)
      requires Valid() && IsAlert(f.step)
      modifies this
      ensures Valid() && Stepped(old(rows), old(history), rows, history, f.key, f.step)
    {
      match f.step {
        case Reserve(token, fingerprint, status, evaluatedAt, now, timeout) =>
          var _ := Reserve(f.key, fingerprint, status, token, evaluatedAt, now, timeout);
        case Release(token) => ReleaseReservation(f.key, token);
        case MarkSent(token, at) => var _ := RecordSent(f.key, token, at);
        case Recover(at) => var _ := RecordRecovery(f.key, at);
      }
    }

    /** Other processes' transactions, in the order they commit. */
    method Interfere(others: seq<Foreign>)
      requires Valid() && OnlyAlerts(others)
      modifies this
      ensures Valid() && Interleaved(old(history), history, others)
      ensures others == [] ==> rows == old(rows) && history == old(history)
    {
      hide Matches, StepsOn, HistoryIn, RowIn, Interleaved;
      InterleavedNone(history);
      for i := 0 to |others|
        invariant Valid() && Interleaved(old(history), history, others[..i])
        invariant others == [] ==> rows == old(rows) && history == old(history)
      {
        InterleavedOnce(old(history), history, others[..i], others[i]);
        Do(others[i]);
        assert others[..i + 1] == others[..i] + [others[i]];
      }
      assert others[..|others|] == others;
    }

    /** One alert: reserve, POST, then release or mark, with other processes active during the POST. */
    method DeliverAlert(k: Key, o: Observation, t: Turn) returns (outcome: Outcome)
      requires Valid()
      requires o.fingerprint.Digest? && o.status != Healthy && o.token == t.token && o.sentAt == t.sentAt
      requires o.delivered == t.delivered
      requires Unused(HistoryOf(k), t.token) && UnusedByOthers(t.others, t.token)
      requires OnlyAlerts(t.others)
      modifies this
      ensures Valid() && Turned(old(history), history, k, t.others)
      ensures !outcome.Quiet? && Justified(HistoryOf(k), o, outcome)
      ensures t.others == [] ==>
                && HistoryOf(k) == old(HistoryOf(k)) + Script(old(RowOf(k)), o)
                && (outcome.Suppressed? <==> Apply(old(RowOf(k)), ReserveStep(o)).events == [])
                && (outcome.Delivered? <==> Apply(old(RowOf(k)), ReserveStep(o)).events != [] && t.delivered)
    {
      hide Justified, Run, Apply, StepsOn, AllMatch, Unused, UnusedByOthers, OnlyAlerts, Live, RowIn, HistoryIn, Turned,
           Interleaved;
      ghost var h, history0 := HistoryOf(k), history;
      RowMatches(rows, history, k);
      var granted := Reserve(k, o.fingerprint, o.status, o.token, o.evaluatedAt, o.now, o.timeout);
      ghost var history1 := history;
      if granted.None? {
        TurnedOnce(history0, history, k, ReserveStep(o), t.others);
        SuppressedIsJustified(h, o);
        return Suppressed;
      }
      GrantIsLive(old(RowOf(k)), o);
      Interfere(t.others);
      ghost var mid := StepsOn(t.others, k);
      ghost var closing := if t.delivered then MarkSent(o.token, o.sentAt) else Release(o.token);
      TurnedByAlert(history0, history1, history, k, ReserveStep(o), t.others, closing);
      RowMatches(rows, history, k);
      StepsOnUnused(t.others, k, o.token);
      PostedIsJustified(h, mid, o, granted.value);
      var key := IdempotencyKey(o.fingerprint, granted.value);
      if t.delivered {
        var marked := RecordSent(k, o.token, o.sentAt);
        outcome := if marked then Delivered(key) else Failed(key);
      } else {
        ReleaseReservation(k, o.token);
        outcome := Failed(key);
      }
    }

    /** The first loop: a recovery for every healthy check, with other processes active before each. */
    method RecordRecoveries(destination: string, r: Report, turns: seq<Turn>)
      requires Valid() && |turns| == |r.checks| && DistinctChecks(r) && LegalTurns(turns)
      requires ReadyFrom(history, destination, r, turns, 0)
      modifies this
      ensures Valid() && OnlyGrows(old(history), history)
      ensures HealthyRecovered(history, destination, r) && ReadyFrom(history, destination, r, turns, 0)
      ensures NoInterference(turns) ==> RecoveriesDone(old(history), history, destination, r, |r.checks|)
    {
      hide Run, Apply, AllMatch, StepsOn, HistoryIn, OnlyAlerts, ReadyFrom, RecoveredTo, OnlyGrows, Interleaved,
           RecoveriesDone;
      NothingRecovered(history, destination, r);
      for i := 0 to |r.checks|
        invariant Valid() && OnlyGrows(old(history), history)
        invariant RecoveredTo(history, destination, r, i) && ReadyFrom(history, destination, r, turns, 0)
        invariant NoInterference(turns) ==> RecoveriesDone(old(history), history, destination, r, i)
      {
        ghost var before := history;
        if r.checks[i].status == Healthy {
          OthersUseNone(history, destination, r, turns, 0, i);
          Interfere(turns[i].earlier);
          InterleavedKeepsReady(before, history, turns[i].earlier, destination, r, turns, 0, i);
          GrowsOn(old(history), before, history);
        }
        ghost var middle := history;
        if r.checks[i].status == Healthy {
          var _ := RecordRecovery(KeyOf(destination, r, i), r.evaluatedAt);
        }
        RecoveryKeeps(middle, history, destination, r, turns, i);
        GrowsOn(old(history), middle, history);
        if NoInterference(turns) {
          OneRecovery(old(history), middle, history, destination, r, i);
        }
      }
    }

    /** The whole report: recoveries first, then one delivery attempt for each check that is not healthy,
        with other processes active between any two transactions. */
    method Dispatch(destination: string, r: Report, turns: seq<Turn>, timeout: real)
      returns (result: DispatchResult, outcomes: seq<Outcome>)
      requires Valid() && |turns| == |r.checks| && DistinctChecks(r) && LegalTurns(turns)
      requires ReadyFrom(history, destination, r, turns, 0)
      modifies this
      ensures Valid() && |outcomes| == |r.checks|
      ensures forall i :: 0 <= i < |r.checks| ==>
                Justified(HistoryOf(KeyOf(destination, r, i)), ObservationOf(destination, r, i, turns[i], timeout),
                          outcomes[i])
      ensures result == Tally(outcomes)
      ensures NoInterference(turns) ==>
              ScriptsDone(old(rows), old(history), history, destination, r, turns, timeout, |r.checks|)
    {
      hide Justified, Run, Apply, AllMatch, StepsOn, Script, ReadyFrom, RecoveredTo, JustifiedTo, ScriptsDone,
           HistoryIn, OnlyAlerts, OnlyGrows, Interleaved, RecoveriesDone;
      RecordRecoveries(destination, r, turns);
      if NoInterference(turns) {
        RecoveriesAreScripts(old(rows), old(history), history, destination, r, turns, timeout);
      }
      outcomes := [];
      var sent, suppressed, failed := 0, 0, 0;
      NothingJustified(history, destination, r, turns, timeout);
      for i := 0 to |r.checks|
        invariant Valid() && |outcomes| == i
        invariant JustifiedTo(history, destination, r, turns, timeout, outcomes)
        invariant HealthyRecovered(history, destination, r)
        invariant ReadyFrom(history, destination, r, turns, i)
        invariant DispatchResult(sent + suppressed + failed, sent, suppressed, failed) == Tally(outcomes)
        invariant NoInterference(turns) ==>
                    ScriptsDone(old(rows), old(history), history, destination, r, turns, timeout, i)
      {
        ghost var previous := history;
        if r.checks[i].status != Healthy {
          OthersUseNone(history, destination, r, turns, i, i);
          Interfere(turns[i].earlier);
          InterleavedKeepsReady(previous, history, turns[i].earlier, destination, r, turns, i, |r.checks|);
          GrowthKeepsJustified(previous, history, destination, r, turns, timeout, outcomes);
        }
        ghost var before, rowsBefore := history, rows;
        var k := KeyOf(destination, r, i);
        var o := ObservationOf(destination, r, i, turns[i], timeout);
        var outcome := Quiet;
        if r.checks[i].status == Healthy {
          RecoveredIsQuiet(history, destination, r, turns, timeout, i);
        } else {
          TurnIsReady(history, destination, r, turns, i);
          outcome := DeliverAlert(k, o, turns[i]);
          if outcome.Suppressed? {
            suppressed := suppressed + 1;
          } else if outcome.Delivered? {
            sent := sent + 1;
          } else {
            failed := failed + 1;
          }
        }
        OneTurn(before, history, destination, r, turns, timeout, outcomes, outcome);
        if NoInterference(turns) {
          OneQuietTurn(old(rows), old(history), rowsBefore, before, history, destination, r, turns, timeout, i);
        }
        assert (outcomes + [outcome])[..i] == outcomes;
        outcomes := outcomes + [outcome];
      }
      JustifiedEach(history, destination, r, turns, timeout, outcomes);
      result := DispatchResult(sent + suppressed + failed, sent, suppressed, failed);
    }

    /** One dispatch after another, with nobody else at work, whatever becomes of the POSTs: each row has
        run the reports that name its check, so it raises an alert in every report of an unbroken
        observation until one is delivered, and never after. */
    method DispatchSeries(destination: string, reports: seq<Report>, turns: seq<seq<Turn>>, timeout: real)
      returns (results: seq<DispatchResult>)
      requires Valid() && history == map[] && Series(reports, turns)
      modifies this
      ensures Valid() && |results| == |reports|
      ensures forall k: Key ::
                var obs := ObservationsOf(destination, reports, turns, timeout, k);
                && HistoryOf(k) == RunReports(obs)
                && Run(HistoryOf(k)).events == ExpectedLog(obs) && RowAfter(obs, RowOf(k))
    {
      hide Run, AllMatch, HistoryIn, RowIn, ScriptsDone, ReportsDone, ReadyFrom, ExpectedLog, RowAfter,
           ObservationsOf, RunReports, Justified;
      results := [];
      NothingDone(history, destination, timeout);
      for n := 0 to |reports|
        invariant Valid() && |results| == n && TurnsFit(reports[..n], turns[..n])
        invariant ReportsDone(history, destination, reports[..n], turns[..n], timeout)
      {
        ghost var rowsBefore, before := rows, history;
        NextIsReady(history, destination, reports, turns, timeout, n);
        var result, _ := Dispatch(destination, reports[n], turns[n], timeout);
        OneMoreDone(rowsBefore, before, history, destination, reports, turns, timeout, n);
        results := results + [result];
      }
      assert reports[..|reports|] == reports && turns[..|reports|] == turns;
      forall k: Key
        ensures var obs := ObservationsOf(destination, reports, turns, timeout, k);
                && HistoryOf(k) == RunReports(obs)
                && Run(HistoryOf(k)).events == ExpectedLog(obs) && RowAfter(obs, RowOf(k))
      {
        RowMatches(rows, history, k);
        AlertsOfSeries(history, destination, reports, turns, timeout, k);
      }
    }
  }
}
