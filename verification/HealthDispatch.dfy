/** The stored alert row of one (destination, check) pair, the four atomic transactions that change
    it, and what every interleaving of those transactions keeps. */
module HealthDispatch {
  import opened Wrappers

  type Token = nat

  datatype Status = Healthy | Warning | Critical | Unknown

  /** SHA-256 over canonical JSON is taken as injective, so a digest is the tuple it was computed
      from; Blank is the empty string that a recovery stores. */
  datatype Fingerprint =
    | Blank
    | Digest(destination: string, checkId: string, status: Status, evidence: string)

  datatype IdempotencyKey = IdempotencyKey(fingerprint: Fingerprint, episode: nat)

  datatype Row = Row(
    fingerprint: Fingerprint, sent: bool, token: Option<Token>, reservedUntil: Option<real>,
    sentAt: Option<real>, episode: nat, latest: real, status: Status)

  /** One transaction as a dispatcher asks for it. Clocks and timeouts are arbitrary. */
  datatype Step =
    | Reserve(token: Token, fingerprint: Fingerprint, status: Status, evaluatedAt: real, now: real, timeout: real)
    | Release(token: Token)
    | MarkSent(token: Token, at: real)
    | Recover(evaluatedAt: real)

  /** What a transaction that took effect leaves in the history. */
  datatype Event =
    | Granted(token: Token, fingerprint: Fingerprint, status: Status, episode: nat)
    | Released(token: Token)
    | Sent(token: Token, episode: nat)
    | Recovered

  datatype Effect = Effect(row: Option<Row>, events: seq<Event>)

  predicate SameObservation(r: Row, fingerprint: Fingerprint, status: Status) {
    r.fingerprint == fingerprint && r.status == status
  }

  predicate ActiveReservation(r: Row, now: real) {
    !r.sent && r.reservedUntil.Some? && r.reservedUntil.value > now
  }

  /** The row answers to this reservation token. */
  predicate Live(row: Option<Row>, token: Token) {
    row.Some? && !row.value.sent && row.value.token == Some(token)
  }

  function Pending(s: Step, episode: nat): Row
    requires s.Reserve?
  {
    Row(s.fingerprint, false, Some(s.token), Some(s.now + s.timeout * 2.0 + 30.0), None, episode, s.evaluatedAt,
        s.status)
  }

  function Grant(s: Step, episode: nat): Effect
    requires s.Reserve?
  {
    Effect(Some(Pending(s, episode)), [Granted(s.token, s.fingerprint, s.status, episode)])
  }

  function ReserveRow(row: Option<Row>, s: Step): Effect
    requires s.Reserve?
  {
    if row.None? then Grant(s, 1) else
      var r := row.value;
      var same := SameObservation(r, s.fingerprint, s.status);
      if s.evaluatedAt < r.latest || (s.evaluatedAt == r.latest && !same) then
        Effect(row, [])
      else if same && (r.sent || ActiveReservation(r, s.now)) then
        Effect(Some(r.(latest := s.evaluatedAt)), [])
      else
        var episode := if s.evaluatedAt > r.latest && !same then r.episode + 1 else r.episode;
        Grant(s, if episode < 1 then 1 else episode)
  }

  function RecoverRow(row: Option<Row>, evaluatedAt: real): Effect {
    if row.Some? && evaluatedAt <= row.value.latest then Effect(row, []) else
      var episode := if row.Some? then row.value.episode else 0;
      Effect(Some(Row(Blank, true, None, None, None, episode, evaluatedAt, Healthy)), [Recovered])
  }

  function Apply(row: Option<Row>, s: Step): Effect {
    match s
    case Reserve(_, _, _, _, _, _) => ReserveRow(row, s)
    case Recover(at) => RecoverRow(row, at)
    case Release(t) =>
      if !Live(row, t) then Effect(row, []) else
        Effect(Some(row.value.(token := None, reservedUntil := None)), [Released(t)])
    case MarkSent(t, at) =>
      if !Live(row, t) then Effect(row, []) else
        Effect(Some(row.value.(sent := true, token := None, reservedUntil := None, sentAt := Some(at))),
               [Sent(t, row.value.episode)])
  }

  /** The row and the event log after a history of transactions, oldest first. */
  function Run(steps: seq<Step>): Effect {
    if steps == [] then Effect(None, []) else
      var before := Run(steps[..|steps| - 1]);
      var e := Apply(before.row, steps[|steps| - 1]);
      Effect(e.row, before.events + e.events)
  }

  /** Dispatchers reserve only for checks that are not healthy, under their digest. */
  predicate IsAlert(s: Step) {
    s.Reserve? ==> s.fingerprint.Digest? && s.status != Healthy
  }

  predicate Alerts(steps: seq<Step>) {
    forall i :: 0 <= i < |steps| ==> IsAlert(steps[i])
  }

  /** Reservation tokens are globally fresh. */
  predicate Fresh(steps: seq<Step>) {
    forall i, j :: 0 <= i < j < |steps| && steps[i].Reserve? && steps[j].Reserve? ==> steps[i].token != steps[j].token
  }

  lemma EmptyRun()
    ensures Run([]) == Effect(None, []) && SentTokens([]) == []
  {
  }

  lemma RunAppend(steps: seq<Step>, s: Step)
    ensures Run(steps + [s]) ==
            Effect(Apply(Run(steps).row, s).row, Run(steps).events + Apply(Run(steps).row, s).events)
  {
    assert (steps + [s])[..|steps|] == steps;
  }

  // ---- The invariant of every run ----

  ghost predicate RowAgreesWithLog(r: Row, log: seq<Event>) {
    && (r.status == Healthy ==> r.sent)
    && (r.fingerprint.Blank? ==> r.status == Healthy)
    && (forall i :: 0 <= i < |log| && log[i].Granted? ==>
          && log[i].fingerprint.Digest?
          && 1 <= log[i].episode <= r.episode
          && (log[i].episode == r.episode && r.status != Healthy ==>
                SameObservation(r, log[i].fingerprint, log[i].status)))
    && (forall i :: 0 <= i < |log| && log[i].Sent? ==>
          log[i].episode <= r.episode && (log[i].episode == r.episode ==> r.sent))
  }

  ghost predicate GrantsAgree(log: seq<Event>) {
    forall i, j :: 0 <= i < j < |log| && log[i].Granted? && log[j].Granted? ==>
      && log[i].episode <= log[j].episode
      && (log[i].episode == log[j].episode ==>
            log[i].fingerprint == log[j].fingerprint && log[i].status == log[j].status)
  }

  ghost predicate SentIsFinal(log: seq<Event>) {
    forall i, j :: 0 <= i < j < |log| && log[i].Sent? && (log[j].Granted? || log[j].Sent?) ==>
      log[i].episode < log[j].episode
  }

  /** The row answers to a token exactly when that token's grant is the last thing that happened. */
  ghost predicate LiveIsLastGrant(row: Option<Row>, log: seq<Event>) {
    && (|log| > 0 && log[|log| - 1].Granted? ==>
          && Live(row, log[|log| - 1].token)
          && row.value.episode == log[|log| - 1].episode)
    && (row.Some? && !row.value.sent && row.value.token.Some? ==> |log| > 0 && log[|log| - 1].Granted?)
  }

  ghost predicate Inv(e: Effect) {
    && (e.row.None? ==> e.events == [])
    && (e.row.Some? ==> RowAgreesWithLog(e.row.value, e.events))
    && GrantsAgree(e.events)
    && SentIsFinal(e.events)
    && LiveIsLastGrant(e.row, e.events)
  }

  /** The effect of a step on a row, without its case analysis: either the log stays and the row only
      moves its observation time, or one event is added. */
  lemma EffectShape(row: Option<Row>, s: Step)
    ensures |Apply(row, s).events| <= 1
    ensures Apply(row, s).events == [] ==>
              Apply(row, s).row == row ||
              (row.Some? && Apply(row, s).row.Some? &&
               row.value.(latest := Apply(row, s).row.value.latest) == Apply(row, s).row.value)
  {
  }

  lemma GrantsStayAgreed(r: Row, log: seq<Event>, e: Event)
    requires GrantsAgree(log) && RowAgreesWithLog(r, log)
    requires e.Granted? ==> r.episode <= e.episode
    requires e.Granted? && e.episode == r.episode ==> r.status != Healthy && SameObservation(r, e.fingerprint, e.status)
    ensures GrantsAgree(log + [e])
  {
  }

  lemma SentStaysFinal(r: Row, log: seq<Event>, e: Event)
    requires SentIsFinal(log) && RowAgreesWithLog(r, log)
    requires e.Granted? ==> r.episode <= e.episode && (r.sent ==> r.episode < e.episode)
    requires e.Sent? ==> e.episode == r.episode && !r.sent
    ensures SentIsFinal(log + [e])
  {
  }

  lemma RowStaysAgreed(r: Row, log: seq<Event>, s: Step)
    requires RowAgreesWithLog(r, log) && IsAlert(s)
    requires Apply(Some(r), s).events != []
    ensures RowAgreesWithLog(Apply(Some(r), s).row.value, log + Apply(Some(r), s).events)
  {
    var e := Apply(Some(r), s).events[0];
    assert (log + [e])[..|log|] == log;
  }

  lemma RowStaysAgreedQuietly(r: Row, log: seq<Event>, s: Step)
    requires RowAgreesWithLog(r, log)
    requires Apply(Some(r), s).events == []
    ensures RowAgreesWithLog(Apply(Some(r), s).row.value, log)
  {
    EffectShape(Some(r), s);
  }

  lemma LiveStaysLastGrant(e: Effect, s: Step)
    requires LiveIsLastGrant(e.row, e.events)
    ensures LiveIsLastGrant(Apply(e.row, s).row, e.events + Apply(e.row, s).events)
  {
    EffectShape(e.row, s);
    if Apply(e.row, s).events == [] {
      assert e.events + Apply(e.row, s).events == e.events;
    }
  }

  lemma FirstStepInv(e: Effect, s: Step)
    requires Inv(e) && IsAlert(s) && e.row.None?
    ensures Inv(Effect(Apply(e.row, s).row, e.events + Apply(e.row, s).events))
  {
    EffectShape(e.row, s);
  }

  lemma ApplyKeepsInv(e: Effect, s: Step)
    requires Inv(e) && IsAlert(s)
    ensures Inv(Effect(Apply(e.row, s).row, e.events + Apply(e.row, s).events))
  {
    hide RowAgreesWithLog, GrantsAgree, SentIsFinal, LiveIsLastGrant;
    LiveStaysLastGrant(e, s);
    if e.row.None? {
      FirstStepInv(e, s);
    } else if Apply(e.row, s).events == [] {
      assert e.events + [] == e.events;
      RowStaysAgreedQuietly(e.row.value, e.events, s);
    } else {
      EffectShape(e.row, s);
      RowStaysAgreed(e.row.value, e.events, s);
      GrantsStayAgreed(e.row.value, e.events, Apply(e.row, s).events[0]);
      SentStaysFinal(e.row.value, e.events, Apply(e.row, s).events[0]);
      assert Apply(e.row, s).events == [Apply(e.row, s).events[0]];
    }
  }

  lemma {:induction false} RunInvariant(steps: seq<Step>)
    requires Alerts(steps)
    ensures Inv(Run(steps))
  {
    if steps != [] {
      RunInvariant(steps[..|steps| - 1]);
      ApplyKeepsInv(Run(steps[..|steps| - 1]), steps[|steps| - 1]);
    }
  }

  // ---- Main results ----

  function Episode(row: Option<Row>): nat {
    if row.Some? then row.value.episode else 0
  }

  lemma ApplyNeverDecreases(row: Option<Row>, s: Step)
    ensures Episode(row) <= Episode(Apply(row, s).row)
    ensures row.Some? ==> Apply(row, s).row.Some? && row.value.latest <= Apply(row, s).row.value.latest
  {
  }

  /** Later transactions only extend the log, and neither `episode` nor `latest_evaluated_at` falls. */
  lemma {:induction false} EpisodeAndObservationTimeNeverDecrease(steps: seq<Step>, more: seq<Step>)
    ensures Run(steps).events <= Run(steps + more).events
    ensures Episode(Run(steps).row) <= Episode(Run(steps + more).row)
    ensures Run(steps).row.Some? ==>
            Run(steps + more).row.Some? && Run(steps).row.value.latest <= Run(steps + more).row.value.latest
  {
    hide Apply;
    if more == [] {
      assert steps + more == steps;
    } else {
      var init, s := more[..|more| - 1], more[|more| - 1];
      EpisodeAndObservationTimeNeverDecrease(steps, init);
      assert steps + more == (steps + init) + [s];
      RunAppend(steps + init, s);
      ApplyNeverDecreases(Run(steps + init).row, s);
    }
  }

  /** Two reservations carry the same idempotency key exactly when they belong to the same episode. */
  lemma EpisodeIsIdempotencyKey(steps: seq<Step>, i: nat, j: nat)
    requires Alerts(steps)
    requires i < |Run(steps).events| && j < |Run(steps).events|
    requires Run(steps).events[i].Granted? && Run(steps).events[j].Granted?
    ensures var a, b := Run(steps).events[i], Run(steps).events[j];
            && (a.episode == b.episode ==> a.fingerprint == b.fingerprint)
            && (a.episode == b.episode <==>
                IdempotencyKey(a.fingerprint, a.episode) == IdempotencyKey(b.fingerprint, b.episode))
  {
    RunInvariant(steps);
  }

  /** An episode is marked sent at most once, by the token whose reservation of that very episode is
      the event just before, and it is never reserved again. */
  lemma SentClosesItsEpisode(steps: seq<Step>, i: nat)
    requires Alerts(steps)
    requires i < |Run(steps).events| && Run(steps).events[i].Sent?
    ensures var log := Run(steps).events;
            && i > 0 && log[i - 1].Granted?
            && log[i - 1].token == log[i].token && log[i - 1].episode == log[i].episode
            && (forall j :: i < j < |log| && log[j].Granted? ==> log[j].episode > log[i].episode)
            && (forall j :: 0 <= j < |log| && j != i && log[j].Sent? ==> log[j].episode != log[i].episode)
  {
    RunInvariant(steps);
    SentFollowsGrant(steps, i);
  }

  lemma SentNeedsItsGrant(e: Effect, s: Step)
    requires LiveIsLastGrant(e.row, e.events)
    requires Apply(e.row, s).events != [] && Apply(e.row, s).events[0].Sent?
    ensures var sent := Apply(e.row, s).events[0];
            && |e.events| > 0 && e.events[|e.events| - 1].Granted?
            && e.events[|e.events| - 1].token == sent.token && e.events[|e.events| - 1].episode == sent.episode
  {
  }

  lemma {:induction false} SentFollowsGrant(steps: seq<Step>, i: nat)
    requires Alerts(steps)
    requires i < |Run(steps).events| && Run(steps).events[i].Sent?
    ensures var log := Run(steps).events;
            i > 0 && log[i - 1].Granted? && log[i - 1].token == log[i].token && log[i - 1].episode == log[i].episode
  {
    hide LiveIsLastGrant, RowAgreesWithLog, GrantsAgree, SentIsFinal;
    var init, s := steps[..|steps| - 1], steps[|steps| - 1];
    EffectShape(Run(init).row, s);
    if i < |Run(init).events| {
      SentFollowsGrant(init, i);
    } else {
      RunInvariant(init);
      SentNeedsItsGrant(Run(init), s);
    }
  }

  /** Releasing or marking with a token has an effect exactly when that token's own grant is the last
      event; otherwise the row is left as it was. */
  lemma TokenActsOnlyRightAfterItsGrant(steps: seq<Step>, token: Token, at: real)
    requires Alerts(steps)
    ensures var row, log := Run(steps).row, Run(steps).events;
            var own := |log| > 0 && log[|log| - 1].Granted? && log[|log| - 1].token == token;
            && (Apply(row, Release(token)).events != [] <==> own)
            && (Apply(row, MarkSent(token, at)).events != [] <==> own)
            && (!own ==> Apply(row, Release(token)).row == row && Apply(row, MarkSent(token, at)).row == row)
  {
    RunInvariant(steps);
  }

  /** With fresh tokens, a token overtaken by any event is dead for the rest of the run. */
  lemma StaleTokenIsDeadForever(steps: seq<Step>, more: seq<Step>, i: nat, at: real)
    requires Alerts(steps + more) && Fresh(steps + more)
    requires i + 1 < |Run(steps).events| && Run(steps).events[i].Granted?
    ensures var row, token := Run(steps + more).row, Run(steps).events[i].token;
            Apply(row, Release(token)) == Effect(row, []) && Apply(row, MarkSent(token, at)) == Effect(row, [])
  {
    hide Run, Fresh, Alerts;
    var log := Run(steps + more).events;
    EpisodeAndObservationTimeNeverDecrease(steps, more);
    assert log[i] == Run(steps).events[i];
    TokenActsOnlyRightAfterItsGrant(steps + more, log[i].token, at);
    if log[|log| - 1].Granted? && log[|log| - 1].token == log[i].token {
      GrantsHaveDistinctTokens(steps + more, i, |log| - 1);
    }
  }

  lemma {:induction false} GrantComesFromReserve(steps: seq<Step>, i: nat) returns (k: nat)
    requires i < |Run(steps).events| && Run(steps).events[i].Granted?
    ensures k < |steps| && steps[k].Reserve? && steps[k].token == Run(steps).events[i].token
    ensures |Run(steps[..k]).events| == i
  {
    var init := steps[..|steps| - 1];
    if i < |Run(init).events| {
      k := GrantComesFromReserve(init, i);
      assert init[..k] == steps[..k];
    } else {
      k := |steps| - 1;
    }
  }

  lemma GrantsHaveDistinctTokens(steps: seq<Step>, i: nat, j: nat)
    requires Fresh(steps)
    requires i < j < |Run(steps).events| && Run(steps).events[i].Granted? && Run(steps).events[j].Granted?
    ensures Run(steps).events[i].token != Run(steps).events[j].token
  {
    var a := GrantComesFromReserve(steps, i);
    var b := GrantComesFromReserve(steps, j);
    assert a != b;
  }

  /** The row is this step's reservation, with its expiry. */
  predicate Holds(row: Option<Row>, s: Step, episode: nat) {
    && s.Reserve? && row.Some? && !row.value.sent && row.value.episode == episode
    && row.value.reservedUntil == Some(s.now + s.timeout * 2.0 + 30.0)
  }

  lemma GrantHolds(row: Option<Row>, s: Step)
    requires Apply(row, s).events != [] && Apply(row, s).events[0].Granted?
    ensures s.Reserve? && s.token == Apply(row, s).events[0].token
    ensures Holds(Apply(row, s).row, s, Apply(row, s).events[0].episode)
  {
  }

  lemma QuietKeepsHold(row: Option<Row>, s: Step, granting: Step, episode: nat)
    requires Holds(row, granting, episode) && Apply(row, s).events == []
    ensures Holds(Apply(row, s).row, granting, episode)
  {
  }

  /** While the last thing that happened is a grant, the row is that reservation. */
  lemma {:induction false} LastGrantHolds(steps: seq<Step>) returns (k: nat)
    requires var log := Run(steps).events; log != [] && log[|log| - 1].Granted?
    ensures var log := Run(steps).events;
            && k < |steps| && steps[k].Reserve? && steps[k].token == log[|log| - 1].token
            && |Run(steps[..k]).events| == |log| - 1
            && Holds(Run(steps).row, steps[k], log[|log| - 1].episode)
  {
    hide Apply, Holds;
    var init, s := steps[..|steps| - 1], steps[|steps| - 1];
    var before := Run(init);
    EffectShape(before.row, s);
    if Apply(before.row, s).events == [] {
      assert Run(steps).events == before.events;
      k := LastGrantHolds(init);
      assert init[..k] == steps[..k];
      QuietKeepsHold(before.row, s, steps[k], before.events[|before.events| - 1].episode);
    } else {
      k := |steps| - 1;
      GrantHolds(before.row, s);
    }
  }

  /** Directly after a grant, the same episode is granted again only once that reservation has run out:
      twice its request timeout and thirty seconds after it was made. */
  lemma NoSecondGrantBeforeExpiry(steps: seq<Step>, s: Step) returns (k: nat)
    requires s.Reserve?
    requires var log := Run(steps).events; log != [] && log[|log| - 1].Granted?
    requires var e, log := Apply(Run(steps).row, s).events, Run(steps).events;
             e != [] && e[0].episode == log[|log| - 1].episode
    ensures k < |steps| && steps[k].Reserve? && steps[k].token == Run(steps).events[|Run(steps).events| - 1].token
    ensures |Run(steps[..k]).events| == |Run(steps).events| - 1
    ensures s.now >= steps[k].now + steps[k].timeout * 2.0 + 30.0
  {
    hide Run;
    k := LastGrantHolds(steps);
  }

  // ---- A reservation in the row's columns ----

  /** A reservation of what the row shows already, and which has not been sent: a running reservation
      refuses it, and an expired or released one hands out the same episode again. */
  lemma UnsentIsReservedAgain(r: Row, s: Step)
    requires s.Reserve? && r.fingerprint == s.fingerprint && r.status == s.status && !r.sent
    requires r.latest <= s.evaluatedAt
    ensures var e := Apply(Some(r), s);
            if r.reservedUntil.Some? && s.now < r.reservedUntil.value then
              e == Effect(Some(r.(latest := s.evaluatedAt)), [])
            else
              var episode := if r.episode < 1 then 1 else r.episode;
              && e.events == [Granted(s.token, s.fingerprint, s.status, episode)]
              && e.row == Some(Row(s.fingerprint, false, Some(s.token), Some(s.now + 2.0 * s.timeout + 30.0), None,
                                   episode, s.evaluatedAt, s.status))
  {
  }

  /** Whether a reservation is granted, for every row: there is none yet, or the observation is newer and
      another, or it is the same, not older, not sent and not reserved at the moment. */
  lemma ReservedIff(row: Option<Row>, s: Step)
    requires s.Reserve?
    ensures Apply(row, s).events != [] <==>
            || row.None?
            || (row.value.latest < s.evaluatedAt
                && (row.value.fingerprint != s.fingerprint || row.value.status != s.status))
            || (row.value.latest <= s.evaluatedAt && row.value.fingerprint == s.fingerprint
                && row.value.status == s.status && !row.value.sent
                && (row.value.reservedUntil.None? || row.value.reservedUntil.value <= s.now))
  {
  }

  /** A recovery takes effect exactly on no row or an older one, and keeps the episode. */
  lemma RecoveredIff(row: Option<Row>, at: real)
    ensures var e := Apply(row, Recover(at));
            if row.None? || row.value.latest < at then
              && e.events == [Recovered]
              && e.row == Some(Row(Blank, true, None, None, None, if row.None? then 0 else row.value.episode, at,
                                   Healthy))
            else e == Effect(row, [])
  {
  }

  /** Releasing and marking take effect exactly on a row that is not sent and holds the token; a released
      row can be reserved at once. */
  lemma ClosedIff(row: Option<Row>, token: Token, at: real)
    ensures var released, marked := Apply(row, Release(token)), Apply(row, MarkSent(token, at));
            if row.Some? && !row.value.sent && row.value.token == Some(token) then
              var r := row.value;
              && released.row == Some(Row(r.fingerprint, false, None, None, r.sentAt, r.episode, r.latest, r.status))
              && marked.row == Some(Row(r.fingerprint, true, None, None, Some(at), r.episode, r.latest, r.status))
              && released.events == [Released(token)] && marked.events == [Sent(token, r.episode)]
            else released == Effect(row, []) && marked == Effect(row, [])
  {
  }

  // ---- A lone dispatcher retries until delivered, and sends no observation twice in a row ----

  /** One check in one report, with the token and clocks its dispatcher uses, and whether a POST of it in
      this report succeeds. */
  datatype Observation = Observation(evaluatedAt: real, status: Status, fingerprint: Fingerprint, token: Token,
                                     now: real, timeout: real, sentAt: real, delivered: bool)

  predicate ValidObservation(o: Observation) {
    if o.status == Healthy then o.fingerprint.Blank? else o.fingerprint.Digest?
  }

  function ReserveStep(o: Observation): Step {
    Reserve(o.token, o.fingerprint, o.status, o.evaluatedAt, o.now, o.timeout)
  }

  /** The transactions one report performs on the row. */
  function Script(row: Option<Row>, o: Observation): seq<Step> {
    if o.status == Healthy then [Recover(o.evaluatedAt)]
    else if Apply(row, ReserveStep(o)).events == [] then [ReserveStep(o)]
    else [ReserveStep(o), if o.delivered then MarkSent(o.token, o.sentAt) else Release(o.token)]
  }

  function RunReports(obs: seq<Observation>): seq<Step> {
    if obs == [] then [] else
      var before := RunReports(obs[..|obs| - 1]);
      before + Script(Run(before).row, obs[|obs| - 1])
  }

  // ---- The reference: what a lone dispatcher sends ----

  /** Report i is not healthy and differs from the report before. */
  predicate Changed(obs: seq<Observation>, i: nat)
    requires i < |obs|
  {
    && obs[i].status != Healthy
    && (i > 0 ==> obs[i - 1].fingerprint != obs[i].fingerprint || obs[i - 1].status != obs[i].status)
  }

  function ChangedTokens(obs: seq<Observation>): seq<Token> {
    if obs == [] then [] else
      ChangedTokens(obs[..|obs| - 1]) +
      if Changed(obs, |obs| - 1) then [obs[|obs| - 1].token] else []
  }

  /** Reports j to i are of one observation, without a break. */
  predicate Unbroken(obs: seq<Observation>, j: int, i: int)
    requires 0 <= j <= i < |obs|
  {
    forall k :: j <= k <= i ==> obs[k].fingerprint == obs[i].fingerprint && obs[k].status == obs[i].status
  }

  predicate DeliveredBefore(obs: seq<Observation>, i: nat)
    requires i < |obs|
  {
    exists j :: 0 <= j < i && Unbroken(obs, j, i) && obs[j].delivered
  }

  /** Report i raises an alert until one of its unbroken observation has been delivered. */
  predicate Posted(obs: seq<Observation>, i: nat)
    requires i < |obs|
  {
    obs[i].status != Healthy && !DeliveredBefore(obs, i)
  }

  /** What the reports leave in the log, with the number of the change as the episode. */
  function ExpectedLog(obs: seq<Observation>): seq<Event> {
    if obs == [] then [] else
      var o, episode := obs[|obs| - 1], |ChangedTokens(obs)|;
      ExpectedLog(obs[..|obs| - 1]) +
      if o.status == Healthy then [Recovered]
      else if Posted(obs, |obs| - 1) then
        [Granted(o.token, o.fingerprint, o.status, episode),
         if o.delivered then Sent(o.token, episode) else Released(o.token)]
      else []
  }

  function SentTokens(log: seq<Event>): seq<Token> {
    if log == [] then [] else
      SentTokens(log[..|log| - 1]) + if log[|log| - 1].Sent? then [log[|log| - 1].token] else []
  }

  lemma {:induction false} SentTokensAppend(a: seq<Event>, b: seq<Event>)
    ensures SentTokens(a + b) == SentTokens(a) + SentTokens(b)
  {
    if b == [] {
      assert a + b == a;
    } else {
      SentTokensAppend(a, b[..|b| - 1]);
      assert (a + b)[..|a + b| - 1] == a + b[..|b| - 1];
    }
  }

  lemma SentTokensQuiet(log: seq<Event>, more: seq<Event>)
    requires |more| == 0 || (|more| == 1 && !more[0].Sent?)
    ensures SentTokens(log + more) == SentTokens(log)
  {
    SentTokensAppend(log, more);
    if |more| == 1 {
      assert more[..0] == [];
    }
  }

  lemma SentTokensDelivered(log: seq<Event>, g: Event, e: Event)
    requires !g.Sent? && e.Sent?
    ensures SentTokens(log + [g, e]) == SentTokens(log) + [e.token]
  {
    assert [g, e][..1] == [g] && [g][..0] == [];
    assert SentTokens([g]) == [];
    assert SentTokens([g, e]) == [e.token];
    SentTokensAppend(log, [g, e]);
  }

  lemma TwoSteps(before: seq<Step>, s: Step, m: Step)
    ensures var first := Apply(Run(before).row, s);
            Run(before + [s, m]) ==
                Effect(Apply(first.row, m).row, Run(before).events + (first.events + Apply(first.row, m).events))
  {
    hide Apply, Run;
    RunAppend(before, s);
    RunAppend(before + [s], m);
    assert before + [s, m] == before + [s] + [m];
    var first := Apply(Run(before).row, s);
    EventsJoin(Run(before).events, first.events, Apply(first.row, m).events);
  }

  lemma EventsJoin(a: seq<Event>, b: seq<Event>, c: seq<Event>)
    ensures a + b + c == a + (b + c)
  {
  }

  /** One more report, in terms of its effect on the row. */
  lemma RunOneReport(before: seq<Step>, o: Observation)
    requires ValidObservation(o)
    ensures var row, log := Run(before).row, Run(before).events;
            var reserved := ReserveRow(row, ReserveStep(o));
            var after := Run(before + Script(row, o));
            if o.status == Healthy then
              var recovered := RecoverRow(row, o.evaluatedAt);
              after.row == recovered.row && after.events == log + recovered.events
            else if reserved.events == [] then
              after.row == reserved.row && after.events == log
            else
              var r, episode := reserved.row.value, reserved.events[0].episode;
              if o.delivered then
                && after.row == Some(r.(sent := true, token := None, reservedUntil := None, sentAt := Some(o.sentAt)))
                && after.events == log + [reserved.events[0], Sent(o.token, episode)]
              else
                && after.row == Some(r.(token := None, reservedUntil := None))
                && after.events == log + [reserved.events[0], Released(o.token)]
  {
    hide Run;
    var row, log := Run(before).row, Run(before).events;
    var s := ReserveStep(o);
    if o.status == Healthy {
      RunAppend(before, Recover(o.evaluatedAt));
    } else if ReserveRow(row, s).events == [] {
      RunAppend(before, s);
      assert log + [] == log;
    } else {
      var m := if o.delivered then MarkSent(o.token, o.sentAt) else Release(o.token);
      TwoSteps(before, s, m);
      var g := ReserveRow(row, s).events[0];
      assert [g] + [Sent(o.token, g.episode)] == [g, Sent(o.token, g.episode)];
      assert [g] + [Released(o.token)] == [g, Released(o.token)];
    }
  }

  /** The row after the reports. */
  ghost predicate RowAfter(obs: seq<Observation>, row: Option<Row>) {
    if obs == [] then row.None? else
      var o := obs[|obs| - 1];
      && row.Some? && row.value.fingerprint == o.fingerprint && row.value.status == o.status
      && row.value.latest == o.evaluatedAt && row.value.token == None && row.value.reservedUntil == None
      && row.value.sent == (o.status == Healthy || o.delivered || DeliveredBefore(obs, |obs| - 1))
      && row.value.episode == |ChangedTokens(obs)| && (o.status != Healthy ==> row.value.episode > 0)
  }

  /** Whether an observation was delivered before is a question about the report before. */
  lemma DeliveredBeforeStep(obs: seq<Observation>, o: Observation)
    requires obs != []
    ensures var last, n := obs[|obs| - 1], |obs|;
            DeliveredBefore(obs + [o], n) <==>
            && last.fingerprint == o.fingerprint && last.status == o.status
            && (last.delivered || DeliveredBefore(obs, n - 1))
  {
    var last, n := obs[|obs| - 1], |obs|;
    var more := obs + [o];
    if DeliveredBefore(more, n) {
      var j :| 0 <= j < n && Unbroken(more, j, n) && more[j].delivered;
      assert more[n - 1] == last;
      if j < n - 1 {
        assert forall k :: j <= k <= n - 1 ==> more[k] == obs[k];
        assert Unbroken(obs, j, n - 1);
      }
    }
    if last.fingerprint == o.fingerprint && last.status == o.status {
      if last.delivered {
        assert Unbroken(more, n - 1, n) && more[n - 1].delivered;
      } else if DeliveredBefore(obs, n - 1) {
        var j :| 0 <= j < n - 1 && Unbroken(obs, j, n - 1) && obs[j].delivered;
        assert forall k :: j <= k <= n - 1 ==> more[k] == obs[k];
        assert Unbroken(more, j, n) && more[j].delivered;
      }
    }
  }

  lemma ChangedTokensStep(obs: seq<Observation>, o: Observation)
    ensures |ChangedTokens(obs + [o])| == |ChangedTokens(obs)| +
            if o.status != Healthy
               && (obs == [] || obs[|obs| - 1].fingerprint != o.fingerprint || obs[|obs| - 1].status != o.status)
            then 1 else 0
  {
    assert (obs + [o])[..|obs|] == obs;
  }

  lemma FirstIsNotDelivered(o: Observation)
    ensures !DeliveredBefore([o], 0)
  {
  }

  /** The induction step, with the runs themselves hidden. */
  lemma {:induction false} OneMoreReport(init: seq<Observation>, o: Observation)
    requires ValidObservation(o) && (init != [] ==> init[|init| - 1].evaluatedAt < o.evaluatedAt)
    requires RowAfter(init, Run(RunReports(init)).row) && Run(RunReports(init)).events == ExpectedLog(init)
    ensures RowAfter(init + [o], Run(RunReports(init + [o])).row)
    ensures Run(RunReports(init + [o])).events == ExpectedLog(init + [o])
  {
    hide Run, ChangedTokens, DeliveredBefore;
    assert (init + [o])[..|init|] == init;
    RunOneReport(RunReports(init), o);
    ChangedTokensStep(init, o);
    if init == [] {
      assert [] + [o] == [o];
      FirstIsNotDelivered(o);
      NothingChanged();
    } else {
      DeliveredBeforeStep(init, o);
    }
  }

  lemma NothingChanged()
    ensures |ChangedTokens([])| == 0
  {
  }

  /** Over undisturbed reports with strictly increasing evaluation times, whatever becomes of their POSTs:
      an alert is raised in every report of an unbroken observation until the first POST that succeeds,
      and never after, and `episode` counts the changes. */
  lemma {:induction false} AlertsAreRetriedUntilDelivered(obs: seq<Observation>)
    requires forall i :: 0 <= i < |obs| ==> ValidObservation(obs[i])
    requires forall i, j :: 0 <= i < j < |obs| ==> obs[i].evaluatedAt < obs[j].evaluatedAt
    ensures Run(RunReports(obs)).events == ExpectedLog(obs) && RowAfter(obs, Run(RunReports(obs)).row)
  {
    hide Run;
    if obs == [] {
      EmptyRun();
    } else {
      var init, o := obs[..|obs| - 1], obs[|obs| - 1];
      AlertsAreRetriedUntilDelivered(init);
      OneMoreReport(init, o);
      assert obs == init + [o];
    }
  }

  /** All reports of one unbroken observation share an episode, and so the idempotency key of its alerts. */
  lemma {:induction false} OneEpisodePerObservation(obs: seq<Observation>, j: nat, i: nat)
    requires j <= i < |obs| && Unbroken(obs, j, i)
    ensures |ChangedTokens(obs[..j + 1])| == |ChangedTokens(obs[..i + 1])|
    ensures IdempotencyKey(obs[j].fingerprint, |ChangedTokens(obs[..j + 1])|)
            == IdempotencyKey(obs[i].fingerprint, |ChangedTokens(obs[..i + 1])|)
    decreases i - j
  {
    hide ChangedTokens;
    if j < i {
      OneEpisodePerObservation(obs, j, i - 1);
      assert obs[..i + 1] == obs[..i] + [obs[i]];
      ChangedTokensStep(obs[..i], obs[i]);
    }
  }

  lemma {:induction false} DeliveredMeansChanged(obs: seq<Observation>)
    requires forall i :: 0 <= i < |obs| ==> obs[i].delivered
    ensures SentTokens(ExpectedLog(obs)) == ChangedTokens(obs)
  {
    hide SentTokens, DeliveredBefore;
    if obs == [] {
      EmptyRun();
    } else {
      var init, o := obs[..|obs| - 1], obs[|obs| - 1];
      DeliveredMeansChanged(init);
      assert obs == init + [o];
      if init == [] {
        FirstIsNotDelivered(o);
      } else {
        DeliveredBeforeStep(init, o);
      }
      var log, episode := ExpectedLog(init), |ChangedTokens(obs)|;
      SentTokensQuiet(log, []);
      SentTokensQuiet(log, [Recovered]);
      SentTokensDelivered(log, Granted(o.token, o.fingerprint, o.status, episode), Sent(o.token, episode));
    }
  }

  /** If besides every POST succeeds, the alerts sent are exactly the observations that differ from their
      predecessor, in order, and `episode` counts them. */
  lemma SendsAreConsecutiveDistinct(obs: seq<Observation>)
    requires forall i :: 0 <= i < |obs| ==> ValidObservation(obs[i]) && obs[i].delivered
    requires forall i, j :: 0 <= i < j < |obs| ==> obs[i].evaluatedAt < obs[j].evaluatedAt
    ensures var end := Run(RunReports(obs));
            && SentTokens(end.events) == ChangedTokens(obs)
            && Episode(end.row) == |ChangedTokens(obs)|
            && (obs == [] ==> end.row.None?)
            && (obs != [] ==>
                  && end.row.Some? && end.row.value.sent
                  && end.row.value.latest == obs[|obs| - 1].evaluatedAt
                  && end.row.value.status == obs[|obs| - 1].status
                  && end.row.value.fingerprint == obs[|obs| - 1].fingerprint)
  {
    hide Run, SentTokens, RunReports, ExpectedLog;
    AlertsAreRetriedUntilDelivered(obs);
    DeliveredMeansChanged(obs);
  }
}
