/** The performance summary: latest evaluation rows, groups of them, the baseline groups that are added,
    and what every AI group is compared with. */
module Performance {
  import opened Wrappers
  import opened Ranks

  datatype Name =
    | Division | Competition | Provider | ModelVersion | PromptVersion | Stage | FeatureVersion
    | AvailabilityPolicy | TimingEligibility | ResultFinality | Other(text: string)

  type Cohort = map<Name, string>

  datatype Kind = HomeRate | Statistical | Market

  /** A stored log loss, or the one of a market probability, which is left symbolic. */
  datatype Loss = Stored(value: real) | Binary(probability: real, outcome: int)

  datatype Pair = Pair(matchId: string, revision: string, snapshot: string, cutoff: string, result: string)

  /** One evaluation with the defaults the source gives to missing columns already in place; times and
      ids stand for their place in text order. */
  datatype Row = Row(
    id: int, prediction: string, evaluator: string, policy: string, stored: Cohort,
    revisionNumber: int, created: int,
    columns: Cohort, provider: string, predictionType: string, modelVersion: string, promptVersion: string,
    eligible: bool, brier: Option<real>, logLoss: Option<Loss>, pair: Option<Pair>,
    marketProbability: Option<real>, outcome: Option<int>)

  // ---- Latest rows ----

  datatype EvaluationKey = EvaluationKey(prediction: string, evaluator: string, policy: string, cohort: Cohort)

  function KeyOf(row: Row): EvaluationKey {
    EvaluationKey(row.prediction, row.evaluator, row.policy, row.stored - {ResultFinality})
  }

  function RevisionOrder(row: Row): seq<int> {
    [row.revisionNumber, row.created, row.id]
  }

  predicate DistinctIds(rows: seq<Row>) {
    forall i, j :: 0 <= i < j < |rows| ==> rows[i].id != rows[j].id
  }

  /** Nothing stored for the same evaluation is newer. */
  predicate Newest(rows: seq<Row>, row: Row) {
    row in rows && forall r :: r in rows && KeyOf(r) == KeyOf(row) ==> !Less(RevisionOrder(row), RevisionOrder(r))
  }

  predicate HasEvaluation(rows: seq<Row>, key: EvaluationKey) {
    exists r :: r in rows && KeyOf(r) == key
  }

  /** One newest row for each evaluation. */
  predicate IsLatest(rows: seq<Row>, latest: seq<Row>) {
    && (forall i, j :: 0 <= i < j < |latest| ==> KeyOf(latest[i]) != KeyOf(latest[j]))
    && (forall r :: r in latest ==> Newest(rows, r))
    && forall r :: r in rows ==> HasEvaluation(latest, KeyOf(r))
  }

  predicate Kept(rows: seq<Row>, latest: map<EvaluationKey, Row>) {
    && (forall k :: k in latest ==> KeyOf(latest[k]) == k && Newest(rows, latest[k]))
    && forall r :: r in rows ==> KeyOf(r) in latest
  }

  predicate SameKeys(order: seq<EvaluationKey>, latest: map<EvaluationKey, Row>) {
    && (forall i, j :: 0 <= i < j < |order| ==> order[i] != order[j])
    && (forall k :: k in order ==> k in latest)
    && forall k :: k in latest ==> k in order
  }

  predicate Replaces(latest: map<EvaluationKey, Row>, row: Row) {
    KeyOf(row) !in latest || Less(RevisionOrder(latest[KeyOf(row)]), RevisionOrder(row))
  }

  lemma OneMoreRow(rows: seq<Row>, row: Row, latest: map<EvaluationKey, Row>)
    requires Kept(rows, latest)
    ensures Kept(rows + [row], if Replaces(latest, row) then latest[KeyOf(row) := row] else latest)
  {
    hide RevisionOrder, Less, KeyOf;
    var after := if Replaces(latest, row) then latest[KeyOf(row) := row] else latest;
    NotNewerThanItself(row);
    forall k | k in after
      ensures KeyOf(after[k]) == k && Newest(rows + [row], after[k])
    {
      forall r | r in rows + [row] && KeyOf(r) == k
        ensures !Less(RevisionOrder(after[k]), RevisionOrder(r))
      {
        if r in rows {
          assert Newest(rows, latest[k]);
          if after[k] != latest[k] {
            OrdersAlign(r, latest[k], row);
            StillAbove(RevisionOrder(r), RevisionOrder(latest[k]), RevisionOrder(row));
          }
        } else {
          assert r == row;
        }
      }
    }
  }

  lemma NotNewerThanItself(row: Row)
    ensures !Less(RevisionOrder(row), RevisionOrder(row))
  {
    LessIsTotal(RevisionOrder(row), RevisionOrder(row));
  }

  lemma OrdersAlign(a: Row, b: Row, c: Row)
    ensures |RevisionOrder(a)| == |RevisionOrder(b)| == |RevisionOrder(c)|
  {
  }

  /** The evaluation keys in the order of their first row. */
  function FirstSeen(rows: seq<Row>): seq<EvaluationKey> {
    if rows == [] then [] else
      var keys, key := FirstSeen(rows[..|rows| - 1]), KeyOf(rows[|rows| - 1]);
      if key in keys then keys else keys + [key]
  }

  lemma FirstSeenGrows(rows: seq<Row>, row: Row)
    ensures FirstSeen(rows + [row])
            == if KeyOf(row) in FirstSeen(rows) then FirstSeen(rows) else FirstSeen(rows) + [KeyOf(row)]
  {
    assert (rows + [row])[..|rows|] == rows;
  }

  method LatestEvaluations(rows: seq<Row>) returns (result: seq<Row>)
    ensures IsLatest(rows, result) && OnePerEvaluation(rows, result)
    ensures |result| == |FirstSeen(rows)| && forall i :: 0 <= i < |result| ==> KeyOf(result[i]) == FirstSeen(rows)[i]
  {
    hide Newest, KeyOf, RevisionOrder, Less, FirstSeen, OnePerEvaluation;
    assert FirstSeen([]) == [] by { NothingSeen(); }
    var latest: map<EvaluationKey, Row> := map[];
    var order: seq<EvaluationKey> := [];
    for i := 0 to |rows|
      invariant Kept(rows[..i], latest) && SameKeys(order, latest) && order == FirstSeen(rows[..i])
    {
      var row := rows[i];
      assert rows[..i + 1] == rows[..i] + [row];
      OneMoreRow(rows[..i], row, latest);
      FirstSeenGrows(rows[..i], row);
      if Replaces(latest, row) {
        if KeyOf(row) !in latest {
          order := order + [KeyOf(row)];
        }
        latest := latest[KeyOf(row) := row];
      }
    }
    assert rows[..|rows|] == rows;
    result := seq(|order|, i requires 0 <= i < |order| && SameKeys(order, latest) => ValueAt(order, latest, i));
    forall r | r in rows
      ensures HasEvaluation(result, KeyOf(r))
    {
      assert KeyOf(r) in order;
      var i :| 0 <= i < |order| && order[i] == KeyOf(r);
      assert result[i] in result;
    }
    LatestInColumns(rows, result);
  }

  lemma NothingSeen()
    ensures FirstSeen([]) == []
  {
  }

  function ValueAt(order: seq<EvaluationKey>, latest: map<EvaluationKey, Row>, i: nat): Row
    requires i < |order| && SameKeys(order, latest)
  {
    assert order[i] in order;
    latest[order[i]]
  }

  /** What newest means: the highest revision number, then the latest creation, then the greatest id. */
  lemma NewestIsMaximal(rows: seq<Row>, row: Row, other: Row)
    requires Newest(rows, row) && other in rows && KeyOf(other) == KeyOf(row)
    ensures other.revisionNumber <= row.revisionNumber
    ensures other.revisionNumber == row.revisionNumber ==> other.created <= row.created
    ensures other.revisionNumber == row.revisionNumber && other.created == row.created ==> other.id <= row.id
  {
    hide Less, KeyOf;
    LessOfThree(row.revisionNumber, row.created, row.id, other.revisionNumber, other.created, other.id);
  }

  /** Evaluations of one prediction by one evaluator and policy, whose cohorts agree in everything but how
      final the result is. */
  ghost predicate SameEvaluation(a: Row, b: Row) {
    && a.prediction == b.prediction && a.evaluator == b.evaluator && a.policy == b.policy
    && forall n: Name :: n != ResultFinality ==>
         (n in a.stored <==> n in b.stored) && (n in a.stored && n in b.stored ==> a.stored[n] == b.stored[n])
  }

  lemma KeyMeansSameEvaluation(a: Row, b: Row)
    ensures KeyOf(a) == KeyOf(b) <==> SameEvaluation(a, b)
  {
    var x, y := a.stored - {ResultFinality}, b.stored - {ResultFinality};
    if x == y {
      forall n: Name | n != ResultFinality
        ensures (n in a.stored <==> n in b.stored) && (n in a.stored && n in b.stored ==> a.stored[n] == b.stored[n])
      {
        assert n in x <==> n in y;
        assert n in x ==> x[n] == a.stored[n] && y[n] == b.stored[n];
      }
    }
    if SameEvaluation(a, b) {
      forall n: Name
        ensures (n in x <==> n in y) && (n in x ==> x[n] == y[n])
      {
      }
      assert x == y;
    }
  }

  /** The kept rows in columns: each stored row has exactly one kept row of its evaluation, stored itself
      and with the highest revision number, then the latest creation, then the greatest id of them all. */
  ghost predicate OnePerEvaluation(rows: seq<Row>, latest: seq<Row>) {
    && (forall i, j :: 0 <= i < j < |latest| ==> !SameEvaluation(latest[i], latest[j]))
    && (forall k :: k in latest ==> k in rows)
    && (forall r :: r in rows ==> exists k :: k in latest && SameEvaluation(k, r))
    && forall k, r :: k in latest && r in rows && SameEvaluation(k, r) ==> IsAsNew(k, r)
  }

  predicate IsAsNew(k: Row, r: Row) {
    || r.revisionNumber < k.revisionNumber
    || (r.revisionNumber == k.revisionNumber && r.created < k.created)
    || (r.revisionNumber == k.revisionNumber && r.created == k.created && r.id <= k.id)
  }

  lemma LatestInColumns(rows: seq<Row>, latest: seq<Row>)
    requires IsLatest(rows, latest)
    ensures OnePerEvaluation(rows, latest)
  {
    hide KeyOf, SameEvaluation, Newest, IsAsNew, RevisionOrder, Less;
    forall a: Row, b: Row
      ensures SameEvaluation(a, b) <==> KeyOf(a) == KeyOf(b)
    {
      KeyMeansSameEvaluation(a, b);
    }
    forall k | k in latest
      ensures k in rows
    {
      NewestIsStored(rows, k);
    }
    forall r | r in rows
      ensures exists k :: k in latest && SameEvaluation(k, r)
    {
      assert HasEvaluation(latest, KeyOf(r));
      var k :| k in latest && KeyOf(k) == KeyOf(r);
      assert SameEvaluation(k, r);
    }
    forall k, r | k in latest && r in rows && SameEvaluation(k, r)
      ensures IsAsNew(k, r)
    {
      NewestIsAsNew(rows, k, r);
    }
  }

  lemma NewestIsAsNew(rows: seq<Row>, k: Row, r: Row)
    requires Newest(rows, k) && r in rows && KeyOf(r) == KeyOf(k)
    ensures IsAsNew(k, r)
  {
    hide Newest, KeyOf;
    NewestIsMaximal(rows, k, r);
  }

  lemma NewestIsStored(rows: seq<Row>, row: Row)
    requires Newest(rows, row)
    ensures row in rows
  {
  }

  lemma OneNewest(rows: seq<Row>, a: Row, b: Row)
    requires DistinctIds(rows) && Newest(rows, a) && Newest(rows, b) && KeyOf(a) == KeyOf(b)
    ensures a == b
  {
    LessIsTotal(RevisionOrder(a), RevisionOrder(b));
    assert RevisionOrder(a)[2] == a.id && RevisionOrder(b)[2] == b.id;
  }

  /** With distinct ids the rows kept do not depend on the order of the stored rows. */
  lemma LatestIgnoresOrder(a: seq<Row>, b: seq<Row>, x: seq<Row>, y: seq<Row>, r: Row)
    requires DistinctIds(a) && (forall r :: r in a <==> r in b)
    requires IsLatest(a, x) && IsLatest(b, y)
    ensures r in x <==> r in y
  {
    hide KeyOf, RevisionOrder, Less, DistinctIds;
    if r in x {
      assert Newest(a, r);
      assert HasEvaluation(y, KeyOf(r));
      var s :| s in y && KeyOf(s) == KeyOf(r);
      assert Newest(b, s);
      OneNewest(a, r, s);
    }
    if r in y {
      assert Newest(b, r);
      assert HasEvaluation(x, KeyOf(r));
      var s :| s in x && KeyOf(s) == KeyOf(r);
      assert Newest(a, s);
      OneNewest(a, r, s);
    }
  }

  // ---- Groups ----

  datatype GroupKey = GroupKey(cohort: Cohort, evaluator: string, policy: string, predictionType: string,
                               kind: Option<Kind>)

  datatype Group = Group(key: GroupKey, rows: seq<Row>, cohort: Cohort, provider: string, modelVersion: string,
                         promptVersion: string, predictionType: string, evaluator: string, policy: string,
                         kind: Option<Kind>)

  datatype Context = Context(division: string, competition: string, stage: string, featureVersion: string,
                             availability: string, timing: string, finality: string, evaluator: string, policy: string)

  const FILLED: set<Name> :=
    {Division, Competition, Provider, ModelVersion, PromptVersion, Stage, FeatureVersion,
     AvailabilityPolicy, TimingEligibility, ResultFinality}

  /** The stored cohort, with the ten names every group needs filled in from the row's columns. */
  function CohortOf(row: Row): Cohort {
    map n | n in row.stored.Keys + FILLED :: if n in row.stored then row.stored[n] else Lookup(row.columns, n)
  }

  function Lookup(c: Cohort, n: Name): string {
    if n in c then c[n] else ""
  }

  function KindName(kind: Kind): string {
    match kind
    case HomeRate => "home_rate"
    case Statistical => "statistical"
    case Market => "market"
  }

  predicate Complete(cohort: Cohort) {
    FILLED <= cohort.Keys
  }

  function ContextOf(group: Group): Context {
    Context(Lookup(group.cohort, Division), Lookup(group.cohort, Competition), Lookup(group.cohort, Stage),
            Lookup(group.cohort, FeatureVersion), Lookup(group.cohort, AvailabilityPolicy),
            Lookup(group.cohort, TimingEligibility), Lookup(group.cohort, ResultFinality),
            group.evaluator, group.policy)
  }

  type Classify = Row -> Option<Kind>

  function GroupKeyOf(classify: Classify, row: Row): GroupKey {
    GroupKey(CohortOf(row), row.evaluator, row.policy, row.predictionType, classify(row))
  }

  function NewGroup(classify: Classify, row: Row): Group {
    var kind := classify(row);
    Group(GroupKeyOf(classify, row), [], CohortOf(row), if kind.Some? then "baseline" else row.provider,
          row.modelVersion, row.promptVersion, if kind.Some? then KindName(kind.value) else row.predictionType,
          row.evaluator, row.policy, kind)
  }

  /** The rows of one group, in order. */
  function RowsOf(classify: Classify, rows: seq<Row>, key: GroupKey): seq<Row> {
    if rows == [] then [] else
      var last := rows[|rows| - 1];
      RowsOf(classify, rows[..|rows| - 1], key) + (if GroupKeyOf(classify, last) == key then [last] else [])
  }

  /** The keys in the order of their first row. */
  function KeysOf(classify: Classify, rows: seq<Row>): seq<GroupKey> {
    if rows == [] then [] else
      var keys := KeysOf(classify, rows[..|rows| - 1]);
      var key := GroupKeyOf(classify, rows[|rows| - 1]);
      if key in keys then keys else keys + [key]
  }

  lemma RowsOfGrows(classify: Classify, rows: seq<Row>, row: Row, key: GroupKey)
    ensures RowsOf(classify, rows + [row], key)
            == RowsOf(classify, rows, key) + (if GroupKeyOf(classify, row) == key then [row] else [])
    ensures KeysOf(classify, rows + [row])
            == if GroupKeyOf(classify, row) in KeysOf(classify, rows) then KeysOf(classify, rows)
               else KeysOf(classify, rows) + [GroupKeyOf(classify, row)]
  {
    assert (rows + [row])[..|rows|] == rows;
  }

  /** A group's cohort: the stored names, and the ten every group has, from the row's columns where the
      stored cohort does not name them. */
  lemma CohortInColumns(row: Row, n: Name)
    ensures n in CohortOf(row) <==> n in row.stored || !n.Other?
    ensures n in row.stored ==> CohortOf(row)[n] == row.stored[n]
    ensures n !in row.stored && n in row.columns && !n.Other? ==> CohortOf(row)[n] == row.columns[n]
  {
  }

  /** Two rows belong to one group exactly when they agree in cohort, evaluator, policy, type of prediction
      and kind of baseline. */
  lemma SameGroupIff(classify: Classify, a: Row, b: Row)
    ensures GroupKeyOf(classify, a) == GroupKeyOf(classify, b) <==>
            && CohortOf(a) == CohortOf(b) && a.evaluator == b.evaluator && a.policy == b.policy
            && a.predictionType == b.predictionType && classify(a) == classify(b)
  {
  }

  /** A new group is named after its first row, and a baseline after its kind. */
  lemma NewGroupInColumns(classify: Classify, row: Row)
    ensures var g := NewGroup(classify, row);
            && g.kind == classify(row) && g.rows == [] && g.cohort == CohortOf(row)
            && g.evaluator == row.evaluator && g.policy == row.policy
            && g.modelVersion == row.modelVersion && g.promptVersion == row.promptVersion
            && (classify(row) == None ==> g.provider == row.provider && g.predictionType == row.predictionType)
            && (classify(row) != None ==> g.provider == "baseline")
            && (classify(row) == Some(HomeRate) ==> g.predictionType == "home_rate")
            && (classify(row) == Some(Statistical) ==> g.predictionType == "statistical")
            && (classify(row) == Some(Market) ==> g.predictionType == "market")
  {
    hide CohortOf;
  }

  /** Two groups have one context exactly when they agree in evaluator, policy and every one of the ten names
      but those of the producer. */
  lemma SameContextIff(a: Group, b: Group)
    requires Complete(a.cohort) && Complete(b.cohort)
    ensures ContextOf(a) == ContextOf(b) <==>
            && a.evaluator == b.evaluator && a.policy == b.policy
            && forall n: Name :: !n.Other? && n !in {Provider, ModelVersion, PromptVersion} ==>
                 n in a.cohort && n in b.cohort && a.cohort[n] == b.cohort[n]
  {
    forall n: Name | !n.Other?
      ensures n in a.cohort && n in b.cohort
    {
      assert n in FILLED;
    }
    if forall n: Name :: !n.Other? && n !in {Provider, ModelVersion, PromptVersion} ==> a.cohort[n] == b.cohort[n] {
      assert a.cohort[Division] == b.cohort[Division] && a.cohort[Competition] == b.cohort[Competition];
      assert a.cohort[Stage] == b.cohort[Stage] && a.cohort[FeatureVersion] == b.cohort[FeatureVersion];
      assert a.cohort[AvailabilityPolicy] == b.cohort[AvailabilityPolicy];
      assert a.cohort[TimingEligibility] == b.cohort[TimingEligibility];
      assert a.cohort[ResultFinality] == b.cohort[ResultFinality];
    }
  }

  predicate HoldsGroup(classify: Classify, rows: seq<Row>, key: GroupKey, group: Group) {
    && group.rows == RowsOf(classify, rows, key) && group.rows != []
    && group == NewGroup(classify, group.rows[0]).(rows := group.rows)
    && group.key == key
  }

  ghost predicate IsGrouping(classify: Classify, rows: seq<Row>, order: seq<GroupKey>, groups: map<GroupKey, Group>) {
    && order == KeysOf(classify, rows)
    && (forall k :: k in order <==> k in groups)
    && (forall k :: k in groups ==> HoldsGroup(classify, rows, k, groups[k]))
    && forall k :: k !in groups ==> RowsOf(classify, rows, k) == []
  }

  /** Grouping loses nothing and repeats nothing: a row is in a group's rows exactly when it is one of
      the rows and the group is its own. */
  lemma {:induction false} EveryRowIsInItsGroupOnly(classify: Classify, rows: seq<Row>, key: GroupKey, row: Row)
    ensures row in RowsOf(classify, rows, key) <==> row in rows && GroupKeyOf(classify, row) == key
    ensures multiset(RowsOf(classify, rows, key))[row]
            == if GroupKeyOf(classify, row) == key then multiset(rows)[row] else 0
  {
    hide GroupKeyOf;
    if rows != [] {
      var init, last := rows[..|rows| - 1], rows[|rows| - 1];
      EveryRowIsInItsGroupOnly(classify, init, key, row);
      assert rows == init + [last];
    }
  }

  // ---- The table of groups ----

  predicate Describes(key: GroupKey, group: Group) {
    && group.key == key && key.cohort == group.cohort && key.evaluator == group.evaluator
    && key.policy == group.policy && key.kind == group.kind && Complete(group.cohort)
  }

  predicate NoRepeat(keys: seq<GroupKey>) {
    forall i, j :: 0 <= i < j < |keys| ==> keys[i] != keys[j]
  }

  predicate WellFormed(order: seq<GroupKey>, groups: map<GroupKey, Group>) {
    && NoRepeat(order)
    && (forall k :: k in order ==> k in groups)
    && (forall k :: k in groups ==> k in order && Describes(k, groups[k]))
  }

  predicate HasKind(groups: map<GroupKey, Group>, kind: Kind, context: Context) {
    exists k :: k in groups && groups[k].kind == Some(kind) && ContextOf(groups[k]) == context
  }

  function AiKeys(order: seq<GroupKey>): seq<GroupKey> {
    if order == [] then [] else (if order[0].kind.None? then [order[0]] else []) + AiKeys(order[1..])
  }

  lemma {:induction false} AiKeysMembers(order: seq<GroupKey>, key: GroupKey)
    ensures key in AiKeys(order) <==> key in order && key.kind.None?
  {
    if order != [] {
      AiKeysMembers(order[1..], key);
      assert order == [order[0]] + order[1..];
    }
  }

  function MarketRow(ai: Group, row: Row): Row
    requires row.marketProbability.Some? && row.outcome.Some?
  {
    var p, o := row.marketProbability.value, row.outcome.value;
    row.(provider := "market", modelVersion := "available-market-v1", promptVersion := "not-applicable",
         predictionType := "market", stored := MarketCohort(ai), eligible := true,
         brier := Some((p - o as real) * (p - o as real)), logLoss := Some(Binary(p, o)))
  }

  function MarketCohort(ai: Group): Cohort {
    ai.cohort[Provider := "market"][ModelVersion := "available-market-v1"][PromptVersion := "not-applicable"]
  }

  function MarketRows(ai: Group, rows: seq<Row>): seq<Row> {
    if rows == [] then [] else
      var last := rows[|rows| - 1];
      MarketRows(ai, rows[..|rows| - 1])
      + (if last.marketProbability.Some? && last.outcome.Some? then [MarketRow(ai, last)] else [])
  }

  function UnavailableCohort(ai: Group, kind: Kind): Cohort {
    var version := KindName(kind) + "-unavailable";
    ai.cohort[Provider := "baseline"][ModelVersion := version][PromptVersion := "not-applicable"]
  }

  /** The group added for an AI group that has no baseline of the kind. */
  function Fallback(ai: Group, kind: Kind): Group {
    var cohort := if kind == Market then MarketCohort(ai) else UnavailableCohort(ai, kind);
    Group(GroupKey(cohort, ai.evaluator, ai.policy, KindName(kind), Some(kind)),
          if kind == Market then MarketRows(ai, ai.rows) else [], cohort, "baseline",
          if kind == Market then "available-market-v1" else KindName(kind) + "-unavailable",
          "not-applicable", KindName(kind), ai.evaluator, ai.policy, Some(kind))
  }

  /** An added group in columns: a market group carries the rows its AI group has market values for, any
      other kind none; only what names the producer differs from the AI group's cohort. */
  lemma FallbackInColumns(ai: Group, kind: Kind, n: Name)
    ensures var added := Fallback(ai, kind);
            && added.kind == Some(kind) && added.key.kind == Some(kind) && added.provider == "baseline"
            && added.evaluator == ai.evaluator && added.policy == ai.policy && added.promptVersion == "not-applicable"
            && (kind != Market ==> added.rows == [])
            && (n !in {Provider, ModelVersion, PromptVersion} ==>
                  (n in added.cohort <==> n in ai.cohort) && (n in ai.cohort ==> added.cohort[n] == ai.cohort[n]))
            && {Provider, ModelVersion, PromptVersion} <= added.cohort.Keys
            && added.cohort[PromptVersion] == "not-applicable"
            && added.cohort[Provider] == (if kind == Market then "market" else "baseline")
            && added.cohort[ModelVersion] == added.modelVersion
  {
    hide KindName;
  }

  lemma FallbackNames(ai: Group)
    ensures Fallback(ai, HomeRate).modelVersion == "home_rate-unavailable"
    ensures Fallback(ai, Statistical).modelVersion == "statistical-unavailable"
    ensures Fallback(ai, Market).modelVersion == "available-market-v1"
    ensures Fallback(ai, HomeRate).predictionType == "home_rate"
    ensures Fallback(ai, Statistical).predictionType == "statistical" && Fallback(ai, Market).predictionType == "market"
  {
    hide MarketCohort, UnavailableCohort, MarketRows;
  }

  /** The row of a market group: the match, the outcome and the keys of the AI row, with the market's scores. */
  lemma MarketRowInColumns(ai: Group, row: Row)
    requires row.marketProbability.Some? && row.outcome.Some?
    ensures var m, p, o := MarketRow(ai, row), row.marketProbability.value, row.outcome.value;
            && m.id == row.id && m.pair == row.pair && m.eligible && m.provider == "market"
            && m.predictionType == "market" && m.evaluator == row.evaluator && m.policy == row.policy
            && m.brier.Some? && (o == 1 ==> m.brier.value == (1.0 - p) * (1.0 - p))
            && (o == 0 ==> m.brier.value == p * p)
            && m.logLoss == Some(Binary(p, o))
  {
    var p, o := row.marketProbability.value, row.outcome.value;
    assert o == 1 ==> (p - 1.0) * (p - 1.0) == (1.0 - p) * (1.0 - p);
  }

  /** The AI group and the kind the loops look at, in order. */
  datatype Task = Task(ai: GroupKey, kind: Kind)

  function MarketTasks(ai: seq<GroupKey>): seq<Task> {
    seq(|ai|, i requires 0 <= i < |ai| => Task(ai[i], Market))
  }

  function MissingTasks(ai: seq<GroupKey>): seq<Task> {
    seq(2 * |ai|, i requires 0 <= i < 2 * |ai| => Task(ai[i / 2], if i % 2 == 0 then HomeRate else Statistical))
  }

  predicate TasksOver(groups: map<GroupKey, Group>, tasks: seq<Task>) {
    forall t :: t in tasks ==> t.ai in groups && groups[t.ai].kind.None?
  }

  /** Task i is the first one of its kind and context, and the table had no such baseline before. */
  predicate Adds(before: map<GroupKey, Group>, tasks: seq<Task>, i: nat)
    requires TasksOver(before, tasks) && i < |tasks|
  {
    && !HasKind(before, tasks[i].kind, ContextOf(before[tasks[i].ai]))
    && forall j :: 0 <= j < i && tasks[j].kind == tasks[i].kind ==>
         ContextOf(before[tasks[j].ai]) != ContextOf(before[tasks[i].ai])
  }

  ghost predicate AddedBy(before: map<GroupKey, Group>, tasks: seq<Task>, n: nat, key: GroupKey, group: Group)
    requires TasksOver(before, tasks) && n <= |tasks|
  {
    exists i: nat :: i < n && Adds(before, tasks, i)
                     && group == Fallback(before[tasks[i].ai], tasks[i].kind) && key == group.key
  }

  /** After n tasks: every group that was there is as it was, every new one was added by the first task
      that needed it, and every task has its baseline. */
  ghost predicate Filled(before: map<GroupKey, Group>, tasks: seq<Task>, n: nat, groups: map<GroupKey, Group>)
    requires TasksOver(before, tasks) && n <= |tasks|
  {
    && (forall k :: k in before ==> k in groups && groups[k] == before[k])
    && (forall k :: k in groups && k !in before ==> AddedBy(before, tasks, n, k, groups[k]))
    && forall i :: 0 <= i < n ==> HasKind(groups, tasks[i].kind, ContextOf(before[tasks[i].ai]))
  }

  lemma FallbackKeepsContext(ai: Group, kind: Kind)
    requires Complete(ai.cohort)
    ensures ContextOf(Fallback(ai, kind)) == ContextOf(ai)
    ensures Describes(Fallback(ai, kind).key, Fallback(ai, kind)) && Fallback(ai, kind).kind == Some(kind)
  {
  }

  /** A key that is taken belongs to a baseline of the same kind and context. */
  lemma TakenKeyHasKind(order: seq<GroupKey>, groups: map<GroupKey, Group>, ai: Group, kind: Kind)
    requires WellFormed(order, groups) && Complete(ai.cohort) && Fallback(ai, kind).key in groups
    ensures HasKind(groups, kind, ContextOf(ai))
  {
    FallbackKeepsContext(ai, kind);
    hide Fallback;
    var k := Fallback(ai, kind).key;
    assert Describes(k, groups[k]);
    assert groups[k].kind == Some(kind) && ContextOf(groups[k]) == ContextOf(Fallback(ai, kind));
  }

  lemma StaysFilled(before: map<GroupKey, Group>, tasks: seq<Task>, n: nat, groups: map<GroupKey, Group>)
    requires TasksOver(before, tasks) && n < |tasks| && Filled(before, tasks, n, groups)
    requires HasKind(groups, tasks[n].kind, ContextOf(before[tasks[n].ai]))
    ensures Filled(before, tasks, n + 1, groups)
  {
    hide Fallback, HasKind, Adds;
    forall k | k in groups && k !in before
      ensures AddedBy(before, tasks, n + 1, k, groups[k])
    {
      assert AddedBy(before, tasks, n, k, groups[k]);
    }
  }

  lemma HasKindGrows(groups: map<GroupKey, Group>, more: map<GroupKey, Group>, kind: Kind, context: Context)
    requires forall k :: k in groups ==> k in more && more[k] == groups[k]
    ensures HasKind(groups, kind, context) ==> HasKind(more, kind, context)
  {
    hide ContextOf;
    if HasKind(groups, kind, context) {
      var k :| k in groups && groups[k].kind == Some(kind) && ContextOf(groups[k]) == context;
      assert k in more;
    }
  }

  lemma AddFallback(order: seq<GroupKey>, before: map<GroupKey, Group>, tasks: seq<Task>, n: nat,
                    groups: map<GroupKey, Group>)
    requires TasksOver(before, tasks) && n < |tasks| && Filled(before, tasks, n, groups)
    requires WellFormed(order, groups)
    requires !HasKind(groups, tasks[n].kind, ContextOf(before[tasks[n].ai]))
    ensures var added := Fallback(before[tasks[n].ai], tasks[n].kind);
            && added.key !in groups
            && WellFormed(order + [added.key], groups[added.key := added])
            && Filled(before, tasks, n + 1, groups[added.key := added])
  {
    hide Fallback, Adds, ContextOf, HasKind, Complete;
    var t := tasks[n];
    assert t in tasks;
    var ai := before[t.ai];
    assert Describes(t.ai, groups[t.ai]);
    FallbackKeepsContext(ai, t.kind);
    if Fallback(ai, t.kind).key in groups {
      TakenKeyHasKind(order, groups, ai, t.kind);
    }
    NewTaskAdds(before, tasks, n, groups);
    var added := Fallback(ai, t.kind);
    WellFormedGrows(order, groups, added);
    NewGroupHasKind(groups, added, t.kind);
    FilledGrows(before, tasks, n, groups, added);
  }

  lemma WellFormedGrows(order: seq<GroupKey>, groups: map<GroupKey, Group>, added: Group)
    requires WellFormed(order, groups) && added.key !in groups && Describes(added.key, added)
    ensures WellFormed(order + [added.key], groups[added.key := added])
  {
    hide Describes;
    assert added.key !in order;
  }

  lemma NewGroupHasKind(groups: map<GroupKey, Group>, added: Group, kind: Kind)
    requires added.kind == Some(kind)
    ensures HasKind(groups[added.key := added], kind, ContextOf(added))
  {
    hide ContextOf;
    var after := groups[added.key := added];
    assert added.key in after && after[added.key] == added;
  }

  lemma FilledGrows(before: map<GroupKey, Group>, tasks: seq<Task>, n: nat, groups: map<GroupKey, Group>, added: Group)
    requires TasksOver(before, tasks) && n < |tasks| && Filled(before, tasks, n, groups) && added.key !in groups
    requires Adds(before, tasks, n) && added == Fallback(before[tasks[n].ai], tasks[n].kind)
    requires HasKind(groups[added.key := added], tasks[n].kind, ContextOf(before[tasks[n].ai]))
    ensures Filled(before, tasks, n + 1, groups[added.key := added])
  {
    hide Fallback, Adds, ContextOf, HasKind;
    var after := groups[added.key := added];
    forall i | 0 <= i < n
      ensures HasKind(after, tasks[i].kind, ContextOf(before[tasks[i].ai]))
    {
      HasKindGrows(groups, after, tasks[i].kind, ContextOf(before[tasks[i].ai]));
    }
    forall k | k in after && k !in before
      ensures AddedBy(before, tasks, n + 1, k, after[k])
    {
      if k != added.key {
        assert AddedBy(before, tasks, n, k, groups[k]);
      }
    }
  }

  lemma NewTaskAdds(before: map<GroupKey, Group>, tasks: seq<Task>, n: nat, groups: map<GroupKey, Group>)
    requires TasksOver(before, tasks) && n < |tasks| && Filled(before, tasks, n, groups)
    requires !HasKind(groups, tasks[n].kind, ContextOf(before[tasks[n].ai]))
    ensures Adds(before, tasks, n)
  {
    hide ContextOf;
    assert tasks[n] in tasks;
    HasKindGrows(before, groups, tasks[n].kind, ContextOf(before[tasks[n].ai]));
  }

  // ---- Comparisons ----

  predicate Pairable(row: Row) {
    row.eligible && row.brier.Some? && row.logLoss.Some? && row.pair.Some?
  }

  /** The rows that can be paired, the last one of each pair key. */
  function Pairs(rows: seq<Row>): map<Pair, Row> {
    if rows == [] then map[] else
      var last := rows[|rows| - 1];
      var pairs := Pairs(rows[..|rows| - 1]);
      if Pairable(last) then pairs[last.pair.value := last] else pairs
  }

  predicate HasPair(rows: seq<Row>, pair: Pair) {
    exists r :: r in rows && Pairable(r) && r.pair == Some(pair)
  }

  lemma {:induction false} PairsAreTheEligibleRows(rows: seq<Row>, pair: Pair)
    ensures pair in Pairs(rows) <==> HasPair(rows, pair)
    ensures pair in Pairs(rows) ==>
            Pairs(rows)[pair] in rows && Pairable(Pairs(rows)[pair]) && Pairs(rows)[pair].pair == Some(pair)
  {
    if rows != [] {
      var init, last := rows[..|rows| - 1], rows[|rows| - 1];
      PairsAreTheEligibleRows(init, pair);
      assert rows == init + [last];
      if HasPair(init, pair) {
        var r :| r in init && Pairable(r) && r.pair == Some(pair);
        assert r in rows;
      }
      if Pairable(last) && last.pair == Some(pair) {
        assert last in rows;
      }
    }
  }

  /** A pair has a row in columns: an eligible one with both scores and the whole key. */
  lemma PairsInColumns(rows: seq<Row>, pair: Pair)
    ensures pair in Pairs(rows) <==>
            exists i :: 0 <= i < |rows| && rows[i].eligible && rows[i].brier != None && rows[i].logLoss != None
                        && rows[i].pair == Some(pair)
  {
    hide Pairs;
    PairsAreTheEligibleRows(rows, pair);
    if HasPair(rows, pair) {
      var r :| r in rows && Pairable(r) && r.pair == Some(pair);
      var i :| 0 <= i < |rows| && rows[i] == r;
    }
    if i :| 0 <= i < |rows| && rows[i].eligible && rows[i].brier != None && rows[i].logLoss != None
            && rows[i].pair == Some(pair) {
      assert rows[i] in rows && Pairable(rows[i]);
    }
  }

  predicate HasMarket(row: Row) {
    row.marketProbability.Some? && row.outcome.Some?
  }

  predicate HasMarketPair(rows: seq<Row>, pair: Pair) {
    exists r :: r in rows && HasMarket(r) && r.pair == Some(pair)
  }

  lemma PairsGrow(rows: seq<Row>, row: Row, pair: Pair)
    ensures pair in Pairs(rows + [row]) <==> pair in Pairs(rows) || (Pairable(row) && row.pair == Some(pair))
  {
    assert (rows + [row])[..|rows|] == rows;
  }

  lemma HasMarketPairGrows(rows: seq<Row>, row: Row, pair: Pair)
    ensures HasMarketPair(rows + [row], pair) <==>
            HasMarketPair(rows, pair) || (HasMarket(row) && row.pair == Some(pair))
  {
    if HasMarketPair(rows, pair) {
      var r :| r in rows && HasMarket(r) && r.pair == Some(pair);
      assert r in rows + [row];
    }
    if HasMarket(row) && row.pair == Some(pair) {
      assert row in rows + [row];
    }
  }

  /** The added market group pairs exactly the matches for which its AI group knows a market probability
      and an outcome, whether or not the AI row itself is eligible. */
  lemma {:induction false} MarketPairs(ai: Group, rows: seq<Row>, pair: Pair)
    ensures pair in Pairs(MarketRows(ai, rows)) <==> HasMarketPair(rows, pair)
  {
    hide HasMarketPair, Pairs;
    if rows == [] {
      assert MarketRows(ai, rows) == [];
      NoPairs(pair);
    } else {
      var init, last := rows[..|rows| - 1], rows[|rows| - 1];
      MarketPairs(ai, init, pair);
      assert rows == init + [last];
      HasMarketPairGrows(init, last, pair);
      if HasMarket(last) {
        assert MarketRows(ai, rows) == MarketRows(ai, init) + [MarketRow(ai, last)];
        PairsGrow(MarketRows(ai, init), MarketRow(ai, last), pair);
      } else {
        assert MarketRows(ai, rows) == MarketRows(ai, init);
      }
    }
  }

  lemma NoPairs(pair: Pair)
    ensures pair !in Pairs([]) && !HasMarketPair([], pair)
  {
  }

  method EligiblePairs(rows: seq<Row>) returns (result: map<Pair, Row>)
    ensures result == Pairs(rows)
  {
    result := map[];
    for i := 0 to |rows|
      invariant result == Pairs(rows[..i])
    {
      var row := rows[i];
      assert rows[..i + 1][..i] == rows[..i];
      if !row.eligible {
        continue;
      }
      if row.brier.None? || row.logLoss.None? {
        continue;
      }
      if row.pair.None? {
        continue;
      }
      result := result[row.pair.value := row];
    }
    assert rows[..|rows|] == rows;
  }

  datatype Comparison = Comparison(kind: Kind, modelVersion: string, aiN: nat, baselineN: nat, pairedN: nat,
                                   aiUnavailable: nat, baselineUnavailable: nat)

  /** Both sides add up: a match with an AI row is either paired or lacks a baseline row, and conversely;
      the paired ones are those both sides have. */
  predicate Accounts(ai: Group, baseline: Group, c: Comparison) {
    && Some(c.kind) == baseline.kind && c.modelVersion == baseline.modelVersion
    && c.aiN == |Pairs(ai.rows)| == c.pairedN + c.baselineUnavailable
    && c.baselineN == |Pairs(baseline.rows)| == c.pairedN + c.aiUnavailable
    && c.pairedN == |set p | p in Pairs(ai.rows) && p in Pairs(baseline.rows)|
  }

  lemma SplitCount(a: set<Pair>, b: set<Pair>)
    ensures |a| == |a * b| + |a - b|
  {
    assert a == a * b + (a - b);
  }

  method Compare(ai: Group, baseline: Group) returns (c: Comparison)
    requires baseline.kind.Some?
    ensures Accounts(ai, baseline, c)
  {
    hide Pairs;
    var aiPairs := EligiblePairs(ai.rows);
    var baselinePairs := EligiblePairs(baseline.rows);
    var a, b := aiPairs.Keys, baselinePairs.Keys;
    assert (set p | p in aiPairs && p in baselinePairs) == a * b;
    SplitCount(a, b);
    SplitCount(b, a);
    assert a * b == b * a;
    c := Comparison(baseline.kind.value, baseline.modelVersion, |a|, |b|, |a * b|, |b - a|, |a - b|);
  }

  /** The baseline groups of a context. */
  function Candidates(order: seq<GroupKey>, groups: map<GroupKey, Group>, kind: Kind, context: Context): seq<GroupKey> {
    if order == [] then [] else
      (if order[0] in groups && groups[order[0]].kind == Some(kind) && ContextOf(groups[order[0]]) == context
       then [order[0]] else [])
      + Candidates(order[1..], groups, kind, context)
  }

  lemma {:induction false} CandidatesMembers(order: seq<GroupKey>, groups: map<GroupKey, Group>, kind: Kind,
                                             context: Context, key: GroupKey)
    ensures key in Candidates(order, groups, kind, context)
            <==> key in order && key in groups && groups[key].kind == Some(kind) && ContextOf(groups[key]) == context
  {
    hide ContextOf;
    if order != [] {
      CandidatesMembers(order[1..], groups, kind, context, key);
      assert order == [order[0]] + order[1..];
    }
  }

  /** The candidates of all kinds in the order of the kinds' names, which is a stable sort by name. */
  function SortedCandidates(order: seq<GroupKey>, groups: map<GroupKey, Group>, context: Context): seq<GroupKey> {
    Candidates(order, groups, HomeRate, context)
    + Candidates(order, groups, Market, context)
    + Candidates(order, groups, Statistical, context)
  }

  lemma SortedCandidatesMembers(order: seq<GroupKey>, groups: map<GroupKey, Group>, context: Context, key: GroupKey)
    ensures key in SortedCandidates(order, groups, context)
            <==> key in order && key in groups && groups[key].kind.Some? && ContextOf(groups[key]) == context
  {
    hide ContextOf, Candidates;
    CandidatesMembers(order, groups, HomeRate, context, key);
    CandidatesMembers(order, groups, Market, context, key);
    CandidatesMembers(order, groups, Statistical, context, key);
    if key in groups && groups[key].kind.Some? {
      match groups[key].kind.value {
        case HomeRate =>
        case Statistical =>
        case Market =>
      }
    }
  }

  /** The first character in which two kinds' names differ decides, so home rates come before market and
      market before statistical. */
  lemma KindsByName()
    ensures KindName(HomeRate) == "home_rate" && KindName(Market) == "market" && KindName(Statistical) == "statistical"
    ensures KindName(HomeRate)[0] < KindName(Market)[0] < KindName(Statistical)[0]
  {
  }

  /** The candidates come by the names of their kinds, and those of one kind in the order of the table. */
  lemma CandidatesByName(order: seq<GroupKey>, groups: map<GroupKey, Group>, context: Context, i: nat, j: nat)
    requires i <= j < |SortedCandidates(order, groups, context)|
    ensures var keys := SortedCandidates(order, groups, context);
            && keys[i] in groups && groups[keys[i]].kind.Some? && keys[j] in groups && groups[keys[j]].kind.Some?
            && KindName(groups[keys[i]].kind.value)[0] <= KindName(groups[keys[j]].kind.value)[0]
  {
    hide ContextOf, Candidates;
    var a, b := Candidates(order, groups, HomeRate, context), Candidates(order, groups, Market, context);
    var c := Candidates(order, groups, Statistical, context);
    forall k
      ensures k in a ==> k in groups && groups[k].kind == Some(HomeRate)
      ensures k in b ==> k in groups && groups[k].kind == Some(Market)
      ensures k in c ==> k in groups && groups[k].kind == Some(Statistical)
    {
      CandidatesMembers(order, groups, HomeRate, context, k);
      CandidatesMembers(order, groups, Market, context, k);
      CandidatesMembers(order, groups, Statistical, context, k);
    }
    forall n: nat | n < |a + b + c|
      ensures (a + b + c)[n] in if n < |a| then a else if n < |a| + |b| then b else c
    {
    }
    KindsByName();
  }

  /** One comparison for each baseline group of the AI group's context, in that order. */
  ghost predicate ComparedWith(ai: Group, groups: map<GroupKey, Group>, keys: seq<GroupKey>,
                               comparisons: seq<Comparison>) {
    && |comparisons| == |keys|
    && forall i :: 0 <= i < |keys| ==> keys[i] in groups && Accounts(ai, groups[keys[i]], comparisons[i])
  }

  method Comparisons(ai: Group, order: seq<GroupKey>, groups: map<GroupKey, Group>) returns (result: seq<Comparison>)
    ensures ComparedWith(ai, groups, SortedCandidates(order, groups, ContextOf(ai)), result)
  {
    hide SortedCandidates, Accounts, ContextOf;
    var keys := SortedCandidates(order, groups, ContextOf(ai));
    result := [];
    for i := 0 to |keys|
      invariant ComparedWith(ai, groups, keys[..i], result)
    {
      assert keys[i] in keys;
      SortedCandidatesMembers(order, groups, ContextOf(ai), keys[i]);
      var c := Compare(ai, groups[keys[i]]);
      result := result + [c];
    }
    assert keys[..|keys|] == keys;
  }

  // ---- The table ----

  /** The dictionary of groups, in insertion order, which the three passes grow in place. */
  class GroupTable {
    var order: seq<GroupKey>
    var groups: map<GroupKey, Group>

    predicate Valid()
      reads this
    {
      WellFormed(order, groups)
    }

    constructor ()
      ensures Valid() && order == [] && groups == map[]
    {
      order, groups := [], map[];
    }

    method GroupEvaluations(classify: Classify, rows: seq<Row>)
      requires order == [] && groups == map[]
      modifies this
      ensures Valid() && IsGrouping(classify, rows, order, groups)
    {
      hide RowsOf, KeysOf, GroupKeyOf, NewGroup, HoldsGroup;
      assert IsGrouping(classify, rows[..0], order, groups) by { NothingGrouped(classify); }
      hide IsGrouping;
      for i := 0 to |rows|
        invariant IsGrouping(classify, rows[..i], order, groups)
      {
        var row := rows[i];
        var key := GroupKeyOf(classify, row);
        assert rows[..i + 1] == rows[..i] + [row];
        OneMoreGrouped(classify, rows[..i], row, order, groups);
        if key !in groups {
          order := order + [key];
          groups := groups[key := NewGroup(classify, row)];
        }
        groups := groups[key := groups[key].(rows := groups[key].rows + [row])];
      }
      assert rows[..|rows|] == rows;
      GroupingIsWellFormed(classify, rows, order, groups);
    }

    method AddMarketGroups()
      requires Valid()
      modifies this
      ensures Valid()
      ensures var tasks := MarketTasks(AiKeys(old(order)));
              TasksOver(old(groups), tasks) && Filled(old(groups), tasks, |tasks|, groups)
    {
      hide AiKeys, HasKind, Fallback, ContextOf, WellFormed, Filled;
      var ai := AiKeys(order);
      ghost var before := groups;
      ghost var tasks := MarketTasks(ai);
      MarketTasksFit(order, groups);
      NothingFilled(groups, tasks);
      for i := 0 to |ai|
        invariant WellFormed(order, groups) && Filled(before, tasks, i, groups)
      {
        assert tasks[i] in tasks && tasks[i] == Task(ai[i], Market);
        assert ai[i] in groups && groups[ai[i]] == before[ai[i]] by { FilledKeeps(before, tasks, i, groups, ai[i]); }
        var group := groups[ai[i]];
        if HasKind(groups, Market, ContextOf(group)) {
          StaysFilled(before, tasks, i, groups);
          continue;
        }
        AddFallback(order, before, tasks, i, groups);
        var added := Fallback(group, Market);
        order := order + [added.key];
        groups := groups[added.key := added];
      }
    }

    method AddMissingBaselineGroups()
      requires Valid()
      modifies this
      ensures Valid()
      ensures var tasks := MissingTasks(AiKeys(old(order)));
              TasksOver(old(groups), tasks) && Filled(old(groups), tasks, |tasks|, groups)
    {
      hide AiKeys, HasKind, Fallback, ContextOf, WellFormed, Filled;
      var ai := AiKeys(order);
      ghost var before := groups;
      ghost var tasks := MissingTasks(ai);
      MissingTasksFit(order, groups);
      NothingFilled(groups, tasks);
      for i := 0 to |ai|
        invariant WellFormed(order, groups) && Filled(before, tasks, 2 * i, groups)
      {
        var kinds := [HomeRate, Statistical];
        for j := 0 to 2
          invariant WellFormed(order, groups) && Filled(before, tasks, 2 * i + j, groups)
        {
          ghost var n: nat := 2 * i + j;
          assert tasks[n] in tasks && tasks[n] == Task(ai[i], kinds[j]);
          assert ai[i] in groups && groups[ai[i]] == before[ai[i]] by { FilledKeeps(before, tasks, n, groups, ai[i]); }
          var group := groups[ai[i]];
          if HasKind(groups, kinds[j], ContextOf(group)) {
            StaysFilled(before, tasks, n, groups);
            continue;
          }
          AddFallback(order, before, tasks, n, groups);
          var added := Fallback(group, kinds[j]);
          order := order + [added.key];
          groups := groups[added.key := added];
        }
      }
    }
  }

  lemma NothingGrouped(classify: Classify)
    ensures IsGrouping(classify, [], [], map[])
  {
  }

  lemma OneMoreGrouped(classify: Classify, rows: seq<Row>, row: Row, order: seq<GroupKey>, groups: map<GroupKey, Group>)
    requires IsGrouping(classify, rows, order, groups)
    ensures var key := GroupKeyOf(classify, row);
            var group := if key in groups then groups[key] else NewGroup(classify, row);
            IsGrouping(classify, rows + [row], if key in groups then order else order + [key],
                       groups[key := group.(rows := group.rows + [row])])
  {
    hide RowsOf, KeysOf, GroupKeyOf, NewGroup, HoldsGroup;
    var key := GroupKeyOf(classify, row);
    RowsOfGrows(classify, rows, row, key);
    var group := if key in groups then groups[key] else NewGroup(classify, row);
    var after := groups[key := group.(rows := group.rows + [row])];
    HoldsOneMore(classify, rows, row, group, key in groups);
    forall k | k in after && k != key
      ensures HoldsGroup(classify, rows + [row], k, after[k])
    {
      HoldsStill(classify, rows, row, k, groups[k]);
    }
    forall k | k !in after
      ensures RowsOf(classify, rows + [row], k) == []
    {
      RowsOfGrows(classify, rows, row, k);
    }
  }

  lemma HoldsOneMore(classify: Classify, rows: seq<Row>, row: Row, group: Group, known: bool)
    requires var key := GroupKeyOf(classify, row);
             if known then HoldsGroup(classify, rows, key, group)
             else RowsOf(classify, rows, key) == [] && group == NewGroup(classify, row)
    ensures HoldsGroup(classify, rows + [row], GroupKeyOf(classify, row), group.(rows := group.rows + [row]))
  {
    hide RowsOf, CohortOf;
    RowsOfGrows(classify, rows, row, GroupKeyOf(classify, row));
  }

  lemma HoldsStill(classify: Classify, rows: seq<Row>, row: Row, key: GroupKey, group: Group)
    requires HoldsGroup(classify, rows, key, group) && GroupKeyOf(classify, row) != key
    ensures HoldsGroup(classify, rows + [row], key, group)
  {
    hide RowsOf, GroupKeyOf, NewGroup;
    RowsOfGrows(classify, rows, row, key);
    assert group.rows + [] == group.rows;
  }

  lemma {:induction false} KeysAreDistinct(classify: Classify, rows: seq<Row>)
    ensures NoRepeat(KeysOf(classify, rows))
  {
    hide GroupKeyOf;
    if rows != [] {
      KeysAreDistinct(classify, rows[..|rows| - 1]);
      var keys := KeysOf(classify, rows[..|rows| - 1]);
      var key := GroupKeyOf(classify, rows[|rows| - 1]);
      if key !in keys {
        forall i | 0 <= i < |keys|
          ensures (keys + [key])[i] != key
        {
          assert keys[i] in keys;
        }
      }
    }
  }

  lemma GroupingIsWellFormed(classify: Classify, rows: seq<Row>, order: seq<GroupKey>, groups: map<GroupKey, Group>)
    requires IsGrouping(classify, rows, order, groups)
    ensures WellFormed(order, groups)
  {
    hide KeysOf, RowsOf;
    KeysAreDistinct(classify, rows);
    forall k | k in groups
      ensures Describes(k, groups[k])
    {
      assert HoldsGroup(classify, rows, k, groups[k]);
    }
  }

  lemma AiKeysFit(order: seq<GroupKey>, groups: map<GroupKey, Group>, key: GroupKey)
    requires WellFormed(order, groups) && key in AiKeys(order)
    ensures key in groups && groups[key].kind.None?
  {
    AiKeysMembers(order, key);
    assert Describes(key, groups[key]);
  }

  lemma MarketTasksFit(order: seq<GroupKey>, groups: map<GroupKey, Group>)
    requires WellFormed(order, groups)
    ensures TasksOver(groups, MarketTasks(AiKeys(order)))
  {
    hide WellFormed, AiKeys;
    forall t | t in MarketTasks(AiKeys(order))
      ensures t.ai in groups && groups[t.ai].kind.None?
    {
      AiKeysFit(order, groups, t.ai);
    }
  }

  lemma MissingTasksFit(order: seq<GroupKey>, groups: map<GroupKey, Group>)
    requires WellFormed(order, groups)
    ensures TasksOver(groups, MissingTasks(AiKeys(order)))
  {
    hide WellFormed, AiKeys;
    forall t | t in MissingTasks(AiKeys(order))
      ensures t.ai in groups && groups[t.ai].kind.None?
    {
      AiKeysFit(order, groups, t.ai);
    }
  }

  lemma NothingFilled(groups: map<GroupKey, Group>, tasks: seq<Task>)
    requires TasksOver(groups, tasks)
    ensures Filled(groups, tasks, 0, groups)
  {
  }

  lemma FilledKeeps(before: map<GroupKey, Group>, tasks: seq<Task>, n: nat, groups: map<GroupKey, Group>, key: GroupKey)
    requires TasksOver(before, tasks) && n <= |tasks| && Filled(before, tasks, n, groups) && key in before
    ensures key in groups && groups[key] == before[key]
  {
  }

  /** An added group is a baseline, so AI groups are those that were there. */
  lemma AiGroupsStay(before: map<GroupKey, Group>, tasks: seq<Task>, n: nat, groups: map<GroupKey, Group>,
                     key: GroupKey)
    requires TasksOver(before, tasks) && n <= |tasks| && Filled(before, tasks, n, groups)
    requires key in groups && groups[key].kind.None?
    ensures key in before && before[key] == groups[key]
  {
    hide Filled, TasksOver;
    if key !in before {
      AddedHasKind(before, tasks, n, groups, key);
    } else {
      FilledKeeps(before, tasks, n, groups, key);
    }
  }

  lemma AddedHasKind(before: map<GroupKey, Group>, tasks: seq<Task>, n: nat, groups: map<GroupKey, Group>,
                     key: GroupKey)
    requires TasksOver(before, tasks) && n <= |tasks| && Filled(before, tasks, n, groups)
    requires key in groups && key !in before
    ensures groups[key].kind.Some?
  {
    hide HasKind, Adds;
    assert AddedBy(before, tasks, n, key, groups[key]);
  }

  lemma MarketFilled(order: seq<GroupKey>, before: map<GroupKey, Group>, groups: map<GroupKey, Group>, key: GroupKey)
    requires WellFormed(order, before) && TasksOver(before, MarketTasks(AiKeys(order)))
    requires Filled(before, MarketTasks(AiKeys(order)), |AiKeys(order)|, groups)
    requires key in before && before[key].kind.None?
    ensures HasKind(groups, Market, ContextOf(before[key]))
  {
    hide HasKind, ContextOf;
    assert Describes(key, before[key]);
    AiKeysMembers(order, key);
    var ai := AiKeys(order);
    hide AiKeys;
    var i :| 0 <= i < |ai| && ai[i] == key;
    assert MarketTasks(ai)[i] == Task(key, Market);
  }

  lemma MissingTaskAt(ai: seq<GroupKey>, i: nat)
    requires i < |ai|
    ensures |MissingTasks(ai)| == 2 * |ai|
    ensures MissingTasks(ai)[2 * i] == Task(ai[i], HomeRate) && MissingTasks(ai)[2 * i + 1] == Task(ai[i], Statistical)
  {
  }

  lemma MissingFilled(order: seq<GroupKey>, before: map<GroupKey, Group>, groups: map<GroupKey, Group>, key: GroupKey)
    requires WellFormed(order, before) && TasksOver(before, MissingTasks(AiKeys(order)))
    requires Filled(before, MissingTasks(AiKeys(order)), 2 * |AiKeys(order)|, groups)
    requires key in before && before[key].kind.None?
    ensures HasKind(groups, HomeRate, ContextOf(before[key])) && HasKind(groups, Statistical, ContextOf(before[key]))
  {
    hide HasKind, ContextOf, NoRepeat, AddedBy;
    assert Describes(key, before[key]);
    AiKeysMembers(order, key);
    var ai := AiKeys(order);
    hide AiKeys;
    var i :| 0 <= i < |ai| && ai[i] == key;
    MissingTaskAt(ai, i);
    hide MissingTasks;
    var n: nat := 2 * i;
    assert MissingTasks(ai)[n] == Task(key, HomeRate);
    assert MissingTasks(ai)[n + 1] == Task(key, Statistical);
  }

  predicate HasAllKinds(groups: map<GroupKey, Group>, context: Context) {
    HasKind(groups, HomeRate, context) && HasKind(groups, Statistical, context) && HasKind(groups, Market, context)
  }

  ghost predicate HasComparison(ai: Group, groups: map<GroupKey, Group>, comparisons: seq<Comparison>, kind: Kind) {
    exists i, k :: ComparedTo(ai, groups, comparisons, kind, i, k)
  }

  predicate ComparedTo(ai: Group, groups: map<GroupKey, Group>, comparisons: seq<Comparison>, kind: Kind, i: int,
                       k: GroupKey) {
    0 <= i < |comparisons| && k in groups && groups[k].kind == Some(kind) && ContextOf(groups[k]) == ContextOf(ai)
    && Accounts(ai, groups[k], comparisons[i])
  }

  lemma KindIsCompared(ai: Group, order: seq<GroupKey>, groups: map<GroupKey, Group>, comparisons: seq<Comparison>,
                       kind: Kind)
    requires WellFormed(order, groups) && HasKind(groups, kind, ContextOf(ai))
    requires ComparedWith(ai, groups, SortedCandidates(order, groups, ContextOf(ai)), comparisons)
    ensures HasComparison(ai, groups, comparisons, kind)
  {
    hide SortedCandidates, Accounts, ContextOf, Describes;
    var k :| k in groups && groups[k].kind == Some(kind) && ContextOf(groups[k]) == ContextOf(ai);
    SortedCandidatesMembers(order, groups, ContextOf(ai), k);
    var keys := SortedCandidates(order, groups, ContextOf(ai));
    var i :| 0 <= i < |keys| && keys[i] == k;
    assert ComparedTo(ai, groups, comparisons, kind, i, k);
  }

  /** What the whole build promises about its AI groups. */
  ghost predicate AllCompared(groups: map<GroupKey, Group>, comparisons: map<GroupKey, seq<Comparison>>) {
    forall k :: k in groups && groups[k].kind.None? ==>
              k in comparisons && ComparedWithAllKinds(groups, k, comparisons[k])
  }

  ghost predicate ComparedWithAllKinds(groups: map<GroupKey, Group>, key: GroupKey, comparisons: seq<Comparison>)
    requires key in groups
  {
    forall kind :: HasComparison(groups[key], groups, comparisons, kind)
  }

  predicate Ready(groups: map<GroupKey, Group>) {
    forall k :: k in groups && groups[k].kind.None? ==> HasAllKinds(groups, ContextOf(groups[k]))
  }

  /** Every AI group has one comparison for each baseline group of its context, by kind name. */
  ghost predicate Listed(order: seq<GroupKey>, groups: map<GroupKey, Group>,
                         comparisons: map<GroupKey, seq<Comparison>>) {
    forall k :: k in groups && groups[k].kind.None? ==>
      k in comparisons && ListedFor(order, groups, groups[k], comparisons[k])
  }

  ghost predicate ListedFor(order: seq<GroupKey>, groups: map<GroupKey, Group>, ai: Group,
                            comparisons: seq<Comparison>) {
    ComparedWith(ai, groups, SortedCandidates(order, groups, ContextOf(ai)), comparisons)
  }

  method CompareAll(order: seq<GroupKey>, groups: map<GroupKey, Group>)
    returns (comparisons: map<GroupKey, seq<Comparison>>)
    requires WellFormed(order, groups) && Ready(groups)
    ensures AllCompared(groups, comparisons) && Listed(order, groups, comparisons)
  {
    hide WellFormed, ListedFor, ComparedWithAllKinds, ContextOf, HasAllKinds;
    comparisons := map[];
    for i := 0 to |order|
      invariant forall j :: 0 <= j < i && order[j] in groups && groups[order[j]].kind.None? ==>
                  order[j] in comparisons && ListedFor(order, groups, groups[order[j]], comparisons[order[j]])
    {
      var key := order[i];
      assert key in groups by { InOrder(order, groups, i); }
      var group := groups[key];
      if group.kind.Some? {
        continue;
      }
      var found := Comparisons(group, order, groups);
      assert ListedFor(order, groups, group, found) by { Lists(order, groups, group, found); }
      comparisons := comparisons[key := found];
    }
    forall k | k in groups && groups[k].kind.None?
      ensures k in comparisons && ListedFor(order, groups, groups[k], comparisons[k])
      ensures ComparedWithAllKinds(groups, k, comparisons[k])
    {
      InSomePlace(order, groups, k);
      KindsAreCompared(k, order, groups, comparisons[k]);
    }
  }

  lemma Lists(order: seq<GroupKey>, groups: map<GroupKey, Group>, ai: Group, comparisons: seq<Comparison>)
    requires ComparedWith(ai, groups, SortedCandidates(order, groups, ContextOf(ai)), comparisons)
    ensures ListedFor(order, groups, ai, comparisons)
  {
  }

  lemma KindsAreCompared(key: GroupKey, order: seq<GroupKey>, groups: map<GroupKey, Group>,
                         comparisons: seq<Comparison>)
    requires key in groups && WellFormed(order, groups) && HasAllKinds(groups, ContextOf(groups[key]))
    requires ListedFor(order, groups, groups[key], comparisons)
    ensures ComparedWithAllKinds(groups, key, comparisons)
  {
    hide WellFormed, SortedCandidates, ComparedWith, HasComparison, ContextOf, HasKind;
    forall kind: Kind
      ensures HasComparison(groups[key], groups, comparisons, kind)
    {
      match kind {
        case HomeRate => KindIsCompared(groups[key], order, groups, comparisons, HomeRate);
        case Statistical => KindIsCompared(groups[key], order, groups, comparisons, Statistical);
        case Market => KindIsCompared(groups[key], order, groups, comparisons, Market);
      }
    }
  }

  /** The two passes leave every group there was and give each AI group its three baselines. */
  lemma BothPasses(o0: seq<GroupKey>, g0: map<GroupKey, Group>, o1: seq<GroupKey>, g1: map<GroupKey, Group>,
                   g2: map<GroupKey, Group>)
    requires WellFormed(o0, g0) && WellFormed(o1, g1)
    requires TasksOver(g0, MarketTasks(AiKeys(o0))) && Filled(g0, MarketTasks(AiKeys(o0)), |AiKeys(o0)|, g1)
    requires TasksOver(g1, MissingTasks(AiKeys(o1))) && Filled(g1, MissingTasks(AiKeys(o1)), 2 * |AiKeys(o1)|, g2)
    ensures Ready(g2)
    ensures forall k :: k in g0 ==> k in g2 && g2[k] == g0[k]
    ensures forall k :: k in g2 && g2[k].kind.None? ==> k in g0
  {
    hide WellFormed, AiKeys, Filled, HasKind, ContextOf, TasksOver;
    var first, second := MarketTasks(AiKeys(o0)), MissingTasks(AiKeys(o1));
    forall k | k in g0
      ensures k in g2 && g2[k] == g0[k]
    {
      FilledKeeps(g0, first, |first|, g1, k);
      FilledKeeps(g1, second, |second|, g2, k);
    }
    forall k | k in g2 && g2[k].kind.None?
      ensures k in g0 && HasAllKinds(g2, ContextOf(g2[k]))
    {
      AiGroupsStay(g1, second, |second|, g2, k);
      AiGroupsStay(g0, first, |first|, g1, k);
      MarketFilled(o0, g0, g1, k);
      MissingFilled(o1, g1, g2, k);
      forall m | m in g1
        ensures m in g2 && g2[m] == g1[m]
      {
        FilledKeeps(g1, second, |second|, g2, m);
      }
      HasKindGrows(g1, g2, Market, ContextOf(g0[k]));
    }
  }

  /** The table after grouping, after the market pass and after the pass for the missing baselines. */
  ghost predicate Passes(classify: Classify, latest: seq<Row>, o0: seq<GroupKey>, g0: map<GroupKey, Group>,
                         o1: seq<GroupKey>, g1: map<GroupKey, Group>, o2: seq<GroupKey>, g2: map<GroupKey, Group>) {
    && IsGrouping(classify, latest, o0, g0) && WellFormed(o0, g0) && WellFormed(o1, g1) && WellFormed(o2, g2)
    && TasksOver(g0, MarketTasks(AiKeys(o0))) && Filled(g0, MarketTasks(AiKeys(o0)), |AiKeys(o0)|, g1)
    && TasksOver(g1, MissingTasks(AiKeys(o1))) && Filled(g1, MissingTasks(AiKeys(o1)), 2 * |AiKeys(o1)|, g2)
  }

  ghost predicate IsSummary(classify: Classify, latest: seq<Row>, order: seq<GroupKey>, groups: map<GroupKey, Group>) {
    exists o0, g0, o1, g1 :: Passes(classify, latest, o0, g0, o1, g1, order, groups)
  }

  /** Latest rows, their groups, the added baselines and the comparisons; no pass changes a group that
      was there, and every AI group ends up compared with all three kinds of baseline. */
  method BuildPerformance(classify: Classify, evaluations: seq<Row>, table: GroupTable)
    returns (latest: seq<Row>, comparisons: map<GroupKey, seq<Comparison>>)
    requires table.order == [] && table.groups == map[]
    modifies table
    ensures table.Valid() && IsLatest(evaluations, latest) && OnePerEvaluation(evaluations, latest)
    ensures forall k :: RowsOf(classify, latest, k) != [] ==>
            k in table.groups && HoldsGroup(classify, latest, k, table.groups[k])
    ensures forall k :: k in table.groups && RowsOf(classify, latest, k) == [] ==> table.groups[k].kind.Some?
    ensures AllCompared(table.groups, comparisons) && Listed(table.order, table.groups, comparisons)
    ensures IsSummary(classify, latest, table.order, table.groups)
  {
    hide IsLatest, OnePerEvaluation, KeysOf, RowsOf, AiKeys, Filled, TasksOver, WellFormed, AllCompared, Ready,
         MarketTasks, MissingTasks, Listed;
    latest := LatestEvaluations(evaluations);
    LatestInColumns(evaluations, latest);
    table.GroupEvaluations(classify, latest);
    ghost var order0, groups0 := table.order, table.groups;
    table.AddMarketGroups();
    ghost var order1, groups1 := table.order, table.groups;
    table.AddMissingBaselineGroups();
    TaskCounts(AiKeys(order0), AiKeys(order1));
    BothPasses(order0, groups0, order1, groups1, table.groups);
    assert Passes(classify, latest, order0, groups0, order1, groups1, table.order, table.groups);
    comparisons := CompareAll(table.order, table.groups);
  }

  lemma TaskCounts(market: seq<GroupKey>, missing: seq<GroupKey>)
    ensures |MarketTasks(market)| == |market| && |MissingTasks(missing)| == 2 * |missing|
  {
  }

  lemma InOrder(order: seq<GroupKey>, groups: map<GroupKey, Group>, i: nat)
    requires WellFormed(order, groups) && i < |order|
    ensures order[i] in groups
  {
    assert order[i] in order;
  }

  lemma InSomePlace(order: seq<GroupKey>, groups: map<GroupKey, Group>, key: GroupKey)
    requires WellFormed(order, groups) && key in groups
    ensures exists i :: 0 <= i < |order| && order[i] == key
  {
  }
}
