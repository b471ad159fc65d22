/** Where the order of the evaluation rows does show in the performance summary: the market group added
    for a context is made from whichever of its AI groups comes first. */
module MarketOrder {
  import opened Wrappers
  import opened Performance

  const PRODUCER: set<Name> := {Provider, ModelVersion, PromptVersion}

  // ---- The table after the market pass ----

  /** An order in which the AI groups of a table may come. */
  ghost predicate Orders(before: map<GroupKey, Group>, p: seq<GroupKey>) {
    NoRepeat(p) && forall k :: k in p <==> k in before && before[k].kind.None?
  }

  lemma OrdersFit(before: map<GroupKey, Group>, p: seq<GroupKey>)
    requires Orders(before, p)
    ensures TasksOver(before, MarketTasks(p)) && |MarketTasks(p)| == |p|
  {
    forall t | t in MarketTasks(p)
      ensures t.ai in before && before[t.ai].kind.None?
    {
      assert t.ai in p;
    }
  }

  ghost predicate TableAfter(before: map<GroupKey, Group>, p: seq<GroupKey>, x: map<GroupKey, Group>) {
    Orders(before, p) && TasksOver(before, MarketTasks(p)) && Filled(before, MarketTasks(p), |MarketTasks(p)|, x)
  }

  /** Group i of the order is the first of its context, which has no market group yet. */
  predicate NeedsMarket(before: map<GroupKey, Group>, p: seq<GroupKey>, i: nat)
    requires i < |p| && forall k :: k in p ==> k in before
  {
    && !HasKind(before, Market, ContextOf(before[p[i]]))
    && forall j :: 0 <= j < i ==> ContextOf(before[p[j]]) != ContextOf(before[p[i]])
  }

  predicate AllComplete(groups: map<GroupKey, Group>) {
    forall k :: k in groups ==> Complete(groups[k].cohort)
  }

  lemma AddsIsNeed(before: map<GroupKey, Group>, p: seq<GroupKey>, i: nat)
    requires Orders(before, p) && i < |p|
    ensures TasksOver(before, MarketTasks(p)) && (Adds(before, MarketTasks(p), i) <==> NeedsMarket(before, p, i))
  {
    hide ContextOf, HasKind;
    OrdersFit(before, p);
    assert p[i] in p;
    forall j | 0 <= j < i
      ensures p[j] in before && MarketTasks(p)[j] == Task(p[j], Market)
    {
      assert p[j] in p;
    }
  }

  /** What is new in the table was made from a first group. */
  lemma NewComesFromFirst(before: map<GroupKey, Group>, p: seq<GroupKey>, x: map<GroupKey, Group>, k: GroupKey)
    returns (i: nat)
    requires TableAfter(before, p, x) && k in x && k !in before
    ensures i < |p| && p[i] in before && NeedsMarket(before, p, i)
    ensures x[k] == Fallback(before[p[i]], Market) && k == x[k].key
  {
    hide ContextOf, HasKind, Fallback;
    var tasks := MarketTasks(p);
    assert AddedBy(before, tasks, |tasks|, k, x[k]);
    i :| i < |tasks| && Adds(before, tasks, i) && x[k] == Fallback(before[tasks[i].ai], tasks[i].kind) && k == x[k].key;
    AddsIsNeed(before, p, i);
    assert p[i] in p;
  }

  lemma NewHasContext(before: map<GroupKey, Group>, k: GroupKey)
    requires AllComplete(before) && k in before
    ensures ContextOf(Fallback(before[k], Market)) == ContextOf(before[k])
  {
    FallbackKeepsContext(before[k], Market);
  }

  /** And every first group has left its market group there. */
  lemma FirstIsAdded(before: map<GroupKey, Group>, p: seq<GroupKey>, x: map<GroupKey, Group>, i: nat)
    requires TableAfter(before, p, x) && AllComplete(before) && i < |p| && p[i] in before && NeedsMarket(before, p, i)
    ensures var added := Fallback(before[p[i]], Market); added.key !in before && added.key in x && x[added.key] == added
  {
    hide ContextOf, Fallback;
    var context := ContextOf(before[p[i]]);
    assert MarketTasks(p)[i] == Task(p[i], Market);
    assert HasKind(x, Market, context);
    var k :| k in x && x[k].kind == Some(Market) && ContextOf(x[k]) == context;
    assert k !in before;
    var j := NewComesFromFirst(before, p, x, k);
    NewHasContext(before, p[j]);
    assert p[i] in p;
    SameFirst(before, p, i, j);
  }

  lemma SameFirst(before: map<GroupKey, Group>, p: seq<GroupKey>, i: nat, j: nat)
    requires i < |p| && j < |p| && forall k :: k in p ==> k in before
    requires NeedsMarket(before, p, i) && NeedsMarket(before, p, j) &&
             ContextOf(before[p[i]]) == ContextOf(before[p[j]])
    ensures i == j
  {
    hide ContextOf, HasKind;
  }

  // ---- When two groups of a context give the same market group ----

  predicate KnowsMarket(group: Group) {
    exists r :: r in group.rows && HasMarket(r)
  }

  /** Neither group knows a market probability with an outcome, and only what names the producer of the
      prediction differs between their cohorts. */
  predicate Interchangeable(a: Group, b: Group) {
    !KnowsMarket(a) && !KnowsMarket(b) && a.cohort - PRODUCER == b.cohort - PRODUCER
  }

  lemma CohortsAgree(a: Group, b: Group)
    ensures MarketCohort(a) == MarketCohort(b) <==> a.cohort - PRODUCER == b.cohort - PRODUCER
  {
    if MarketCohort(a) == MarketCohort(b) {
      forall n
        ensures n in a.cohort - PRODUCER <==> n in b.cohort - PRODUCER
        ensures n in a.cohort - PRODUCER ==> a.cohort[n] == b.cohort[n]
      {
        assert n in MarketCohort(a) <==> n in MarketCohort(b);
        assert n !in PRODUCER && n in a.cohort ==>
                  MarketCohort(a)[n] == a.cohort[n] && MarketCohort(b)[n] == b.cohort[n];
      }
    }
    if a.cohort - PRODUCER == b.cohort - PRODUCER {
      forall n
        ensures n in MarketCohort(a) <==> n in MarketCohort(b)
        ensures n in MarketCohort(a) ==> MarketCohort(a)[n] == MarketCohort(b)[n]
      {
        assert n in a.cohort - PRODUCER <==> n in b.cohort - PRODUCER;
        assert n in a.cohort - PRODUCER ==> (a.cohort - PRODUCER)[n] == (b.cohort - PRODUCER)[n];
      }
    }
  }

  lemma {:induction false} MarketRowsComeFrom(ai: Group, rows: seq<Row>, r: Row)
    requires r in MarketRows(ai, rows)
    ensures exists s :: s in rows && HasMarket(s) && s.id == r.id
  {
    var init, last := rows[..|rows| - 1], rows[|rows| - 1];
    if r in MarketRows(ai, init) {
      MarketRowsComeFrom(ai, init, r);
      var s :| s in init && HasMarket(s) && s.id == r.id;
      assert s in rows;
    } else {
      assert last in rows && HasMarket(last) && r == MarketRow(ai, last);
    }
  }

  lemma {:induction false} NoMarketRows(ai: Group, rows: seq<Row>)
    ensures MarketRows(ai, rows) == [] <==> forall r :: r in rows ==> !HasMarket(r)
  {
    if rows != [] {
      NoMarketRows(ai, rows[..|rows| - 1]);
      assert rows == rows[..|rows| - 1] + [rows[|rows| - 1]];
      assert rows[|rows| - 1] in rows;
    }
  }

  lemma SameId(rows: seq<Row>, a: Row, b: Row)
    requires DistinctIds(rows) && a in rows && b in rows && a.id == b.id
    ensures a == b
  {
  }

  /** Different groups of one grouping share no row, so their market rows agree only when there are none. */
  lemma SharedRowsAreNone(classify: Classify, rows: seq<Row>, order: seq<GroupKey>, groups: map<GroupKey, Group>,
                          k: GroupKey, m: GroupKey)
    requires IsGrouping(classify, rows, order, groups) && DistinctIds(rows) && k in groups && m in groups && k != m
    requires MarketRows(groups[k], groups[k].rows) == MarketRows(groups[m], groups[m].rows)
    ensures MarketRows(groups[k], groups[k].rows) == []
  {
    hide DistinctIds, HasMarket, GroupKeyOf, NewGroup, KeysOf;
    var both := MarketRows(groups[k], groups[k].rows);
    assert HoldsGroup(classify, rows, k, groups[k]) && HoldsGroup(classify, rows, m, groups[m]);
    if both != [] {
      assert both[0] in both;
      MarketRowsComeFrom(groups[k], groups[k].rows, both[0]);
      MarketRowsComeFrom(groups[m], groups[m].rows, both[0]);
      var s :| s in groups[k].rows && HasMarket(s) && s.id == both[0].id;
      var t :| t in groups[m].rows && HasMarket(t) && t.id == both[0].id;
      EveryRowIsInItsGroupOnly(classify, rows, k, s);
      EveryRowIsInItsGroupOnly(classify, rows, m, t);
      SameId(rows, s, t);
      assert false;
    }
  }

  lemma FallbacksAgreeIff(classify: Classify, rows: seq<Row>, order: seq<GroupKey>, groups: map<GroupKey, Group>,
                          k: GroupKey, m: GroupKey)
    requires IsGrouping(classify, rows, order, groups) && DistinctIds(rows) && k in groups && m in groups && k != m
    requires ContextOf(groups[k]) == ContextOf(groups[m])
    ensures Fallback(groups[k], Market) == Fallback(groups[m], Market) <==> Interchangeable(groups[k], groups[m])
  {
    hide IsGrouping, DistinctIds, MarketRows, MarketCohort;
    CohortsAgree(groups[k], groups[m]);
    NoMarketRows(groups[k], groups[k].rows);
    NoMarketRows(groups[m], groups[m].rows);
    if MarketRows(groups[k], groups[k].rows) == MarketRows(groups[m], groups[m].rows) {
      SharedRowsAreNone(classify, rows, order, groups, k, m);
    }
  }

  // ---- Every order gives a table, and when all give the same ----

  lemma {:induction false} TableExists(order: seq<GroupKey>, before: map<GroupKey, Group>, tasks: seq<Task>, n: nat)
    returns (o: seq<GroupKey>, x: map<GroupKey, Group>)
    requires WellFormed(order, before) && TasksOver(before, tasks) && n <= |tasks|
    ensures WellFormed(o, x) && Filled(before, tasks, n, x)
  {
    hide WellFormed, Filled, HasKind, ContextOf, Fallback;
    if n == 0 {
      NothingFilled(before, tasks);
      o, x := order, before;
    } else {
      o, x := TableExists(order, before, tasks, n - 1);
      assert tasks[n - 1] in tasks;
      if HasKind(x, tasks[n - 1].kind, ContextOf(before[tasks[n - 1].ai])) {
        StaysFilled(before, tasks, n - 1, x);
      } else {
        AddFallback(o, before, tasks, n - 1, x);
        var added := Fallback(before[tasks[n - 1].ai], tasks[n - 1].kind);
        o, x := o + [added.key], x[added.key := added];
      }
    }
  }

  ghost predicate OrderIsIrrelevant(before: map<GroupKey, Group>) {
    forall p, q, x, y :: TableAfter(before, p, x) && TableAfter(before, q, y) ==> x == y
  }

  /** Two groups that compete for the market group of a context. */
  predicate Compete(before: map<GroupKey, Group>, k: GroupKey, m: GroupKey) {
    && k in before && m in before && k != m && before[k].kind.None? && before[m].kind.None?
    && ContextOf(before[k]) == ContextOf(before[m]) && !HasKind(before, Market, ContextOf(before[k]))
  }

  ghost predicate CompetitorsAreInterchangeable(before: map<GroupKey, Group>) {
    forall k, m :: Compete(before, k, m) ==> Interchangeable(before[k], before[m])
  }

  lemma FirstOfContext(before: map<GroupKey, Group>, q: seq<GroupKey>, j: nat) returns (i: nat)
    requires Orders(before, q) && j < |q| && q[j] in before && !HasKind(before, Market, ContextOf(before[q[j]]))
    ensures i < |q| && q[i] in before && NeedsMarket(before, q, i) && ContextOf(before[q[i]]) == ContextOf(before[q[j]])
    decreases j
  {
    hide ContextOf, HasKind;
    assert forall l :: 0 <= l < |q| ==> q[l] in before by {
      assert forall l :: 0 <= l < |q| ==> q[l] in q;
    }
    if l: nat :| l < j && ContextOf(before[q[l]]) == ContextOf(before[q[j]]) {
      i := FirstOfContext(before, q, l);
    } else {
      i := j;
    }
  }

  lemma IncludedIn(classify: Classify, rows: seq<Row>, order: seq<GroupKey>, before: map<GroupKey, Group>,
                   p: seq<GroupKey>, q: seq<GroupKey>, x: map<GroupKey, Group>, y: map<GroupKey, Group>, k: GroupKey)
    requires IsGrouping(classify, rows, order, before) && DistinctIds(rows) && AllComplete(before)
    requires CompetitorsAreInterchangeable(before) && TableAfter(before, p, x) && TableAfter(before, q, y) && k in x
    ensures k in y && y[k] == x[k]
  {
    hide IsGrouping, DistinctIds, ContextOf, Fallback, HasKind, AllComplete, Interchangeable;
    if k in before {
      FilledKeeps(before, MarketTasks(p), |MarketTasks(p)|, x, k);
      FilledKeeps(before, MarketTasks(q), |MarketTasks(q)|, y, k);
    } else {
      var i := NewComesFromFirst(before, p, x, k);
      assert p[i] in p;
      assert p[i] in q;
      var l: nat :| l < |q| && q[l] == p[i];
      var j := FirstOfContext(before, q, l);
      FirstIsAdded(before, q, y, j);
      if p[i] != q[j] {
        assert q[j] in q;
        assert Compete(before, p[i], q[j]);
        FallbacksAgreeIff(classify, rows, order, before, p[i], q[j]);
      }
    }
  }

  function Without(p: seq<GroupKey>, k: GroupKey): seq<GroupKey> {
    if p == [] then [] else (if p[0] == k then [] else [p[0]]) + Without(p[1..], k)
  }

  lemma {:induction false} WithoutMembers(p: seq<GroupKey>, k: GroupKey, m: GroupKey)
    ensures m in Without(p, k) <==> m in p && m != k
  {
    if p != [] {
      WithoutMembers(p[1..], k, m);
      assert p == [p[0]] + p[1..];
    }
  }

  lemma {:induction false} WithoutDoesNotRepeat(p: seq<GroupKey>, k: GroupKey)
    requires NoRepeat(p)
    ensures NoRepeat(Without(p, k))
  {
    if p != [] {
      WithoutDoesNotRepeat(p[1..], k);
      PrependNew(p[0], Without(p[1..], k)) by {
        WithoutMembers(p[1..], k, p[0]);
        TailIsNew(p);
      }
    }
  }

  lemma TailIsNew(p: seq<GroupKey>)
    requires p != [] && NoRepeat(p)
    ensures p[0] !in p[1..]
  {
    forall i | 0 <= i < |p[1..]|
      ensures p[1..][i] != p[0]
    {
      assert p[1..][i] == p[i + 1];
    }
  }

  lemma PrependNew(k: GroupKey, p: seq<GroupKey>)
    requires NoRepeat(p) && k !in p
    ensures NoRepeat([k] + p)
  {
    forall i, j | 0 <= i < j < |[k] + p|
      ensures ([k] + p)[i] != ([k] + p)[j]
    {
      assert ([k] + p)[j] == p[j - 1] && p[j - 1] in p;
    }
  }

  lemma {:induction false} AiKeysOrder(order: seq<GroupKey>)
    requires NoRepeat(order)
    ensures NoRepeat(AiKeys(order))
  {
    if order != [] {
      AiKeysOrder(order[1..]);
      PrependNew(order[0], AiKeys(order[1..])) by {
        AiKeysMembers(order[1..], order[0]);
        TailIsNew(order);
      }
    }
  }

  lemma AiKeysAreAnOrder(order: seq<GroupKey>, before: map<GroupKey, Group>)
    requires WellFormed(order, before)
    ensures Orders(before, AiKeys(order))
  {
    hide AiKeys, NoRepeat;
    AiKeysOrder(order);
    forall k
      ensures k in AiKeys(order) <==> k in before && before[k].kind.None?
    {
      AiKeysMembers(order, k);
      if k in before {
        assert Describes(k, before[k]);
      }
    }
  }

  /** The AI groups with this one first. */
  lemma StartingWith(order: seq<GroupKey>, before: map<GroupKey, Group>, k: GroupKey) returns (p: seq<GroupKey>)
    requires WellFormed(order, before) && k in before && before[k].kind.None?
    ensures Orders(before, p) && p != [] && p[0] == k
  {
    hide WellFormed, AiKeys, NoRepeat;
    AiKeysAreAnOrder(order, before);
    var ai := AiKeys(order);
    p := [k] + Without(ai, k);
    WithoutDoesNotRepeat(ai, k);
    WithoutMembers(ai, k, k);
    PrependNew(k, Without(ai, k));
    forall m
      ensures m in p <==> m in before && before[m].kind.None?
    {
      WithoutMembers(ai, k, m);
    }
  }

  /** With that group first, its own market group is the one in the table. */
  lemma TableStartingWith(order: seq<GroupKey>, before: map<GroupKey, Group>, k: GroupKey)
    returns (p: seq<GroupKey>, x: map<GroupKey, Group>)
    requires WellFormed(order, before) && AllComplete(before) && k in before && before[k].kind.None?
    requires !HasKind(before, Market, ContextOf(before[k]))
    ensures TableAfter(before, p, x) && p != [] && p[0] == k
    ensures var added := Fallback(before[k], Market); added.key !in before && added.key in x && x[added.key] == added
  {
    hide WellFormed, AllComplete, HasKind, ContextOf, Fallback;
    p := StartingWith(order, before, k);
    OrdersFit(before, p);
    var o;
    o, x := TableExists(order, before, MarketTasks(p), |p|);
    FirstIsAdded(before, p, x, 0);
  }

  /** A competitor's market group can be in that table only by being the same. */
  lemma OnlyFirstServes(before: map<GroupKey, Group>, p: seq<GroupKey>, x: map<GroupKey, Group>, k: GroupKey,
                        m: GroupKey)
    requires TableAfter(before, p, x) && AllComplete(before) && p != [] && p[0] == k && Compete(before, k, m)
    requires var added := Fallback(before[m], Market); added.key !in before && added.key in x && x[added.key] == added
    ensures Fallback(before[k], Market) == Fallback(before[m], Market)
  {
    hide ContextOf, Fallback, HasKind, TableAfter;
    var i := NewComesFromFirst(before, p, x, Fallback(before[m], Market).key);
    NewHasContext(before, p[i]);
    NewHasContext(before, m);
    assert i == 0;
  }

  lemma GroupingIsComplete(classify: Classify, rows: seq<Row>, order: seq<GroupKey>, groups: map<GroupKey, Group>)
    requires IsGrouping(classify, rows, order, groups)
    ensures WellFormed(order, groups) && AllComplete(groups)
  {
    hide IsGrouping;
    GroupingIsWellFormed(classify, rows, order, groups);
    forall k | k in groups
      ensures Complete(groups[k].cohort)
    {
      assert Describes(k, groups[k]);
    }
  }

  /** The order of the AI groups does not show in the table, however many there are, exactly when all
      groups that compete for a market group are interchangeable. */
  lemma OrderIsIrrelevantIff(classify: Classify, rows: seq<Row>, order: seq<GroupKey>, before: map<GroupKey, Group>)
    requires IsGrouping(classify, rows, order, before) && DistinctIds(rows)
    ensures OrderIsIrrelevant(before) <==> CompetitorsAreInterchangeable(before)
  {
    hide IsGrouping, DistinctIds, WellFormed, AllComplete, TableAfter, Interchangeable, ContextOf, HasKind, Fallback;
    GroupingIsComplete(classify, rows, order, before);
    if CompetitorsAreInterchangeable(before) {
      forall p, q, x, y | TableAfter(before, p, x) && TableAfter(before, q, y)
        ensures x == y
      {
        TablesAgree(classify, rows, order, before, p, q, x, y);
      }
    }
    if OrderIsIrrelevant(before) {
      forall k, m | Compete(before, k, m)
        ensures Interchangeable(before[k], before[m])
      {
        var p, x := TableStartingWith(order, before, k);
        var q, y := TableStartingWith(order, before, m);
        assert x == y;
        OnlyFirstServes(before, p, x, k, m);
        FallbacksAgreeIff(classify, rows, order, before, k, m);
      }
    }
  }

  lemma TablesAgree(classify: Classify, rows: seq<Row>, order: seq<GroupKey>, before: map<GroupKey, Group>,
                    p: seq<GroupKey>, q: seq<GroupKey>, x: map<GroupKey, Group>, y: map<GroupKey, Group>)
    requires IsGrouping(classify, rows, order, before) && DistinctIds(rows) && AllComplete(before)
    requires CompetitorsAreInterchangeable(before) && TableAfter(before, p, x) && TableAfter(before, q, y)
    ensures x == y
  {
    hide IsGrouping, DistinctIds, AllComplete, TableAfter, CompetitorsAreInterchangeable;
    forall k | k in x
      ensures k in y && y[k] == x[k]
    {
      IncludedIn(classify, rows, order, before, p, q, x, y, k);
    }
    forall k | k in y
      ensures k in x
    {
      IncludedIn(classify, rows, order, before, q, p, y, x, k);
    }
  }

  // ---- Two rows that show it ----

  /** Rows of two AI groups of one context, of which only the first knows the market. */
  predicate ShowsOrder(classify: Classify, a: Row, b: Row) {
    && classify(a).None? && classify(b).None? && a.evaluator == b.evaluator && a.policy == b.policy
    && CohortOf(a) != CohortOf(b) && CohortOf(a) - PRODUCER == CohortOf(b) - PRODUCER
    && HasMarket(a) && !HasMarket(b)
  }

  lemma RowsOfTwo(classify: Classify, a: Row, b: Row, key: GroupKey)
    ensures RowsOf(classify, [a, b], key) == (if GroupKeyOf(classify, a) == key then [a] else [])
                                             + (if GroupKeyOf(classify, b) == key then [b] else [])
    ensures GroupKeyOf(classify, a) != GroupKeyOf(classify, b) ==>
              KeysOf(classify, [a, b]) == [GroupKeyOf(classify, a), GroupKeyOf(classify, b)]
  {
    hide GroupKeyOf;
    assert [] + [a] == [a] && [a] + [b] == [a, b];
    RowsOfGrows(classify, [], a, key);
    RowsOfGrows(classify, [a], b, key);
  }

  lemma TwoGroups(classify: Classify, a: Row, b: Row, order: seq<GroupKey>, groups: map<GroupKey, Group>)
    requires GroupKeyOf(classify, a) != GroupKeyOf(classify, b) && IsGrouping(classify, [a, b], order, groups)
    ensures var k, m := GroupKeyOf(classify, a), GroupKeyOf(classify, b);
            && order == [k, m] && k in groups && m in groups && groups.Keys == {k, m}
            && groups[k] == NewGroup(classify, a).(rows := [a]) && groups[m] == NewGroup(classify, b).(rows := [b])
  {
    hide GroupKeyOf, NewGroup, RowsOf, KeysOf;
    var k, m := GroupKeyOf(classify, a), GroupKeyOf(classify, b);
    RowsOfTwo(classify, a, b, k);
    RowsOfTwo(classify, a, b, m);
    assert k in order && m in order;
    assert HoldsGroup(classify, [a, b], k, groups[k]) && HoldsGroup(classify, [a, b], m, groups[m]);
  }

  /** The market group of the context is that of the first row's group. */
  lemma FirstRowServes(classify: Classify, a: Row, b: Row, order: seq<GroupKey>, groups: map<GroupKey, Group>,
                       x: map<GroupKey, Group>)
    requires classify(a).None? && classify(b).None? && GroupKeyOf(classify, a) != GroupKeyOf(classify, b)
    requires IsGrouping(classify, [a, b], order, groups) && TableAfter(groups, AiKeys(order), x)
    ensures var added := Fallback(NewGroup(classify, a).(rows := [a]), Market);
            added.key in x && x[added.key] == added
  {
    hide IsGrouping, TableAfter, Fallback, ContextOf, AiKeys, CohortOf, HasKind, WellFormed, AllComplete;
    TwoGroups(classify, a, b, order, groups);
    GroupingIsComplete(classify, [a, b], order, groups);
    var k, m := GroupKeyOf(classify, a), GroupKeyOf(classify, b);
    BothAreAi(k, m);
    NoMarketYet(groups, ContextOf(groups[k]));
    FirstIsAdded(groups, order, x, 0);
  }

  lemma BothAreAi(k: GroupKey, m: GroupKey)
    requires k.kind.None? && m.kind.None?
    ensures AiKeys([k, m]) == [k, m]
  {
    assert [k, m][1..] == [m] && [m][1..] == [];
    assert AiKeys([m]) == [m];
  }

  lemma NoMarketYet(groups: map<GroupKey, Group>, context: Context)
    requires forall k :: k in groups ==> groups[k].kind.None?
    ensures !HasKind(groups, Market, context)
  {
  }

  lemma SameMarketKey(classify: Classify, a: Row, b: Row)
    requires ShowsOrder(classify, a, b)
    ensures var f := Fallback(NewGroup(classify, a).(rows := [a]), Market);
            var g := Fallback(NewGroup(classify, b).(rows := [b]), Market);
            f.key == g.key && |f.rows| == 1 && |g.rows| == 0
  {
    hide CohortOf, MarketCohort;
    CohortsAgree(NewGroup(classify, a).(rows := [a]), NewGroup(classify, b).(rows := [b]));
    MarketRowsOfOne(NewGroup(classify, a).(rows := [a]), a);
    MarketRowsOfOne(NewGroup(classify, b).(rows := [b]), b);
  }

  lemma MarketRowsOfOne(ai: Group, row: Row)
    ensures |MarketRows(ai, [row])| == if HasMarket(row) then 1 else 0
  {
    assert [row][..0] == [];
  }

  /** A key under which the two tables hold a market group, in one with a row and in the other without. */
  predicate DiffersAt(x: map<GroupKey, Group>, y: map<GroupKey, Group>, k: GroupKey) {
    k in x && k in y && x[k].kind == Some(Market) && |x[k].rows| == 1 && |y[k].rows| == 0
  }

  /** A table that grouping these rows and adding the market groups can leave. */
  ghost predicate IsTableOf(classify: Classify, rows: seq<Row>, x: map<GroupKey, Group>) {
    exists order, groups :: IsGrouping(classify, rows, order, groups) && TableAfter(groups, AiKeys(order), x)
  }

  /** The table of the given rows, with the market groups added. */
  method MarketTable(classify: Classify, rows: seq<Row>) returns (x: map<GroupKey, Group>)
    ensures IsTableOf(classify, rows, x)
  {
    hide IsGrouping, AiKeys, WellFormed, Filled;
    var table := new GroupTable();
    table.GroupEvaluations(classify, rows);
    ghost var order, groups := table.order, table.groups;
    AiKeysAreAnOrder(order, groups);
    table.AddMarketGroups();
    x := table.groups;
    assert IsGrouping(classify, rows, order, groups) && TableAfter(groups, AiKeys(order), x);
  }

  /** Any two such rows, in one order and in the other: the market group of their context differs. */
  lemma OrderShows(classify: Classify, a: Row, b: Row, x: map<GroupKey, Group>, y: map<GroupKey, Group>)
    requires ShowsOrder(classify, a, b)
    requires IsTableOf(classify, [a, b], x) && IsTableOf(classify, [b, a], y)
    ensures DiffersAt(x, y, Fallback(NewGroup(classify, a).(rows := [a]), Market).key)
  {
    hide IsGrouping, TableAfter, Fallback, AiKeys, CohortOf;
    var order, groups :| IsGrouping(classify, [a, b], order, groups) && TableAfter(groups, AiKeys(order), x);
    FirstRowServes(classify, a, b, order, groups, x);
    var other, table :| IsGrouping(classify, [b, a], other, table) && TableAfter(table, AiKeys(other), y);
    FirstRowServes(classify, b, a, other, table, y);
    SameMarketKey(classify, a, b);
    MarketGroupKind(NewGroup(classify, a).(rows := [a]));
  }

  lemma MarketGroupKind(ai: Group)
    ensures Fallback(ai, Market).kind == Some(Market)
  {
  }

  const NOT_A_BASELINE: Classify := row => None

  const WITH_MARKET := Row(1, "p1", "e", "c", map[], 1, 1, map[Provider := "first"], "first", "win", "m", "t", true,
                           Some(0.25), Some(Stored(0.5)), Some(Pair("match", "r", "s", "c", "v")), Some(0.5), Some(1))

  const WITHOUT_MARKET := Row(2, "p2", "e", "c", map[], 1, 1, map[Provider := "second"], "second", "win", "m", "t",
                              true, Some(0.25), Some(Stored(0.5)), Some(Pair("match", "r", "s", "c", "v")), None,
                              Some(1))

  /** Two predictions of one match by two providers, one of which knows a market probability and the other
      none, are such rows. */
  lemma TwoProvidersShowOrder()
    ensures ShowsOrder(NOT_A_BASELINE, WITH_MARKET, WITHOUT_MARKET)
  {
    var c, d := CohortOf(WITH_MARKET), CohortOf(WITHOUT_MARKET);
    assert c[Provider] == "first" && d[Provider] == "second" && "first"[0] != "second"[0];
    forall n
      ensures n in c - PRODUCER <==> n in d - PRODUCER
      ensures n in c - PRODUCER ==> c[n] == d[n]
    {
    }
    assert c - PRODUCER == d - PRODUCER;
  }
}
