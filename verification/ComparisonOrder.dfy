/** Where the order of the evaluation rows does not show in the performance summary: in how many matches
    an AI group and its home-rate and statistical baselines have, apart and together. */
module ComparisonOrder {
  import opened Wrappers
  import opened Performance

  datatype Counts = Counts(aiN: nat, baselineN: nat, pairedN: nat, aiUnavailable: nat, baselineUnavailable: nat)

  function CountsOf(c: Comparison): Counts {
    Counts(c.aiN, c.baselineN, c.pairedN, c.aiUnavailable, c.baselineUnavailable)
  }

  /** The counts of the comparisons of one kind, in no particular order. */
  function CountsOfKind(comparisons: seq<Comparison>, kind: Kind): multiset<Counts> {
    if comparisons == [] then multiset{} else
      var last := comparisons[|comparisons| - 1];
      CountsOfKind(comparisons[..|comparisons| - 1], kind)
      + if last.kind == kind then multiset{CountsOf(last)} else multiset{}
  }

  // ---- What the counts of a comparison depend on ----

  function Counted(ai: set<Pair>, baseline: set<Pair>): Counts {
    Counts(|ai|, |baseline|, |ai * baseline|, |baseline - ai|, |ai - baseline|)
  }

  lemma AccountsAreCounted(ai: Group, baseline: Group, c: Comparison)
    requires Accounts(ai, baseline, c)
    ensures CountsOf(c) == Counted(Pairs(ai.rows).Keys, Pairs(baseline.rows).Keys)
  {
    hide Pairs;
    var a, b := Pairs(ai.rows).Keys, Pairs(baseline.rows).Keys;
    assert (set p | p in Pairs(ai.rows) && p in Pairs(baseline.rows)) == a * b;
    SplitCount(a, b);
    SplitCount(b, a);
    assert a * b == b * a;
  }

  lemma SamePairs(a: seq<Row>, b: seq<Row>)
    requires forall r :: r in a <==> r in b
    ensures Pairs(a).Keys == Pairs(b).Keys
  {
    hide Pairs;
    forall p
      ensures p in Pairs(a) <==> p in Pairs(b)
    {
      PairsAreTheEligibleRows(a, p);
      PairsAreTheEligibleRows(b, p);
    }
  }

  // ---- The counts over a list of baseline groups ----

  predicate AllIn(keys: seq<GroupKey>, groups: map<GroupKey, Group>) {
    forall k :: k in keys ==> k in groups
  }

  function CountedKey(ai: Group, groups: map<GroupKey, Group>, key: GroupKey): Counts
    requires key in groups
  {
    Counted(Pairs(ai.rows).Keys, Pairs(groups[key].rows).Keys)
  }

  function Share(ai: Group, groups: map<GroupKey, Group>, key: GroupKey, kind: Kind): multiset<Counts>
    requires key in groups
  {
    if groups[key].kind == Some(kind) then multiset{CountedKey(ai, groups, key)} else multiset{}
  }

  function CountsOver(ai: Group, groups: map<GroupKey, Group>, keys: seq<GroupKey>, kind: Kind): multiset<Counts>
    requires AllIn(keys, groups)
  {
    if keys == [] then multiset{} else
      CountsOver(ai, groups, keys[..|keys| - 1], kind) + Share(ai, groups, keys[|keys| - 1], kind)
  }

  lemma {:induction false} ComparisonsAreCounted(ai: Group, groups: map<GroupKey, Group>, keys: seq<GroupKey>,
                                                 comparisons: seq<Comparison>, kind: Kind)
    requires AllIn(keys, groups) && ComparedWith(ai, groups, keys, comparisons)
    ensures CountsOfKind(comparisons, kind) == CountsOver(ai, groups, keys, kind)
  {
    hide Accounts, Counted, Pairs;
    if keys != [] {
      var n := |keys| - 1;
      ComparisonsAreCounted(ai, groups, keys[..n], comparisons[..n], kind);
      AccountsAreCounted(ai, groups[keys[n]], comparisons[n]);
      KindOfComparison(ai, groups[keys[n]], comparisons[n]);
    }
  }

  lemma KindOfComparison(ai: Group, baseline: Group, c: Comparison)
    requires Accounts(ai, baseline, c)
    ensures baseline.kind == Some(c.kind)
  {
  }

  lemma {:induction false} CountsSplit(ai: Group, groups: map<GroupKey, Group>, a: seq<GroupKey>, b: seq<GroupKey>,
                                       kind: Kind)
    requires AllIn(a + b, groups) && AllIn(a, groups) && AllIn(b, groups)
    ensures CountsOver(ai, groups, a + b, kind) == CountsOver(ai, groups, a, kind) + CountsOver(ai, groups, b, kind)
  {
    hide Share;
    if b == [] {
      assert a + b == a;
    } else {
      var n := |b| - 1;
      assert (a + b)[..|a + b| - 1] == a + b[..n] && (a + b)[|a + b| - 1] == b[n];
      assert AllIn(a + b[..n], groups);
      CountsSplit(ai, groups, a, b[..n], kind);
    }
  }

  /** Key k is a baseline of the kind among the keys. */
  predicate IsBaseline(keys: seq<GroupKey>, groups: map<GroupKey, Group>, kind: Kind, k: GroupKey) {
    k in keys && k in groups && groups[k].kind == Some(kind)
  }

  /** The two lists have the same baselines of the kind, with the same counts. */
  ghost predicate SameBaselines(a: Group, x: map<GroupKey, Group>, p: seq<GroupKey>, b: Group, y: map<GroupKey, Group>,
                                q: seq<GroupKey>, kind: Kind) {
    forall k :: (IsBaseline(p, x, kind, k) <==> IsBaseline(q, y, kind, k)) &&
                (IsBaseline(p, x, kind, k) ==> CountedKey(a, x, k) == CountedKey(b, y, k))
  }

  lemma {:induction false} NoBaselineNoCounts(b: Group, y: map<GroupKey, Group>, q: seq<GroupKey>, kind: Kind)
    requires AllIn(q, y) && forall k :: !IsBaseline(q, y, kind, k)
    ensures CountsOver(b, y, q, kind) == multiset{}
  {
    if q != [] {
      var n := |q| - 1;
      forall k
        ensures !IsBaseline(q[..n], y, kind, k)
      {
        assert !IsBaseline(q, y, kind, k);
      }
      NoBaselineNoCounts(b, y, q[..n], kind);
      assert !IsBaseline(q, y, kind, q[n]);
    }
  }

  lemma WithoutOne(q: seq<GroupKey>, j: nat)
    requires NoRepeat(q) && j < |q|
    ensures var rest := q[..j] + q[j + 1..];
            NoRepeat(rest) && forall k :: k in rest <==> k in q && k != q[j]
  {
    var rest := q[..j] + q[j + 1..];
    forall k
      ensures k in rest <==> k in q && k != q[j]
    {
      assert q == q[..j] + [q[j]] + q[j + 1..];
      if k in q && k != q[j] {
        var i :| 0 <= i < |q| && q[i] == k;
        assert rest[if i < j then i else i - 1] == k;
      }
    }
  }

  lemma CountsOfOne(b: Group, y: map<GroupKey, Group>, key: GroupKey, kind: Kind)
    requires key in y
    ensures AllIn([key], y) && CountsOver(b, y, [key], kind) == Share(b, y, key, kind)
  {
    assert [key][..0] == [];
    assert CountsOver(b, y, [], kind) == multiset{};
  }

  /** The keys without one of them, whose share is then gone. */
  lemma TakeOut(b: Group, y: map<GroupKey, Group>, q: seq<GroupKey>, kind: Kind, key: GroupKey)
    returns (rest: seq<GroupKey>)
    requires AllIn(q, y) && NoRepeat(q) && key in q
    ensures NoRepeat(rest) && AllIn(rest, y) && forall k :: k in rest <==> k in q && k != key
    ensures CountsOver(b, y, q, kind) == CountsOver(b, y, rest, kind) + Share(b, y, key, kind)
  {
    hide CountsOver, Share, NoRepeat;
    var j :| 0 <= j < |q| && q[j] == key;
    WithoutOne(q, j);
    rest := q[..j] + q[j + 1..];
    assert q == q[..j] + ([key] + q[j + 1..]);
    CountsSplit(b, y, q[..j], q[j + 1..], kind);
    CountsSplit(b, y, q[..j], [key] + q[j + 1..], kind);
    CountsSplit(b, y, [key], q[j + 1..], kind);
    CountsOfOne(b, y, key, kind);
  }

  lemma LastKey(a: Group, x: map<GroupKey, Group>, p: seq<GroupKey>, kind: Kind)
    requires AllIn(p, x) && NoRepeat(p) && p != []
    ensures var init, key := p[..|p| - 1], p[|p| - 1];
            && AllIn(init, x) && NoRepeat(init) && key in x
            && CountsOver(a, x, p, kind) == CountsOver(a, x, init, kind) + Share(a, x, key, kind)
            && forall k :: IsBaseline(init, x, kind, k) <==> IsBaseline(p, x, kind, k) && k != key
  {
    hide CountedKey;
    var init, key := p[..|p| - 1], p[|p| - 1];
    assert p == init + [key];
    assert key !in init;
  }

  /** So the counts are the same, whatever the order of the lists. */
  lemma {:induction false} SameCounts(a: Group, x: map<GroupKey, Group>, p: seq<GroupKey>, b: Group,
                                      y: map<GroupKey, Group>, q: seq<GroupKey>, kind: Kind)
    requires AllIn(p, x) && NoRepeat(p) && AllIn(q, y) && NoRepeat(q) && SameBaselines(a, x, p, b, y, q, kind)
    ensures CountsOver(a, x, p, kind) == CountsOver(b, y, q, kind)
    decreases |p|
  {
    hide CountedKey, CountsOver, NoRepeat, AllIn;
    if p == [] {
      NoBaselineNoCounts(b, y, q, kind);
      assert CountsOver(a, x, p, kind) == multiset{} by { NoBaselineNoCounts(a, x, p, kind); }
    } else {
      var init, key := p[..|p| - 1], p[|p| - 1];
      LastKey(a, x, p, kind);
      if x[key].kind == Some(kind) {
        assert IsBaseline(p, x, kind, key);
        var rest := TakeOut(b, y, q, kind, key);
        assert SameBaselines(a, x, init, b, y, rest, kind);
        SameCounts(a, x, init, b, y, rest, kind);
      } else {
        assert !IsBaseline(p, x, kind, key);
        assert SameBaselines(a, x, init, b, y, q, kind);
        SameCounts(a, x, init, b, y, q, kind);
      }
    }
  }

  // ---- The list itself ----

  lemma {:induction false} CandidatesDoNotRepeat(order: seq<GroupKey>, groups: map<GroupKey, Group>, kind: Kind,
                                                 context: Context)
    requires NoRepeat(order)
    ensures NoRepeat(Candidates(order, groups, kind, context))
  {
    hide ContextOf;
    if order != [] {
      CandidatesDoNotRepeat(order[1..], groups, kind, context);
      CandidatesMembers(order[1..], groups, kind, context, order[0]);
    }
  }

  lemma JoinDoesNotRepeat(a: seq<GroupKey>, b: seq<GroupKey>)
    requires NoRepeat(a) && NoRepeat(b) && forall k :: k in a ==> k !in b
    ensures NoRepeat(a + b)
  {
    forall i, j | 0 <= i < j < |a + b|
      ensures (a + b)[i] != (a + b)[j]
    {
      if i < |a| <= j {
        assert a[i] in a && b[j - |a|] in b;
      }
    }
  }

  lemma SortedDoNotRepeat(order: seq<GroupKey>, groups: map<GroupKey, Group>, context: Context)
    requires NoRepeat(order)
    ensures NoRepeat(SortedCandidates(order, groups, context))
    ensures AllIn(SortedCandidates(order, groups, context), groups)
  {
    hide ContextOf, Candidates, NoRepeat;
    CandidatesDoNotRepeat(order, groups, HomeRate, context);
    CandidatesDoNotRepeat(order, groups, Market, context);
    CandidatesDoNotRepeat(order, groups, Statistical, context);
    forall k
      ensures k in Candidates(order, groups, HomeRate, context) ==> k in groups && groups[k].kind == Some(HomeRate)
      ensures k in Candidates(order, groups, Market, context) ==> k in groups && groups[k].kind == Some(Market)
      ensures k in Candidates(order, groups, Statistical, context) ==>
                k in groups && groups[k].kind == Some(Statistical)
    {
      CandidatesMembers(order, groups, HomeRate, context, k);
      CandidatesMembers(order, groups, Market, context, k);
      CandidatesMembers(order, groups, Statistical, context, k);
    }
    JoinDoesNotRepeat(Candidates(order, groups, HomeRate, context), Candidates(order, groups, Market, context));
    JoinDoesNotRepeat(Candidates(order, groups, HomeRate, context) + Candidates(order, groups, Market, context),
                      Candidates(order, groups, Statistical, context));
  }

  /** A group of the table of the kind and context. */
  predicate Serves(groups: map<GroupKey, Group>, kind: Kind, context: Context, k: GroupKey) {
    k in groups && groups[k].kind == Some(kind) && ContextOf(groups[k]) == context
  }

  lemma SortedBaselines(order: seq<GroupKey>, groups: map<GroupKey, Group>, context: Context, kind: Kind, k: GroupKey)
    requires WellFormed(order, groups)
    ensures IsBaseline(SortedCandidates(order, groups, context), groups, kind, k) <==> Serves(groups, kind, context, k)
  {
    hide ContextOf, SortedCandidates;
    SortedCandidatesMembers(order, groups, context, k);
  }

  // ---- Which baselines a table has ----

  lemma MarketPassAddsMarkets(o0: seq<GroupKey>, g0: map<GroupKey, Group>, g1: map<GroupKey, Group>, kind: Kind,
                              context: Context, k: GroupKey)
    requires TasksOver(g0, MarketTasks(AiKeys(o0))) && Filled(g0, MarketTasks(AiKeys(o0)), |AiKeys(o0)|, g1)
    requires kind != Market
    ensures Serves(g1, kind, context, k) <==> Serves(g0, kind, context, k)
    ensures Serves(g0, kind, context, k) ==> g1[k] == g0[k]
  {
    hide AiKeys, ContextOf, Adds;
    var tasks := MarketTasks(AiKeys(o0));
    if k in g1 && k !in g0 {
      assert AddedBy(g0, tasks, |tasks|, k, g1[k]);
    }
  }

  /** Task i, the first of its kind and context, has added group k. */
  predicate AddedAt(before: map<GroupKey, Group>, tasks: seq<Task>, i: nat, k: GroupKey, group: Group)
    requires TasksOver(before, tasks)
  {
    i < |tasks| && Adds(before, tasks, i) && group == Fallback(before[tasks[i].ai], tasks[i].kind) && k == group.key
  }

  /** What the last pass added for a kind and context holds no rows, and there was no such group before. */
  lemma AddedServes(o1: seq<GroupKey>, g1: map<GroupKey, Group>, tasks: seq<Task>, g2: map<GroupKey, Group>, kind: Kind,
                    context: Context, k: GroupKey)
    returns (i: nat)
    requires WellFormed(o1, g1) && TasksOver(g1, tasks) && Filled(g1, tasks, |tasks|, g2)
    requires kind != Market && Serves(g2, kind, context, k) && k !in g1
    ensures AddedAt(g1, tasks, i, k, g2[k]) && g2[k].rows == []
    ensures tasks[i].ai in g1 && tasks[i].kind == kind && ContextOf(g1[tasks[i].ai]) == context
    ensures !HasKind(g1, kind, context)
  {
    assert AddedBy(g1, tasks, |tasks|, k, g2[k]);
    hide ContextOf, HasKind, Filled, Complete;
    i :| i < |tasks| && Adds(g1, tasks, i) && g2[k] == Fallback(g1[tasks[i].ai], tasks[i].kind) && k == g2[k].key;
    assert tasks[i] in tasks;
    assert Describes(tasks[i].ai, g1[tasks[i].ai]);
    FallbackKeepsContext(g1[tasks[i].ai], tasks[i].kind);
  }

  lemma SameTask(before: map<GroupKey, Group>, tasks: seq<Task>, i: nat, j: nat)
    requires TasksOver(before, tasks) && i < |tasks| && j < |tasks| && Adds(before, tasks, i) && Adds(before, tasks, j)
    requires tasks[i].kind == tasks[j].kind && ContextOf(before[tasks[i].ai]) == ContextOf(before[tasks[j].ai])
    ensures i == j
  {
    hide ContextOf, HasKind;
  }

  /** With rows of the kind and context, their groups are its baselines; without, a single empty group is. */
  ghost predicate Baselines(g0: map<GroupKey, Group>, g2: map<GroupKey, Group>, kind: Kind, context: Context) {
    if HasKind(g0, kind, context)
    then forall k :: (Serves(g2, kind, context, k) <==> Serves(g0, kind, context, k)) &&
                     (Serves(g0, kind, context, k) ==> g2[k] == g0[k])
    else exists k :: OnlyServes(g2, kind, context, k)
  }

  ghost predicate OnlyServes(groups: map<GroupKey, Group>, kind: Kind, context: Context, k: GroupKey) {
    Serves(groups, kind, context, k) && groups[k].rows == [] && forall m :: Serves(groups, kind, context, m) ==> m == k
  }

  lemma ServesIsKind(groups: map<GroupKey, Group>, kind: Kind, context: Context)
    ensures HasKind(groups, kind, context) <==> exists k :: Serves(groups, kind, context, k)
  {
    hide ContextOf;
    if HasKind(groups, kind, context) {
      var k :| k in groups && groups[k].kind == Some(kind) && ContextOf(groups[k]) == context;
      assert Serves(groups, kind, context, k);
    }
  }

  lemma BaselinesOfSummary(classify: Classify, latest: seq<Row>, o0: seq<GroupKey>, g0: map<GroupKey, Group>,
                           o1: seq<GroupKey>, g1: map<GroupKey, Group>, o2: seq<GroupKey>, g2: map<GroupKey, Group>,
                           kind: Kind, ai: GroupKey)
    requires Passes(classify, latest, o0, g0, o1, g1, o2, g2)
    requires kind != Market && ai in g0 && g0[ai].kind.None?
    ensures Baselines(g0, g2, kind, ContextOf(g0[ai]))
  {
    hide IsGrouping, WellFormed, AiKeys, Filled, TasksOver, ContextOf, Serves, HasKind, HasAllKinds, Adds, Fallback;
    BothPasses(o0, g0, o1, g1, g2);
    var context := ContextOf(g0[ai]);
    var tasks := MissingTasks(AiKeys(o1));
    AllKinds(g2, ai, context, kind);
    forall k
      ensures Serves(g1, kind, context, k) <==> Serves(g0, kind, context, k)
      ensures Serves(g0, kind, context, k) ==> k in g0 && k in g1 && g1[k] == g0[k]
      ensures Serves(g1, kind, context, k) ==> Serves(g2, kind, context, k) && k in g2 && g2[k] == g1[k]
    {
      MarketPassAddsMarkets(o0, g0, g1, kind, context, k);
      InTable(g0, kind, context, k);
      InTable(g1, kind, context, k);
      if k in g1 {
        FilledKeeps(g1, tasks, |tasks|, g2, k);
        ServesStays(g1, g2, kind, context, k);
      }
    }
    ServesIsKind(g0, kind, context);
    ServesIsKind(g1, kind, context);
    ServesIsKind(g2, kind, context);
    if HasKind(g0, kind, context) {
      forall k | Serves(g2, kind, context, k)
        ensures Serves(g1, kind, context, k)
      {
        InTable(g2, kind, context, k);
        if k !in g1 {
          var _ := AddedServes(o1, g1, tasks, g2, kind, context, k);
        } else {
          FilledKeeps(g1, tasks, |tasks|, g2, k);
          ServesStays(g2, g1, kind, context, k);
        }
      }
    } else {
      var k :| Serves(g2, kind, context, k);
      OneAdded(o1, g1, tasks, g2, kind, context, k);
    }
  }

  lemma InTable(groups: map<GroupKey, Group>, kind: Kind, context: Context, k: GroupKey)
    ensures Serves(groups, kind, context, k) ==> k in groups
  {
  }

  lemma ServesStays(a: map<GroupKey, Group>, b: map<GroupKey, Group>, kind: Kind, context: Context, k: GroupKey)
    requires k in a && k in b && a[k] == b[k]
    ensures Serves(a, kind, context, k) <==> Serves(b, kind, context, k)
  {
  }

  lemma AllKinds(groups: map<GroupKey, Group>, ai: GroupKey, context: Context, kind: Kind)
    requires Ready(groups) && ai in groups && groups[ai].kind.None? && ContextOf(groups[ai]) == context
    ensures HasKind(groups, kind, context)
  {
    hide HasKind, ContextOf;
    assert HasAllKinds(groups, ContextOf(groups[ai]));
    match kind {
      case HomeRate =>
      case Statistical =>
      case Market =>
    }
  }

  lemma OneAdded(o1: seq<GroupKey>, g1: map<GroupKey, Group>, tasks: seq<Task>, g2: map<GroupKey, Group>, kind: Kind,
                 context: Context, k: GroupKey)
    requires WellFormed(o1, g1) && TasksOver(g1, tasks) && Filled(g1, tasks, |tasks|, g2)
    requires kind != Market && Serves(g2, kind, context, k) && forall m :: !Serves(g1, kind, context, m)
    ensures OnlyServes(g2, kind, context, k)
  {
    hide ContextOf, Adds, Fallback, Filled, WellFormed, TasksOver;
    var i := NewServes(o1, g1, tasks, g2, kind, context, k);
    forall m | Serves(g2, kind, context, m)
      ensures m == k
    {
      var j := NewServes(o1, g1, tasks, g2, kind, context, m);
      SameTask(g1, tasks, i, j);
    }
  }

  lemma NewServes(o1: seq<GroupKey>, g1: map<GroupKey, Group>, tasks: seq<Task>, g2: map<GroupKey, Group>, kind: Kind,
                  context: Context, k: GroupKey)
    returns (i: nat)
    requires WellFormed(o1, g1) && TasksOver(g1, tasks) && Filled(g1, tasks, |tasks|, g2)
    requires kind != Market && Serves(g2, kind, context, k) && !Serves(g1, kind, context, k)
    ensures AddedAt(g1, tasks, i, k, g2[k]) && g2[k].rows == []
    ensures tasks[i].ai in g1 && tasks[i].kind == kind && ContextOf(g1[tasks[i].ai]) == context
  {
    hide ContextOf, Adds, Fallback, Filled, WellFormed, TasksOver;
    if k in g1 {
      FilledKeeps(g1, tasks, |tasks|, g2, k);
      assert false;
    }
    i := AddedServes(o1, g1, tasks, g2, kind, context, k);
  }

  // ---- Two orders of the same rows ----

  /** The groups of the same latest rows are the same, up to the order of their rows. */
  lemma SameGroup(classify: Classify, x: seq<Row>, y: seq<Row>, o: seq<GroupKey>, g: map<GroupKey, Group>,
                  p: seq<GroupKey>, h: map<GroupKey, Group>, k: GroupKey)
    requires IsGrouping(classify, x, o, g) && IsGrouping(classify, y, p, h) && forall r :: r in x <==> r in y
    requires k in g
    ensures k in h && Pairs(g[k].rows).Keys == Pairs(h[k].rows).Keys
    ensures g[k].kind == h[k].kind && ContextOf(g[k]) == ContextOf(h[k])
  {
    hide RowsOf, KeysOf, GroupKeyOf, Pairs;
    assert HoldsGroup(classify, x, k, g[k]);
    forall r
      ensures r in RowsOf(classify, x, k) <==> r in RowsOf(classify, y, k)
    {
      EveryRowIsInItsGroupOnly(classify, x, k, r);
      EveryRowIsInItsGroupOnly(classify, y, k, r);
    }
    assert g[k].rows[0] in RowsOf(classify, x, k);
    assert HoldsGroup(classify, y, k, h[k]);
    SamePairs(g[k].rows, h[k].rows);
    SameDescription(classify, g[k], h[k]);
  }

  lemma SameDescription(classify: Classify, g: Group, h: Group)
    requires g.rows != [] && g == NewGroup(classify, g.rows[0]).(rows := g.rows)
    requires h.rows != [] && h == NewGroup(classify, h.rows[0]).(rows := h.rows) && g.key == h.key
    ensures g.kind == h.kind && ContextOf(g) == ContextOf(h)
  {
    hide CohortOf;
  }

  /** A summary's table in terms of the groups of its rows. */
  ghost predicate Completes(g0: map<GroupKey, Group>, order: seq<GroupKey>, groups: map<GroupKey, Group>) {
    && WellFormed(order, groups)
    && (forall k :: k in g0 ==> k in groups && groups[k] == g0[k])
    && (forall k :: k in groups && groups[k].kind.None? ==> k in g0)
    && forall kind, ai :: kind != Market && ai in g0 && g0[ai].kind.None? ==>
         Baselines(g0, groups, kind, ContextOf(g0[ai]))
  }

  lemma SummaryCompletes(classify: Classify, latest: seq<Row>, order: seq<GroupKey>, groups: map<GroupKey, Group>)
    returns (o0: seq<GroupKey>, g0: map<GroupKey, Group>)
    requires IsSummary(classify, latest, order, groups)
    ensures IsGrouping(classify, latest, o0, g0) && Completes(g0, order, groups)
  {
    hide IsGrouping, WellFormed, Filled, TasksOver, AiKeys, Ready, Baselines, ContextOf;
    var o1, g1;
    o0, g0, o1, g1 :| Passes(classify, latest, o0, g0, o1, g1, order, groups);
    BothPasses(o0, g0, o1, g1, groups);
    forall kind, ai | kind != Market && ai in g0 && g0[ai].kind.None?
      ensures Baselines(g0, groups, kind, ContextOf(g0[ai]))
    {
      BaselinesOfSummary(classify, latest, o0, g0, o1, g1, order, groups, kind, ai);
    }
  }

  lemma ListedCounts(order: seq<GroupKey>, groups: map<GroupKey, Group>, c: map<GroupKey, seq<Comparison>>,
                     ai: GroupKey, kind: Kind)
    requires WellFormed(order, groups) && Listed(order, groups, c) && ai in groups && groups[ai].kind.None?
    ensures var keys := SortedCandidates(order, groups, ContextOf(groups[ai]));
            && ai in c && AllIn(keys, groups) && NoRepeat(keys)
            && CountsOfKind(c[ai], kind) == CountsOver(groups[ai], groups, keys, kind)
  {
    hide SortedCandidates, ContextOf, ComparedWith, CountsOfKind, CountsOver, NoRepeat, AllIn;
    var context := ContextOf(groups[ai]);
    assert NoRepeat(order) by { KeysDoNotRepeat(order, groups); }
    SortedDoNotRepeat(order, groups, context);
    ComparisonsAreCounted(groups[ai], groups, SortedCandidates(order, groups, context), c[ai], kind);
  }

  lemma KeysDoNotRepeat(order: seq<GroupKey>, groups: map<GroupKey, Group>)
    requires WellFormed(order, groups)
    ensures NoRepeat(order)
  {
  }

  /** With a single baseline, which has no rows, there is one comparison, of the AI group alone. */
  lemma LoneBaseline(ai: Group, order: seq<GroupKey>, groups: map<GroupKey, Group>, context: Context, kind: Kind,
                     k: GroupKey)
    requires WellFormed(order, groups) && OnlyServes(groups, kind, context, k)
    ensures var keys := SortedCandidates(order, groups, context);
            AllIn(keys, groups) && CountsOver(ai, groups, keys, kind) == multiset{Counted(Pairs(ai.rows).Keys, {})}
  {
    hide SortedCandidates, Serves, Counted, NoRepeat;
    var keys := SortedCandidates(order, groups, context);
    assert NoRepeat(order) by { KeysDoNotRepeat(order, groups); }
    SortedDoNotRepeat(order, groups, context);
    assert k in groups && groups[k].kind == Some(kind) by { ServesMeans(groups, kind, context, k); }
    forall m
      ensures IsBaseline(keys, groups, kind, m) <==> IsBaseline([k], groups, kind, m)
    {
      SortedBaselines(order, groups, context, kind, m);
    }
    assert SameBaselines(ai, groups, keys, ai, groups, [k], kind);
    assert NoRepeat([k]) by { OneKey(k); }
    SameCounts(ai, groups, keys, ai, groups, [k], kind);
    CountsOfOne(ai, groups, k, kind);
    NoRowsNoPairs();
  }

  lemma ServesMeans(groups: map<GroupKey, Group>, kind: Kind, context: Context, k: GroupKey)
    requires Serves(groups, kind, context, k)
    ensures k in groups && groups[k].kind == Some(kind)
  {
  }

  lemma OneKey(k: GroupKey)
    ensures NoRepeat([k])
  {
  }

  lemma NoRowsNoPairs()
    ensures Pairs([]).Keys == {}
  {
  }

  /** The home-rate and statistical counts of every AI group are the same in whatever order the stored
      rows come. */
  lemma CountsIgnoreOrder(classify: Classify, a: seq<Row>, b: seq<Row>, x: seq<Row>, y: seq<Row>,
                          o: seq<GroupKey>, g: map<GroupKey, Group>, c: map<GroupKey, seq<Comparison>>,
                          p: seq<GroupKey>, h: map<GroupKey, Group>, d: map<GroupKey, seq<Comparison>>,
                          ai: GroupKey, kind: Kind)
    requires DistinctIds(a) && (forall r :: r in a <==> r in b) && IsLatest(a, x) && IsLatest(b, y)
    requires IsSummary(classify, x, o, g) && Listed(o, g, c) && IsSummary(classify, y, p, h) && Listed(p, h, d)
    requires kind != Market && ai in g && g[ai].kind.None?
    ensures ai in h && h[ai].kind.None? && ai in c && ai in d
    ensures CountsOfKind(c[ai], kind) == CountsOfKind(d[ai], kind)
  {
    hide IsLatest, DistinctIds, IsSummary, IsGrouping, Listed, CountsOfKind, CountsOver, ContextOf, SortedCandidates,
         Baselines, WellFormed, NoRepeat, AllIn, Pairs;
    forall r
      ensures r in x <==> r in y
    {
      LatestIgnoresOrder(a, b, x, y, r);
    }
    var o0, g0 := SummaryCompletes(classify, x, o, g);
    var p0, h0 := SummaryCompletes(classify, y, p, h);
    SameGroup(classify, x, y, o0, g0, p0, h0, ai);
    ListedCounts(o, g, c, ai, kind);
    ListedCounts(p, h, d, ai, kind);
    SameOver(classify, x, y, o0, g0, o, g, p0, h0, p, h, ai, kind);
  }

  lemma SameOver(classify: Classify, x: seq<Row>, y: seq<Row>, o0: seq<GroupKey>, g0: map<GroupKey, Group>,
                 o: seq<GroupKey>, g: map<GroupKey, Group>, p0: seq<GroupKey>, h0: map<GroupKey, Group>,
                 p: seq<GroupKey>, h: map<GroupKey, Group>, ai: GroupKey, kind: Kind)
    requires forall r :: r in x <==> r in y
    requires IsGrouping(classify, x, o0, g0) && Completes(g0, o, g)
    requires IsGrouping(classify, y, p0, h0) && Completes(h0, p, h)
    requires kind != Market && ai in g0 && g0[ai].kind.None? && ai in h0 && ContextOf(g0[ai]) == ContextOf(h0[ai])
    requires h0[ai].kind.None? && Pairs(g0[ai].rows).Keys == Pairs(h0[ai].rows).Keys
    requires AllIn(SortedCandidates(o, g, ContextOf(g0[ai])), g) && NoRepeat(SortedCandidates(o, g, ContextOf(g0[ai])))
    requires AllIn(SortedCandidates(p, h, ContextOf(g0[ai])), h) && NoRepeat(SortedCandidates(p, h, ContextOf(g0[ai])))
    ensures CountsOver(g[ai], g, SortedCandidates(o, g, ContextOf(g0[ai])), kind)
            == CountsOver(h[ai], h, SortedCandidates(p, h, ContextOf(g0[ai])), kind)
  {
    hide IsGrouping, CountsOver, ContextOf, SortedCandidates, WellFormed, NoRepeat, AllIn, Pairs, Serves, HasKind,
         Counted;
    var context := ContextOf(g0[ai]);
    var keys, others := SortedCandidates(o, g, context), SortedCandidates(p, h, context);
    assert Baselines(g0, g, kind, context) && Baselines(h0, h, kind, context);
    forall k
      ensures Serves(g0, kind, context, k) <==> Serves(h0, kind, context, k)
      ensures Serves(g0, kind, context, k) ==> k in g0 && k in h0 && Pairs(g0[k].rows).Keys == Pairs(h0[k].rows).Keys
    {
      SameServes(classify, x, y, o0, g0, p0, h0, kind, context, k);
      SameServes(classify, y, x, p0, h0, o0, g0, kind, context, k);
    }
    ServesIsKind(g0, kind, context);
    ServesIsKind(h0, kind, context);
    if HasKind(g0, kind, context) {
      forall k
        ensures IsBaseline(keys, g, kind, k) <==> Serves(g, kind, context, k)
        ensures IsBaseline(others, h, kind, k) <==> Serves(h, kind, context, k)
      {
        SortedBaselines(o, g, context, kind, k);
        SortedBaselines(p, h, context, kind, k);
      }
      assert SameBaselines(g[ai], g, keys, h[ai], h, others, kind);
      SameCounts(g[ai], g, keys, h[ai], h, others, kind);
    } else {
      var k :| OnlyServes(g, kind, context, k);
      var m :| OnlyServes(h, kind, context, m);
      LoneBaseline(g[ai], o, g, context, kind, k);
      LoneBaseline(h[ai], p, h, context, kind, m);
    }
  }

  lemma SameServes(classify: Classify, x: seq<Row>, y: seq<Row>, o: seq<GroupKey>, g: map<GroupKey, Group>,
                   p: seq<GroupKey>, h: map<GroupKey, Group>, kind: Kind, context: Context, k: GroupKey)
    requires IsGrouping(classify, x, o, g) && IsGrouping(classify, y, p, h) && forall r :: r in x <==> r in y
    ensures Serves(g, kind, context, k) ==>
              Serves(h, kind, context, k) && k in g && k in h && Pairs(g[k].rows).Keys == Pairs(h[k].rows).Keys
  {
    hide IsGrouping, ContextOf, Pairs;
    if Serves(g, kind, context, k) {
      SameGroup(classify, x, y, o, g, p, h, k);
    }
  }
}
