/** Which stored predictions of one match the read API shows: one group of rows made from the same
    snapshot and cutoff, and one row per provider of it. */
module CurrentPredictions {
  import opened Wrappers
  import opened Ranks

  /** Ids, provider names in lower case, and timestamps stand for their place in text order, which is
      the order the source compares them in. */
  datatype Row = Row(id: int, revision: int, provider: int, succeeded: bool, published: bool,
                     snapshot: Option<int>, cutoff: Option<int>, generated: int)

  datatype Key = Key(snapshot: int, cutoff: int)

  // ---- Groups ----

  function Flag(b: bool): int {
    if b then 1 else 0
  }

  /** The group a row belongs to, if it may be shown at all. */
  function KeyOf(revision: int, row: Row): Option<Key> {
    if row.revision != revision || (row.succeeded && !row.published) then None
    else if row.snapshot.None? || row.cutoff.None? then None
    else Some(Key(row.snapshot.value, row.cutoff.value))
  }

  function Group(revision: int, rows: seq<Row>, key: Key): seq<Row> {
    if rows == [] then [] else
      var last := rows[|rows| - 1];
      Group(revision, rows[..|rows| - 1], key) + (if KeyOf(revision, last) == Some(key) then [last] else [])
  }

  function SucceededCount(group: seq<Row>): nat {
    if group == [] then 0 else SucceededCount(group[..|group| - 1]) + Flag(group[|group| - 1].succeeded)
  }

  function LatestGenerated(group: seq<Row>): (latest: int)
    requires group != []
    ensures exists r :: r in group && r.generated == latest
    ensures forall r :: r in group ==> r.generated <= latest
  {
    if |group| == 1 then group[0].generated else
      var rest := LatestGenerated(group[1..]);
      assert group == [group[0]] + group[1..];
      if group[0].generated < rest then rest else group[0].generated
  }

  function Providers(group: seq<Row>): set<int> {
    set r | r in group :: r.provider
  }

  function GroupRank(key: Key, group: seq<Row>): seq<int>
    requires group != []
  {
    [|Providers(group)|, SucceededCount(group), key.cutoff, LatestGenerated(group), key.snapshot]
  }

  function RowRank(row: Row): seq<int> {
    [Flag(row.succeeded), row.generated, row.id]
  }

  // ---- What the answer must be ----

  ghost predicate NoGroup(revision: int, rows: seq<Row>) {
    forall key :: Group(revision, rows, key) == []
  }

  /** A group that no other outranks. */
  ghost predicate Winning(revision: int, rows: seq<Row>, key: Key) {
    && Group(revision, rows, key) != []
    && forall k :: Group(revision, rows, k) != [] ==>
         !Less(GroupRank(key, Group(revision, rows, key)), GroupRank(k, Group(revision, rows, k)))
  }

  /** A row no other of its provider outranks. */
  predicate Best(group: seq<Row>, row: Row) {
    row in group && forall c :: c in group && c.provider == row.provider ==> !Less(RowRank(row), RowRank(c))
  }

  predicate Covers(result: seq<Row>, provider: int) {
    exists r :: r in result && r.provider == provider
  }

  /** One best row for each provider of the group, by provider. */
  predicate Represents(group: seq<Row>, result: seq<Row>) {
    && (forall i, j :: 0 <= i < j < |result| ==> result[i].provider < result[j].provider)
    && (forall r :: r in result ==> Best(group, r))
    && forall c :: c in group ==> Covers(result, c.provider)
  }

  ghost predicate ChosenFrom(revision: int, rows: seq<Row>, key: Key, result: seq<Row>) {
    Winning(revision, rows, key) && Represents(Group(revision, rows, key), result)
  }

  ghost predicate IsSelection(revision: int, rows: seq<Row>, result: seq<Row>) {
    if NoGroup(revision, rows) then result == [] else exists key :: ChosenFrom(revision, rows, key, result)
  }

  // ---- Group membership ----

  lemma {:induction false} GroupMembers(revision: int, rows: seq<Row>, key: Key, row: Row)
    ensures row in Group(revision, rows, key) <==> row in rows && KeyOf(revision, row) == Some(key)
  {
    if rows != [] {
      var init, last := rows[..|rows| - 1], rows[|rows| - 1];
      GroupMembers(revision, init, key, row);
      assert rows == init + [last];
    }
  }

  lemma GroupGrows(revision: int, rows: seq<Row>, row: Row, key: Key)
    ensures Group(revision, rows + [row], key)
            == if KeyOf(revision, row) == Some(key) then Group(revision, rows, key) + [row]
               else Group(revision, rows, key)
  {
    assert (rows + [row])[..|rows|] == rows;
  }

  // ---- The three loops ----

  ghost predicate Grouped(revision: int, rows: seq<Row>, order: seq<Key>, grouped: map<Key, seq<Row>>) {
    && (forall k :: k in order <==> k in grouped)
    && (forall k :: k in grouped <==> Group(revision, rows, k) != [])
    && forall k :: k in grouped ==> grouped[k] == Group(revision, rows, k)
  }

  /** The dictionary of lists, keys in the order of their first row. */
  method GroupRows(revision: int, rows: seq<Row>) returns (order: seq<Key>, grouped: map<Key, seq<Row>>)
    ensures Grouped(revision, rows, order, grouped)
  {
    order, grouped := [], map[];
    for i := 0 to |rows|
      invariant Grouped(revision, rows[..i], order, grouped)
    {
      var row := rows[i];
      assert rows[..i + 1] == rows[..i] + [row];
      forall k: Key
        ensures Group(revision, rows[..i + 1], k)
                == if KeyOf(revision, row) == Some(k) then Group(revision, rows[..i], k) + [row]
                   else Group(revision, rows[..i], k)
      {
        GroupGrows(revision, rows[..i], row, k);
      }
      if row.revision != revision {
        continue;
      }
      if row.succeeded && !row.published {
        continue;
      }
      if row.snapshot.None? || row.cutoff.None? {
        continue;
      }
      var key := Key(row.snapshot.value, row.cutoff.value);
      if key !in grouped {
        order := order + [key];
        grouped := grouped[key := []];
      }
      grouped := grouped[key := grouped[key] + [row]];
    }
    assert rows[..|rows|] == rows;
  }

  method SelectGroup(revision: int, rows: seq<Row>, order: seq<Key>, grouped: map<Key, seq<Row>>) returns (best: Key)
    requires Grouped(revision, rows, order, grouped) && order != []
    ensures Winning(revision, rows, best)
  {
    hide Group, GroupRank, Less;
    best := order[0];
    assert best in order;
    LessIsTotal(GroupRank(best, grouped[best]), GroupRank(best, grouped[best]));
    for j := 1 to |order|
      invariant best in grouped
      invariant forall i :: 0 <= i < j ==>
        order[i] in grouped && !Less(GroupRank(best, grouped[best]), GroupRank(order[i], grouped[order[i]]))
    {
      var key := order[j];
      assert key in order;
      LessIsTotal(GroupRank(key, grouped[key]), GroupRank(key, grouped[key]));
      if Less(GroupRank(best, grouped[best]), GroupRank(key, grouped[key])) {
        forall i | 0 <= i < j
          ensures !Less(GroupRank(key, grouped[key]), GroupRank(order[i], grouped[order[i]]))
        {
          RanksAlign(key, grouped[key], best, grouped[best]);
          RanksAlign(key, grouped[key], order[i], grouped[order[i]]);
          StillAbove(GroupRank(order[i], grouped[order[i]]), GroupRank(best, grouped[best]),
                     GroupRank(key, grouped[key]));
        }
        best := key;
      }
    }
  }

  lemma RanksAlign(a: Key, g: seq<Row>, b: Key, h: seq<Row>)
    requires g != [] && h != []
    ensures |GroupRank(a, g)| == |GroupRank(b, h)|
  {
  }

  predicate Kept(group: seq<Row>, representatives: map<int, Row>) {
    && (forall p :: p in representatives ==> representatives[p].provider == p && Best(group, representatives[p]))
    && forall c :: c in group ==> c.provider in representatives
  }

  method Representatives(group: seq<Row>) returns (representatives: map<int, Row>)
    ensures Kept(group, representatives)
  {
    representatives := map[];
    for i := 0 to |group|
      invariant Kept(group[..i], representatives)
    {
      var row := group[i];
      assert group[..i + 1] == group[..i] + [row];
      OneMoreRow(group[..i], row, representatives);
      if row.provider !in representatives || Less(RowRank(representatives[row.provider]), RowRank(row)) {
        representatives := representatives[row.provider := row];
      }
    }
    assert group[..|group|] == group;
  }

  lemma OneMoreRow(group: seq<Row>, row: Row, representatives: map<int, Row>)
    requires Kept(group, representatives)
    ensures Kept(group + [row],
                 if row.provider !in representatives || Less(RowRank(representatives[row.provider]), RowRank(row))
                 then representatives[row.provider := row] else representatives)
  {
    hide RowRank, Less;
    var after :=
      if row.provider !in representatives || Less(RowRank(representatives[row.provider]), RowRank(row))
      then representatives[row.provider := row] else representatives;
    RowIsNotBelowItself(row);
    forall p | p in after
      ensures after[p].provider == p && Best(group + [row], after[p])
    {
      forall c | c in group + [row] && c.provider == p
        ensures !Less(RowRank(after[p]), RowRank(c))
      {
        if c in group {
          assert Best(group, representatives[p]);
          if after[p] != representatives[p] {
            RowRanksAlign(c, representatives[p], row);
            StillAbove(RowRank(c), RowRank(representatives[p]), RowRank(row));
          }
        } else {
          assert c == row;
        }
      }
    }
  }

  lemma RowIsNotBelowItself(row: Row)
    ensures !Less(RowRank(row), RowRank(row))
  {
    LessIsTotal(RowRank(row), RowRank(row));
  }

  lemma RowRanksAlign(a: Row, b: Row, c: Row)
    ensures |RowRank(a)| == |RowRank(b)| == |RowRank(c)|
  {
  }

  predicate Least(s: set<int>, x: int) {
    x in s && forall y :: y in s ==> x <= y
  }

  lemma NotEmpty(s: set<int>)
    ensures s != {} ==> exists x :: x in s
  {
    if forall x :: x !in s {
      assert s == {};
    }
  }

  lemma {:induction false} LeastOf(s: set<int>) returns (least: int)
    requires s != {}
    ensures Least(s, least)
  {
    NotEmpty(s);
    least :| least in s;
    var rest := s - {least};
    assert s == rest + {least};
    if rest != {} {
      var other := LeastOf(rest);
      least := if other < least then other else least;
    }
  }

  lemma CoversMore(result: seq<Row>, row: Row, p: int)
    requires Covers(result, p) || row.provider == p
    ensures Covers(result + [row], p)
  {
    if Covers(result, p) {
      var r :| r in result && r.provider == p;
      assert r in result + [row];
    } else {
      assert row in result + [row];
    }
  }

  method ByProvider(group: seq<Row>, representatives: map<int, Row>) returns (result: seq<Row>)
    requires Kept(group, representatives)
    ensures Represents(group, result)
  {
    hide Best, Covers;
    result := [];
    var remaining := representatives.Keys;
    while remaining != {}
      invariant remaining <= representatives.Keys
      invariant forall i, j :: 0 <= i < j < |result| ==> result[i].provider < result[j].provider
      invariant forall i, p :: 0 <= i < |result| && p in remaining ==> result[i].provider < p
      invariant forall r :: r in result ==> Best(group, r)
      invariant forall p :: p in representatives.Keys - remaining ==> Covers(result, p)
      decreases |remaining|
    {
      ghost var least := LeastOf(remaining);
      var provider :| provider in remaining && forall other :: other in remaining ==> provider <= other;
      forall p | p in representatives.Keys - remaining || p == provider
        ensures Covers(result + [representatives[provider]], p)
      {
        CoversMore(result, representatives[provider], p);
      }
      result := result + [representatives[provider]];
      remaining := remaining - {provider};
    }
  }

  method CurrentPredictionRows(revision: int, rows: seq<Row>) returns (result: seq<Row>)
    ensures IsSelection(revision, rows, result)
  {
    hide Group, Represents, Winning;
    var order, grouped := GroupRows(revision, rows);
    if |order| == 0 {
      return [];
    }
    assert order[0] in grouped;
    var key := SelectGroup(revision, rows, order, grouped);
    assert Group(revision, rows, key) != [] by { WinningHasRows(revision, rows, key); }
    var representatives := Representatives(grouped[key]);
    result := ByProvider(grouped[key], representatives);
    assert ChosenFrom(revision, rows, key, result);
  }

  lemma WinningHasRows(revision: int, rows: seq<Row>, key: Key)
    requires Winning(revision, rows, key)
    ensures Group(revision, rows, key) != []
  {
  }

  // ---- What a selection is, and that it is unique ----

  predicate DistinctIds(rows: seq<Row>) {
    forall i, j :: 0 <= i < j < |rows| ==> rows[i].id != rows[j].id
  }

  /** The places of the rows of the current revision that were published if they succeeded and were made
      from this snapshot and cutoff. */
  function PlacesOf(revision: int, rows: seq<Row>, snapshot: int, cutoff: int): set<nat> {
    set i: nat | i < |rows| && rows[i].revision == revision && (rows[i].succeeded ==> rows[i].published)
                 && rows[i].snapshot == Some(snapshot) && rows[i].cutoff == Some(cutoff)
  }

  function ProvidersAt(rows: seq<Row>, places: set<nat>): set<int>
    requires forall i :: i in places ==> i < |rows|
  {
    set i | i in places :: rows[i].provider
  }

  function SucceededAt(rows: seq<Row>, places: set<nat>): set<nat>
    requires forall i :: i in places ==> i < |rows|
  {
    set i | i in places && rows[i].succeeded
  }

  /** Every shown row is stored, belongs to the current schedule, was published if it succeeded, and was
      made from one snapshot and cutoff; providers do not repeat, every provider with such a row is shown,
      and nothing is shown only when no stored row may be. */
  lemma SelectionIsSound(revision: int, rows: seq<Row>, result: seq<Row>)
    requires IsSelection(revision, rows, result)
    ensures forall r :: r in result ==> r in rows && r.revision == revision && (r.succeeded ==> r.published)
    ensures forall r, s :: r in result && s in result ==> r.snapshot == s.snapshot && r.cutoff == s.cutoff
    ensures forall r, s :: r in result && s in result && r.provider == s.provider ==> r == s
    ensures result == [] <==>
            forall r :: r in rows && r.revision == revision && r.snapshot.Some? && r.cutoff.Some? ==>
              r.succeeded && !r.published
    ensures forall r, c ::
              (r in result && c in rows && c.revision == revision && (c.succeeded ==> c.published)
               && c.snapshot == r.snapshot && c.cutoff == r.cutoff) ==> Covers(result, c.provider)
    ensures forall r :: r in result ==> r.snapshot.Some? && r.cutoff.Some?
  {
    hide Group, GroupRank, RowRank, Less, KeyOf, Covers;
    forall r: Row
      ensures KeyOf(revision, r).None? <==>
              r.revision != revision || r.snapshot.None? || r.cutoff.None? || (r.succeeded && !r.published)
    {
      KeyIff(revision, r);
    }
    if NoGroup(revision, rows) {
      forall r | r in rows
        ensures KeyOf(revision, r).None?
      {
        if KeyOf(revision, r).Some? {
          GroupMembers(revision, rows, KeyOf(revision, r).value, r);
        }
      }
    } else {
      var key :| ChosenFrom(revision, rows, key, result);
      var group := Group(revision, rows, key);
      forall r | r in result
        ensures r in rows && KeyOf(revision, r) == Some(key)
        ensures r.revision == revision && (r.succeeded ==> r.published)
        ensures r.snapshot == Some(key.snapshot) && r.cutoff == Some(key.cutoff)
      {
        assert Best(group, r);
        GroupMembers(revision, rows, key, r);
        KeyTells(revision, r);
      }
      forall c | c in rows && c.revision == revision && (c.succeeded ==> c.published)
                 && c.snapshot == Some(key.snapshot) && c.cutoff == Some(key.cutoff)
        ensures Covers(result, c.provider)
      {
        KeyTells(revision, c);
        GroupMembers(revision, rows, key, c);
      }
      GroupMembers(revision, rows, key, group[0]);
      CoveredIsShown(result, group[0].provider);
    }
  }

  lemma CoveredIsShown(result: seq<Row>, provider: int)
    requires Covers(result, provider)
    ensures result != []
  {
  }

  lemma KeyIff(revision: int, r: Row)
    ensures KeyOf(revision, r).None? <==>
            r.revision != revision || r.snapshot.None? || r.cutoff.None? || (r.succeeded && !r.published)
  {
  }

  lemma KeyTells(revision: int, r: Row)
    requires KeyOf(revision, r).Some? || (r.revision == revision && r.snapshot.Some? && r.cutoff.Some?
                                          && (r.succeeded ==> r.published))
    ensures KeyOf(revision, r).Some?
    ensures var key := KeyOf(revision, r).value;
            && r.revision == revision && (r.succeeded ==> r.published)
            && r.snapshot == Some(key.snapshot) && r.cutoff == Some(key.cutoff)
  {
  }

  lemma WinnerOutranks(revision: int, rows: seq<Row>, key: Key, other: Key)
    requires Winning(revision, rows, key) && Group(revision, rows, other) != []
    ensures var g, h := Group(revision, rows, key), Group(revision, rows, other);
            && |Providers(h)| <= |Providers(g)|
            && (|Providers(h)| == |Providers(g)| ==> SucceededCount(h) <= SucceededCount(g))
            && (|Providers(h)| == |Providers(g)| && SucceededCount(h) == SucceededCount(g) ==>
                other.cutoff <= key.cutoff)
            && (|Providers(h)| == |Providers(g)| && SucceededCount(h) == SucceededCount(g)
                && other.cutoff == key.cutoff ==>
                  LatestGenerated(h) <= LatestGenerated(g))
            && (|Providers(h)| == |Providers(g)| && SucceededCount(h) == SucceededCount(g)
                && other.cutoff == key.cutoff && LatestGenerated(h) == LatestGenerated(g) ==>
                  other.snapshot <= key.snapshot)
  {
    var g, h := Group(revision, rows, key), Group(revision, rows, other);
    hide Group, Less, Providers, SucceededCount, LatestGenerated;
    LessOfFive(|Providers(g)|, SucceededCount(g), key.cutoff, LatestGenerated(g), key.snapshot,
               |Providers(h)|, SucceededCount(h), other.cutoff, LatestGenerated(h), other.snapshot);
    LessOfThree(key.cutoff, LatestGenerated(g), key.snapshot, other.cutoff, LatestGenerated(h), other.snapshot);
  }

  lemma PlacesStep(revision: int, init: seq<Row>, last: Row, key: Key)
    ensures var before := PlacesOf(revision, init, key.snapshot, key.cutoff);
            var places := PlacesOf(revision, init + [last], key.snapshot, key.cutoff);
            if KeyOf(revision, last) == Some(key) then places == before + {|init|} else places == before
  {
  }

  lemma PlaceAdded(init: seq<Row>, last: Row, before: set<nat>)
    requires forall i :: i in before ==> i < |init|
    ensures var rows, places := init + [last], before + {|init|};
            && ProvidersAt(rows, before) == ProvidersAt(init, before)
            && SucceededAt(rows, before) == SucceededAt(init, before)
            && ProvidersAt(rows, places) == ProvidersAt(init, before) + {last.provider}
            && |SucceededAt(rows, places)| == |SucceededAt(init, before)| + Flag(last.succeeded)
  {
    var rows, places := init + [last], before + {|init|};
    assert forall i :: i in before ==> rows[i] == init[i];
    assert SucceededAt(rows, places) == SucceededAt(init, before) + if last.succeeded then {|init|} else {};
    assert |init| !in SucceededAt(init, before);
  }

  lemma GroupAdded(group: seq<Row>, last: Row)
    ensures Providers(group + [last]) == Providers(group) + {last.provider}
    ensures SucceededCount(group + [last]) == SucceededCount(group) + Flag(last.succeeded)
  {
    assert (group + [last])[..|group|] == group;
  }

  lemma {:induction false} GroupInColumns(revision: int, rows: seq<Row>, key: Key)
    ensures var places := PlacesOf(revision, rows, key.snapshot, key.cutoff);
            && Providers(Group(revision, rows, key)) == ProvidersAt(rows, places)
            && SucceededCount(Group(revision, rows, key)) == |SucceededAt(rows, places)|
            && (Group(revision, rows, key) == [] <==> places == {})
  {
    if rows == [] {
      NothingInColumns(revision, key);
    } else {
      var init, last := rows[..|rows| - 1], rows[|rows| - 1];
      GroupInColumns(revision, init, key);
      assert rows == init + [last];
      PlacesStep(revision, init, last, key);
      GroupGrows(revision, init, last, key);
      GroupAdded(Group(revision, init, key), last);
      PlacesAreRows(revision, init, key);
      hide Group, PlacesOf, Providers, ProvidersAt, SucceededAt, SucceededCount, KeyOf;
      PlaceAdded(init, last, PlacesOf(revision, init, key.snapshot, key.cutoff));
    }
  }

  lemma NothingInColumns(revision: int, key: Key)
    ensures PlacesOf(revision, [], key.snapshot, key.cutoff) == {} && Group(revision, [], key) == []
    ensures Providers([]) == {} == ProvidersAt([], {}) && SucceededCount([]) == 0 && SucceededAt([], {}) == {}
  {
  }

  lemma PlaceIsInGroup(revision: int, rows: seq<Row>, key: Key, i: nat)
    requires i in PlacesOf(revision, rows, key.snapshot, key.cutoff)
    ensures rows[i] in Group(revision, rows, key)
  {
    KeyTells(revision, rows[i]);
    GroupMembers(revision, rows, key, rows[i]);
  }

  lemma GroupHasPlace(revision: int, rows: seq<Row>, key: Key, r: Row) returns (i: nat)
    requires r in Group(revision, rows, key)
    ensures i in PlacesOf(revision, rows, key.snapshot, key.cutoff) && rows[i] == r
  {
    GroupMembers(revision, rows, key, r);
    KeyTells(revision, r);
    i :| 0 <= i < |rows| && rows[i] == r;
  }

  /** The time of the latest row at these places. */
  predicate IsLatestAt(rows: seq<Row>, places: set<nat>, latest: int)
    requires forall i :: i in places ==> i < |rows|
  {
    (exists i :: i in places && rows[i].generated == latest) && forall i :: i in places ==> rows[i].generated <= latest
  }

  lemma LatestInColumns(revision: int, rows: seq<Row>, key: Key, latest: int)
    requires Group(revision, rows, key) != []
    ensures IsLatestAt(rows, PlacesOf(revision, rows, key.snapshot, key.cutoff), latest) <==>
            latest == LatestGenerated(Group(revision, rows, key))
  {
    hide Group, PlacesOf, LatestGenerated;
    var g, places := Group(revision, rows, key), PlacesOf(revision, rows, key.snapshot, key.cutoff);
    assert forall i :: i in places ==> i < |rows| by { PlacesAreRows(revision, rows, key); }
    forall i | i in places
      ensures rows[i] in g
    {
      PlaceIsInGroup(revision, rows, key, i);
    }
    var top := LatestIsAttained(g);
    var k := GroupHasPlace(revision, rows, key, top);
  }

  lemma LatestIsAttained(group: seq<Row>) returns (top: Row)
    requires group != []
    ensures top in group && top.generated == LatestGenerated(group)
  {
    var latest := LatestGenerated(group);
    top :| top in group && top.generated == latest;
  }

  lemma PlacesAreRows(revision: int, rows: seq<Row>, key: Key)
    ensures forall i :: i in PlacesOf(revision, rows, key.snapshot, key.cutoff) ==> i < |rows|
  {
  }

  /** What is shown comes from the snapshot and cutoff that no other outranks: none has rows of more
      providers; of those with as many, none has more succeeded rows; of those with as many, none has a
      later cutoff; of those with that cutoff, none has a later row; of those with as late a row, none has
      a greater snapshot. */
  lemma WinnerIsMaximal(revision: int, rows: seq<Row>, result: seq<Row>, snapshot: int, cutoff: int, latest: int,
                        otherLatest: int)
    requires IsSelection(revision, rows, result) && result != []
    requires result[0].snapshot.Some? && result[0].cutoff.Some? && PlacesOf(revision, rows, snapshot, cutoff) != {}
    requires IsLatestAt(rows, PlacesOf(revision, rows, result[0].snapshot.value, result[0].cutoff.value), latest)
    requires IsLatestAt(rows, PlacesOf(revision, rows, snapshot, cutoff), otherLatest)
    ensures var shown := PlacesOf(revision, rows, result[0].snapshot.value, result[0].cutoff.value);
            var other := PlacesOf(revision, rows, snapshot, cutoff);
            var p, q := |ProvidersAt(rows, shown)|, |ProvidersAt(rows, other)|;
            var m, n := |SucceededAt(rows, shown)|, |SucceededAt(rows, other)|;
            && q <= p
            && (q == p ==> n <= m)
            && (q == p && n == m ==> cutoff <= result[0].cutoff.value)
            && (q == p && n == m && cutoff == result[0].cutoff.value ==> otherLatest <= latest)
            && (q == p && n == m && cutoff == result[0].cutoff.value && otherLatest == latest ==>
                snapshot <= result[0].snapshot.value)
  {
    hide Group, PlacesOf, Providers, ProvidersAt, SucceededAt, SucceededCount, LatestGenerated, IsLatestAt, Winning,
         KeyOf;
    var key :| ChosenFrom(revision, rows, key, result);
    var other := Key(snapshot, cutoff);
    ShownKey(revision, rows, key, result);
    GroupInColumns(revision, rows, key);
    GroupInColumns(revision, rows, other);
    WinningHasRows(revision, rows, key);
    LatestInColumns(revision, rows, key, latest);
    LatestInColumns(revision, rows, other, otherLatest);
    WinnerOutranks(revision, rows, key, other);
  }

  lemma ShownKey(revision: int, rows: seq<Row>, key: Key, result: seq<Row>)
    requires ChosenFrom(revision, rows, key, result) && result != []
    ensures result[0].snapshot == Some(key.snapshot) && result[0].cutoff == Some(key.cutoff)
  {
    assert Best(Group(revision, rows, key), result[0]);
    GroupMembers(revision, rows, key, result[0]);
  }

  /** Of the rows of its provider made from the same snapshot and cutoff, a succeeded one is shown before
      others, then the later one, then the one with the greater id. */
  lemma ShownRowIsBest(revision: int, rows: seq<Row>, result: seq<Row>, r: Row, other: Row)
    requires IsSelection(revision, rows, result) && r in result && other in rows && other.provider == r.provider
    requires other.revision == revision && (other.succeeded ==> other.published)
    requires other.snapshot == r.snapshot && other.cutoff == r.cutoff
    ensures other.succeeded ==> r.succeeded
    ensures other.succeeded == r.succeeded ==> other.generated <= r.generated
    ensures other.succeeded == r.succeeded && other.generated == r.generated ==> other.id <= r.id
  {
    hide Less, Winning, Group;
    var key :| ChosenFrom(revision, rows, key, result);
    assert Best(Group(revision, rows, key), r);
    GroupMembers(revision, rows, key, r);
    KeyTells(revision, r);
    KeyTells(revision, other);
    GroupMembers(revision, rows, key, other);
    BestIsMaximal(Group(revision, rows, key), r, other);
  }

  /** What being best means: a succeeded row before others, then the later one, then the greater id. */
  lemma BestIsMaximal(group: seq<Row>, row: Row, other: Row)
    requires Best(group, row) && other in group && other.provider == row.provider
    ensures other.succeeded ==> row.succeeded
    ensures other.succeeded == row.succeeded ==> other.generated <= row.generated
    ensures other.succeeded == row.succeeded && other.generated == row.generated ==> other.id <= row.id
  {
    hide Less;
    LessOfThree(Flag(row.succeeded), row.generated, row.id, Flag(other.succeeded), other.generated, other.id);
  }

  lemma {:induction false} SucceededIsCount(group: seq<Row>)
    requires DistinctIds(group)
    ensures SucceededCount(group) == |set r | r in group && r.succeeded|
  {
    if group != [] {
      var init, last := group[..|group| - 1], group[|group| - 1];
      SucceededIsCount(init);
      var before := set r | r in init && r.succeeded;
      assert last !in init;
      assert group == init + [last];
      assert (set r | r in group && r.succeeded) == if last.succeeded then before + {last} else before;
    } else {
      assert (set r | r in group && r.succeeded) == {};
    }
  }

  lemma {:induction false} GroupKeepsDistinctIds(revision: int, rows: seq<Row>, key: Key)
    requires DistinctIds(rows)
    ensures DistinctIds(Group(revision, rows, key))
  {
    if rows != [] {
      var init, last := rows[..|rows| - 1], rows[|rows| - 1];
      GroupKeepsDistinctIds(revision, init, key);
      var rest := Group(revision, init, key);
      forall i | 0 <= i < |rest|
        ensures rest[i].id != last.id
      {
        GroupMembers(revision, init, key, rest[i]);
      }
    }
  }

  ghost predicate SameRows(a: seq<Row>, b: seq<Row>) {
    forall r :: r in a <==> r in b
  }

  /** A group's rank depends only on which rows it has. */
  lemma RankIgnoresOrder(key: Key, a: seq<Row>, b: seq<Row>)
    requires DistinctIds(a) && DistinctIds(b) && SameRows(a, b) && a != [] && b != []
    ensures GroupRank(key, a) == GroupRank(key, b)
  {
    hide SucceededCount, DistinctIds;
    SucceededIsCount(a);
    SucceededIsCount(b);
    assert (set r | r in a && r.succeeded) == (set r | r in b && r.succeeded);
    assert Providers(a) == Providers(b);
  }

  /** Ranks of two groups differ, because their keys are part of the rank. */
  lemma OneWinner(revision: int, rows: seq<Row>, k: Key, m: Key)
    requires Winning(revision, rows, k) && Winning(revision, rows, m)
    ensures k == m
  {
    LessIsTotal(GroupRank(k, Group(revision, rows, k)), GroupRank(m, Group(revision, rows, m)));
    assert GroupRank(k, Group(revision, rows, k))[2] == k.cutoff;
    assert GroupRank(k, Group(revision, rows, k))[4] == k.snapshot;
    assert GroupRank(m, Group(revision, rows, m))[2] == m.cutoff;
    assert GroupRank(m, Group(revision, rows, m))[4] == m.snapshot;
  }

  lemma OneBest(group: seq<Row>, a: Row, b: Row)
    requires DistinctIds(group) && Best(group, a) && Best(group, b) && a.provider == b.provider
    ensures a == b
  {
    LessIsTotal(RowRank(a), RowRank(b));
    assert RowRank(a)[2] == a.id && RowRank(b)[2] == b.id;
  }

  lemma OneRepresentation(a: seq<Row>, b: seq<Row>, x: seq<Row>, y: seq<Row>)
    requires DistinctIds(a) && SameRows(a, b) && Represents(a, x) && Represents(b, y)
    ensures x == y
  {
    hide RowRank, Less, DistinctIds;
    forall r
      ensures r in x <==> r in y
    {
      if r in x {
        SharedRow(a, b, y, r);
      }
      if r in y {
        assert Best(a, r);
        SharedRow(a, a, x, r);
      }
    }
    SortedRowsAgree(x, y);
  }

  lemma SharedRow(a: seq<Row>, b: seq<Row>, y: seq<Row>, r: Row)
    requires DistinctIds(a) && SameRows(a, b) && Best(a, r) && Represents(b, y)
    ensures r in y
  {
    hide RowRank, Less, DistinctIds;
    assert Covers(y, r.provider);
    var s :| s in y && s.provider == r.provider;
    assert Best(b, s);
    assert Best(a, s);
    OneBest(a, r, s);
  }

  lemma BothEmpty(x: seq<Row>, y: seq<Row>)
    requires SameRows(x, y)
    ensures x != [] <==> y != []
  {
    if x != [] {
      assert x[0] in y;
    }
    if y != [] {
      assert y[0] in x;
    }
  }

  lemma {:induction false} SortedRowsAgree(x: seq<Row>, y: seq<Row>)
    requires forall i, j :: 0 <= i < j < |x| ==> x[i].provider < x[j].provider
    requires forall i, j :: 0 <= i < j < |y| ==> y[i].provider < y[j].provider
    requires SameRows(x, y)
    ensures x == y
  {
    assert x != [] <==> y != [] by { BothEmpty(x, y); }
    if x != [] {
      assert x[0] in y;
      assert y[0] in x;
      var i :| 0 <= i < |y| && y[i] == x[0];
      var j :| 0 <= j < |x| && x[j] == y[0];
      assert x[0] == y[0];
      assert x == [x[0]] + x[1..] && y == [y[0]] + y[1..];
      forall r
        ensures r in x[1..] <==> r in y[1..]
      {
        if r in x[1..] {
          assert r in y && r != x[0];
        }
        if r in y[1..] {
          assert r in x && r != y[0];
        }
      }
      SortedRowsAgree(x[1..], y[1..]);
    }
  }

  lemma SameGroups(revision: int, a: seq<Row>, b: seq<Row>, key: Key)
    requires SameRows(a, b)
    ensures SameRows(Group(revision, a, key), Group(revision, b, key))
    ensures Group(revision, a, key) == [] <==> Group(revision, b, key) == []
  {
    forall r
      ensures r in Group(revision, a, key) <==> r in Group(revision, b, key)
    {
      GroupMembers(revision, a, key, r);
      GroupMembers(revision, b, key, r);
    }
    if Group(revision, a, key) != [] {
      assert Group(revision, a, key)[0] in Group(revision, b, key);
    }
    if Group(revision, b, key) != [] {
      assert Group(revision, b, key)[0] in Group(revision, a, key);
    }
  }

  lemma SameRank(revision: int, a: seq<Row>, b: seq<Row>, key: Key)
    requires DistinctIds(a) && DistinctIds(b) && SameRows(a, b) && Group(revision, a, key) != []
    ensures Group(revision, b, key) != []
    ensures GroupRank(key, Group(revision, a, key)) == GroupRank(key, Group(revision, b, key))
  {
    SameGroups(revision, a, b, key);
    GroupKeepsDistinctIds(revision, a, key);
    GroupKeepsDistinctIds(revision, b, key);
    RankIgnoresOrder(key, Group(revision, a, key), Group(revision, b, key));
  }

  lemma SameWinner(revision: int, a: seq<Row>, b: seq<Row>, key: Key)
    requires DistinctIds(a) && DistinctIds(b) && SameRows(a, b) && Winning(revision, a, key)
    ensures Winning(revision, b, key)
  {
    hide Group, GroupRank, Less, DistinctIds, SameRows;
    SameRank(revision, a, b, key);
    forall k | Group(revision, b, k) != []
      ensures !Less(GroupRank(key, Group(revision, b, key)), GroupRank(k, Group(revision, b, k)))
    {
      SameGroups(revision, a, b, k);
      SameRank(revision, a, b, k);
    }
  }

  /** With distinct ids the answer does not depend on the order of the stored rows. */
  lemma OrderDoesNotMatter(revision: int, a: seq<Row>, b: seq<Row>, x: seq<Row>, y: seq<Row>)
    requires DistinctIds(a) && multiset(a) == multiset(b)
    requires IsSelection(revision, a, x) && IsSelection(revision, b, y)
    ensures x == y
  {
    hide Group, Winning, Represents;
    assert SameRows(a, b) by { PermutationHasSameRows(a, b); }
    assert DistinctIds(b) by { PermutationKeepsIds(a, b); }
    hide DistinctIds, SameRows;
    forall key: Key
      ensures Group(revision, a, key) == [] <==> Group(revision, b, key) == []
    {
      SameGroups(revision, a, b, key);
    }
    if !NoGroup(revision, a) {
      var k :| ChosenFrom(revision, a, k, x);
      var m :| ChosenFrom(revision, b, m, y);
      SameWinner(revision, a, b, k);
      OneWinner(revision, b, k, m);
      SameGroups(revision, a, b, k);
      GroupKeepsDistinctIds(revision, a, k);
      OneRepresentation(Group(revision, a, k), Group(revision, b, k), x, y);
    }
  }

  lemma PermutationHasSameRows(a: seq<Row>, b: seq<Row>)
    requires multiset(a) == multiset(b)
    ensures SameRows(a, b)
  {
    forall r
      ensures r in a <==> r in b
    {
      assert r in a <==> r in multiset(a);
      assert r in b <==> r in multiset(b);
    }
  }

  lemma PermutationKeepsIds(a: seq<Row>, b: seq<Row>)
    requires DistinctIds(a) && multiset(a) == multiset(b)
    ensures DistinctIds(b)
  {
    forall i, j | 0 <= i < j < |b|
      ensures b[i].id != b[j].id
    {
      PermutationHasSameRows(a, b);
      assert b[i] in a && b[j] in a;
      if b[i] == b[j] {
        assert b == b[..j] + [b[j]] + b[j + 1..];
        assert b[..j] == b[..i] + [b[i]] + b[i + 1..j];
        assert multiset(b)[b[i]] >= 2;
        AppearsOnce(a, b[i]);
      }
    }
  }

  lemma {:induction false} AppearsOnce(a: seq<Row>, r: Row)
    requires DistinctIds(a)
    ensures multiset(a)[r] <= 1
  {
    if a != [] {
      AppearsOnce(a[1..], r);
      assert a == [a[0]] + a[1..];
      forall i | 0 <= i < |a[1..]|
        ensures a[1..][i] != a[0]
      {
        assert a[i + 1].id != a[0].id;
      }
      assert a[0] !in multiset(a[1..]);
    }
  }
}
