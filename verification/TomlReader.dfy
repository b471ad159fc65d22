/** A line reader after TOML v1.0.0, sections "Table" and "Array of Tables", and the proof that it
    undoes the printer. */
module TomlReader {
  import opened Wrappers
  import opened TomlPrinter

  type Tree = map<Key, Item>

  /** A subtable is `defined` once its own header has been read; a super-table that only appeared inside
      longer headers is not, and may still be defined once. */
  datatype Item =
    | Value(value: Scalar)
    | SubTable(defined: bool, table: map<Key, Item>)
    | TableArray(tables: seq<map<Key, Item>>)

  datatype Op = PutValue(key: Key, value: Scalar) | DefineTable(key: Key) | AppendItem(key: Key)

  /** The change one line makes in the table it addresses; nothing when TOML forbids it. */
  function Perform(t: Tree, op: Op): Option<Tree> {
    match op
    case PutValue(k, v) =>
      if k in t then None else Some(t[k := Value(v)])
    case DefineTable(k) =>
      if k !in t then Some(t[k := SubTable(true, map[])])
      else if t[k].SubTable? && !t[k].defined then Some(t[k := SubTable(true, t[k].table)])
      else None
    case AppendItem(k) =>
      if k !in t then Some(t[k := TableArray([map[]])])
      else if t[k].TableArray? then Some(t[k := TableArray(t[k].tables + [map[]])])
      else None
  }

  /** Follow a path from the root: missing tables are created implicitly, and a name that holds an array
      of tables means its last element. */
  function Change(root: Tree, path: seq<Key>, op: Op): Option<Tree>
    decreases |path|
  {
    if path == [] then Perform(root, op) else
      var k, rest := path[0], path[1..];
      if k !in root then
        var made := Change(map[], rest, op);
        if made.None? then None else Some(root[k := SubTable(false, made.value)])
      else
        match root[k]
        case Value(_) => None
        case SubTable(defined, table) =>
          var made := Change(table, rest, op);
          if made.None? then None else Some(root[k := SubTable(defined, made.value)])
        case TableArray(tables) =>
          if tables == [] then None else
            var made := Change(tables[|tables| - 1], rest, op);
            if made.None? then None else Some(root[k := TableArray(tables[..|tables| - 1] + [made.value])])
  }

  datatype State = State(root: Tree, current: seq<Key>)

  function Step(s: State, line: Line): Option<State> {
    match line
    case Blank => Some(s)
    case KeyValue(k, v) =>
      var made := Change(s.root, s.current, PutValue(k, v));
      if made.None? then None else Some(State(made.value, s.current))
    case Header(path) =>
      if path == [] then None else
        var made := Change(s.root, path[..|path| - 1], DefineTable(path[|path| - 1]));
        if made.None? then None else Some(State(made.value, path))
    case ItemHeader(path) =>
      if path == [] then None else
        var made := Change(s.root, path[..|path| - 1], AppendItem(path[|path| - 1]));
        if made.None? then None else Some(State(made.value, path))
  }

  function Read(lines: seq<Line>, s: State): Option<State> {
    if lines == [] then Some(s) else
      var next := Step(s, lines[0]);
      if next.None? then None else Read(lines[1..], next.value)
  }

  function ReadToml(lines: seq<Line>): Option<Tree> {
    var end := Read(lines, State(map[], []));
    if end.None? then None else Some(end.value.root)
  }

  // ---- A document as a map ----

  function ItemOf(n: Node): Item
    decreases n, 1
  {
    match n
    case Leaf(v) => Value(v)
    case Table(dict) => SubTable(true, Fill(map[], dict.entries))
    case Tables(items) => TableArray(TreesOf(items))
  }

  function TreesOf(items: seq<Dict>): seq<Tree>
    decreases items, 0
  {
    if items == [] then [] else [Fill(map[], items[0].entries)] + TreesOf(items[1..])
  }

  function Fill(t: Tree, es: seq<Entry>): Tree
    decreases es, 0
  {
    if es == [] then t else Fill(t[es[0].key := ItemOf(es[0].node)], es[1..])
  }

  function TreeOf(d: Dict): Tree {
    Fill(map[], d.entries)
  }

  predicate KeysIn(es: seq<Entry>, k: Key) {
    exists i :: 0 <= i < |es| && es[i].key == k
  }

  lemma {:induction false} FillKeepsOthers(t: Tree, es: seq<Entry>, k: Key)
    requires !KeysIn(es, k)
    ensures k in Fill(t, es) <==> k in t
    ensures k in t ==> Fill(t, es)[k] == t[k]
    decreases |es|
  {
    if es != [] {
      assert es[0].key != k;
      assert !KeysIn(es[1..], k);
      FillKeepsOthers(t[es[0].key := ItemOf(es[0].node)], es[1..], k);
    }
  }

  /** The map of a well-formed document has exactly its entries. */
  lemma {:induction false} FillLookup(t: Tree, es: seq<Entry>, i: nat)
    requires DistinctKeys(es) && i < |es|
    ensures es[i].key in Fill(t, es) && Fill(t, es)[es[i].key] == ItemOf(es[i].node)
    decreases |es|
  {
    var t' := t[es[0].key := ItemOf(es[0].node)];
    if i == 0 {
      assert !KeysIn(es[1..], es[0].key);
      FillKeepsOthers(t', es[1..], es[0].key);
    } else {
      FillLookup(t', es[1..], i - 1);
    }
  }

  // ---- Tables addressed by a path ----

  function Get(root: Tree, path: seq<Key>): Option<Tree>
    decreases |path|
  {
    if path == [] then Some(root)
    else if path[0] !in root then None
    else
      match root[path[0]]
      case Value(_) => None
      case SubTable(_, table) => Get(table, path[1..])
      case TableArray(tables) => if tables == [] then None else Get(tables[|tables| - 1], path[1..])
  }

  function Put(root: Tree, path: seq<Key>, t: Tree): Tree
    requires Get(root, path).Some?
    decreases |path|
  {
    if path == [] then t else
      var k := path[0];
      match root[k]
      case SubTable(defined, table) => root[k := SubTable(defined, Put(table, path[1..], t))]
      case TableArray(tables) =>
        root[k := TableArray(tables[..|tables| - 1] + [Put(tables[|tables| - 1], path[1..], t)])]
  }

  lemma {:induction false} ChangeIsPut(root: Tree, path: seq<Key>, op: Op)
    requires Get(root, path).Some? && Perform(Get(root, path).value, op).Some?
    ensures Change(root, path, op) == Some(Put(root, path, Perform(Get(root, path).value, op).value))
    decreases |path|
  {
    if path != [] {
      match root[path[0]]
      case SubTable(_, table) => ChangeIsPut(table, path[1..], op);
      case TableArray(tables) => ChangeIsPut(tables[|tables| - 1], path[1..], op);
    }
  }

  lemma {:induction false} PutLaws(root: Tree, path: seq<Key>, a: Tree, b: Tree)
    requires Get(root, path).Some?
    ensures Get(Put(root, path, a), path) == Some(a)
    ensures Put(Put(root, path, a), path, b) == Put(root, path, b)
    decreases |path|
  {
    if path != [] {
      match root[path[0]]
      case SubTable(_, table) => PutLaws(table, path[1..], a, b);
      case TableArray(tables) => PutLaws(tables[|tables| - 1], path[1..], a, b);
    }
  }

  lemma {:induction false} PutSame(root: Tree, path: seq<Key>)
    requires Get(root, path).Some?
    ensures Put(root, path, Get(root, path).value) == root
    decreases |path|
  {
    if path != [] {
      match root[path[0]]
      case SubTable(_, table) => PutSame(table, path[1..]);
      case TableArray(tables) =>
        PutSame(tables[|tables| - 1], path[1..]);
        assert tables[..|tables| - 1] + [tables[|tables| - 1]] == tables;
    }
  }

  /** The table one name further down: a subtable, or the last table of an array. */
  function Child(t: Tree, k: Key): Option<Tree> {
    if k !in t then None else
      match t[k]
      case Value(_) => None
      case SubTable(_, table) => Some(table)
      case TableArray(tables) => if tables == [] then None else Some(tables[|tables| - 1])
  }

  function WithChild(t: Tree, k: Key, sub: Tree): Tree
    requires Child(t, k).Some?
  {
    match t[k]
    case SubTable(defined, _) => t[k := SubTable(defined, sub)]
    case TableArray(tables) => t[k := TableArray(tables[..|tables| - 1] + [sub])]
  }

  lemma {:induction false} ChildPath(root: Tree, path: seq<Key>, k: Key, sub: Tree)
    requires Get(root, path).Some? && Child(Get(root, path).value, k).Some?
    ensures Get(root, path + [k]) == Child(Get(root, path).value, k)
    ensures Put(root, path + [k], sub) == Put(root, path, WithChild(Get(root, path).value, k, sub))
    decreases |path|
  {
    if path == [] {
      assert path + [k] == [k] && [k][1..] == [];
    } else {
      assert (path + [k])[1..] == path[1..] + [k];
      match root[path[0]]
      case SubTable(_, table) => ChildPath(table, path[1..], k, sub);
      case TableArray(tables) => ChildPath(tables[|tables| - 1], path[1..], k, sub);
    }
  }

  // ---- Reading a printed table ----

  lemma {:induction false} ReadAppend(a: seq<Line>, b: seq<Line>, s: State)
    ensures Read(a + b, s) == if Read(a, s).None? then None else Read(b, Read(a, s).value)
    decreases |a|
  {
    if a == [] {
      assert a + b == b;
    } else {
      assert (a + b)[1..] == a[1..] + b;
      var next := Step(s, a[0]);
      if next.Some? {
        ReadAppend(a[1..], b, next.value);
      }
    }
  }

  function FillLeaves(t: Tree, es: seq<Entry>): Tree
    decreases |es|
  {
    if es == [] then t
    else FillLeaves(if es[0].node.Leaf? then t[es[0].key := ItemOf(es[0].node)] else t, es[1..])
  }

  function FillNested(t: Tree, es: seq<Entry>): Tree
    decreases |es|
  {
    if es == [] then t
    else FillNested(if es[0].node.Leaf? then t else t[es[0].key := ItemOf(es[0].node)], es[1..])
  }

  lemma {:induction false} LeavesCommute(t: Tree, es: seq<Entry>, k: Key, item: Item)
    requires !KeysIn(es, k)
    ensures FillLeaves(t[k := item], es) == FillLeaves(t, es)[k := item]
    decreases |es|
  {
    if es != [] {
      assert es[0].key != k;
      assert !KeysIn(es[1..], k);
      var e := ItemOf(es[0].node);
      if es[0].node.Leaf? {
        assert t[k := item][es[0].key := e] == t[es[0].key := e][k := item];
        LeavesCommute(t[es[0].key := e], es[1..], k, item);
      } else {
        LeavesCommute(t, es[1..], k, item);
      }
    }
  }

  /** Scalars first, then subtables: the same map as the entries in order. */
  lemma {:induction false} ScalarsFirst(t: Tree, es: seq<Entry>)
    requires DistinctKeys(es)
    ensures FillNested(FillLeaves(t, es), es) == Fill(t, es)
    decreases |es|
  {
    if es != [] {
      var e := es[0];
      assert !KeysIn(es[1..], e.key);
      if !e.node.Leaf? {
        LeavesCommute(t, es[1..], e.key, ItemOf(e.node));
      }
      ScalarsFirst(t[e.key := ItemOf(e.node)], es[1..]);
    }
  }

  lemma {:induction false} LeavesKeys(t: Tree, es: seq<Entry>, k: Key)
    requires DistinctKeys(es)
    ensures k in FillLeaves(t, es) <==> k in t || exists i :: 0 <= i < |es| && es[i].node.Leaf? && es[i].key == k
    decreases |es|
  {
    if es != [] {
      var t' := if es[0].node.Leaf? then t[es[0].key := ItemOf(es[0].node)] else t;
      LeavesKeys(t', es[1..], k);
      assert forall i :: 1 <= i < |es| ==> es[i] == es[1..][i - 1];
    }
  }

  predicate Absent(t: Tree, es: seq<Entry>, leaves: bool) {
    forall i :: 0 <= i < |es| && es[i].node.Leaf? == leaves ==> es[i].key !in t
  }

  lemma {:induction false} ScalarsRead(es: seq<Entry>, root: Tree, path: seq<Key>)
    requires DistinctKeys(es) && Get(root, path).Some? && Absent(Get(root, path).value, es, true)
    ensures Read(ScalarLines(es), State(root, path)) ==
            Some(State(Put(root, path, FillLeaves(Get(root, path).value, es)), path))
    decreases |es|
  {
    var t := Get(root, path).value;
    if es == [] {
      PutSame(root, path);
    } else if es[0].node.Leaf? {
      var t' := t[es[0].key := Value(es[0].node.value)];
      ChangeIsPut(root, path, PutValue(es[0].key, es[0].node.value));
      var root' := Put(root, path, t');
      PutLaws(root, path, t', FillLeaves(t', es[1..]));
      assert forall i :: 0 <= i < |es[1..]| ==> es[1..][i] == es[i + 1];
      ScalarsRead(es[1..], root', path);
      var line := KeyValue(es[0].key, es[0].node.value);
      assert ScalarLines(es) == [line] + ScalarLines(es[1..]);
      assert ([line] + ScalarLines(es[1..]))[1..] == ScalarLines(es[1..]);
    } else {
      assert forall i :: 0 <= i < |es[1..]| ==> es[1..][i] == es[i + 1];
      assert ScalarLines(es) == ScalarLines(es[1..]);
      ScalarsRead(es[1..], root, path);
    }
  }

  /** Reading these lines from any current table succeeds and leaves this tree. */
  predicate Reads(lines: seq<Line>, root: Tree, current: seq<Key>, result: Tree) {
    var end := Read(lines, State(root, current));
    end.Some? && end.value.root == result
  }

  lemma ReadsThen(a: seq<Line>, b: seq<Line>, root: Tree, current: seq<Key>, middle: Tree, result: Tree)
    requires Reads(a, root, current, middle) && forall c :: Reads(b, middle, c, result)
    ensures Reads(a + b, root, current, result)
  {
    ReadAppend(a, b, State(root, current));
    var end := Read(a, State(root, current)).value;
    assert Reads(b, middle, end.current, result);
  }

  lemma {:induction false} TableReads(es: seq<Entry>, root: Tree, path: seq<Key>)
    requires WellFormed(es) && Get(root, path) == Some(map[])
    ensures Reads(TableLines(es, path), root, path, Put(root, path, Fill(map[], es)))
    decreases es, 3
  {
    ScalarsRead(es, root, path);
    var leaves := FillLeaves(map[], es);
    var middle := Put(root, path, leaves);
    PutLaws(root, path, leaves, FillNested(leaves, es));
    forall i | 0 <= i < |es| && !es[i].node.Leaf?
      ensures es[i].key !in leaves
    {
      LeavesKeys(map[], es, es[i].key);
    }
    forall c
      ensures Reads(NestedLines(es, path), middle, c, Put(middle, path, FillNested(leaves, es)))
    {
      NestedReads(es, middle, path, c);
    }
    ScalarsFirst(map[], es);
    ReadsThen(ScalarLines(es), NestedLines(es, path), root, path, middle, Put(root, path, Fill(map[], es)));
  }

  lemma {:induction false} NestedReads(es: seq<Entry>, root: Tree, path: seq<Key>, current: seq<Key>)
    requires DistinctKeys(es) && (forall i :: 0 <= i < |es| ==> WellFormedNode(es[i].node))
    requires Get(root, path).Some? && Absent(Get(root, path).value, es, false)
    ensures Reads(NestedLines(es, path), root, current, Put(root, path, FillNested(Get(root, path).value, es)))
    decreases es, 2
  {
    var t := Get(root, path).value;
    if es == [] {
      PutSame(root, path);
    } else {
      var e, rest := es[0], es[1..];
      var t' := if e.node.Leaf? then t else t[e.key := ItemOf(e.node)];
      var root' := Put(root, path, t');
      PutLaws(root, path, t', FillNested(t', rest));
      if e.node.Leaf? {
        PutSame(root, path);
      } else {
        NodeReads(e.node, root, path, e.key, current);
      }
      assert forall i :: 0 <= i < |rest| ==> rest[i] == es[i + 1];
      forall c
        ensures Reads(NestedLines(rest, path), root', c, Put(root', path, FillNested(t', rest)))
      {
        NestedReads(rest, root', path, c);
      }
      ReadsThen(NodeLines(e.node, path + [e.key]), NestedLines(rest, path), root, current, root',
                Put(root, path, FillNested(t, es)));
    }
  }

  lemma {:induction false} NodeReads(n: Node, root: Tree, path: seq<Key>, k: Key, current: seq<Key>)
    requires WellFormedNode(n) && !n.Leaf? && Get(root, path).Some? && k !in Get(root, path).value
    ensures Reads(NodeLines(n, path + [k]), root, current, Put(root, path, Get(root, path).value[k := ItemOf(n)]))
    decreases n, 4
  {
    hide Get, Put, Fill, Read, TableLines;
    var t := Get(root, path).value;
    match n
    case Table(dict) =>
      var open := t[k := SubTable(true, map[])];
      assert WithChild(open, k, Fill(map[], dict.entries)) == t[k := ItemOf(n)];
      HeaderReads(Header(path + [k]), DefineTable(k), root, path, k, current);
      SectionReads(Header(path + [k]), dict, root, path, k, open, current);
    case Tables(items) =>
      assert [] + TreesOf(items) == TreesOf(items);
      ItemsRead(items, [], root, path, k, current);
  }

  lemma NothingReads(root: Tree, current: seq<Key>)
    ensures Reads([], root, current, root)
  {
  }

  lemma {:induction false} ItemsRead(items: seq<Dict>, done: seq<Tree>, root: Tree, path: seq<Key>, k: Key,
                                     current: seq<Key>)
    requires Get(root, path).Some? && (forall i :: 0 <= i < |items| ==> WellFormed(items[i].entries))
    requires var t := Get(root, path).value;
             if done == [] then k !in t else k in t && t[k] == TableArray(done)
    requires done != [] || items != []
    ensures Reads(ItemLines(items, path + [k]), root, current,
                  Put(root, path, Get(root, path).value[k := TableArray(done + TreesOf(items))]))
    decreases items, 2
  {
    hide Get, Put, Fill, Read, TableLines, Reads;
    var t := Get(root, path).value;
    if items == [] {
      assert done + TreesOf(items) == done;
      assert t[k := TableArray(done)] == t;
      PutSame(root, path);
      NothingReads(root, current);
    } else {
      var tree, rest := Fill(map[], items[0].entries), items[1..];
      var now := done + [tree];
      var t' := t[k := TableArray(now)];
      ItemReads(items[0], done, root, path, k, current);
      var root' := Put(root, path, t');
      var result := Put(root, path, t[k := TableArray(done + TreesOf(items))]);
      assert now + TreesOf(rest) == done + TreesOf(items);
      assert t'[k := TableArray(now + TreesOf(rest))] == t[k := TableArray(done + TreesOf(items))];
      PutLaws(root, path, t', t[k := TableArray(done + TreesOf(items))]);
      var more := ItemLines(rest, path + [k]);
      forall c
        ensures Reads(more, root', c, result)
      {
        ItemsRead(rest, now, root', path, k, c);
      }
      ReadsThen([Blank, ItemHeader(path + [k])] + TableLines(items[0].entries, path + [k]), more, root, current, root',
                result);
    }
  }

  lemma {:induction false} ItemReads(item: Dict, done: seq<Tree>, root: Tree, path: seq<Key>, k: Key, current: seq<Key>)
    requires Get(root, path).Some? && WellFormed(item.entries)
    requires var t := Get(root, path).value;
             if done == [] then k !in t else k in t && t[k] == TableArray(done)
    ensures Reads([Blank, ItemHeader(path + [k])] + TableLines(item.entries, path + [k]), root, current,
                  Put(root, path, Get(root, path).value[k := TableArray(done + [Fill(map[], item.entries)])]))
    decreases item, 5
  {
    hide Get, Put, Fill, Read, TableLines, Reads, Perform, Child, WithChild;
    var t := Get(root, path).value;
    var open := t[k := TableArray(done + [map[]])];
    OpenItem(t, k, done, Fill(map[], item.entries));
    HeaderReads(ItemHeader(path + [k]), AppendItem(k), root, path, k, current);
    SectionReads(ItemHeader(path + [k]), item, root, path, k, open, current);
  }

  lemma OpenItem(t: Tree, k: Key, done: seq<Tree>, tree: Tree)
    requires if done == [] then k !in t else k in t && t[k] == TableArray(done)
    ensures var open := t[k := TableArray(done + [map[]])];
            && Perform(t, AppendItem(k)) == Some(open) && Child(open, k) == Some(map[])
            && WithChild(open, k, tree) == t[k := TableArray(done + [tree])]
  {
    var open := t[k := TableArray(done + [map[]])];
    assert done == [] ==> done + [map[]] == [map[]];
    assert (done + [map[]])[..|done|] == done;
    assert WithChild(open, k, tree) == t[k := TableArray(done + [tree])];
  }

  lemma HeaderReads(header: Line, op: Op, root: Tree, path: seq<Key>, k: Key, current: seq<Key>)
    requires Get(root, path).Some? && Perform(Get(root, path).value, op).Some?
    requires (header == Header(path + [k]) && op == DefineTable(k)) ||
             (header == ItemHeader(path + [k]) && op == AppendItem(k))
    ensures Read([Blank, header], State(root, current)) ==
            Some(State(Put(root, path, Perform(Get(root, path).value, op).value), path + [k]))
  {
    hide Get, Put, Change, Perform;
    ChangeIsPut(root, path, op);
    assert (path + [k])[..|path|] == path;
    assert [Blank, header][1..] == [header] && [header][1..] == [];
    assert Read([header], State(root, current)) == Step(State(root, current), header);
  }

  /** A header that opens an empty table, followed by the table's lines. */
  lemma {:induction false} SectionReads(header: Line, dict: Dict, root: Tree, path: seq<Key>, k: Key, open: Tree,
                                        current: seq<Key>)
    requires WellFormed(dict.entries) && Get(root, path).Some?
    requires Child(open, k) == Some(map[])
    requires Read([Blank, header], State(root, current)) == Some(State(Put(root, path, open), path + [k]))
    ensures Reads([Blank, header] + TableLines(dict.entries, path + [k]), root, current,
                  Put(root, path, WithChild(open, k, Fill(map[], dict.entries))))
    decreases dict, 4
  {
    var root' := Put(root, path, open);
    var tree := Fill(map[], dict.entries);
    PutLaws(root, path, open, WithChild(open, k, tree));
    ChildPath(root', path, k, tree);
    TableReads(dict.entries, root', path + [k]);
    ReadAppend([Blank, header], TableLines(dict.entries, path + [k]), State(root, current));
  }

  // ---- Main results ----

  /** Reading what the printer wrote gives the document back, at any depth. */
  lemma RoundTrip(d: Dict)
    requires WellFormed(d.entries)
    ensures ReadToml(TableLines(d.entries, [])) == Some(TreeOf(d))
  {
    TableReads(d.entries, map[], []);
  }

  /** Two documents print to the same lines only if they are the same map. */
  lemma PrintingIsInjective(a: Dict, b: Dict)
    requires WellFormed(a.entries) && WellFormed(b.entries)
    requires TableLines(a.entries, []) == TableLines(b.entries, [])
    ensures TreeOf(a) == TreeOf(b)
  {
    RoundTrip(a);
    RoundTrip(b);
  }
}
