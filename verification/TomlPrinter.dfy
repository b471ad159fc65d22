/** The settings compiler's TOML printer, line by line: a table's own values first, then its
    subtables and arrays of tables under their headers. */
module TomlPrinter {
  import opened TomlNumber

  type Key = string

  datatype Scalar = Bool(flag: bool) | Numeric(number: Number) | Text(s: string) | Array(items: seq<Scalar>)

  /** `Tables` is a non-empty list of dictionaries; an empty list is the scalar `Array([])`. */
  datatype Node = Leaf(value: Scalar) | Table(dict: Dict) | Tables(items: seq<Dict>)

  /** A Python dictionary, in its insertion order. */
  datatype Dict = Dict(entries: seq<Entry>)

  datatype Entry = Entry(key: Key, node: Node)

  datatype Line = Blank | KeyValue(key: Key, value: Scalar) | Header(path: seq<Key>) | ItemHeader(path: seq<Key>)

  predicate DistinctKeys(es: seq<Entry>) {
    forall i, j :: 0 <= i < j < |es| ==> es[i].key != es[j].key
  }

  /** What a Python dictionary with the printer's value shapes always satisfies. */
  predicate WellFormed(es: seq<Entry>)
    decreases es
  {
    DistinctKeys(es) && forall i :: 0 <= i < |es| ==> WellFormedNode(es[i].node)
  }

  predicate WellFormedNode(n: Node)
    decreases n
  {
    match n
    case Leaf(_) => true
    case Table(dict) => WellFormed(dict.entries)
    case Tables(items) => items != [] && forall i :: 0 <= i < |items| ==> WellFormed(items[i].entries)
  }

  // ---- The lines of a document ----

  function ScalarLines(es: seq<Entry>): seq<Line> {
    if es == [] then [] else
      (if es[0].node.Leaf? then [KeyValue(es[0].key, es[0].node.value)] else []) + ScalarLines(es[1..])
  }

  function TableLines(es: seq<Entry>, prefix: seq<Key>): seq<Line>
    decreases es, 1
  {
    ScalarLines(es) + NestedLines(es, prefix)
  }

  function NestedLines(es: seq<Entry>, prefix: seq<Key>): seq<Line>
    decreases es, 0
  {
    if es == [] then [] else NodeLines(es[0].node, prefix + [es[0].key]) + NestedLines(es[1..], prefix)
  }

  function NodeLines(n: Node, path: seq<Key>): seq<Line>
    decreases n, 2
  {
    match n
    case Leaf(_) => []
    case Table(dict) => [Blank, Header(path)] + TableLines(dict.entries, path)
    case Tables(items) => ItemLines(items, path)
  }

  function ItemLines(items: seq<Dict>, path: seq<Key>): seq<Line>
    decreases items, 0
  {
    if items == [] then [] else
      [Blank, ItemHeader(path)] + TableLines(items[0].entries, path) + ItemLines(items[1..], path)
  }

  // ---- The printer as the source writes it ----

  class TomlWriter {
    var lines: seq<Line>

    constructor ()
      ensures lines == []
    {
      lines := [];
    }

    method Table(values: seq<Entry>, prefix: seq<Key>)
      modifies this
      ensures lines == old(lines) + TableLines(values, prefix)
      decreases values, 1
    {
      for i := 0 to |values|
        invariant lines + ScalarLines(values[i..]) == old(lines) + ScalarLines(values)
      {
        assert values[i..][1..] == values[i + 1..];
        if values[i].node.Leaf? {
          lines := lines + [KeyValue(values[i].key, values[i].node.value)];
        }
      }
      assert lines == old(lines) + ScalarLines(values);
      ghost var goal := old(lines) + ScalarLines(values) + NestedLines(values, prefix);
      for i := 0 to |values|
        invariant lines + NestedLines(values[i..], prefix) == goal
      {
        var name := prefix + [values[i].key];
        assert values[i..][1..] == values[i + 1..];
        Nested(values[i].node, name);
      }
      assert lines == goal;
    }

    method Nested(n: Node, name: seq<Key>)
      modifies this
      ensures lines == old(lines) + NodeLines(n, name)
      decreases n, 2
    {
      match n {
        case Leaf(_) =>
        case Table(dict) =>
          lines := lines + [Blank, Header(name)];
          Table(dict.entries, name);
        case Tables(items) =>
          for i := 0 to |items|
            invariant lines + ItemLines(items[i..], name) == old(lines) + ItemLines(items, name)
          {
            lines := lines + [Blank, ItemHeader(name)];
            assert items[i..][1..] == items[i + 1..];
            Table(items[i].entries, name);
          }
      }
    }
  }

  method DumpToml(document: Dict) returns (lines: seq<Line>)
    ensures lines == TableLines(document.entries, [])
  {
    var writer := new TomlWriter();
    writer.Table(document.entries, []);
    lines := writer.lines;
  }
}
