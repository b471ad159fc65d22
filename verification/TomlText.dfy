/** The text of a printed document: its lines joined by newlines, split and read again line by line. */
module TomlText {
  import opened Wrappers
  import opened TomlNumber
  import opened TomlPrinter
  import opened TomlScalar
  import opened TomlReader

  // ---- The printer ----

  function Dotted(path: seq<Key>): string {
    if path == [] then "" else if |path| == 1 then path[0] else path[0] + "." + Dotted(path[1..])
  }

  function LineText(line: Line): string {
    match line
    case Blank => ""
    case KeyValue(key, value) => key + " = " + Print(value)
    case Header(path) => "[" + Dotted(path) + "]"
    case ItemHeader(path) => "[[" + Dotted(path) + "]]"
  }

  /** The lines joined by newlines. */
  function Joined(lines: seq<Line>): string {
    if lines == [] then "" else if |lines| == 1 then LineText(lines[0])
    else LineText(lines[0]) + "\n" + Joined(lines[1..])
  }

  function TextOf(lines: seq<Line>): string {
    Joined(lines) + "\n"
  }

  method DumpTomlText(document: Dict) returns (text: string)
    ensures text == TextOf(TableLines(document.entries, []))
  {
    var lines := DumpToml(document);
    text := Joined(lines) + "\n";
  }

  const SAMPLE := Dict([Entry("on", Leaf(Bool(true))),
                        Entry("t", Table(Dict([Entry("deep", Table(Dict([Entry("k", Leaf(Bool(false)))])))]))),
                        Entry("last", Leaf(Array([]))),
                        Entry("a", Tables([Dict([Entry("k", Leaf(Bool(true)))]), Dict([])]))])

  lemma SampleTable()
    ensures TableLines(SAMPLE.entries[1].node.dict.entries, ["t"])
            == [Blank, Header(["t", "deep"]), KeyValue("k", Bool(false))]
  {
    var deep := [Entry("k", Leaf(Bool(false)))];
    var t := [Entry("deep", Table(Dict(deep)))];
    assert deep[1..] == [] && t[1..] == [];
    assert TableLines(deep, ["t", "deep"]) == [KeyValue("k", Bool(false))];
    assert ["t"] + ["deep"] == ["t", "deep"];
  }

  lemma SampleItems()
    ensures ItemLines(SAMPLE.entries[3].node.items, ["a"])
            == [Blank, ItemHeader(["a"]), KeyValue("k", Bool(true)), Blank, ItemHeader(["a"])]
  {
    var item := [Entry("k", Leaf(Bool(true)))];
    var items := [Dict(item), Dict([])];
    assert item[1..] == [] && items[1..] == [Dict([])] && items[1..][1..] == [];
    assert TableLines(item, ["a"]) == [KeyValue("k", Bool(true))];
    assert TableLines([], ["a"]) == [];
    assert ItemLines([Dict([])], ["a"]) == [Blank, ItemHeader(["a"])];
  }

  lemma SampleScalars()
    ensures ScalarLines(SAMPLE.entries) == [KeyValue("on", Bool(true)), KeyValue("last", Array([]))]
  {
    var es := SAMPLE.entries;
    assert es[1..][1..] == es[2..] && es[2..][1..] == es[3..] && es[3..][1..] == [];
    assert ScalarLines(es[3..]) == [] && ScalarLines(es[2..]) == [KeyValue("last", Array([]))];
  }

  lemma SampleNested()
    ensures NestedLines(SAMPLE.entries, [])
            == NodeLines(SAMPLE.entries[1].node, ["t"]) + NodeLines(SAMPLE.entries[3].node, ["a"])
  {
    hide TableLines, ItemLines;
    var es := SAMPLE.entries;
    assert es[1..][1..] == es[2..] && es[2..][1..] == es[3..] && es[3..][1..] == [];
    assert [] + ["t"] == ["t"] && [] + ["a"] == ["a"];
    assert NestedLines(es[3..], []) == NodeLines(es[3].node, ["a"]);
    assert NestedLines(es[2..], []) == NestedLines(es[3..], []);
    assert NestedLines(es[1..], []) == NodeLines(es[1].node, ["t"]) + NestedLines(es[2..], []);
  }

  lemma SampleLines()
    ensures TableLines(SAMPLE.entries, []) ==
            [KeyValue("on", Bool(true)), KeyValue("last", Array([])), Blank, Header(["t"]), Blank,
             Header(["t", "deep"]), KeyValue("k", Bool(false)), Blank, ItemHeader(["a"]),
             KeyValue("k", Bool(true)), Blank, ItemHeader(["a"])]
  {
    SampleScalars();
    SampleNested();
    SampleTable();
    SampleItems();
    hide ScalarLines, NestedLines, ItemLines;
  }

  function EachLine(texts: seq<string>): string {
    if texts == [] then "" else texts[0] + "\n" + EachLine(texts[1..])
  }

  function TextsOf(lines: seq<Line>): seq<string> {
    seq(|lines|, i requires 0 <= i < |lines| => LineText(lines[i]))
  }

  /** The text is the lines' texts with a newline after each. */
  lemma {:induction false} NewlineAfterEach(lines: seq<Line>)
    requires lines != []
    ensures TextOf(lines) == EachLine(TextsOf(lines))
  {
    hide LineText;
    var first := LineText(lines[0]);
    assert TextsOf(lines)[1..] == TextsOf(lines[1..]);
    if |lines| > 1 {
      NewlineAfterEach(lines[1..]);
      assert first + "\n" + Joined(lines[1..]) + "\n" == first + "\n" + (Joined(lines[1..]) + "\n");
    } else {
      assert EachLine(TextsOf(lines[1..])) == "";
    }
  }

  /** What the text of a document looks like. */
  lemma SampleText()
    ensures TextOf(TableLines(SAMPLE.entries, []))
            == EachLine(["on = true", "last = []", "", "[t]", "", "[t.deep]", "k = false", "", "[[a]]", "k = true", "",
                         "[[a]]"])
  {
    SampleLines();
    var lines := TableLines(SAMPLE.entries, []);
    hide TableLines, EachLine;
    NewlineAfterEach(lines);
    LineTexts();
    KeyValueTexts();
    hide LineText, TextOf;
    assert TextsOf(lines)
           == ["on = true", "last = []", "", "[t]", "", "[t.deep]", "k = false", "", "[[a]]", "k = true", "", "[[a]]"];
  }

  lemma LineTexts()
    ensures LineText(Blank) == "" && LineText(Header(["t"])) == "[t]" && LineText(Header(["t", "deep"])) == "[t.deep]"
    ensures LineText(ItemHeader(["a"])) == "[[a]]"
  {
    assert ["t", "deep"][1..] == ["deep"];
    assert Dotted(["deep"]) == "deep" && Dotted(["t", "deep"]) == "t.deep";
    hide Dotted;
  }

  lemma KeyValueTexts()
    ensures LineText(KeyValue("on", Bool(true))) == "on = true" && LineText(KeyValue("last", Array([]))) == "last = []"
    ensures LineText(KeyValue("k", Bool(true))) == "k = true" && LineText(KeyValue("k", Bool(false))) == "k = false"
  {
    assert Print(Array([])) == "[]" && Print(Bool(true)) == "true" && Print(Bool(false)) == "false";
    hide Print;
    assert "on" + " = " + "true" == "on = true" && "k" + " = " + "true" == "k = true";
    assert "k" + " = " + "false" == "k = false" && "last" + " = " + "[]" == "last = []";
  }

  // ---- The reader ----

  predicate IsBare(c: char) {
    'a' <= c <= 'z' || 'A' <= c <= 'Z' || '0' <= c <= '9' || c == '_' || c == '-'
  }

  predicate AllBare(s: string) {
    forall i :: 0 <= i < |s| ==> IsBare(s[i])
  }

  /** The bare-key characters a text starts with. */
  function BarePrefix(text: string): (r: string)
    ensures |r| <= |text|
  {
    if text == [] || !IsBare(text[0]) then [] else [text[0]] + BarePrefix(text[1..])
  }

  /** Bare keys separated by points. */
  function ReadPath(text: string): (r: Option<Got<seq<Key>>>)
    ensures r.Some? ==> |r.value.rest| < |text|
    decreases |text|
  {
    var key := BarePrefix(text);
    if key == [] then None else
      var rest := text[|key|..];
      if rest == [] || rest[0] != '.' then Some(Got([key], rest)) else
        var more := ReadPath(rest[1..]);
        if more.None? then None else Some(Got([key] + more.value.value, more.value.rest))
  }

  predicate IsBlank(text: string) {
    forall i :: 0 <= i < |text| ==> text[i] == ' ' || text[i] == '\t'
  }

  function SkipBlanks(text: string): string {
    if text != [] && (text[0] == ' ' || text[0] == '\t') then SkipBlanks(text[1..]) else text
  }

  function ReadKeyValue(text: string): Option<Line> {
    var key := BarePrefix(text);
    var rest := SkipBlanks(text[|key|..]);
    if key == [] || rest == [] || rest[0] != '=' then None else
      var value := ReadValue(SkipBlanks(rest[1..]));
      if value.None? || !IsBlank(value.value.rest) then None else Some(KeyValue(key, value.value.value))
  }

  /** One line without comments: blank, a header, an item header or a key with its value. */
  function ReadLine(text: string): Option<Line> {
    if IsBlank(text) then Some(Blank)
    else if "[[" <= text then
      var path := ReadPath(text[2..]);
      if path.Some? && path.value.rest == "]]" then Some(ItemHeader(path.value.value)) else None
    else if "[" <= text then
      var path := ReadPath(text[1..]);
      if path.Some? && path.value.rest == "]" then Some(Header(path.value.value)) else None
    else ReadKeyValue(text)
  }

  function FirstLine(text: string): (r: string)
    ensures |r| <= |text|
  {
    if text == [] || text[0] == '\n' then [] else [text[0]] + FirstLine(text[1..])
  }

  /** The pieces between newlines. */
  function SplitLines(text: string): seq<string>
    decreases |text|
  {
    var first := FirstLine(text);
    if |first| == |text| then [first] else [first] + SplitLines(text[|first| + 1..])
  }

  function ReadLines(pieces: seq<string>): Option<seq<Line>> {
    if pieces == [] then Some([]) else
      var first, more := ReadLine(pieces[0]), ReadLines(pieces[1..]);
      if first.None? || more.None? then None else Some([first.value] + more.value)
  }

  function ReadText(text: string): Option<Tree> {
    var lines := ReadLines(SplitLines(text));
    if lines.None? then None else ReadToml(lines.value)
  }

  // ---- One line ----

  predicate BareKey(k: Key) {
    k != [] && AllBare(k)
  }

  predicate BarePath(path: seq<Key>) {
    path != [] && forall i :: 0 <= i < |path| ==> BareKey(path[i])
  }

  predicate BareLine(line: Line) {
    match line
    case Blank => true
    case KeyValue(key, _) => BareKey(key)
    case Header(path) => BarePath(path)
    case ItemHeader(path) => BarePath(path)
  }

  predicate CleanLine(line: Line) {
    line.KeyValue? ==> Clean(line.value)
  }

  lemma {:induction false} BarePrefixOf(key: string, rest: string)
    requires AllBare(key) && (rest == [] || !IsBare(rest[0]))
    ensures BarePrefix(key + rest) == key
  {
    if key == [] {
      assert key + rest == rest;
    } else {
      assert (key + rest)[1..] == key[1..] + rest;
      BarePrefixOf(key[1..], rest);
    }
  }

  lemma ReadPathStep(key: Key, rest: string)
    requires BareKey(key) && rest != [] && !IsBare(rest[0])
    ensures ReadPath(key + rest) ==
            if rest[0] != '.' then Some(Got([key], rest)) else
              var more := ReadPath(rest[1..]);
              if more.None? then None else Some(Got([key] + more.value.value, more.value.rest))
  {
    BarePrefixOf(key, rest);
    assert (key + rest)[|key|..] == rest;
  }

  lemma {:induction false} PathReads(path: seq<Key>, rest: string)
    requires BarePath(path) && rest != [] && !IsBare(rest[0]) && rest[0] != '.'
    ensures ReadPath(Dotted(path) + rest) == Some(Got(path, rest))
  {
    hide BareKey, ReadPath;
    if |path| == 1 {
      ReadPathStep(path[0], rest);
      assert path == [path[0]];
    } else {
      var tail := "." + (Dotted(path[1..]) + rest);
      PathReads(path[1..], rest);
      Regroup(path[0] + ".", Dotted(path[1..]), rest);
      Regroup(path[0], ".", Dotted(path[1..]) + rest);
      ReadPathStep(path[0], tail);
      assert tail[1..] == Dotted(path[1..]) + rest;
      assert path == [path[0]] + path[1..];
    }
  }

  lemma DottedStart(path: seq<Key>)
    requires BarePath(path)
    ensures Dotted(path) != [] && IsBare(Dotted(path)[0])
  {
    assert BareKey(path[0]);
  }

  lemma HeaderLineReads(path: seq<Key>)
    requires BarePath(path)
    ensures ReadLine(LineText(Header(path))) == Some(Header(path))
  {
    hide ReadPath, BarePath, Dotted;
    DottedStart(path);
    PathReads(path, "]");
    var text := LineText(Header(path));
    assert text[0] == '[' && text[1] == Dotted(path)[0] && text[1..] == Dotted(path) + "]";
    assert "[["[1] == '[';
  }

  lemma ItemHeaderLineReads(path: seq<Key>)
    requires BarePath(path)
    ensures ReadLine(LineText(ItemHeader(path))) == Some(ItemHeader(path))
  {
    hide ReadPath, BarePath, Dotted;
    PathReads(path, "]]");
    var text := LineText(ItemHeader(path));
    assert text[0] == '[' && text[1] == '[' && text[..2] == "[[" && text[2..] == Dotted(path) + "]]";
  }

  lemma PrintStart(v: Scalar)
    ensures Print(v) != [] && SkipBlanks(Print(v)) == Print(v)
  {
    hide Print;
    FirstChar(v);
  }

  lemma KeyValueReads(key: Key, v: Scalar)
    requires BareKey(key)
    ensures ReadLine(LineText(KeyValue(key, v))) == if Clean(v) then Some(KeyValue(key, v)) else None
  {
    hide Print, ReadValue, Clean, BarePrefix;
    var text := LineText(KeyValue(key, v));
    var rest := " = " + Print(v);
    assert text == key + rest;
    BarePrefixOf(key, rest);
    assert text[|key|..] == rest;
    assert rest[1..] == "= " + Print(v);
    assert SkipBlanks(rest) == rest[1..];
    assert rest[1..][1..] == " " + Print(v) && (" " + Print(v))[1..] == Print(v);
    PrintStart(v);
    ScalarRoundTrip(v);
    assert text[0] == key[0] && IsBare(text[0]) && !IsBlank(text);
    assert "["[0] == '[' && "[["[0] == '[';
  }

  lemma LineReads(line: Line)
    requires BareLine(line)
    ensures ReadLine(LineText(line)) == if CleanLine(line) then Some(line) else None
  {
    hide ReadLine, LineText, Clean, BareKey, BarePath;
    match line {
      case Blank => BlankReads();
      case KeyValue(key, value) => KeyValueReads(key, value);
      case Header(path) => HeaderLineReads(path);
      case ItemHeader(path) => ItemHeaderLineReads(path);
    }
  }

  lemma BlankReads()
    ensures ReadLine(LineText(Blank)) == Some(Blank) && LineText(Blank) == ""
  {
  }

  // ---- No line contains a newline ----

  predicate OneLine(s: string) {
    forall i :: 0 <= i < |s| ==> s[i] != '\n'
  }

  lemma OneLineJoin(a: string, b: string)
    ensures OneLine(a + b) <==> OneLine(a) && OneLine(b)
  {
    if OneLine(a + b) {
      forall i | 0 <= i < |a|
        ensures a[i] != '\n'
      {
        assert (a + b)[i] == a[i];
      }
      forall i | 0 <= i < |b|
        ensures b[i] != '\n'
      {
        assert (a + b)[|a| + i] == b[i];
      }
    }
  }

  lemma EscapeIsOneLine(c: char)
    ensures OneLine(Escape(c))
  {
  }

  lemma {:induction false} EscapeAllIsOneLine(s: string)
    ensures OneLine(EscapeAll(s))
  {
    hide Escape, OneLine;
    if s == [] {
      NothingIsOneLine();
    } else {
      EscapeIsOneLine(s[0]);
      EscapeAllIsOneLine(s[1..]);
      OneLineJoin(Escape(s[0]), EscapeAll(s[1..]));
    }
  }

  lemma NothingIsOneLine()
    ensures OneLine("")
  {
  }

  lemma {:induction false} DecimalIsOneLine(n: nat)
    ensures OneLine(Decimal(n))
  {
    if n >= 10 {
      DecimalIsOneLine(n / 10);
    }
  }

  lemma {:induction false} DigitsAreOneLine(digits: seq<DigitValue>)
    ensures OneLine(DigitsText(digits))
  {
    if digits != [] {
      DigitsAreOneLine(digits[1..]);
    }
  }

  lemma ExponentIsOneLine(exponent: Option<int>)
    ensures OneLine(ExponentText(exponent))
  {
    hide Decimal;
    if exponent.Some? {
      DecimalIsOneLine(if exponent.value < 0 then -exponent.value else exponent.value);
    }
  }

  lemma UnsignedIsOneLine(number: Number)
    ensures OneLine(UnsignedText(number))
  {
    hide Decimal, ExponentText, DigitsText;
    match number {
      case IntegerNumber(n) => DecimalIsOneLine(if n < 0 then -n else n);
      case FloatNumber(Fixed(_, whole, first, more, exponent)) =>
        DecimalIsOneLine(whole);
        DigitsAreOneLine([first] + more);
        ExponentIsOneLine(exponent);
      case FloatNumber(Whole(_, whole, power)) =>
        DecimalIsOneLine(whole);
        ExponentIsOneLine(Some(power));
      case _ =>
    }
  }

  lemma {:induction false} PrintIsOneLine(v: Scalar)
    ensures OneLine(Print(v))
    decreases v, 1
  {
    hide EscapeAll, UnsignedText, Join;
    match v {
      case Bool(_) =>
      case Numeric(number) => UnsignedIsOneLine(number);
      case Text(s) => EscapeAllIsOneLine(s);
      case Array(items) => JoinIsOneLine(items);
    }
  }

  lemma {:induction false} JoinIsOneLine(items: seq<Scalar>)
    ensures OneLine(Join(items))
    decreases items, 0
  {
    hide Print;
    if items != [] {
      PrintIsOneLine(items[0]);
      JoinIsOneLine(items[1..]);
    }
  }

  lemma {:induction false} DottedIsOneLine(path: seq<Key>)
    requires forall i :: 0 <= i < |path| ==> BareKey(path[i])
    ensures OneLine(Dotted(path))
  {
    if path != [] {
      assert BareKey(path[0]);
      DottedIsOneLine(path[1..]);
    }
  }

  lemma LineTextIsOneLine(line: Line)
    requires BareLine(line)
    ensures OneLine(LineText(line))
  {
    hide Print, Dotted;
    match line {
      case Blank =>
      case KeyValue(_, value) => PrintIsOneLine(value);
      case Header(path) => DottedIsOneLine(path);
      case ItemHeader(path) => DottedIsOneLine(path);
    }
  }

  // ---- All lines ----

  lemma {:induction false} FirstLineOf(a: string, b: string)
    requires OneLine(a)
    ensures FirstLine(a + "\n" + b) == a && FirstLine(a) == a
  {
    if a == [] {
      assert a + "\n" + b == "\n" + b;
    } else {
      assert (a + "\n" + b)[1..] == a[1..] + "\n" + b;
      FirstLineOf(a[1..], b);
    }
  }

  lemma SplitFirst(a: string, b: string)
    requires OneLine(a)
    ensures SplitLines(a + "\n" + b) == [a] + SplitLines(b)
    ensures SplitLines(a) == [a]
  {
    FirstLineOf(a, b);
    assert (a + "\n" + b)[|a| + 1..] == b;
  }

  function Texts(lines: seq<Line>): seq<string> {
    if lines == [] then [] else [LineText(lines[0])] + Texts(lines[1..])
  }

  predicate AllBareLines(lines: seq<Line>) {
    forall i :: 0 <= i < |lines| ==> BareLine(lines[i])
  }

  predicate AllCleanLines(lines: seq<Line>) {
    forall i :: 0 <= i < |lines| ==> CleanLine(lines[i])
  }

  /** The text of some lines splits into their texts and an empty piece after the last newline. */
  lemma {:induction false} TextSplits(lines: seq<Line>)
    requires lines != [] && AllBareLines(lines)
    ensures SplitLines(TextOf(lines)) == Texts(lines) + [""]
  {
    hide LineText, BareLine, OneLine;
    NothingIsOneLine();
    SplitFirst("", "");
    LineTextIsOneLine(lines[0]);
    if |lines| == 1 {
      SplitFirst(LineText(lines[0]), "");
      assert TextOf(lines) == LineText(lines[0]) + "\n" + "";
      assert Texts(lines[1..]) == [];
    } else {
      TextSplits(lines[1..]);
      SplitFirst(LineText(lines[0]), TextOf(lines[1..]));
      assert TextOf(lines) == LineText(lines[0]) + "\n" + TextOf(lines[1..]);
      assert [LineText(lines[0])] + (Texts(lines[1..]) + [""]) == Texts(lines) + [""];
    }
  }

  lemma LastPieceReads()
    ensures ReadLines([""]) == Some([Blank]) && ReadLines(["", ""]) == Some([Blank, Blank])
  {
    BlankReads();
    hide ReadLine;
    assert [""][1..] == [] && ["", ""][1..] == [""];
    assert [Blank] + [] == [Blank] && [Blank] + [Blank] == [Blank, Blank];
    assert ReadLines([""]) == Some([Blank]);
  }

  lemma {:induction false} TextsRead(lines: seq<Line>)
    requires AllBareLines(lines)
    ensures ReadLines(Texts(lines) + [""]) == if AllCleanLines(lines) then Some(lines + [Blank]) else None
  {
    hide LineText, BareLine, ReadLine, CleanLine;
    LastPieceReads();
    if lines == [] {
      assert Texts(lines) + [""] == [""];
      assert lines + [Blank] == [Blank];
    } else {
      LineReads(lines[0]);
      TextsRead(lines[1..]);
      assert (Texts(lines) + [""])[1..] == Texts(lines[1..]) + [""];
      assert lines == [lines[0]] + lines[1..];
      CleanLinesParts(lines);
      assert [lines[0]] + (lines[1..] + [Blank]) == lines + [Blank];
    }
  }

  lemma CleanLinesParts(lines: seq<Line>)
    requires lines != []
    ensures AllCleanLines(lines) <==> CleanLine(lines[0]) && AllCleanLines(lines[1..])
  {
    if CleanLine(lines[0]) && AllCleanLines(lines[1..]) {
      forall i | 0 <= i < |lines|
        ensures CleanLine(lines[i])
      {
        if i > 0 {
          assert lines[i] == lines[1..][i - 1];
        }
      }
    }
  }

  lemma BlanksDoNothing(lines: seq<Line>)
    ensures ReadToml(lines + [Blank]) == ReadToml(lines)
  {
    var start := State(map[], []);
    ReadAppend(lines, [Blank], start);
    OneBlank(if Read(lines, start).Some? then Read(lines, start).value else start);
  }

  lemma OneBlank(s: State)
    ensures Read([Blank], s) == Some(s)
  {
    assert [Blank][1..] == [];
  }

  /** Reading the text of lines is reading the lines, unless one of them holds U+007F. */
  lemma LinesReadBack(lines: seq<Line>)
    requires AllBareLines(lines)
    ensures ReadText(TextOf(lines)) == if AllCleanLines(lines) then ReadToml(lines) else None
  {
    hide AllBareLines, AllCleanLines, ReadToml;
    if lines == [] {
      EmptyTextReads();
    } else {
      TextSplits(lines);
      TextsRead(lines);
      BlanksDoNothing(lines);
    }
  }

  lemma EmptyTextReads()
    ensures AllCleanLines([]) && ReadText(TextOf([])) == ReadToml([])
  {
    NothingIsOneLine();
    SplitFirst("", "");
    assert TextOf([]) == "" + "\n" + "";
    LastPieceReads();
    hide ReadLine, ReadToml, ReadLines;
    assert SplitLines(TextOf([])) == ["", ""];
    BlanksDoNothing([]);
    BlanksDoNothing([Blank]);
    assert [] + [Blank] == [Blank] && [Blank] + [Blank] == [Blank, Blank];
  }

  // ---- The whole document ----

  predicate BareEntries(es: seq<Entry>)
    decreases es
  {
    forall i :: 0 <= i < |es| ==> BareKey(es[i].key) && BareNode(es[i].node)
  }

  predicate BareNode(n: Node)
    decreases n
  {
    match n
    case Leaf(_) => true
    case Table(dict) => BareEntries(dict.entries)
    case Tables(items) => forall i :: 0 <= i < |items| ==> BareEntries(items[i].entries)
  }

  /** No string anywhere in the document holds U+007F. */
  predicate CleanEntries(es: seq<Entry>)
    decreases es
  {
    forall i :: 0 <= i < |es| ==> CleanNode(es[i].node)
  }

  predicate CleanNode(n: Node)
    decreases n
  {
    match n
    case Leaf(v) => Clean(v)
    case Table(dict) => CleanEntries(dict.entries)
    case Tables(items) => forall i :: 0 <= i < |items| ==> CleanEntries(items[i].entries)
  }

  predicate BareAll(path: seq<Key>) {
    forall i :: 0 <= i < |path| ==> BareKey(path[i])
  }

  lemma CleanJoin(a: seq<Line>, b: seq<Line>)
    ensures AllCleanLines(a + b) <==> AllCleanLines(a) && AllCleanLines(b)
    ensures AllBareLines(a + b) <==> AllBareLines(a) && AllBareLines(b)
  {
    hide CleanLine, BareLine;
    forall i | 0 <= i < |a|
      ensures (a + b)[i] == a[i]
    {
    }
    forall i | 0 <= i < |b|
      ensures (a + b)[|a| + i] == b[i]
    {
    }
  }

  lemma OneCleanLine(line: Line)
    ensures AllCleanLines([line]) <==> CleanLine(line)
    ensures AllBareLines([line]) <==> BareLine(line)
  {
    hide CleanLine, BareLine;
    assert [line][0] == line;
  }

  lemma NoLines()
    ensures AllCleanLines([]) && AllBareLines([])
  {
  }

  lemma BareAllGrows(prefix: seq<Key>, k: Key)
    requires BareAll(prefix) && BareKey(k)
    ensures BareAll(prefix + [k]) && BarePath(prefix + [k])
  {
    hide BareKey;
  }

  lemma SectionLines(header: Line, lines: seq<Line>)
    requires !header.KeyValue?
    ensures AllCleanLines([Blank, header] + lines) <==> AllCleanLines(lines)
    ensures AllBareLines([Blank, header] + lines) <==> BareLine(header) && AllBareLines(lines)
  {
    CleanJoin([Blank, header], lines);
    CleanJoin([Blank], [header]);
    assert [Blank] + [header] == [Blank, header];
    OneCleanLine(Blank);
    OneCleanLine(header);
  }

  lemma CleanEntriesParts(es: seq<Entry>)
    requires es != []
    ensures CleanEntries(es) <==> CleanNode(es[0].node) && CleanEntries(es[1..])
    ensures BareEntries(es) <==> BareKey(es[0].key) && BareNode(es[0].node) && BareEntries(es[1..])
  {
    hide CleanNode, BareNode, BareKey;
    assert forall i :: 0 < i < |es| ==> es[i] == es[1..][i - 1];
    assert forall i :: 0 <= i < |es[1..]| ==> es[1..][i] == es[i + 1];
  }

  /** The scalars of the entries themselves, without those of their tables. */
  predicate CleanLeaves(es: seq<Entry>) {
    forall i :: 0 <= i < |es| && es[i].node.Leaf? ==> Clean(es[i].node.value)
  }

  predicate CleanTables(es: seq<Entry>) {
    forall i :: 0 <= i < |es| && !es[i].node.Leaf? ==> CleanNode(es[i].node)
  }

  lemma LeavesAndTables(es: seq<Entry>)
    ensures CleanEntries(es) <==> CleanLeaves(es) && CleanTables(es)
  {
    hide Clean;
    assert forall i :: 0 <= i < |es| && es[i].node.Leaf? ==> (CleanNode(es[i].node) <==> Clean(es[i].node.value));
  }

  lemma LeavesAndTablesParts(es: seq<Entry>)
    requires es != []
    ensures CleanLeaves(es) <==> (es[0].node.Leaf? ==> Clean(es[0].node.value)) && CleanLeaves(es[1..])
    ensures CleanTables(es) <==> (!es[0].node.Leaf? ==> CleanNode(es[0].node)) && CleanTables(es[1..])
  {
    hide CleanNode, Clean;
    assert forall i :: 0 < i < |es| ==> es[i] == es[1..][i - 1];
    assert forall i :: 0 <= i < |es[1..]| ==> es[1..][i] == es[i + 1];
  }

  lemma {:induction false} ScalarLinesAre(es: seq<Entry>)
    requires BareEntries(es)
    ensures AllBareLines(ScalarLines(es)) && (AllCleanLines(ScalarLines(es)) <==> CleanLeaves(es))
  {
    hide CleanEntries, BareEntries, AllBareLines, AllCleanLines, BareKey;
    if es == [] {
      NoLines();
    } else {
      CleanEntriesParts(es);
      LeavesAndTablesParts(es);
      hide CleanLeaves;
      ScalarLinesAre(es[1..]);
      if es[0].node.Leaf? {
        var line := KeyValue(es[0].key, es[0].node.value);
        OneCleanLine(line);
        CleanJoin([line], ScalarLines(es[1..]));
      } else {
        assert ScalarLines(es) == ScalarLines(es[1..]);
      }
    }
  }

  lemma {:induction false} TableLinesAre(es: seq<Entry>, prefix: seq<Key>)
    requires BareEntries(es) && BareAll(prefix)
    ensures AllBareLines(TableLines(es, prefix)) && (AllCleanLines(TableLines(es, prefix)) <==> CleanEntries(es))
    decreases es, 1
  {
    hide CleanEntries, BareEntries, AllBareLines, AllCleanLines, CleanLeaves, CleanTables;
    ScalarLinesAre(es);
    NestedLinesAre(es, prefix);
    CleanJoin(ScalarLines(es), NestedLines(es, prefix));
    LeavesAndTables(es);
  }

  lemma {:induction false} NestedLinesAre(es: seq<Entry>, prefix: seq<Key>)
    requires BareEntries(es) && BareAll(prefix)
    ensures AllBareLines(NestedLines(es, prefix)) && (AllCleanLines(NestedLines(es, prefix)) <==> CleanTables(es))
    decreases es, 0
  {
    hide CleanEntries, BareEntries, AllBareLines, AllCleanLines, BareAll, BareKey, BareNode, CleanNode;
    if es == [] {
      NoLines();
    } else {
      CleanEntriesParts(es);
      LeavesAndTablesParts(es);
      hide CleanTables;
      var path := prefix + [es[0].key];
      BareAllGrows(prefix, es[0].key);
      NodeLinesAre(es[0].node, path);
      NestedLinesAre(es[1..], prefix);
      CleanJoin(NodeLines(es[0].node, path), NestedLines(es[1..], prefix));
    }
  }

  lemma {:induction false} NodeLinesAre(n: Node, path: seq<Key>)
    requires BareNode(n) && BareAll(path) && BarePath(path)
    ensures AllBareLines(NodeLines(n, path)) && (AllCleanLines(NodeLines(n, path)) <==> (!n.Leaf? ==> CleanNode(n)))
    decreases n, 2
  {
    hide CleanEntries, BareEntries, AllBareLines, AllCleanLines, BareAll, BarePath;
    match n {
      case Leaf(_) => NoLines();
      case Table(dict) =>
        TableLinesAre(dict.entries, path);
        SectionLines(Header(path), TableLines(dict.entries, path));
      case Tables(items) => ItemLinesAre(items, path);
    }
  }

  predicate CleanItems(items: seq<Dict>) {
    forall i :: 0 <= i < |items| ==> CleanEntries(items[i].entries)
  }

  lemma CleanItemsParts(items: seq<Dict>)
    requires items != []
    ensures CleanItems(items) <==> CleanEntries(items[0].entries) && CleanItems(items[1..])
  {
    hide CleanEntries;
    assert forall i :: 0 < i < |items| ==> items[i] == items[1..][i - 1];
    assert forall i :: 0 <= i < |items[1..]| ==> items[1..][i] == items[i + 1];
  }

  lemma {:induction false} ItemLinesAre(items: seq<Dict>, path: seq<Key>)
    requires (forall i :: 0 <= i < |items| ==> BareEntries(items[i].entries)) && BareAll(path) && BarePath(path)
    ensures AllBareLines(ItemLines(items, path)) && (AllCleanLines(ItemLines(items, path)) <==> CleanItems(items))
    decreases items, 0
  {
    hide CleanEntries, BareEntries, AllBareLines, AllCleanLines, BareAll, BarePath;
    if items == [] {
      NoLines();
    } else {
      CleanItemsParts(items);
      hide CleanItems;
      var lines := TableLines(items[0].entries, path);
      TableLinesAre(items[0].entries, path);
      ItemLinesAre(items[1..], path);
      SectionLines(ItemHeader(path), lines);
      CleanJoin([Blank, ItemHeader(path)] + lines, ItemLines(items[1..], path));
    }
  }

  // ---- Main result ----

  /** The printed text, split at its newlines and read line by line, gives the document back exactly when
      no string in it holds U+007F; otherwise the text is no TOML document. */
  lemma TextRoundTrip(d: Dict)
    requires WellFormed(d.entries) && BareEntries(d.entries)
    ensures ReadText(TextOf(TableLines(d.entries, []))) == if CleanEntries(d.entries) then Some(TreeOf(d)) else None
  {
    hide WellFormed, BareEntries, CleanEntries, ReadText, ReadToml;
    TableLinesAre(d.entries, []);
    LinesReadBack(TableLines(d.entries, []));
    RoundTrip(d);
  }
}
