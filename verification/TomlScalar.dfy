/** The text of a scalar as the settings compiler prints it, and a reader for those values after TOML
    v1.0.0, sections "String", "Integer", "Boolean" and "Array". */
module TomlScalar {
  import opened Wrappers
  import opened TomlNumber
  import opened TomlPrinter

  // ---- The printer ----

  function HexDigit(n: int): char
    requires 0 <= n < 16
  {
    if n < 10 then '0' + n as char else 'a' + (n - 10) as char
  }

  /** JSON's escapes, which leave every other character as it is. */
  function Escape(c: char): string {
    if c == '"' then "\\\"" else if c == '\\' then "\\\\"
    else if c == '\n' then "\\n" else if c == '\r' then "\\r" else if c == '\t' then "\\t"
    else if c as int == 8 then "\\b" else if c as int == 12 then "\\f"
    else if c as int < 32 then "\\u00" + [HexDigit(c as int / 16), HexDigit(c as int % 16)]
    else [c]
  }

  function EscapeAll(s: string): string {
    if s == [] then [] else Escape(s[0]) + EscapeAll(s[1..])
  }

  function Print(v: Scalar): string
    decreases v, 1
  {
    match v
    case Bool(flag) => if flag then "true" else "false"
    case Numeric(number) => PrintNumber(number)
    case Text(s) => "\"" + EscapeAll(s) + "\""
    case Array(items) => "[" + Join(items) + "]"
  }

  function Join(items: seq<Scalar>): string
    decreases items, 0
  {
    if items == [] then ""
    else if |items| == 1 then Print(items[0])
    else Print(items[0]) + ", " + Join(items[1..])
  }

  /** Only quotes, backslashes and control characters are escaped. */
  lemma EscapeTexts(c: char)
    ensures Escape('"') == "\\\"" && Escape('\\') == "\\\\" && Escape('\n') == "\\n" && Escape('\t') == "\\t"
    ensures Escape(1 as char) == "\\u0001" && Escape(31 as char) == "\\u001f"
    ensures c as int >= 32 && c != '"' && c != '\\' ==> Escape(c) == [c]
  {
  }

  lemma ListTexts()
    ensures Print(Bool(true)) == "true" && Print(Bool(false)) == "false" && Print(Text("")) == "\"\""
    ensures Print(Array([Bool(true), Bool(false)])) == "[true, false]" && Print(Array([])) == "[]"
  {
    var items := [Bool(true), Bool(false)];
    assert items[1..] == [Bool(false)];
    assert Join([Bool(false)]) == "false";
    assert Join(items) == "true, false";
  }

  // ---- The reader ----

  /** Control characters other than tab, U+007F included, must not appear in a basic string. */
  predicate Forbidden(c: char) {
    (c as int < 32 && c != '\t') || c as int == 0x7F
  }

  function HexValue(c: char): Option<int> {
    if '0' <= c <= '9' then Some(c as int - '0' as int)
    else if 'a' <= c <= 'f' then Some(c as int - 'a' as int + 10)
    else if 'A' <= c <= 'F' then Some(c as int - 'A' as int + 10)
    else None
  }

  function HexNumber(digits: string): Option<nat> {
    if digits == [] then Some(0) else
      var init, last := HexNumber(digits[..|digits| - 1]), HexValue(digits[|digits| - 1]);
      if init.None? || last.None? then None else Some(init.value * 16 + last.value)
  }

  predicate IsScalarValue(n: int) {
    0 <= n < 0xD800 || 0xE000 <= n < 0x11_0000
  }

  function CodePoint(text: string, digits: nat): (r: Option<Got<char>>)
    ensures r.Some? ==> |r.value.rest| <= |text|
  {
    if |text| < digits then None else
      var n := HexNumber(text[..digits]);
      if n.None? || !IsScalarValue(n.value) then None else Some(Got(n.value as char, text[digits..]))
  }

  /** What follows a backslash. */
  function ReadEscape(text: string): (r: Option<Got<char>>)
    ensures r.Some? ==> |r.value.rest| < |text|
  {
    if text == [] then None else
      var rest := text[1..];
      match text[0]
      case '"' => Some(Got('"', rest))
      case '\\' => Some(Got('\\', rest))
      case 'n' => Some(Got('\n', rest))
      case 'r' => Some(Got('\r', rest))
      case 't' => Some(Got('\t', rest))
      case 'b' => Some(Got(8 as char, rest))
      case 'f' => Some(Got(12 as char, rest))
      case 'u' => CodePoint(rest, 4)
      case 'U' => CodePoint(rest, 8)
      case _ => None
  }

  function Prepend(c: char, tail: Option<Got<string>>): Option<Got<string>> {
    if tail.None? then None else Some(Got([c] + tail.value.value, tail.value.rest))
  }

  /** The characters of a basic string up to its closing quote. */
  function ReadChars(text: string): (r: Option<Got<string>>)
    ensures r.Some? ==> |r.value.rest| < |text|
    decreases |text|
  {
    if text == [] then None
    else if text[0] == '"' then Some(Got("", text[1..]))
    else if text[0] == '\\' then
      var e := ReadEscape(text[1..]);
      if e.None? then None else Prepend(e.value.value, ReadChars(e.value.rest))
    else if Forbidden(text[0]) then None
    else Prepend(text[0], ReadChars(text[1..]))
  }

  predicate IsSpace(c: char) {
    c == ' ' || c == '\t' || c == '\n'
  }

  function SkipSpace(text: string): (r: string)
    ensures |r| <= |text|
  {
    if text != [] && IsSpace(text[0]) then SkipSpace(text[1..]) else text
  }

  function ReadValue(text: string): (r: Option<Got<Scalar>>)
    ensures r.Some? ==> |r.value.rest| < |text|
    decreases |text|, 0
  {
    if text == [] then None
    else if "true" <= text then Some(Got(Bool(true), text[4..]))
    else if "false" <= text then Some(Got(Bool(false), text[5..]))
    else if text[0] == '"' then
      var s := ReadChars(text[1..]);
      if s.None? then None else Some(Got(Text(s.value.value), s.value.rest))
    else if text[0] == '[' then
      var items := ReadItems(text[1..]);
      if items.None? then None else Some(Got(Array(items.value.value), items.value.rest))
    else
      var n := ReadNumber(text);
      if n.None? then None else Some(Got(Numeric(n.value.value), n.value.rest))
  }

  /** The items of an array up to its closing bracket; a comma may follow the last one. */
  function ReadItems(text: string): (r: Option<Got<seq<Scalar>>>)
    ensures r.Some? ==> |r.value.rest| < |text|
    decreases |text|, 1
  {
    var start := SkipSpace(text);
    if start == [] then None
    else if start[0] == ']' then Some(Got([], start[1..]))
    else
      var item := ReadValue(start);
      if item.None? then None else AfterItem(text, item.value)
  }

  function AfterItem(text: string, item: Got<Scalar>): (r: Option<Got<seq<Scalar>>>)
    requires |item.rest| < |text|
    ensures r.Some? ==> |r.value.rest| < |text|
    decreases |text|, 0
  {
    var next := SkipSpace(item.rest);
    if next == [] then None
    else if next[0] == ']' then Some(Got([item.value], next[1..]))
    else if next[0] == ',' then
      var more := ReadItems(next[1..]);
      if more.None? then None else Some(Got([item.value] + more.value.value, more.value.rest))
    else None
  }

  // ---- Strings ----

  predicate CleanText(s: string) {
    forall i :: 0 <= i < |s| ==> s[i] as int != 0x7F
  }

  lemma HexRoundTrip(n: int)
    requires 0 <= n < 16
    ensures HexValue(HexDigit(n)) == Some(n)
  {
  }

  lemma EscapedControl(n: int)
    requires 0 <= n < 32
    ensures HexNumber("00" + [HexDigit(n / 16), HexDigit(n % 16)]) == Some(n)
  {
    var d := "00" + [HexDigit(n / 16), HexDigit(n % 16)];
    HexRoundTrip(n / 16);
    HexRoundTrip(n % 16);
    assert d[..3][..2] == ['0', '0'] && ['0', '0'][..1] == ['0'] && ['0'][..0] == [];
    assert HexNumber(['0']) == Some(0);
    assert HexNumber(['0', '0']) == Some(0);
    assert HexNumber(d[..3]) == Some(n / 16);
  }

  lemma ReadControl(c: char, tail: string)
    requires |Escape(c)| == 6
    ensures ReadChars(Escape(c) + tail) == Prepend(c, ReadChars(tail))
  {
    hide HexNumber, HexValue, HexDigit;
    var text := Escape(c) + tail;
    var hex := "00" + [HexDigit(c as int / 16), HexDigit(c as int % 16)];
    assert text[0] == '\\' && text[1..][0] == 'u' && text[1..][1..] == hex + tail;
    assert (hex + tail)[..4] == hex && (hex + tail)[4..] == tail;
    EscapedControl(c as int);
  }

  lemma ReadOneChar(c: char, tail: string)
    ensures ReadChars(Escape(c) + tail) == if c as int == 0x7F then None else Prepend(c, ReadChars(tail))
  {
    hide CodePoint, HexDigit;
    var text := Escape(c) + tail;
    if |Escape(c)| == 6 {
      ReadControl(c, tail);
    } else if |Escape(c)| == 2 {
      assert text[0] == '\\' && text[1..] == Escape(c)[1..] + tail && text[1..][1..] == tail;
    } else {
      assert text[1..] == tail;
    }
  }

  lemma {:induction false} StringReads(s: string, rest: string)
    ensures ReadChars(EscapeAll(s) + "\"" + rest) == if CleanText(s) then Some(Got(s, rest)) else None
  {
    hide Escape;
    if s == [] {
      assert EscapeAll(s) + "\"" + rest == "\"" + rest;
    } else {
      var tail := EscapeAll(s[1..]) + "\"" + rest;
      assert EscapeAll(s) + "\"" + rest == Escape(s[0]) + tail;
      ReadOneChar(s[0], tail);
      StringReads(s[1..], rest);
      assert s == [s[0]] + s[1..];
      assert CleanText(s) <==> s[0] as int != 0x7F && CleanText(s[1..]) by { CleanParts(s); }
    }
  }

  lemma CleanParts(s: string)
    requires s != []
    ensures CleanText(s) <==> s[0] as int != 0x7F && CleanText(s[1..])
  {
    if s[0] as int != 0x7F && CleanText(s[1..]) {
      forall i | 0 <= i < |s|
        ensures s[i] as int != 0x7F
      {
        if i > 0 {
          assert s[i] == s[1..][i - 1];
        }
      }
    }
  }

  // ---- Values ----

  predicate Clean(v: Scalar)
    decreases v
  {
    match v
    case Text(s) => CleanText(s)
    case Array(items) => forall i :: 0 <= i < |items| ==> Clean(items[i])
    case _ => true
  }

  predicate AllClean(items: seq<Scalar>) {
    forall i :: 0 <= i < |items| ==> Clean(items[i])
  }

  lemma FirstChar(v: Scalar)
    ensures Print(v) != [] && !IsSpace(Print(v)[0]) && Print(v)[0] != ']'
  {
    if v.Numeric? {
      hide PrintNumber;
      NumberReads(v.number, "");
    }
  }

  lemma SkipNothing(text: string)
    requires text == [] || !IsSpace(text[0])
    ensures SkipSpace(text) == text && SkipSpace(" " + text) == text
  {
    assert (" " + text)[1..] == text;
  }

  lemma NumericReads(number: Number, rest: string)
    requires EndsNumber(rest)
    ensures ReadValue(Print(Numeric(number)) + rest) == Some(Got(Numeric(number), rest))
  {
    hide ReadNumber, PrintNumber, ReadChars, ReadItems;
    NumberReads(number, rest);
    var text := Print(Numeric(number)) + rest;
    assert text[0] == PrintNumber(number)[0];
    assert "true"[0] == 't' && "false"[0] == 'f';
  }

  lemma TextReads(s: string, rest: string)
    ensures ReadValue(Print(Text(s)) + rest) == if CleanText(s) then Some(Got(Text(s), rest)) else None
  {
    hide ReadChars, EscapeAll, CleanText;
    StringReads(s, rest);
    var text := Print(Text(s)) + rest;
    assert text[0] == '"' && text[1..] == EscapeAll(s) + "\"" + rest;
  }

  lemma BoolReads(flag: bool, rest: string)
    ensures ReadValue(Print(Bool(flag)) + rest) == Some(Got(Bool(flag), rest))
  {
    hide ReadNumber, ReadChars, ReadItems;
    var text := Print(Bool(flag)) + rest;
    assert text[|Print(Bool(flag))|..] == rest;
    assert Print(Bool(flag)) <= text;
    if !flag {
      assert text[0] == 'f';
    }
  }

  lemma ArrayReads(items: seq<Scalar>, rest: string)
    requires ReadItems(Join(items) + "]" + rest) == if AllClean(items) then Some(Got(items, rest)) else None
    ensures ReadValue(Print(Array(items)) + rest) == if AllClean(items) then Some(Got(Array(items), rest)) else None
  {
    hide ReadItems, Join, AllClean, ReadNumber, ReadChars;
    var text := Print(Array(items)) + rest;
    assert text[0] == '[' && text[1..] == Join(items) + "]" + rest;
  }

  lemma {:induction false} ValueReads(v: Scalar, rest: string)
    requires EndsNumber(rest)
    ensures ReadValue(Print(v) + rest) == if Clean(v) then Some(Got(v, rest)) else None
    decreases v, 1
  {
    hide ReadValue, ReadItems, Join, Print, CleanText;
    match v {
      case Bool(flag) => BoolReads(flag, rest);
      case Numeric(number) => NumericReads(number, rest);
      case Text(s) => TextReads(s, rest);
      case Array(items) =>
        ItemsRead(items, rest);
        ArrayReads(items, rest);
    }
  }

  lemma JoinParts(items: seq<Scalar>, rest: string)
    requires items != []
    ensures Join(items) + "]" + rest
            == Print(items[0]) + (if |items| == 1 then "]" + rest else ", " + (Join(items[1..]) + "]" + rest))
  {
    hide Print;
    var first, tail := Print(items[0]), Join(items[1..]);
    if |items| == 1 {
      Regroup(first, "]", rest);
    } else {
      assert Join(items) == first + ", " + tail;
      hide Join;
      Regroup(first, ", ", tail);
      Regroup(Join(items), "]", rest);
      Regroup(first, ", " + tail, "]" + rest);
      Regroup(", ", tail, "]" + rest);
      Regroup(tail, "]", rest);
    }
  }

  /** What the reader does with the first item of a list and what follows it. */
  lemma FirstItemReads(text: string, item: Scalar, more: string)
    requires text == Print(item) + more && more != [] && !IsSpace(more[0])
    requires ReadValue(text) == if Clean(item) then Some(Got(item, more)) else None
    ensures var r := if !Clean(item) then None else AfterItem(text, Got(item, more));
            ReadItems(text) == r
    ensures !Clean(item) ==> ReadItems(" " + text) == None
    ensures Clean(item) ==> ReadItems(" " + text) == AfterItem(" " + text, Got(item, more))
  {
    hide Print, Clean, ReadValue, AfterItem;
    FirstChar(item);
    assert text[0] == Print(item)[0];
    SkipNothing(text);
  }

  lemma LastItem(text: string, item: Scalar, rest: string)
    requires |rest| + 1 < |text|
    ensures AfterItem(text, Got(item, "]" + rest)) == Some(Got([item], rest))
  {
    var more := "]" + rest;
    SkipNothing(more);
    assert more[1..] == rest;
  }

  lemma FurtherItem(text: string, item: Scalar, tail: string)
    requires |tail| + 2 < |text|
    ensures AfterItem(text, Got(item, ", " + tail))
            == var more := ReadItems(" " + tail);
               if more.None? then None else Some(Got([item] + more.value.value, more.value.rest))
  {
    hide ReadItems;
    var next := ", " + tail;
    SkipNothing(next);
    assert next[1..] == " " + tail;
  }

  lemma {:induction false} ItemsRead(items: seq<Scalar>, rest: string)
    ensures ReadItems(Join(items) + "]" + rest) == if AllClean(items) then Some(Got(items, rest)) else None
    ensures ReadItems(" " + (Join(items) + "]" + rest)) == if AllClean(items) then Some(Got(items, rest)) else None
    decreases items, 0
  {
    hide Clean, ReadValue, Print, AfterItem, SkipSpace;
    var text := Join(items) + "]" + rest;
    if items == [] {
      assert text == "]" + rest && text[1..] == rest;
      SkipNothing(text);
    } else {
      hide ReadItems, Join, AllClean;
      var item := items[0];
      var tail := Join(items[1..]) + "]" + rest;
      JoinParts(items, rest);
      AllCleanParts(items);
      assert AllClean(items[1..]) || |items| > 1 by { NothingIsClean(items[1..]); }
      var more := if |items| == 1 then "]" + rest else ", " + tail;
      assert text == Print(item) + more;
      ValueReads(item, more);
      FirstItemReads(text, item, more);
      FirstChar(item);
      if |items| == 1 {
        LastItem(text, item, rest);
        LastItem(" " + text, item, rest);
        assert items == [item];
      } else {
        ItemsRead(items[1..], rest);
        FurtherItem(text, item, tail);
        FurtherItem(" " + text, item, tail);
        assert items == [item] + items[1..];
      }
    }
  }

  lemma NothingIsClean(items: seq<Scalar>)
    ensures items == [] ==> AllClean(items)
  {
  }

  lemma AllCleanParts(items: seq<Scalar>)
    requires items != []
    ensures AllClean(items) <==> Clean(items[0]) && AllClean(items[1..])
  {
    if Clean(items[0]) && AllClean(items[1..]) {
      forall i | 0 <= i < |items|
        ensures Clean(items[i])
      {
        if i > 0 {
          assert items[i] == items[1..][i - 1];
        }
      }
    }
  }

  /** Reading a printed scalar gives it back exactly when none of its strings contains U+007F, which the
      printer does not escape and TOML does not allow; otherwise the text is no TOML value at all. */
  lemma ScalarRoundTrip(v: Scalar)
    ensures ReadValue(Print(v)) == if Clean(v) then Some(Got(v, "")) else None
  {
    ValueReads(v, "");
    assert Print(v) + "" == Print(v);
  }

  lemma DeleteCharacterIsLost()
    ensures ReadValue(Print(Text([0x7F as char]))) == None
  {
    ScalarRoundTrip(Text([0x7F as char]));
  }
}
