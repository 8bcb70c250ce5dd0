// Directed-edge labels (`service/views.py`): printed with `definition_label`, read back with
// `split_edge_label`.  A quoted column name is a JSON string (section 7 of RFC 8259).
module Labels {
  import opened Model

  // ---------- JSON strings ----------

  function HexDigit(n: nat): char
    requires n < 16
  {
    if n < 10 then ('0' as int + n) as char else ('a' as int + n - 10) as char
  }

  function HexValue(c: char): (n: Option<nat>)
    ensures n.Some? ==> n.value < 16
  {
    if '0' <= c <= '9' then Some(c as int - '0' as int)
    else if 'a' <= c <= 'f' then Some(c as int - 'a' as int + 10)
    else if 'A' <= c <= 'F' then Some(c as int - 'A' as int + 10)
    else None
  }

  // Digits are read in either case.
  lemma HexValueExactly(c: char, n: nat)
    requires n < 16
    ensures HexValue(c) == Some(n) <==> c == "0123456789abcdef"[n] || c == "0123456789ABCDEF"[n]
  {}

  function Escaped(c: char): string {
    if c == '"' then "\\\""
    else if c == '\\' then "\\\\"
    else if c == '\n' then "\\n"
    else if c == '\r' then "\\r"
    else if c == '\t' then "\\t"
    else if c as int == 8 then "\\b"
    else if c as int == 12 then "\\f"
    else if c < ' ' then ['\\', 'u', '0', '0', HexDigit(c as int / 16), HexDigit(c as int % 16)]
    else [c]
  }

  function EscapedAll(s: string): string {
    if s == "" then "" else Escaped(s[0]) + EscapedAll(s[1..])
  }

  // `json.dumps(s, ensure_ascii=False)`
  function JsonString(s: string): string { "\"" + EscapedAll(s) + "\"" }

  function Unescaped(c: char): Option<char> {
    if c == '"' then Some('"')
    else if c == '\\' then Some('\\')
    else if c == '/' then Some('/')
    else if c == 'b' then Some(8 as char)
    else if c == 'f' then Some(12 as char)
    else if c == 'n' then Some('\n')
    else if c == 'r' then Some('\r')
    else if c == 't' then Some('\t')
    else None
  }

  // Four hexadecimal digits.
  function CodeUnit(s: string): (n: Option<nat>)
    ensures n.Some? ==> |s| >= 4 && n.value < 0x1_0000
  {
    if |s| < 4 then None
    else
      match (HexValue(s[0]), HexValue(s[1]), HexValue(s[2]), HexValue(s[3]))
      case (Some(a), Some(b), Some(c), Some(d)) => Some(a * 4096 + b * 256 + c * 16 + d)
      case _ => None
  }

  datatype Read<T> = Read(value: T, rest: string)

  // The character of a Unicode escape, past its `\u`; a surrogate pair is two escapes for one character.
  function ReadEscape(s: string): (r: Option<Read<char>>)
    ensures r.Some? ==> |r.value.rest| <= |s| - 4 && s[|s| - |r.value.rest|..] == r.value.rest
  {
    match CodeUnit(s)
    case None => None
    case Some(n) =>
      if n < 0xD800 || 0xE000 <= n then Some(Read(n as char, s[4..]))
      else if n < 0xDC00 && "\\u" <= s[4..] then
        match CodeUnit(s[6..])
        case None => None
        case Some(m) =>
          if 0xDC00 <= m < 0xE000 then
            Some(Read((0x1_0000 + (n - 0xD800) * 0x400 + (m - 0xDC00)) as char, s[10..]))
          else None
      else None
  }

  // The characters of a JSON string up to its closing quote, and what follows it.
  function ReadString(s: string): Option<Read<string>>
    decreases |s|
  {
    if s == "" then None
    else if s[0] == '"' then Some(Read("", s[1..]))
    else if s[0] == '\\' then
      if |s| < 2 then None
      else if s[1] == 'u' then
        match ReadEscape(s[2..])
        case None => None
        case Some(escape) => Prepended(escape.value, ReadString(escape.rest))
      else
        match Unescaped(s[1])
        case None => None
        case Some(c) => Prepended(c, ReadString(s[2..]))
    else if s[0] < ' ' then None
    else Prepended(s[0], ReadString(s[1..]))
  }

  function Prepended(c: char, r: Option<Read<string>>): Option<Read<string>> {
    match r
    case None => None
    case Some(read) => Some(Read([c] + read.value, read.rest))
  }

  lemma HexRoundTrip(n: nat)
    requires n < 16
    ensures HexValue(HexDigit(n)) == Some(n)
  {}

  lemma EscapedReads(c: char, rest: string)
    ensures ReadString(Escaped(c) + rest) == Prepended(c, ReadString(rest))
  {
    var s := Escaped(c) + rest;
    if c == '"' || c == '\\' || c == '\n' || c == '\r' || c == '\t' || c as int == 8 || c as int == 12 {
      assert s[2..] == rest;
      assert Unescaped(s[1]) == Some(c);
    } else if c < ' ' {
      var n := c as int;
      HexRoundTrip(0);
      HexRoundTrip(n / 16);
      HexRoundTrip(n % 16);
      var t := s[2..];
      assert t[0] == '0' && t[1] == '0' && t[2] == HexDigit(n / 16) && t[3] == HexDigit(n % 16);
      assert CodeUnit(t) == Some(n);
      assert t[4..] == rest;
    } else {
      assert s[1..] == rest;
    }
  }

  function FourDigits(n: nat): string
    requires n < 0x1_0000
  {
    [HexDigit(n / 16 / 16 / 16), HexDigit(n / 16 / 16 % 16), HexDigit(n / 16 % 16), HexDigit(n % 16)]
  }

  lemma DigitsRead(s: string, a: nat, b: nat, c: nat, d: nat)
    requires |s| >= 4 && HexValue(s[0]) == Some(a) && HexValue(s[1]) == Some(b)
    requires HexValue(s[2]) == Some(c) && HexValue(s[3]) == Some(d)
    ensures CodeUnit(s) == Some(a * 4096 + b * 256 + c * 16 + d)
  {}

  lemma FourDigitsRead(n: nat, rest: string)
    requires n < 0x1_0000
    ensures CodeUnit(FourDigits(n) + rest) == Some(n)
  {
    var a, b, c, d := n / 16 / 16 / 16, n / 16 / 16 % 16, n / 16 % 16, n % 16;
    HexRoundTrip(a);
    HexRoundTrip(b);
    HexRoundTrip(c);
    HexRoundTrip(d);
    DigitsRead([HexDigit(a), HexDigit(b), HexDigit(c), HexDigit(d)] + rest, a, b, c, d);
  }

  // A character beyond the basic plane, as other writers escape it.
  function SurrogatePair(c: char): string
    requires c as int >= 0x1_0000
  {
    var n := c as int - 0x1_0000;
    "\\u" + FourDigits(0xD800 + n / 0x400) + "\\u" + FourDigits(0xDC00 + n % 0x400)
  }

  // The two escapes of a surrogate pair read as one character.
  lemma SurrogatePairReads(c: char, rest: string)
    requires c as int >= 0x1_0000
    ensures ReadString(SurrogatePair(c) + rest) == Prepended(c, ReadString(rest))
  {
    var n := c as int - 0x1_0000;
    var high, low := 0xD800 + n / 0x400, 0xDC00 + n % 0x400;
    var s := SurrogatePair(c) + rest;
    assert s[2..] == FourDigits(high) + "\\u" + FourDigits(low) + rest;
    PairEscape(high, low, rest);
  }

  lemma PairEscape(high: nat, low: nat, rest: string)
    requires 0xD800 <= high < 0xDC00 <= low < 0xE000
    ensures ReadEscape(FourDigits(high) + "\\u" + FourDigits(low) + rest) ==
              Some(Read((0x1_0000 + (high - 0xD800) * 0x400 + (low - 0xDC00)) as char, rest))
  {
    var t, second := FourDigits(high) + "\\u" + FourDigits(low) + rest, FourDigits(low) + rest;
    assert t == FourDigits(high) + ("\\u" + second);
    FourDigitsRead(high, "\\u" + second);
    assert t[4..] == "\\u" + second && t[6..] == second && t[10..] == rest;
    FourDigitsRead(low, rest);
  }

  // So does any other character written by its number, and an escaped solidus.
  lemma NumberReads(c: char, rest: string)
    requires c as int < 0x1_0000
    ensures ReadString("\\u" + FourDigits(c as int) + rest) == Prepended(c, ReadString(rest))
  {
    var s := "\\u" + FourDigits(c as int) + rest;
    assert s[2..] == FourDigits(c as int) + rest && s[2..][4..] == rest;
    FourDigitsRead(c as int, rest);
  }

  lemma SolidusReads(rest: string)
    ensures ReadString("\\/" + rest) == Prepended('/', ReadString(rest))
  {
    assert ("\\/" + rest)[2..] == rest;
  }

  // A JSON string reads back as the text it was written from.
  lemma {:induction false} JsonRoundTrip(s: string, rest: string)
    ensures ReadString(EscapedAll(s) + "\"" + rest) == Some(Read(s, rest))
  {
    if s == "" {
      var t := "" + "\"" + rest;
      assert t[0] == '"' && t[1..] == rest;
    } else {
      JsonRoundTrip(s[1..], rest);
      var tail := EscapedAll(s[1..]) + "\"" + rest;
      EscapedFirst(s, rest);
      EscapedReads(s[0], tail);
      assert s == [s[0]] + s[1..];
    }
  }

  lemma EscapedFirst(s: string, rest: string)
    requires s != ""
    ensures EscapedAll(s) + "\"" + rest == Escaped(s[0]) + (EscapedAll(s[1..]) + "\"" + rest)
  {
    Reassociated(Escaped(s[0]), EscapedAll(s[1..]), "\"" + rest);
    Reassociated(EscapedAll(s), "\"", rest);
    Reassociated(EscapedAll(s[1..]), "\"", rest);
  }

  lemma Reassociated(a: string, b: string, c: string)
    ensures a + b + c == a + (b + c)
  {}

  // ---------- printing ----------

  predicate HasArrow(s: string) {
    exists i :: 0 <= i < |s| - 1 && s[i] == '-' && s[i + 1] == '>'
  }

  predicate NeedsQuotes(column: string) {
    ',' in column || '[' in column || ']' in column || '"' in column || HasArrow(column)
  }

  function PrintedName(column: string): string {
    if NeedsQuotes(column) then JsonString(column) else column
  }

  ghost predicate Contains(s: string, mark: string) {
    exists before: string, after: string :: s == before + mark + after
  }

  lemma ContainsChar(s: string, c: char)
    ensures Contains(s, [c]) <==> c in s
  {
    if c in s {
      var i :| 0 <= i < |s| && s[i] == c;
      assert s == s[..i] + [c] + s[i + 1..];
    }
    if before: string, after: string :| s == before + [c] + after {
      assert s[|before|] == c;
    }
  }

  lemma ContainsArrow(s: string)
    ensures Contains(s, "->") <==> HasArrow(s)
  {
    if HasArrow(s) {
      var i :| 0 <= i < |s| - 1 && s[i] == '-' && s[i + 1] == '>';
      assert s == s[..i] + "->" + s[i + 2..];
    }
    if before: string, after: string :| s == before + "->" + after {
      assert s[|before|] == '-' && s[|before| + 1] == '>';
    }
  }

  // A name without a delimiter is printed as it is, any other as a JSON string.
  lemma NamePrinted(column: string)
    ensures PrintedName(column) == column <==>
              && !Contains(column, ",") && !Contains(column, "[") && !Contains(column, "]")
              && !Contains(column, "\"") && !Contains(column, "->")
    ensures PrintedName(column) != column ==> PrintedName(column) == "\"" + EscapedAll(column) + "\""
  {
    ContainsChar(column, ',');
    ContainsChar(column, '[');
    ContainsChar(column, ']');
    ContainsChar(column, '"');
    ContainsArrow(column);
    EscapedLonger(column);
  }

  lemma {:induction false} EscapedLonger(s: string)
    ensures |EscapedAll(s)| >= |s|
  {
    if s == "" {
    } else {
      EscapedLonger(s[1..]);
    }
  }

  predicate NeedsEscape(c: char) { c == '"' || c == '\\' || c < ' ' }

  // Only quotation marks, backslashes and control characters are escaped.
  lemma {:induction false} EscapedAsItIs(s: string)
    ensures EscapedAll(s) == s <==> forall c :: c in s ==> !NeedsEscape(c)
  {
    if s == "" {
    } else {
      EscapedAsItIs(s[1..]);
      EscapedLonger(s[1..]);
      assert s[0] in s && s == [s[0]] + s[1..];
      assert EscapedAll(s) == Escaped(s[0]) + EscapedAll(s[1..]);
      if NeedsEscape(s[0]) {
        assert |EscapedAll(s)| > |s|;
      } else if EscapedAll(s) == s {
        assert EscapedAll(s)[1..] == EscapedAll(s[1..]);
      }
    }
  }

  function PrintedNames(columns: seq<string>): string {
    if columns == [] then ""
    else if |columns| == 1 then PrintedName(columns[0])
    else PrintedName(columns[0]) + "," + PrintedNames(columns[1..])
  }

  function DefinitionLabel(nodeId: string, columns: seq<string>): string {
    nodeId + "[" + PrintedNames(columns) + "]"
  }

  type NamedSide = (string, seq<string>)

  // The `edge` position of a directed edge.
  function EdgeLabel(start: NamedSide, end: NamedSide): string {
    DefinitionLabel(start.0, start.1) + " -> " + DefinitionLabel(end.0, end.1)
  }

  // ---------- reading ----------

  function Find(s: string, c: char): (i: int)
    ensures -1 <= i < |s|
    ensures i >= 0 ==> s[i] == c && c !in s[..i]
    ensures i < 0 ==> c !in s
  {
    if s == "" then -1
    else if s[0] == c then 0
    else
      var i := Find(s[1..], c);
      if i < 0 then -1 else i + 1
  }

  // Where an unquoted name stops.
  function NameEnd(s: string): (i: int)
    ensures -1 <= i < |s|
  {
    var comma, bracket := Find(s, ','), Find(s, ']');
    if comma < 0 then bracket else if bracket < 0 || comma < bracket then comma else bracket
  }

  function ReadName(s: string): Option<Read<string>> {
    if s != "" && s[0] == '"' then ReadString(s[1..])
    else if NameEnd(s) < 0 then None
    else Some(Read(s[..NameEnd(s)], s[NameEnd(s)..]))
  }

  lemma {:induction false} ReadStringShortens(s: string)
    ensures ReadString(s).Some? ==> |ReadString(s).value.rest| < |s|
    decreases |s|
  {
    if s != "" && s[0] != '"' {
      if s[0] == '\\' {
        if |s| >= 2 && s[1] == 'u' {
          var escape := ReadEscape(s[2..]);
          if escape.Some? { ReadStringShortens(escape.value.rest); }
        } else if |s| >= 2 {
          ReadStringShortens(s[2..]);
        }
      } else {
        ReadStringShortens(s[1..]);
      }
    }
  }

  lemma ReadNameShortens(s: string)
    ensures ReadName(s).Some? ==> |ReadName(s).value.rest| <= |s|
  {
    if s != "" && s[0] == '"' { ReadStringShortens(s[1..]); }
  }

  // Column names up to the closing bracket.
  function ReadColumns(s: string): Option<Read<seq<string>>>
    decreases |s|
  {
    ReadNameShortens(s);
    match ReadName(s)
    case None => None
    case Some(name) =>
      if name.rest != "" && name.rest[0] == ',' then
        match ReadColumns(name.rest[1..])
        case None => None
        case Some(more) => Some(Read([name.value] + more.value, more.rest))
      else if name.rest != "" && name.rest[0] == ']' then Some(Read([name.value], name.rest[1..]))
      else None
  }

  function ReadSide(s: string): Option<Read<NamedSide>> {
    var bracket := Find(s, '[');
    if bracket < 0 then None
    else
      match ReadColumns(s[bracket + 1..])
      case None => None
      case Some(columns) => Some(Read((s[..bracket], columns.value), columns.rest))
  }

  function SplitEdge(text: string): Option<(NamedSide, NamedSide)> {
    match ReadSide(text)
    case None => None
    case Some(start) =>
      if " -> " <= start.rest then
        match ReadSide(start.rest[4..])
        case None => None
        case Some(end) => if end.rest == "" then Some((start.value, end.value)) else None
      else None
  }

  // ---------- round trip ----------

  lemma FindFirst(s: string, rest: string, c: char)
    requires c !in s
    ensures Find(s + [c] + rest, c) == |s|
  {
    var all := s + [c] + rest;
    assert all[|s|] == c;
    assert forall i :: 0 <= i < |s| ==> all[i] in s;
  }

  lemma NameEndsAt(s: string, rest: string)
    requires ',' !in s && ']' !in s && rest != "" && (rest[0] == ',' || rest[0] == ']')
    ensures NameEnd(s + rest) == |s|
  {
    var all := s + rest;
    assert all[|s|] == rest[0];
    assert forall i :: 0 <= i < |s| ==> all[i] in s;
    var comma, bracket := Find(all, ','), Find(all, ']');
    assert comma >= 0 ==> all[comma] == ',' && comma >= |s|;
    assert bracket >= 0 ==> all[bracket] == ']' && bracket >= |s|;
    assert rest[0] == ',' ==> ',' in all && comma == |s|;
    assert rest[0] == ']' ==> ']' in all && bracket == |s|;
  }

  lemma NameRoundTrip(column: string, rest: string)
    requires rest != "" && (rest[0] == ',' || rest[0] == ']')
    ensures ReadName(PrintedName(column) + rest) == Some(Read(column, rest))
  {
    if NeedsQuotes(column) {
      QuotedRoundTrip(column, rest);
    } else {
      UnquotedRoundTrip(column, rest);
    }
  }

  lemma QuotedRoundTrip(column: string, rest: string)
    ensures ReadName(JsonString(column) + rest) == Some(Read(column, rest))
  {
    var s := JsonString(column) + rest;
    assert s[0] == '"' && s[1..] == EscapedAll(column) + "\"" + rest;
    JsonRoundTrip(column, rest);
  }

  lemma UnquotedRoundTrip(column: string, rest: string)
    requires rest != "" && (rest[0] == ',' || rest[0] == ']') && !NeedsQuotes(column)
    ensures ReadName(column + rest) == Some(Read(column, rest))
  {
    var s := column + rest;
    NameEndsAt(column, rest);
    assert s[0] != '"';
    assert s[..|column|] == column && s[|column|..] == rest;
  }

  lemma {:induction false} ColumnsRoundTrip(columns: seq<string>, rest: string)
    requires columns != []
    ensures ReadColumns(PrintedNames(columns) + "]" + rest) == Some(Read(columns, rest))
  {
    var c := columns[0];
    if |columns| == 1 {
      Reassociated(PrintedName(c), "]", rest);
      LastColumn(c, rest);
      assert columns == [c];
    } else {
      var more := PrintedNames(columns[1..]) + "]" + rest;
      PrintedFirst(columns, rest);
      ColumnsRoundTrip(columns[1..], rest);
      FirstColumn(c, columns[1..], more, rest);
      assert columns == [c] + columns[1..];
    }
  }

  lemma PrintedFirst(columns: seq<string>, rest: string)
    requires |columns| > 1
    ensures PrintedNames(columns) + "]" + rest
         == PrintedName(columns[0]) + ("," + (PrintedNames(columns[1..]) + "]" + rest))
  {
    FiveReassociated(PrintedName(columns[0]), ",", PrintedNames(columns[1..]), "]", rest);
  }

  lemma FiveReassociated(a: string, b: string, c: string, d: string, e: string)
    ensures a + b + c + d + e == a + (b + (c + d + e))
  {}

  lemma LastColumn(c: string, rest: string)
    ensures ReadColumns(PrintedName(c) + ("]" + rest)) == Some(Read([c], rest))
  {
    var after := "]" + rest;
    NameRoundTrip(c, after);
    assert after[0] == ']' && after[1..] == rest;
  }

  lemma FirstColumn(c: string, others: seq<string>, more: string, rest: string)
    requires ReadColumns(more) == Some(Read(others, rest))
    ensures ReadColumns(PrintedName(c) + ("," + more)) == Some(Read([c] + others, rest))
  {
    var after := "," + more;
    NameRoundTrip(c, after);
    assert after[0] == ',' && after[1..] == more;
  }

  lemma SideRoundTrip(nodeId: string, columns: seq<string>, rest: string)
    requires columns != [] && '[' !in nodeId
    ensures ReadSide(DefinitionLabel(nodeId, columns) + rest) == Some(Read((nodeId, columns), rest))
  {
    var s := DefinitionLabel(nodeId, columns) + rest;
    var inside := PrintedNames(columns) + "]" + rest;
    assert s == nodeId + ['['] + inside;
    FindFirst(nodeId, inside, '[');
    assert s[..|nodeId|] == nodeId && s[|nodeId| + 1..] == inside;
    ColumnsRoundTrip(columns, rest);
  }

  // A printed directed edge reads back as its two ends.
  lemma EdgeRoundTrip(start: NamedSide, end: NamedSide)
    requires start.1 != [] && end.1 != [] && '[' !in start.0 && '[' !in end.0
    ensures SplitEdge(EdgeLabel(start, end)) == Some((start, end))
  {
    var tail := " -> " + DefinitionLabel(end.0, end.1);
    var text := EdgeLabel(start, end);
    assert text == DefinitionLabel(start.0, start.1) + tail;
    SideRoundTrip(start.0, start.1, tail);
    assert tail[4..] == DefinitionLabel(end.0, end.1) + "";
    SideRoundTrip(end.0, end.1, "");
  }

  // So a label belongs to one directed edge only.
  lemma EdgeLabelInjective(s: NamedSide, t: NamedSide, u: NamedSide, v: NamedSide)
    requires s.1 != [] && t.1 != [] && u.1 != [] && v.1 != []
    requires '[' !in s.0 && '[' !in t.0 && '[' !in u.0 && '[' !in v.0
    requires EdgeLabel(s, t) == EdgeLabel(u, v)
    ensures s == u && t == v
  {
    EdgeRoundTrip(s, t);
    EdgeRoundTrip(u, v);
  }

  lemma ReadSideShape(s: string)
    ensures ReadSide(s).Some? ==> '[' !in ReadSide(s).value.value.0 && ReadSide(s).value.value.1 != []
  {}

  // Exactly the ends with columns and without the opening bracket in their dataset ID come back.
  lemma EdgeRoundTripExactly(start: NamedSide, end: NamedSide)
    ensures SplitEdge(EdgeLabel(start, end)) == Some((start, end)) <==>
            start.1 != [] && end.1 != [] && '[' !in start.0 && '[' !in end.0
  {
    var text := EdgeLabel(start, end);
    if start.1 != [] && end.1 != [] && '[' !in start.0 && '[' !in end.0 {
      EdgeRoundTrip(start, end);
    } else {
      ReadSideShape(text);
      if ReadSide(text).Some? && |ReadSide(text).value.rest| >= 4 {
        ReadSideShape(ReadSide(text).value.rest[4..]);
      }
    }
  }

  // ---------- what can be read at all ----------

  // A label of plain names, spelled out.
  lemma EdgeLabelPlain(start: NamedSide, end: NamedSide)
    requires forall c :: c in start.1 || c in end.1 ==> !NeedsQuotes(c)
    ensures EdgeLabel(start, end)
         == start.0 + "[" + JoinedBy(start.1, ",") + "]" + " -> " + end.0 + "[" + JoinedBy(end.1, ",") + "]"
  {
    PrintedPlain(start.1);
    PrintedPlain(end.1);
  }

  lemma {:induction false} PrintedPlain(columns: seq<string>)
    requires forall c :: c in columns ==> !NeedsQuotes(c)
    ensures PrintedNames(columns) == JoinedBy(columns, ",")
  {
    if |columns| <= 1 {
    } else {
      PrintedPlain(columns[1..]);
    }
  }

  // Spelled in whatever way, a readable text is two dataset IDs, each with a bracketed list, an arrow between them
  // and nothing else.
  ghost predicate IsSpelled(text: string, start: NamedSide, end: NamedSide, names: string, others: string) {
    text == start.0 + "[" + names + "]" + " -> " + end.0 + "[" + others + "]"
  }

  ghost predicate EndsWithRest(s: string, rest: string) {
    |rest| <= |s| && s[|s| - |rest|..] == rest
  }

  lemma RestOfRest(s: string, mid: string, rest: string)
    requires EndsWithRest(s, mid) && EndsWithRest(mid, rest)
    ensures EndsWithRest(s, rest)
  {
    assert s == s[..|s| - |mid|] + mid && mid == mid[..|mid| - |rest|] + rest;
    assert s == s[..|s| - |mid|] + mid[..|mid| - |rest|] + rest;
  }

  lemma DropRest(s: string, n: nat)
    requires n <= |s|
    ensures EndsWithRest(s, s[n..])
  {}

  lemma {:induction false} ReadStringRest(s: string)
    ensures ReadString(s).Some? ==> EndsWithRest(s, ReadString(s).value.rest)
    decreases |s|
  {
    if s != "" && s[0] != '"' && ReadString(s).Some? {
      var rest := ReadString(s).value.rest;
      if s[0] == '\\' && s[1] == 'u' {
        var escape := ReadEscape(s[2..]).value;
        ReadStringRest(escape.rest);
        DropRest(s, 2);
        RestOfRest(s, s[2..], escape.rest);
        RestOfRest(s, escape.rest, rest);
      } else {
        var n := if s[0] == '\\' then 2 else 1;
        ReadStringRest(s[n..]);
        DropRest(s, n);
        RestOfRest(s, s[n..], rest);
      }
    }
  }

  lemma ReadNameRest(s: string)
    ensures ReadName(s).Some? ==> EndsWithRest(s, ReadName(s).value.rest)
  {
    if s != "" && s[0] == '"' && ReadName(s).Some? {
      ReadStringRest(s[1..]);
      DropRest(s, 1);
      RestOfRest(s, s[1..], ReadName(s).value.rest);
    }
  }

  // A bracketed list ends with its bracket.
  lemma {:induction false} ReadColumnsRest(s: string)
    ensures ReadColumns(s).Some? ==> EndsWithRest(s, "]" + ReadColumns(s).value.rest)
    decreases |s|
  {
    if ReadColumns(s).Some? {
      ReadNameRest(s);
      ReadNameShortens(s);
      var name := ReadName(s).value;
      if name.rest[0] == ',' {
        ReadColumnsRest(name.rest[1..]);
        DropRest(name.rest, 1);
        RestOfRest(name.rest, name.rest[1..], "]" + ReadColumns(s).value.rest);
        RestOfRest(s, name.rest, "]" + ReadColumns(s).value.rest);
      } else {
        assert name.rest == "]" + name.rest[1..];
      }
    }
  }

  lemma Glued(a: string, names: string, rest: string)
    ensures a + "[" + (names + ("]" + rest)) == a + "[" + names + "]" + rest
  {
    Reassociated(names, "]", rest);
    Reassociated(a + "[", names + "]", rest);
    Reassociated(a + "[", names, "]");
  }

  lemma FindSplits(s: string, c: char)
    requires Find(s, c) >= 0
    ensures s == s[..Find(s, c)] + [c] + s[Find(s, c) + 1..]
  {}

  lemma EndSplits(s: string, rest: string) returns (before: string)
    requires EndsWithRest(s, rest)
    ensures s == before + rest
  {
    before := s[..|s| - |rest|];
  }

  lemma ReadSideSpelled(s: string, side: Read<NamedSide>) returns (names: string)
    requires ReadSide(s) == Some(side)
    ensures s == side.value.0 + "[" + names + "]" + side.rest && '[' !in side.value.0
  {
    FindSplits(s, '[');
    var inside := s[Find(s, '[') + 1..];
    ReadColumnsRest(inside);
    names := EndSplits(inside, "]" + side.rest);
    Glued(side.value.0, names, side.rest);
  }

  lemma SplitEdgeSpelled(text: string, start: NamedSide, end: NamedSide) returns (names: string, others: string)
    requires SplitEdge(text) == Some((start, end))
    ensures IsSpelled(text, start, end, names, others) && '[' !in start.0 && '[' !in end.0
  {
    var first := ReadSide(text).value;
    var rest := first.rest[4..];
    assert first.rest == " -> " + rest;
    names := ReadSideSpelled(text, first);
    others := ReadSideSpelled(rest, ReadSide(rest).value);
    Spelled(start.0 + "[" + names + "]", end.0, others, rest);
  }

  lemma Spelled(before: string, node: string, others: string, rest: string)
    requires rest == node + "[" + others + "]" + ""
    ensures before + (" -> " + rest) == before + " -> " + node + "[" + others + "]"
  {
    assert rest == node + "[" + others + "]";
    Reassociated(before, " -> ", rest);
    Reassociated(before + " -> ", node + "[" + others, "]");
    Reassociated(before + " -> ", node + "[", others);
    Reassociated(before + " -> ", node, "[");
  }

  // ---------- the parser ----------

  function At(text: string, index: nat): string
    requires index <= |text|
  {
    text[index..]
  }

  // One column name from `index` on; None for a label that is refused.
  method NextName(text: string, index: nat) returns (name: Option<string>, next: nat)
    requires index <= |text|
    ensures name.None? <==> ReadName(At(text, index)).None?
    ensures name.Some? ==> next <= |text| && ReadName(At(text, index)) == Some(Read(name.value, At(text, next)))
  {
    var s := At(text, index);
    if s != "" && s[0] == '"' {
      var read := ReadString(s[1..]);
      if read.None? {
        return None, index;
      }
      ReadStringShortens(s[1..]);
      ReadStringSuffix(s[1..]);
      next := |text| - |read.value.rest|;
      assert At(text, next) == read.value.rest;
      return Some(read.value.value), next;
    }
    var stop := NameEnd(s);
    if stop < 0 {
      return None, index;
    }
    assert At(text, index + stop) == s[stop..] && text[index..index + stop] == s[..stop];
    return Some(text[index..index + stop]), index + stop;
  }

  lemma {:induction false} ReadStringSuffix(s: string)
    ensures ReadString(s).Some? ==>
              |ReadString(s).value.rest| <= |s| && s[|s| - |ReadString(s).value.rest|..] == ReadString(s).value.rest
    decreases |s|
  {
    ReadStringShortens(s);
    if s != "" && s[0] != '"' {
      if s[0] == '\\' {
        if |s| >= 2 && s[1] == 'u' {
          var escape := ReadEscape(s[2..]);
          if escape.Some? { ReadStringSuffix(escape.value.rest); }
        } else if |s| >= 2 {
          ReadStringSuffix(s[2..]);
        }
      } else {
        ReadStringSuffix(s[1..]);
        ReadStringShortens(s[1..]);
      }
    }
  }

  function WithNames(names: seq<string>, r: Option<Read<seq<string>>>): Option<Read<seq<string>>> {
    match r
    case None => None
    case Some(read) => Some(Read(names + read.value, read.rest))
  }

  lemma WithNamesNext(names: seq<string>, name: string, r: Option<Read<seq<string>>>)
    ensures WithNames(names + [name], r) == WithNames(names, WithNames([name], r))
  {
    if r.Some? { assert names + [name] + r.value.value == names + ([name] + r.value.value); }
  }

  lemma WithNoNames(r: Option<Read<seq<string>>>)
    ensures WithNames([], r) == r
  {
    if r.Some? { assert [] + r.value.value == r.value.value; }
  }

  lemma ColumnsStep(names: seq<string>, s: string, name: string, rest: string)
    requires ReadName(s) == Some(Read(name, rest))
    ensures WithNames(names, ReadColumns(s)) ==
              if rest != "" && rest[0] == ',' then WithNames(names + [name], ReadColumns(rest[1..]))
              else if rest != "" && rest[0] == ']' then Some(Read(names + [name], rest[1..]))
              else None
  {
    if rest != "" && rest[0] == ',' { WithNamesNext(names, name, ReadColumns(rest[1..])); }
  }

  lemma AtNext(text: string, index: nat)
    requires index < |text|
    ensures At(text, index) != "" && At(text, index)[0] == text[index] && At(text, index)[1..] == At(text, index + 1)
  {}

  // Column names from `index` on, past their closing bracket.
  method NextColumns(text: string, start: nat) returns (columns: Option<seq<string>>, index: nat)
    requires start <= |text|
    ensures columns.None? <==> ReadColumns(At(text, start)).None?
    ensures columns.Some? ==>
              index <= |text| && ReadColumns(At(text, start)) == Some(Read(columns.value, At(text, index)))
  {
    index := start;
    var names: seq<string> := [];
    WithNoNames(ReadColumns(At(text, start)));
    while true
      invariant index <= |text|
      invariant ReadColumns(At(text, start)) == WithNames(names, ReadColumns(At(text, index)))
      decreases |text| - index
    {
      var name, next := NextName(text, index);
      if name.None? {
        return None, index;
      }
      ReadNameShortens(At(text, index));
      ColumnsStep(names, At(text, index), name.value, At(text, next));
      names := names + [name.value];
      if next < |text| { AtNext(text, next); }
      if next < |text| && text[next] == ',' {
        index := next + 1;
        continue;
      }
      if !(next < |text| && text[next] == ']') {
        return None, index;
      }
      return Some(names), next + 1;
    }
  }

  lemma AtBracket(text: string, index: nat, bracket: nat)
    requires index <= |text| && bracket < |text| - index
    ensures At(text, index + bracket + 1) == At(text, index)[bracket + 1..]
    ensures text[index..index + bracket] == At(text, index)[..bracket]
  {}

  // One side from `index` on.
  method NextSide(text: string, index: nat) returns (side: Option<NamedSide>, next: nat)
    requires index <= |text|
    ensures side.None? <==> ReadSide(At(text, index)).None?
    ensures side.Some? ==> next <= |text| && ReadSide(At(text, index)) == Some(Read(side.value, At(text, next)))
  {
    var s := At(text, index);
    var bracket := Find(s, '[');
    if bracket < 0 {
      return None, index;
    }
    AtBracket(text, index, bracket);
    var columns, after := NextColumns(text, index + bracket + 1);
    if columns.None? {
      return None, index;
    }
    return Some((text[index..index + bracket], columns.value)), after;
  }

  // What is still to be read after some sides.
  function Remaining(sides: seq<NamedSide>, s: string): Option<(NamedSide, NamedSide)> {
    if sides == [] then SplitEdge(s)
    else if |sides| == 1 then
      match ReadSide(s)
      case None => None
      case Some(end) => if end.rest == "" then Some((sides[0], end.value)) else None
    else if s == "" then Some((sides[0], sides[1]))
    else None
  }

  lemma RemainingStep(sides: seq<NamedSide>, s: string, side: NamedSide, rest: string)
    requires ReadSide(s) == Some(Read(side, rest))
    ensures sides == [] ==> Remaining(sides, s) == if " -> " <= rest then Remaining([side], rest[4..]) else None
    ensures |sides| == 1 ==> Remaining(sides, s) == Remaining(sides + [side], rest)
  {}

  // One more side, and what is expected after it.
  method ReadTurn(text: string, sides: seq<NamedSide>, index: nat, expectedEnd: string)
    returns (read: Option<seq<NamedSide>>, next: nat)
    requires index <= |text| && |sides| < 2 && expectedEnd == if sides == [] then " -> " else ""
    ensures read.None? ==> Remaining(sides, At(text, index)).None?
    ensures read.Some? ==>
              && next <= |text| && |read.value| == |sides| + 1
              && Remaining(sides, At(text, index)) == Remaining(read.value, At(text, next))
  {
    var side, after := NextSide(text, index);
    if side.None? {
      return None, index;
    }
    RemainingStep(sides, At(text, index), side.value, At(text, after));
    next := after;
    if expectedEnd != "" {
      assert sides + [side.value] == [side.value];
      if !(expectedEnd <= At(text, after)) {
        return None, index;
      }
      assert At(text, after)[4..] == At(text, after + 4);
      next := after + |expectedEnd|;
    }
    return Some(sides + [side.value]), next;
  }

  lemma RemainingAll(text: string)
    ensures Remaining([], At(text, 0)) == SplitEdge(text)
  {
    assert At(text, 0) == text;
  }

  // `split_edge_label`; None where it raises an error.
  method SplitEdgeLabel(text: string) returns (ends: Option<(NamedSide, NamedSide)>)
    ensures ends == SplitEdge(text)
  {
    var sides: seq<NamedSide> := [];
    var index: nat := 0;
    RemainingAll(text);
    ghost var all := SplitEdge(text);
    for turn := 0 to 2
      invariant index <= |text| && |sides| == turn
      invariant all == Remaining(sides, At(text, index))
    {
      var read, next := ReadTurn(text, sides, index, if turn == 0 then " -> " else "");
      if read.None? {
        return None;
      }
      sides, index := read.value, next;
    }
    if index != |text| {
      return None;
    }
    return Some((sides[0], sides[1]));
  }
}
