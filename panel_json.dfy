/** The explorer panel's two JSON renderers: `formatJson`, which writes a
    flat map one entry per line, and `formatJsonString`, the character-level
    pretty-printer applied to a value that looks like JSON. */
module PanelJson {
  import opened Text

  // ----- formatJson -----

  /** The map values the panel renders: a `String`, written in quotes, or a
      `Number`, written bare. */
  datatype Value = Str(s: string) | Num(n: int)

  function Rendered(v: Value): string {
    match v
    case Str(s) => "\"" + s + "\""
    case Num(n) => IntToString(n)
  }

  /** The line written for one entry: indented quoted key, colon, value, and
      a comma unless it is the last entry. */
  function Line(key: string, value: Value, isLast: bool): string {
    "  \"" + key + "\": " + Rendered(value) + (if isLast then "" else ",")
  }

  function EntryLine(entries: seq<(string, Value)>, i: nat): string
    requires i < |entries|
  {
    Line(entries[i].0, entries[i].1, i == |entries| - 1)
  }

  function EntryLines(entries: seq<(string, Value)>): (lines: seq<string>)
    ensures |lines| == |entries|
    ensures forall i :: 0 <= i < |entries| ==> lines[i] == EntryLine(entries, i)
  {
    seq(|entries|, i requires 0 <= i < |entries| => EntryLine(entries, i))
  }

  /** The text `formatJson` produces: "{", the entry lines in map order and
      "}", joined by newlines. */
  function JsonText(entries: seq<(string, Value)>): string {
    Join(["{"] + EntryLines(entries) + ["}"], '\n')
  }

  /** The body of the per-entry lambda: the appends for one entry. */
  method AppendEntry(json: string, key: string, value: Value, isLast: bool) returns (r: string)
    ensures r == json + Line(key, value, isLast) + "\n"
  {
    r := json + "  \"" + key + "\": ";
    ghost var head := r;
    match value {
      case Str(s) => r := r + "\"" + s + "\"";
      case Num(n) => r := r + IntToString(n);
    }
    assert r == head + Rendered(value);
    ghost var mid := r;
    if !isLast {
      r := r + ",";
    } else {
      assert mid + "" == mid;
    }
    r := r + "\n";
  }

  /** `formatJson`: the entries appended in the order the map iterates. */
  method FormatJson(entries: seq<(string, Value)>) returns (r: string)
    ensures r == JsonText(entries)
  {
    var json := "{\n";
    ghost var lines := EntryLines(entries);
    assert json == Terminated(["{"] + lines[..0]);
    for i := 0 to |entries|
      invariant json == Terminated(["{"] + lines[..i])
    {
      ghost var before := json;
      json := AppendEntry(json, entries[i].0, entries[i].1, !(i < |entries| - 1));
      TerminatedSnoc(["{"] + lines[..i], lines[i]);
      PrefixSnoc(["{"], lines, i);
    }
    assert lines[..|entries|] == lines;
    json := json + "}";
    TerminatedJoin(["{"] + lines, "}");
    r := json;
  }

  /** An empty map renders as "{\n}". */
  lemma JsonTextEmpty()
    ensures JsonText([]) == "{\n}"
  {
    assert ["{"] + EntryLines([]) + ["}"] == ["{", "}"];
    JoinCons("{", ["}"], '\n');
  }

  lemma LineShape(key: string, value: Value, isLast: bool)
    ensures '\n' !in key && '\n' !in Rendered(value) ==> '\n' !in Line(key, value, isLast)
    ensures !isLast ==> Line(key, value, isLast)[|Line(key, value, isLast)| - 1] == ','
  {
    var tail := if isLast then "" else ",";
    var l := Line(key, value, isLast);
    assert l == "  \"" + key + "\": " + Rendered(value) + tail;
    if '\n' in l {
      var i :| 0 <= i < |l| && l[i] == '\n';
      var n0 := |"  \""|;
      var n1 := n0 + |key|;
      var n2 := n1 + |"\": "|;
      var n3 := n2 + |Rendered(value)|;
      if i < n0 {
      } else if i < n1 {
        assert l[i] == key[i - n0];
      } else if i < n2 {
      } else if i < n3 {
        assert l[i] == Rendered(value)[i - n2];
      }
    }
  }

  /** No entry line holds a newline when no key and no rendered value does. */
  lemma EntryLinesPlain(entries: seq<(string, Value)>)
    requires forall i :: 0 <= i < |entries| ==> '\n' !in entries[i].0 && '\n' !in Rendered(entries[i].1)
    ensures forall i :: 0 <= i < |entries| ==> '\n' !in EntryLines(entries)[i]
  {
    forall i | 0 <= i < |entries| ensures '\n' !in EntryLines(entries)[i] {
      LineShape(entries[i].0, entries[i].1, i == |entries| - 1);
    }
  }

  /** Every entry line but the last ends with a comma. */
  lemma EntryLinesCommas(entries: seq<(string, Value)>)
    ensures forall i :: 0 <= i < |entries| - 1 ==> EntryLine(entries, i)[|EntryLine(entries, i)| - 1] == ','
  {
    forall i | 0 <= i < |entries| - 1
      ensures EntryLine(entries, i)[|EntryLine(entries, i)| - 1] == ','
    {
      LineShape(entries[i].0, entries[i].1, false);
    }
  }

  /** Framing lines that hold no newline between "{" and "}" hold none. */
  lemma FramedPlain(lines: seq<string>)
    requires forall i :: 0 <= i < |lines| ==> '\n' !in lines[i]
    ensures var parts := ["{"] + lines + ["}"]; forall i :: 0 <= i < |parts| ==> '\n' !in parts[i]
  {
    var parts := ["{"] + lines + ["}"];
    forall i | 0 <= i < |parts| ensures '\n' !in parts[i] {
      if 0 < i < |parts| - 1 {
        assert parts[i] == lines[i - 1];
      }
    }
  }

  /** When no key and no rendered value holds a newline, the text has exactly
      the lines "{", one line per entry in order, and "}"; every entry line
      but the last ends with a comma. */
  lemma JsonTextLines(entries: seq<(string, Value)>)
    requires forall i :: 0 <= i < |entries| ==> '\n' !in entries[i].0 && '\n' !in Rendered(entries[i].1)
    ensures Split(JsonText(entries), '\n') == ["{"] + EntryLines(entries) + ["}"]
    ensures forall i :: 0 <= i < |entries| - 1 ==> EntryLine(entries, i)[|EntryLine(entries, i)| - 1] == ','
  {
    EntryLinesPlain(entries);
    EntryLinesCommas(entries);
    FramedPlain(EntryLines(entries));
    SplitJoin(["{"] + EntryLines(entries) + ["}"], '\n');
  }

  // ----- formatJsonString -----

  /** The printer's variables between two characters. */
  datatype Scanner = Scanner(inString: bool, escapeNext: bool, indent: nat)

  const Start: Scanner := Scanner(false, false, 0)

  /** An output character, told apart by whether it was copied from the
      input or inserted as layout. */
  datatype Piece = Copied(c: char) | Pad(c: char)

  /** The printer after a prefix of its input: its variables and what it
      has written, or the exception `"  ".repeat(-1)` throws once a closer
      drives the indent below zero. */
  datatype Scan = Scanned(st: Scanner, out: seq<Piece>) | Underflow

  /** `"  ".repeat(n)`, as inserted layout. */
  function Spaces(n: nat): (r: seq<Piece>)
    ensures |r| == 2 * n
    ensures forall i :: 0 <= i < |r| ==> r[i] == Pad(' ')
  {
    seq(2 * n, _ => Pad(' '))
  }

  /** One turn of the `when`, its branches tried in the source's order. */
  function Step(st: Scanner, c: char): Scan {
    if st.escapeNext then Scanned(st.(escapeNext := false), [Copied(c)])
    else if c == '\\' && st.inString then Scanned(st.(escapeNext := true), [Copied(c)])
    else if c == '"' then Scanned(st.(inString := !st.inString), [Copied(c)])
    else if !st.inString && (c == '{' || c == '[') then
      Scanned(st.(indent := st.indent + 1), [Copied(c), Pad('\n')] + Spaces(st.indent + 1))
    else if !st.inString && (c == '}' || c == ']') then
      if st.indent == 0 then Underflow
      else Scanned(st.(indent := st.indent - 1), [Pad('\n')] + Spaces(st.indent - 1) + [Copied(c)])
    else if !st.inString && c == ',' then Scanned(st, [Copied(c), Pad('\n')] + Spaces(st.indent))
    else if !st.inString && c == ':' then Scanned(st, [Copied(c), Pad(' ')])
    else if IsWhitespace(c) && !st.inString then Scanned(st, [])
    else Scanned(st, [Copied(c)])
  }

  /** The printer run over `s` from the start state. */
  function ScanText(s: string): Scan
    decreases |s|
  {
    if s == [] then Scanned(Start, [])
    else
      match ScanText(s[..|s| - 1])
      case Underflow => Underflow
      case Scanned(st, out) =>
        match Step(st, s[|s| - 1])
        case Underflow => Underflow
        case Scanned(st', more) => Scanned(st', out + more)
  }

  function Chars(out: seq<Piece>): (r: string)
    ensures |r| == |out|
    ensures forall i :: 0 <= i < |out| ==> r[i] == out[i].c
  {
    seq(|out|, i requires 0 <= i < |out| => out[i].c)
  }

  lemma Chars2(a: seq<Piece>, b: seq<Piece>)
    ensures Chars(a + b) == Chars(a) + Chars(b)
  {
  }

  predicate LooksLikeJson(t: string) {
    |t| > 0 && (t[0] == '{' || t[0] == '[')
  }

  /** `formatJsonString`: the original string, untrimmed, unless its trimmed
      form starts with `{` or `[` and prints without an underflow. */
  function Format(json: string): string {
    var t := Trim(json);
    if !LooksLikeJson(t) then json
    else
      match ScanText(t)
      case Underflow => json
      case Scanned(_, out) => Chars(out)
  }

  /** One turn of the `when` in `formatJsonString`: the text it appends to
      the builder and the printer's new variables, or the underflow of
      `"  ".repeat(-1)`. */
  method ScanChar(c: char, inString: bool, escapeNext: bool, indentLevel: nat)
    returns (underflow: bool, text: string, inString': bool, escapeNext': bool, indentLevel': nat)
    ensures underflow <==> Step(Scanner(inString, escapeNext, indentLevel), c).Underflow?
    ensures !underflow ==>
      && Step(Scanner(inString, escapeNext, indentLevel), c).st == Scanner(inString', escapeNext', indentLevel')
      && text == Chars(Step(Scanner(inString, escapeNext, indentLevel), c).out)
  {
    ghost var st := Scanner(inString, escapeNext, indentLevel);
    underflow, inString', escapeNext', indentLevel' := false, inString, escapeNext, indentLevel;
    text := "";
    if escapeNext {
      text := [c];
      escapeNext' := false;
    } else if c == '\\' && inString {
      text := [c];
      escapeNext' := true;
    } else if c == '"' {
      text := [c];
      inString' := !inString;
    } else if !inString && (c == '{' || c == '[') {
      text := [c] + "\n";
      indentLevel' := indentLevel + 1;
      text := text + Chars(Spaces(indentLevel'));
      StepChars(st, c);
    } else if !inString && (c == '}' || c == ']') {
      text := "\n";
      if indentLevel == 0 {
        underflow := true;
        return;
      }
      indentLevel' := indentLevel - 1;
      text := text + Chars(Spaces(indentLevel')) + [c];
      StepChars(st, c);
    } else if !inString && c == ',' {
      text := [c] + "\n";
      text := text + Chars(Spaces(indentLevel));
      StepChars(st, c);
    } else if !inString && c == ':' {
      text := [c] + " ";
      StepChars(st, c);
    } else if IsWhitespace(c) && !inString {
    } else {
      text := [c];
    }
  }

  /** `formatJsonString` as the loop the source runs, appending to a builder. */
  method FormatJsonString(jsonString: string) returns (r: string)
    ensures r == Format(jsonString)
  {
    var trimmed := Trim(jsonString);
    if !(|trimmed| > 0 && trimmed[0] == '{') && !(|trimmed| > 0 && trimmed[0] == '[') {
      return jsonString;
    }
    var indentLevel: nat := 0;
    var result := "";
    var inString := false;
    var escapeNext := false;
    ghost var out: seq<Piece> := [];
    assert trimmed[..0] == [];
    for i := 0 to |trimmed|
      invariant ScanText(trimmed[..i]) == Scanned(Scanner(inString, escapeNext, indentLevel), out)
      invariant result == Chars(out)
    {
      var c := trimmed[i];
      ghost var st := Scanner(inString, escapeNext, indentLevel);
      assert trimmed[..i + 1][..i] == trimmed[..i];
      var underflow, text;
      underflow, text, inString, escapeNext, indentLevel := ScanChar(c, inString, escapeNext, indentLevel);
      if underflow {
        UnderflowSticks(trimmed, i + 1);
        return jsonString;
      }
      result := result + text;
      ghost var more := Step(st, c).out;
      Chars2(out, more);
      out := out + more;
    }
    assert trimmed[..|trimmed|] == trimmed;
    r := result;
  }

  /** Once the printer has thrown, reading further input does not revive it. */
  lemma {:induction false} UnderflowSticks(s: string, k: nat)
    requires k <= |s| && ScanText(s[..k]) == Underflow
    ensures ScanText(s) == Underflow
    decreases |s| - k
  {
    if k < |s| {
      assert s[..k + 1][..k] == s[..k];
      UnderflowSticks(s, k + 1);
    } else {
      assert s[..k] == s;
    }
  }

  // ----- an independent reading of the same input -----

  /** Whether the next character is inside a string literal, and whether it
      is escaped, tracked through the quote and backslash characters alone. */
  datatype Quoting = Quoting(inString: bool, escaped: bool)

  function QuoteStep(q: Quoting, c: char): Quoting {
    if q.escaped then Quoting(q.inString, false)
    else if q.inString && c == '\\' then Quoting(true, true)
    else if c == '"' then Quoting(!q.inString, false)
    else q
  }

  function Quotes(s: string): Quoting
    decreases |s|
  {
    if s == [] then Quoting(false, false) else QuoteStep(Quotes(s[..|s| - 1]), s[|s| - 1])
  }

  /** The character after `s` is outside every string literal. */
  predicate Outside(s: string) {
    !Quotes(s).inString && !Quotes(s).escaped
  }

  predicate Opener(c: char) { c == '{' || c == '[' }

  predicate Closer(c: char) { c == '}' || c == ']' }

  /** Nesting depth after `s`: openers minus closers outside strings. */
  function Depth(s: string): int
    decreases |s|
  {
    if s == [] then 0
    else
      var p := s[..|s| - 1];
      var c := s[|s| - 1];
      Depth(p) + (if Outside(p) && Opener(c) then 1 else if Outside(p) && Closer(c) then -1 else 0)
  }

  /** `s` without the whitespace that lies outside string literals. */
  function Significant(s: string): string
    decreases |s|
  {
    if s == [] then []
    else
      var p := s[..|s| - 1];
      var c := s[|s| - 1];
      Significant(p) + (if Outside(p) && IsWhitespace(c) then [] else [c])
  }

  /** The characters of the output that were copied from the input. */
  function Kept(out: seq<Piece>): string
    decreases |out|
  {
    if out == [] then []
    else Kept(out[..|out| - 1]) + (if out[|out| - 1].Copied? then [out[|out| - 1].c] else [])
  }

  /** All inserted layout is newlines and spaces. */
  predicate LayoutOnly(out: seq<Piece>) {
    forall i :: 0 <= i < |out| && out[i].Pad? ==> out[i].c == '\n' || out[i].c == ' '
  }

  lemma {:induction false} KeptAppend(a: seq<Piece>, b: seq<Piece>)
    ensures Kept(a + b) == Kept(a) + Kept(b)
    decreases |b|
  {
    if b == [] {
      assert a + b == a;
    } else {
      var b' := b[..|b| - 1];
      assert (a + b)[..|a + b| - 1] == a + b';
      KeptAppend(a, b');
    }
  }

  lemma {:induction false} KeptSpaces(n: nat)
    ensures Kept(Spaces(n)) == []
    decreases n
  {
    if n > 0 {
      assert Spaces(n) == Spaces(n - 1) + [Pad(' '), Pad(' ')];
      KeptSpaces(n - 1);
      KeptAppend(Spaces(n - 1), [Pad(' '), Pad(' ')]);
      assert [Pad(' '), Pad(' ')][..1] == [Pad(' ')];
      assert [Pad(' ')][..0] == [];
    }
  }

  lemma KeptOne(p: Piece)
    ensures Kept([p]) == (if p.Copied? then [p.c] else [])
  {
    assert [p][..0] == [];
  }

  /** The output of an opener or a comma keeps just that character. */
  lemma KeptLeading(c: char, n: nat)
    ensures Kept([Copied(c), Pad('\n')] + Spaces(n)) == [c]
    ensures LayoutOnly([Copied(c), Pad('\n')] + Spaces(n))
  {
    var two := [Copied(c), Pad('\n')];
    KeptOne(Copied(c));
    assert two[..1] == [Copied(c)];
    assert Kept(two) == [c];
    KeptSpaces(n);
    KeptAppend(two, Spaces(n));
  }

  /** The output of a closer keeps just that character. */
  lemma KeptTrailing(c: char, n: nat)
    ensures Kept([Pad('\n')] + Spaces(n) + [Copied(c)]) == [c]
    ensures LayoutOnly([Pad('\n')] + Spaces(n) + [Copied(c)])
  {
    KeptOne(Pad('\n'));
    KeptOne(Copied(c));
    KeptSpaces(n);
    KeptAppend([Pad('\n')], Spaces(n));
    KeptAppend([Pad('\n')] + Spaces(n), [Copied(c)]);
  }

  /** A step that copies one character keeps that character. */
  lemma StepKeptCopy(st: Scanner, c: char)
    requires Step(st, c).Scanned? && Step(st, c).out == [Copied(c)]
    ensures Kept(Step(st, c).out) == [c]
  {
    KeptOne(Copied(c));
  }

  /** A bracket, comma or colon outside a string keeps just that character. */
  lemma StepKeptLayout(st: Scanner, c: char)
    requires !st.escapeNext && !st.inString && Step(st, c).Scanned?
    requires Opener(c) || Closer(c) || c == ',' || c == ':'
    ensures Kept(Step(st, c).out) == [c]
  {
    if Opener(c) {
      KeptLeading(c, st.indent + 1);
    } else if Closer(c) {
      KeptTrailing(c, st.indent - 1);
    } else if c == ',' {
      KeptLeading(c, st.indent);
    } else {
      var two := [Copied(c), Pad(' ')];
      assert two[..1] == [Copied(c)];
      KeptOne(Copied(c));
      KeptOne(Pad(' '));
    }
  }

  /** One step keeps exactly the characters the independent reading keeps. */
  lemma StepKept(st: Scanner, c: char)
    requires Step(st, c).Scanned?
    ensures Kept(Step(st, c).out) == (if !st.inString && !st.escapeNext && IsWhitespace(c) then [] else [c])
  {
    if !st.escapeNext && !st.inString && (Opener(c) || Closer(c) || c == ',' || c == ':') {
      StepKeptLayout(st, c);
    } else if !st.escapeNext && !st.inString && c != '"' && IsWhitespace(c) {
      assert Step(st, c).out == [];
    } else {
      StepKeptCopy(st, c);
    }
  }

  /** One step inserts only newlines and spaces. */
  lemma StepLayout(st: Scanner, c: char)
    requires Step(st, c).Scanned?
    ensures LayoutOnly(Step(st, c).out)
  {
    var more := Step(st, c).out;
    forall i | 0 <= i < |more| && more[i].Pad? ensures more[i].c == '\n' || more[i].c == ' ' {
      if !st.escapeNext && !(c == '\\' && st.inString) && c != '"' && !st.inString {
        if Opener(c) || c == ',' {
          var n := if Opener(c) then st.indent + 1 else st.indent;
          assert more == [Copied(c), Pad('\n')] + Spaces(n);
          if i >= 2 {
            assert more[i] == Spaces(n)[i - 2];
          }
        } else if Closer(c) {
          assert more == [Pad('\n')] + Spaces(st.indent - 1) + [Copied(c)];
          if 1 <= i < |more| - 1 {
            assert more[i] == Spaces(st.indent - 1)[i - 1];
          }
        }
      }
    }
  }

  /** One step moves the printer's string flags as the independent quote
      tracker moves, and its indent as the nesting depth moves. */
  lemma StepFlags(st: Scanner, c: char)
    requires Step(st, c).Scanned?
    ensures var q := QuoteStep(Quoting(st.inString, st.escapeNext), c);
      Step(st, c).st.inString == q.inString && Step(st, c).st.escapeNext == q.escaped
    ensures var outside := !st.inString && !st.escapeNext;
      Step(st, c).st.indent ==
        st.indent + (if outside && Opener(c) then 1 else if outside && Closer(c) then -1 else 0)
  {
  }

  lemma LayoutAppend(a: seq<Piece>, b: seq<Piece>)
    requires LayoutOnly(a) && LayoutOnly(b)
    ensures LayoutOnly(a + b)
  {
    forall i | 0 <= i < |a + b| && (a + b)[i].Pad?
      ensures (a + b)[i].c == '\n' || (a + b)[i].c == ' '
    {
      if i >= |a| {
        assert (a + b)[i] == b[i - |a|];
      }
    }
  }

  /** Between characters the printer's string flags are those of the
      independent reading and its indent is the nesting depth; the copied
      characters are the input without its outside-string whitespace, and
      the inserted ones are newlines and spaces. */
  lemma ScanAgrees(s: string)
    requires ScanText(s).Scanned?
    ensures ScanText(s).st.inString == Quotes(s).inString
    ensures ScanText(s).st.escapeNext == Quotes(s).escaped
    ensures ScanText(s).st.indent == Depth(s)
    ensures Kept(ScanText(s).out) == Significant(s)
    ensures LayoutOnly(ScanText(s).out)
  {
    ScanState(s);
    ScanKept(s);
    ScanLayout(s);
  }

  /** The last character of a scanned text, taken one step. */
  lemma ScanLast(s: string)
    requires s != [] && ScanText(s).Scanned?
    ensures ScanText(s[..|s| - 1]).Scanned?
    ensures var r := ScanText(s[..|s| - 1]);
      && Step(r.st, s[|s| - 1]).Scanned?
      && ScanText(s) == Scanned(Step(r.st, s[|s| - 1]).st, r.out + Step(r.st, s[|s| - 1]).out)
  {
  }

  lemma {:induction false} ScanState(s: string)
    requires ScanText(s).Scanned?
    ensures ScanText(s).st.inString == Quotes(s).inString
    ensures ScanText(s).st.escapeNext == Quotes(s).escaped
    ensures ScanText(s).st.indent == Depth(s)
    decreases |s|
  {
    if s != [] {
      var p := s[..|s| - 1];
      ScanLast(s);
      ScanState(p);
      StepFlags(ScanText(p).st, s[|s| - 1]);
    }
  }

  lemma {:induction false} ScanKept(s: string)
    requires ScanText(s).Scanned?
    ensures Kept(ScanText(s).out) == Significant(s)
    decreases |s|
  {
    if s != [] {
      var p := s[..|s| - 1];
      var c := s[|s| - 1];
      ScanLast(s);
      ScanState(p);
      ScanKept(p);
      var st := ScanText(p).st;
      StepKept(st, c);
      KeptAppend(ScanText(p).out, Step(st, c).out);
    }
  }

  lemma {:induction false} ScanLayout(s: string)
    requires ScanText(s).Scanned?
    ensures LayoutOnly(ScanText(s).out)
    decreases |s|
  {
    if s != [] {
      var p := s[..|s| - 1];
      ScanLast(s);
      ScanLayout(p);
      var st := ScanText(p).st;
      StepLayout(st, s[|s| - 1]);
      LayoutAppend(ScanText(p).out, Step(st, s[|s| - 1]).out);
    }
  }

  /** The printer throws exactly when some prefix of its input closes more
      than it has opened. */
  lemma {:induction false} ScanUnderflow(s: string)
    ensures ScanText(s).Underflow? <==> exists k :: 0 <= k <= |s| && Depth(s[..k]) < 0
    decreases |s|
  {
    if s == [] {
      forall k | 0 <= k <= |s| ensures Depth(s[..k]) >= 0 {
        assert s[..k] == [];
      }
    } else {
      var p := s[..|s| - 1];
      ScanUnderflow(p);
      if ScanText(p).Underflow? {
        var k :| 0 <= k <= |p| && Depth(p[..k]) < 0;
        assert s[..k] == p[..k];
      } else {
        StepUnderflow(s);
        if ScanText(s).Scanned? {
          forall k | 0 <= k <= |s| ensures Depth(s[..k]) >= 0 {
            if k <= |p| {
              assert s[..k] == p[..k];
            } else {
              assert s[..k] == s;
            }
          }
        } else {
          assert s[..|s|] == s;
        }
      }
    }
  }

  /** When the printer survives all but the last character, it throws on
      that one exactly when the depth drops below zero there. */
  lemma StepUnderflow(s: string)
    requires s != [] && ScanText(s[..|s| - 1]).Scanned?
    ensures ScanText(s).Underflow? <==> Depth(s) < 0
  {
    var p := s[..|s| - 1];
    ScanAgrees(p);
    if ScanText(s).Scanned? {
      ScanAgrees(s);
    }
  }

  /** The fallback: the original string comes back whenever the trimmed
      input does not start like JSON or some prefix of it underflows. */
  lemma FormatFallback(json: string)
    requires !LooksLikeJson(Trim(json))
      || exists k :: 0 <= k <= |Trim(json)| && Depth(Trim(json)[..k]) < 0
    ensures Format(json) == json
  {
    ScanUnderflow(Trim(json));
  }

  /** Otherwise the output is the pretty-printed text: deleting the inserted
      newlines and spaces gives back the trimmed input minus its
      outside-string whitespace, in order. */
  lemma FormatPrints(json: string)
    requires LooksLikeJson(Trim(json))
    requires forall k :: 0 <= k <= |Trim(json)| ==> Depth(Trim(json)[..k]) >= 0
    ensures ScanText(Trim(json)).Scanned?
    ensures Format(json) == Chars(ScanText(Trim(json)).out)
    ensures Kept(ScanText(Trim(json)).out) == Significant(Trim(json))
    ensures LayoutOnly(ScanText(Trim(json)).out)
  {
    ScanUnderflow(Trim(json));
    ScanAgrees(Trim(json));
  }

  /** One copied character per character of `t`. */
  function Copies(t: string): (r: seq<Piece>)
    ensures |r| == |t| && forall i :: 0 <= i < |t| ==> r[i] == Copied(t[i])
  {
    seq(|t|, i requires 0 <= i < |t| => Copied(t[i]))
  }

  lemma CopiesSnoc(t: string)
    requires t != []
    ensures Copies(t) == Copies(t[..|t| - 1]) + [Copied(t[|t| - 1])]
  {
  }

  /** Inside a string literal, one character other than a quote or a
      backslash is copied and nothing else changes. */
  lemma ScanInsideOne(u: string, c: char)
    requires ScanText(u).Scanned? && ScanText(u).st.inString && !ScanText(u).st.escapeNext
    requires c != '"' && c != '\\'
    ensures ScanText(u + [c]) == Scanned(ScanText(u).st, ScanText(u).out + [Copied(c)])
  {
    assert (u + [c])[..|u + [c]| - 1] == u;
  }

  /** Inside a string literal, text free of quotes and backslashes (brackets
      and whitespace included) is copied one for one. */
  lemma {:induction false} ScanInsideString(s: string, t: string)
    requires ScanText(s).Scanned? && ScanText(s).st.inString && !ScanText(s).st.escapeNext
    requires forall i :: 0 <= i < |t| ==> t[i] != '"' && t[i] != '\\'
    ensures ScanText(s + t) == Scanned(ScanText(s).st, ScanText(s).out + Copies(t))
    decreases |t|
  {
    if t == [] {
      assert s + t == s;
    } else {
      var t', c := t[..|t| - 1], t[|t| - 1];
      assert t == t' + [c];
      ScanInsideString(s, t');
      assert s + t == (s + t') + [c];
      ScanInsideSnoc(ScanText(s).st, ScanText(s).out, s + t', t', c);
    }
  }

  lemma ScanInsideSnoc(st: Scanner, out: seq<Piece>, u: string, t: string, c: char)
    requires st.inString && !st.escapeNext && c != '"' && c != '\\'
    requires ScanText(u) == Scanned(st, out + Copies(t))
    ensures ScanText(u + [c]) == Scanned(st, out + Copies(t + [c]))
  {
    ScanInsideOne(u, c);
    assert (t + [c])[..|t|] == t;
    CopiesSnoc(t + [c]);
  }

  /** Inside a string literal an escaped quote is copied and does not end
      the literal. */
  lemma ScanEscapedQuote(s: string)
    requires ScanText(s).Scanned? && ScanText(s).st.inString && !ScanText(s).st.escapeNext
    ensures ScanText(s + "\\\"") == Scanned(ScanText(s).st, ScanText(s).out + [Copied('\\'), Copied('"')])
  {
    var s1 := s + "\\";
    assert s1[..|s1| - 1] == s;
    var s2 := s + "\\\"";
    assert s2[..|s2| - 1] == s1;
  }

  /** The layout rules, stated with the nesting depth: outside strings an
      opener is followed by a newline and the new depth's indent, a closer
      is preceded by a newline and the decremented depth's indent, a comma
      is followed by a newline and the current indent, and a colon by one
      space. */
  lemma Layout(s: string, c: char)
    requires ScanText(s + [c]).Scanned? && Outside(s)
    requires Opener(c) || Closer(c) || c == ',' || c == ':'
    ensures ScanText(s).Scanned?
    ensures var d := Depth(s + [c]);
      d >= 0 &&
      Chars(ScanText(s + [c]).out) == Chars(ScanText(s).out) +
        (if Opener(c) then [c, '\n'] + Chars(Spaces(d))
         else if Closer(c) then ['\n'] + Chars(Spaces(d)) + [c]
         else if c == ',' then [c, '\n'] + Chars(Spaces(d))
         else [c, ' '])
  {
    var s' := s + [c];
    assert s'[..|s'| - 1] == s;
    ScanAgrees(s);
    var st := ScanText(s).st;
    StepChars(st, c);
    Chars2(ScanText(s).out, Step(st, c).out);
  }

  lemma StepChars(st: Scanner, c: char)
    requires Step(st, c).Scanned? && !st.inString && !st.escapeNext
    requires Opener(c) || Closer(c) || c == ',' || c == ':'
    ensures Chars(Step(st, c).out) ==
      (if Opener(c) then [c, '\n'] + Chars(Spaces(st.indent + 1))
       else if Closer(c) then ['\n'] + Chars(Spaces(st.indent - 1)) + [c]
       else if c == ',' then [c, '\n'] + Chars(Spaces(st.indent))
       else [c, ' '])
  {
    if Opener(c) {
      Chars2([Copied(c), Pad('\n')], Spaces(st.indent + 1));
    } else if Closer(c) {
      Chars2([Pad('\n')], Spaces(st.indent - 1));
      Chars2([Pad('\n')] + Spaces(st.indent - 1), [Copied(c)]);
    } else if c == ',' {
      Chars2([Copied(c), Pad('\n')], Spaces(st.indent));
    }
  }

  /** `{}` prints as "{", a newline, one level of indent, a newline and "}". */
  lemma FormatEmptyObject()
    ensures Format("{}") == "{\n  \n}"
  {
    TrimBraces();
    ScanBraces();
    var out := [Copied('{'), Pad('\n')] + Spaces(1) + [Pad('\n')] + Spaces(0) + [Copied('}')];
    assert Chars(out) == "{\n  \n}";
  }

  lemma TrimBraces()
    ensures Trim("{}") == "{}"
  {
    assert LeadingWhitespace("{}") == 0;
    assert TrailingWhitespace("{}") == 0;
  }

  lemma ScanBraces()
    ensures ScanText("{}") ==
      Scanned(Start, [Copied('{'), Pad('\n')] + Spaces(1) + [Pad('\n')] + Spaces(0) + [Copied('}')])
  {
    var s1 := "{";
    assert s1[..0] == [];
    assert ScanText(s1) == Scanned(Scanner(false, false, 1), [Copied('{'), Pad('\n')] + Spaces(1));
    var s2 := "{}";
    assert s2[..1] == s1;
  }
}
