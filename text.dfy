/** The Kotlin standard-library string operations the plugin relies on:
    `isWhitespace`, `trim`, `isBlank`, `lowercase`, `contains`, `split`,
    `joinToString` and `Int.toString`. */
module Text {

  /** Kotlin's `Char.isWhitespace` on the JVM: Java's `isWhitespace` or
      `isSpaceChar`, i.e. the ASCII controls TAB..CR and FS..US and every
      character of the Unicode categories Zs, Zl and Zp. */
  predicate IsWhitespace(c: char) {
    ('\t' <= c <= '\r') || ('\U{001C}' <= c <= ' ')
    || c == '\U{00A0}' || c == '\U{1680}' || ('\U{2000}' <= c <= '\U{200A}')
    || c == '\U{2028}' || c == '\U{2029}' || c == '\U{202F}' || c == '\U{205F}'
    || c == '\U{3000}'
  }

  /** `isBlank`: empty or whitespace only. */
  predicate IsBlank(s: string) {
    forall i :: 0 <= i < |s| ==> IsWhitespace(s[i])
  }

  /** Length of the longest whitespace prefix. */
  function LeadingWhitespace(s: string): (n: nat)
    ensures n <= |s|
    ensures forall i :: 0 <= i < n ==> IsWhitespace(s[i])
    ensures n < |s| ==> !IsWhitespace(s[n])
    decreases |s|
  {
    if |s| > 0 && IsWhitespace(s[0]) then 1 + LeadingWhitespace(s[1..]) else 0
  }

  /** Length of the longest whitespace suffix. */
  function TrailingWhitespace(s: string): (n: nat)
    ensures n <= |s|
    ensures forall i :: |s| - n <= i < |s| ==> IsWhitespace(s[i])
    ensures n < |s| ==> !IsWhitespace(s[|s| - 1 - n])
    decreases |s|
  {
    if |s| > 0 && IsWhitespace(s[|s| - 1]) then 1 + TrailingWhitespace(s[..|s| - 1]) else 0
  }

  /** `trim()`: `s` without its leading and trailing whitespace. The result
      sits in `s` right after the leading whitespace, only whitespace follows
      it, and it neither starts nor ends with whitespace. */
  function Trim(s: string): (r: string)
    ensures LeadingWhitespace(s) + |r| <= |s|
    ensures s[LeadingWhitespace(s)..LeadingWhitespace(s) + |r|] == r
    ensures IsBlank(s[LeadingWhitespace(s) + |r|..])
    ensures r == [] <==> IsBlank(s)
    ensures r != [] ==> !IsWhitespace(r[0]) && !IsWhitespace(r[|r| - 1])
  {
    var a := LeadingWhitespace(s);
    if a == |s| then []
    else
      var b := TrailingWhitespace(s);
      assert !IsWhitespace(s[a]);
      s[a..|s| - b]
  }

  /** ASCII case folding, the part of `lowercase()` the model keeps. */
  function LowerChar(c: char): (r: char)
    ensures 'A' <= c <= 'Z' ==> 'a' <= r <= 'z' && r as int - c as int == 32
    ensures !('A' <= c <= 'Z') ==> r == c
  {
    if 'A' <= c <= 'Z' then (c as int + 32) as char else c
  }

  function Lower(s: string): (r: string)
    ensures |r| == |s|
    ensures forall i :: 0 <= i < |s| ==> r[i] == LowerChar(s[i])
  {
    seq(|s|, i requires 0 <= i < |s| => LowerChar(s[i]))
  }

  /** `contains(sub)`: `sub` occurs somewhere in `s`. */
  predicate Contains(s: string, sub: string)
    decreases |s|
  {
    sub <= s || (|s| > 0 && Contains(s[1..], sub))
  }

  lemma {:induction false} ContainsAt(s: string, sub: string, k: nat)
    requires k + |sub| <= |s| && s[k..k + |sub|] == sub
    ensures Contains(s, sub)
    decreases k
  {
    if k == 0 {
      assert s[..|sub|] == sub;
    } else {
      assert s[1..][k - 1..k - 1 + |sub|] == s[k..k + |sub|];
      ContainsAt(s[1..], sub, k - 1);
    }
  }

  // ----- splitting and joining on a delimiter -----

  /** Kotlin's `split(d)`: every piece between delimiters, empty and trailing
      pieces included, so the result is never empty. */
  function Split(s: string, d: char): (parts: seq<string>)
    ensures |parts| >= 1
    ensures forall i :: 0 <= i < |parts| ==> d !in parts[i]
    decreases |s|
  {
    if |s| == 0 then [""]
    else if s[0] == d then [""] + Split(s[1..], d)
    else
      var rest := Split(s[1..], d);
      [[s[0]] + rest[0]] + rest[1..]
  }

  /** `joinToString(d)`. */
  function Join(parts: seq<string>, d: char): string
    decreases |parts|
  {
    if |parts| == 0 then ""
    else if |parts| == 1 then parts[0]
    else parts[0] + [d] + Join(parts[1..], d)
  }

  lemma JoinCons(p: string, rest: seq<string>, d: char)
    requires |rest| >= 1
    ensures Join([p] + rest, d) == p + [d] + Join(rest, d)
  {
    assert ([p] + rest)[1..] == rest;
  }

  /** Joining the pieces of a split gives back the string. */
  lemma {:induction false} JoinSplit(s: string, d: char)
    ensures Join(Split(s, d), d) == s
    decreases |s|
  {
    if |s| == 0 {
    } else {
      var tail := s[1..];
      var rest := Split(tail, d);
      JoinSplit(tail, d);
      assert Join(rest, d) == tail;
      assert s == [s[0]] + tail;
      if s[0] == d {
        assert Split(s, d) == [""] + rest;
        JoinCons("", rest, d);
      } else if |rest| == 1 {
        assert Split(s, d) == [[s[0]] + rest[0]];
      } else {
        var more := rest[1..];
        assert rest == [rest[0]] + more;
        assert Split(s, d) == [[s[0]] + rest[0]] + more;
        JoinCons(rest[0], more, d);
        JoinCons([s[0]] + rest[0], more, d);
      }
    }
  }

  /** A piece free of the delimiter splits into itself. */
  lemma {:induction false} SplitPlain(a: string, d: char)
    requires d !in a
    ensures Split(a, d) == [a]
    decreases |a|
  {
    if |a| > 0 {
      assert d !in a[1..];
      SplitPlain(a[1..], d);
      assert [a[0]] + a[1..] == a;
    }
  }

  /** The first piece of `a + [d] + b` is `a` when `a` has no delimiter. */
  lemma {:induction false} SplitAfterPiece(a: string, b: string, d: char)
    requires d !in a
    ensures Split(a + [d] + b, d) == [a] + Split(b, d)
    decreases |a|
  {
    if |a| == 0 {
      assert ([d] + b)[1..] == b;
    } else {
      var s := a + [d] + b;
      assert s[1..] == a[1..] + [d] + b;
      assert d !in a[1..];
      SplitAfterPiece(a[1..], b, d);
      assert [a[0]] + a[1..] == a;
    }
  }

  /** Splitting at one delimiter splits each side on its own. */
  lemma {:induction false} SplitConcat(a: string, b: string, d: char)
    ensures Split(a + [d] + b, d) == Split(a, d) + Split(b, d)
    decreases |a|
  {
    var s := a + [d] + b;
    if |a| == 0 {
      assert s[1..] == b;
    } else {
      assert s[1..] == a[1..] + [d] + b;
      SplitConcat(a[1..], b, d);
      var rest := Split(a[1..], d);
      if a[0] != d {
        assert (rest + Split(b, d))[0] == rest[0];
        assert (rest + Split(b, d))[1..] == rest[1..] + Split(b, d);
      }
    }
  }

  /** Joining one more piece onto a non-empty list. */
  lemma {:induction false} JoinSnoc(parts: seq<string>, p: string, d: char)
    requires |parts| >= 1
    ensures Join(parts + [p], d) == Join(parts, d) + [d] + p
    decreases |parts|
  {
    if |parts| == 1 {
      assert parts + [p] == [parts[0]] + [p];
      JoinCons(parts[0], [p], d);
    } else {
      JoinSnoc(parts[1..], p, d);
      assert parts + [p] == [parts[0]] + (parts[1..] + [p]);
      JoinCons(parts[0], parts[1..] + [p], d);
      JoinCons(parts[0], parts[1..], d);
      assert [parts[0]] + parts[1..] == parts;
    }
  }

  /** Joining a non-empty prefix of the pieces gives a prefix of the join. */
  lemma {:induction false} JoinPrefix(parts: seq<string>, k: nat, d: char)
    requires 1 <= k <= |parts|
    ensures Join(parts[..k], d) <= Join(parts, d)
    decreases |parts| - k
  {
    if k < |parts| {
      JoinPrefix(parts, k + 1, d);
      assert parts[..k + 1] == parts[..k] + [parts[k]];
      JoinSnoc(parts[..k], parts[k], d);
    } else {
      assert parts[..k] == parts;
    }
  }

  /** Splitting a join gives back the pieces when none contains the
      delimiter and there is at least one (`[]` joins to "", which splits
      to `[""]`). */
  lemma {:induction false} SplitJoin(parts: seq<string>, d: char)
    requires |parts| >= 1
    requires forall i :: 0 <= i < |parts| ==> d !in parts[i]
    ensures Split(Join(parts, d), d) == parts
    decreases |parts|
  {
    if |parts| == 1 {
      SplitPlain(parts[0], d);
    } else {
      SplitJoin(parts[1..], d);
      SplitAfterPiece(parts[0], Join(parts[1..], d), d);
      assert [parts[0]] + parts[1..] == parts;
    }
  }

  // ----- decimal rendering of integers -----

  function DigitChar(n: nat): (c: char)
    requires n < 10
    ensures '0' <= c <= '9' && c as int - '0' as int == n
  {
    ('0' as int + n) as char
  }

  predicate IsDigit(c: char) {
    '0' <= c <= '9'
  }

  /** The value of a string of decimal digits, used to read back a rendering. */
  function DecimalValue(s: string): nat
    requires forall i :: 0 <= i < |s| ==> IsDigit(s[i])
    decreases |s|
  {
    if |s| == 0 then 0
    else
      var last := s[|s| - 1];
      assert IsDigit(last);
      DecimalValue(s[..|s| - 1]) * 10 + (last as int - '0' as int)
  }

  function NatToString(n: nat): (r: string)
    ensures |r| >= 1
    ensures forall i :: 0 <= i < |r| ==> IsDigit(r[i])
    ensures |r| > 1 ==> r[0] != '0'
    decreases n
  {
    if n < 10 then [DigitChar(n)] else NatToString(n / 10) + [DigitChar(n % 10)]
  }

  /** `Int.toString()`: an optional minus sign and the decimal digits. */
  function IntToString(n: int): (r: string)
    ensures |r| >= 1
    ensures n < 0 <==> r[0] == '-'
  {
    if n < 0 then "-" + NatToString(-n) else NatToString(n)
  }

  /** Reading the digits of `NatToString(n)` back gives `n`. */
  lemma {:induction false} NatToStringValue(n: nat)
    ensures DecimalValue(NatToString(n)) == n
    decreases n
  {
    if n >= 10 {
      NatToStringValue(n / 10);
      var r := NatToString(n);
      assert r[..|r| - 1] == NatToString(n / 10);
    }
  }

  /** Decimal renderings of naturals are injective. */
  lemma NatToStringInjective(m: nat, n: nat)
    requires NatToString(m) == NatToString(n)
    ensures m == n
  {
    NatToStringValue(m);
    NatToStringValue(n);
  }

  // ----- lines -----

  /** Growing a prefix of `l` by one element. */
  lemma PrefixSnoc<T>(head: seq<T>, l: seq<T>, i: nat)
    requires i < |l|
    ensures head + l[..i + 1] == head + l[..i] + [l[i]]
  {
    assert l[..i + 1] == l[..i] + [l[i]];
  }

  /** Each line followed by '\n', as a line-by-line writer produces it. */
  function Terminated(lines: seq<string>): string
    decreases |lines|
  {
    if lines == [] then "" else lines[0] + "\n" + Terminated(lines[1..])
  }

  lemma {:induction false} TerminatedSnoc(lines: seq<string>, line: string)
    ensures Terminated(lines + [line]) == Terminated(lines) + line + "\n"
    decreases |lines|
  {
    if lines == [] {
      assert [] + [line] == [line];
    } else {
      assert (lines + [line])[1..] == lines[1..] + [line];
      TerminatedSnoc(lines[1..], line);
    }
  }

  /** Terminating every line but a last one and appending that one is
      joining them all with '\n'. */
  lemma {:induction false} TerminatedJoin(lines: seq<string>, last: string)
    ensures Terminated(lines) + last == Join(lines + [last], '\n')
    decreases |lines|
  {
    if lines != [] {
      TerminatedJoin(lines[1..], last);
      assert lines + [last] == [lines[0]] + (lines[1..] + [last]);
      JoinCons(lines[0], lines[1..] + [last], '\n');
    }
  }
}
