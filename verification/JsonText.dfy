/**
  JSON strings as `json.dumps(..., ensure_ascii=False)` writes them, a reader for
  them after section 7 of RFC 8259, and lines joined by newlines.
  Source: integrations/codex/user_prompt_submit_recall.py, `_record` and the
  joins of `render_context`.
*/
module JsonText {
  import opened Prelude

  const QUOTE: char := '"'
  const BACKSLASH: char := '\\'

  function HexDigit(n: nat): char
    requires n < 16
  {
    "0123456789abcdef"[n]
  }

  function HexValue(c: char): Option<nat> {
    if '0' <= c <= '9' then Some((c - '0') as nat)
    else if 'a' <= c <= 'f' then Some(10 + (c - 'a') as nat)
    else if 'A' <= c <= 'F' then Some(10 + (c - 'A') as nat)
    else None
  }

  /** One character inside a JSON string; only quotes, backslashes and controls are rewritten. */
  function EscapeChar(c: char): string {
    if c == QUOTE then [BACKSLASH, QUOTE]
    else if c == BACKSLASH then [BACKSLASH, BACKSLASH]
    else if c == '\n' then [BACKSLASH, 'n']
    else if c == '\r' then [BACKSLASH, 'r']
    else if c == '\t' then [BACKSLASH, 't']
    else if c as int == 8 then [BACKSLASH, 'b']
    else if c as int == 12 then [BACKSLASH, 'f']
    else if c < ' ' then [BACKSLASH, 'u', '0', '0', HexDigit(c as int / 16), HexDigit(c as int % 16)]
    else [c]
  }

  function Escape(text: string): string {
    if text == "" then "" else EscapeChar(text[0]) + Escape(text[1..])
  }

  /** A decoded string and what follows its closing quote. */
  datatype Scan = Scan(text: string, rest: string)

  /** The character an escape at the head of `s` stands for, and the length of the escape. */
  function ReadEscape(s: string): (r: Option<(char, nat)>)
    requires s != "" && s[0] == BACKSLASH
    ensures r.Some? ==> 1 < r.value.1 <= |s|
  {
    if |s| < 2 then None
    else if s[1] == QUOTE || s[1] == BACKSLASH || s[1] == '/' then Some((s[1], 2))
    else if s[1] == 'n' then Some(('\n', 2))
    else if s[1] == 'r' then Some(('\r', 2))
    else if s[1] == 't' then Some(('\t', 2))
    else if s[1] == 'b' then Some((8 as char, 2))
    else if s[1] == 'f' then Some((12 as char, 2))
    else if s[1] == 'u' && |s| >= 6 then ReadCode(s)
    else None
  }

  function ReadCode(s: string): (r: Option<(char, nat)>)
    requires |s| >= 6
    ensures r.Some? ==> r.value.1 == 6
  {
    var a, b, c, d := HexValue(s[2]), HexValue(s[3]), HexValue(s[4]), HexValue(s[5]);
    if a.None? || b.None? || c.None? || d.None? then None
    else
      var code := 4096 * a.value + 256 * b.value + 16 * c.value + d.value;
      if code < 0xD800 || 0xE000 <= code < 0x10000 then Some((code as char, 6)) else None
  }

  /** Reads a JSON string whose opening quote has been consumed. */
  function ReadString(s: string): Option<Scan>
    decreases |s|
  {
    if s == "" || s[0] < ' ' then None
    else if s[0] == QUOTE then Some(Scan("", s[1..]))
    else if s[0] == BACKSLASH then
      var escape := ReadEscape(s);
      if escape.None? then None else Prepend(escape.value.0, ReadString(s[escape.value.1..]))
    else Prepend(s[0], ReadString(s[1..]))
  }

  function Prepend(c: char, scan: Option<Scan>): Option<Scan> {
    if scan.None? then None else Some(Scan([c] + scan.value.text, scan.value.rest))
  }

  lemma ReadCharBack(c: char, tail: string)
    ensures ReadString(EscapeChar(c) + tail) == Prepend(c, ReadString(tail))
  {
    var code := EscapeChar(c);
    var s := code + tail;
    assert s[|code|..] == tail;
    assert s[0] == code[0];
    if |code| == 6 {
      CodeBack(c, tail);
    } else if |code| == 2 {
      assert s[1] == code[1];
    }
  }

  lemma CodeBack(c: char, tail: string)
    requires |EscapeChar(c)| == 6
    ensures ReadEscape(EscapeChar(c) + tail) == Some((c, 6))
  {
    var s := EscapeChar(c) + tail;
    assert s[1] == 'u' && s[2] == '0' && s[3] == '0' && s[4] == HexDigit(c as int / 16) && s[5] == HexDigit(c as int % 16);
    assert 16 * (c as int / 16) + c as int % 16 == c as int;
    assert ReadCode(s) == Some((c, 6));
  }

  /** Reading an escaped text gives the text back and stops at its closing quote. */
  lemma {:induction false} ReadBack(text: string, rest: string)
    ensures ReadString(Escape(text) + [QUOTE] + rest) == Some(Scan(text, rest))
  {
    if text == "" {
      assert Escape(text) + [QUOTE] + rest == [QUOTE] + rest;
    } else {
      var tail := Escape(text[1..]) + [QUOTE] + rest;
      ReadBack(text[1..], rest);
      ReadCharBack(text[0], tail);
      assert Escape(text) + [QUOTE] + rest == EscapeChar(text[0]) + tail;
      assert [text[0]] + text[1..] == text;
    }
  }

  lemma {:induction false} EscapeConcat(a: string, b: string)
    ensures Escape(a + b) == Escape(a) + Escape(b)
  {
    if a == "" {
      assert a + b == b;
    } else {
      assert (a + b)[1..] == a[1..] + b;
      EscapeConcat(a[1..], b);
    }
  }

  /** An escaped text stays on one line. */
  lemma {:induction false} EscapeIsOneLine(text: string)
    ensures OneLine(Escape(text))
  {
    if text != "" {
      EscapeIsOneLine(text[1..]);
    }
  }

  /** The characters `str.strip` removes. */
  predicate IsSpace(c: char) {
    var code := c as int;
    9 <= code <= 13 || 28 <= code <= 32 || code == 0x85 || code == 0xA0 || code == 0x1680
    || 0x2000 <= code <= 0x200A || code == 0x2028 || code == 0x2029 || code == 0x202F
    || code == 0x205F || code == 0x3000
  }

  function RStrip(s: string): (r: string)
    ensures r <= s
    ensures r == "" || !IsSpace(r[|r| - 1])
  {
    if s != "" && IsSpace(s[|s| - 1]) then RStrip(s[..|s| - 1]) else s
  }

  predicate Trimmed(s: string) {
    s == "" || !IsSpace(s[|s| - 1])
  }

  /** Stripping a longer prefix leaves no less. */
  lemma {:induction false} RStripMonotone(s: string, i: nat, j: nat)
    requires i <= j <= |s|
    ensures RStrip(s[..i]) <= RStrip(s[..j])
    decreases j
  {
    if i < j && IsSpace(s[j - 1]) {
      assert s[..j][..j - 1] == s[..j - 1];
      RStripMonotone(s, i, j - 1);
    } else if i < j {
      assert RStrip(s[..j]) == s[..j];
    }
  }

  predicate OneLine(s: string) {
    '\n' !in s
  }

  function JoinLines(lines: seq<string>): string
    requires lines != []
  {
    if |lines| == 1 then lines[0]
    else JoinLines(lines[..|lines| - 1]) + "\n" + lines[|lines| - 1]
  }

  /** `str.split("\n")`. */
  function SplitLines(s: string): (lines: seq<string>)
    ensures lines != []
  {
    if s == "" then [""]
    else
      var lines, c := SplitLines(s[..|s| - 1]), s[|s| - 1];
      if c == '\n' then lines + [""]
      else lines[..|lines| - 1] + [lines[|lines| - 1] + [c]]
  }

  lemma JoinAppend(lines: seq<string>, line: string)
    requires lines != []
    ensures JoinLines(lines + [line]) == JoinLines(lines) + "\n" + line
  {
    assert (lines + [line])[..|lines|] == lines;
  }

  lemma {:induction false} SplitAppend(s: string, line: string)
    requires OneLine(line)
    ensures SplitLines(s + "\n" + line) == SplitLines(s) + [line]
  {
    var whole := s + "\n" + line;
    if line == "" {
      assert whole[..|whole| - 1] == s;
    } else {
      var init, c := line[..|line| - 1], line[|line| - 1];
      assert whole[..|whole| - 1] == s + "\n" + init;
      SplitAppend(s, init);
      assert init + [c] == line;
      assert c in line;
    }
  }

  lemma {:induction false} SplitOneLine(line: string)
    requires OneLine(line)
    ensures SplitLines(line) == [line]
  {
    if line != "" {
      var init, c := line[..|line| - 1], line[|line| - 1];
      SplitOneLine(init);
      assert init + [c] == line;
      assert c in line;
    }
  }

  /** Splitting undoes joining, for lines that hold no newline. */
  lemma {:induction false} SplitJoin(lines: seq<string>)
    requires lines != [] && forall i :: 0 <= i < |lines| ==> OneLine(lines[i])
    ensures SplitLines(JoinLines(lines)) == lines
  {
    var init, last := lines[..|lines| - 1], lines[|lines| - 1];
    if init == [] {
      SplitOneLine(last);
    } else {
      SplitJoin(init);
      SplitAppend(JoinLines(init), last);
    }
    assert init + [last] == lines;
  }
}
