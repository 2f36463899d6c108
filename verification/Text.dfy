/** The string functions the configuration files are read and written with. */
module Text {

  /** unicode.IsSpace. */
  predicate IsSpace(c: char) {
    || c == ' ' || c == '\t' || c == '\n' || c == '\r' || c == '\U{0B}' || c == '\U{0C}'
    || c == '\U{85}' || c == '\U{A0}' || c == '\U{1680}' || '\U{2000}' <= c <= '\U{200A}'
    || c == '\U{2028}' || c == '\U{2029}' || c == '\U{202F}' || c == '\U{205F}' || c == '\U{3000}'
  }

  /** The white space of Unicode by its code points: the controls from the tab to the carriage return, the
      blank, the next line, and the wider and narrower blanks. */
  lemma SpaceLaw(c: char)
    ensures var n := c as int;
            IsSpace(c) <==>
            || 9 <= n <= 13 || n == 32 || n == 133 || n == 160 || n == 5760 || 8192 <= n <= 8202
            || n == 8232 || n == 8233 || n == 8239 || n == 8287 || n == 12288
  {
  }

  predicate NoSpace(s: string) {
    forall i :: 0 <= i < |s| ==> !IsSpace(s[i])
  }

  /** A field that can be written to a line and read back. */
  predicate IsToken(s: string) {
    s != "" && NoSpace(s)
  }

  predicate AllTokens(ts: seq<string>) {
    forall i :: 0 <= i < |ts| ==> IsToken(ts[i])
  }

  function TrimLeft(s: string): string {
    if s != "" && IsSpace(s[0]) then TrimLeft(s[1..]) else s
  }

  function TrimRight(s: string): string {
    if s != "" && IsSpace(s[|s| - 1]) then TrimRight(s[..|s| - 1]) else s
  }

  /** strings.TrimSpace. */
  function TrimSpace(s: string): string {
    TrimRight(TrimLeft(s))
  }

  /** The length of the leading run of characters that are not white space. */
  function TokenLength(s: string): (n: nat)
    ensures n <= |s| && NoSpace(s[..n]) && (n < |s| ==> IsSpace(s[n]))
  {
    if s == "" || IsSpace(s[0]) then 0
    else
      var n := 1 + TokenLength(s[1..]);
      assert s[..n] == [s[0]] + s[1..][..n - 1];
      n
  }

  /** strings.Fields. */
  function Fields(s: string): (ts: seq<string>)
    ensures AllTokens(ts)
    decreases |s|
  {
    if s == "" then []
    else if IsSpace(s[0]) then Fields(s[1..])
    else
      var n := TokenLength(s);
      assert n > 0;
      [s[..n]] + Fields(s[n..])
  }

  /** strings.Join with one space. */
  function Join(ts: seq<string>): string {
    if ts == [] then "" else if |ts| == 1 then ts[0] else ts[0] + " " + Join(ts[1..])
  }

  /** The lines a scanner yields; the text after the last newline counts unless it is empty. */
  function Lines(text: string): seq<string>
    decreases |text|
  {
    if text == "" then []
    else
      var n := LineLength(text);
      [text[..n]] + if n < |text| then Lines(text[n + 1..]) else []
  }

  predicate OneLine(s: string) {
    forall i :: 0 <= i < |s| ==> s[i] != '\n'
  }

  function LineLength(s: string): (n: nat)
    ensures n <= |s| && OneLine(s[..n]) && (n < |s| ==> s[n] == '\n')
  {
    if s == "" || s[0] == '\n' then 0
    else
      var n := 1 + LineLength(s[1..]);
      assert s[..n] == [s[0]] + s[1..][..n - 1];
      n
  }

  function Unlines(lines: seq<string>): string {
    if lines == [] then "" else lines[0] + "\n" + Unlines(lines[1..])
  }

  // ---------- what they do to each other ----------

  lemma {:induction false} TokenLengthOfToken(t: string, rest: string)
    requires NoSpace(t) && (rest != "" ==> IsSpace(rest[0]))
    ensures TokenLength(t + rest) == |t|
  {
    if t == "" {
      assert t + rest == rest;
    } else {
      assert (t + rest)[1..] == t[1..] + rest;
      TokenLengthOfToken(t[1..], rest);
    }
  }

  lemma FieldsOfToken(t: string, rest: string)
    requires IsToken(t) && (rest != "" ==> IsSpace(rest[0]))
    ensures Fields(t + rest) == [t] + Fields(rest)
  {
    TokenLengthOfToken(t, rest);
    assert (t + rest)[..|t|] == t && (t + rest)[|t|..] == rest;
  }

  lemma FieldsAfterBlank(s: string)
    ensures Fields(" " + s) == Fields(s)
  {
    assert (" " + s)[1..] == s;
  }

  /** Splitting undoes joining exactly for fields that are tokens. */
  lemma {:induction false} FieldsOfJoin(ts: seq<string>)
    ensures Fields(Join(ts)) == ts <==> AllTokens(ts)
  {
    if AllTokens(ts) && ts != [] {
      if |ts| == 1 {
        FieldsOfToken(ts[0], "");
        assert ts[0] + "" == ts[0];
      } else {
        var rest := " " + Join(ts[1..]);
        FieldsAfterBlank(Join(ts[1..]));
        FieldsOfJoin(ts[1..]);
        FieldsOfToken(ts[0], rest);
        assert Join(ts) == ts[0] + rest;
        hide Fields, Join, IsSpace;
      }
    }
  }

  lemma {:induction false} FieldsIgnoreTrailingSpace(s: string, c: char)
    requires IsSpace(c)
    ensures Fields(s + [c]) == Fields(s)
    decreases |s|
  {
    if s == "" {
      assert s + [c] == [c] && [c][1..] == "";
    } else if IsSpace(s[0]) {
      assert (s + [c])[1..] == s[1..] + [c];
      FieldsIgnoreTrailingSpace(s[1..], c);
    } else {
      var n := TokenLength(s);
      assert s == s[..n] + s[n..] && s + [c] == s[..n] + (s[n..] + [c]);
      FieldsOfToken(s[..n], s[n..] + [c]);
      FieldsOfToken(s[..n], s[n..]);
      FieldsIgnoreTrailingSpace(s[n..], c);
    }
  }

  lemma {:induction false} FieldsOfTrimRight(s: string)
    ensures Fields(TrimRight(s)) == Fields(s)
  {
    if s != "" && IsSpace(s[|s| - 1]) {
      FieldsOfTrimRight(s[..|s| - 1]);
      FieldsIgnoreTrailingSpace(s[..|s| - 1], s[|s| - 1]);
      assert s == s[..|s| - 1] + [s[|s| - 1]];
    }
  }

  lemma {:induction false} FieldsOfTrimLeft(s: string)
    ensures Fields(TrimLeft(s)) == Fields(s)
    ensures TrimLeft(s) != "" ==> !IsSpace(TrimLeft(s)[0])
  {
    if s != "" && IsSpace(s[0]) {
      FieldsOfTrimLeft(s[1..]);
    }
  }

  lemma {:induction false} TrimRightKeepsTheStart(s: string)
    requires s != "" && !IsSpace(s[0])
    ensures TrimRight(s) != "" && TrimRight(s)[0] == s[0]
  {
    if IsSpace(s[|s| - 1]) {
      TrimRightKeepsTheStart(s[..|s| - 1]);
    }
  }

  /** Trimming changes no field: a trimmed line is empty exactly when it has none, and otherwise starts
      with its first field. */
  lemma FieldsOfTrimmed(s: string)
    ensures Fields(TrimSpace(s)) == Fields(s)
    ensures TrimSpace(s) == "" <==> Fields(s) == []
    ensures TrimSpace(s) != "" ==> TrimSpace(s)[0] == Fields(s)[0][0]
  {
    FieldsOfTrimLeft(s);
    FieldsOfTrimRight(TrimLeft(s));
    if TrimLeft(s) != "" {
      TrimRightKeepsTheStart(TrimLeft(s));
    }
  }

  lemma {:induction false} LineLengthOfLine(line: string, rest: string)
    requires OneLine(line)
    ensures LineLength(line + "\n" + rest) == |line|
  {
    if line == "" {
      assert line + "\n" + rest == "\n" + rest;
    } else {
      assert (line + "\n" + rest)[1..] == line[1..] + "\n" + rest;
      LineLengthOfLine(line[1..], rest);
    }
  }

  lemma {:induction false} LinesOfUnlines(lines: seq<string>)
    requires forall i :: 0 <= i < |lines| ==> OneLine(lines[i])
    ensures Lines(Unlines(lines)) == lines
  {
    if lines != [] {
      var text := Unlines(lines);
      LineLengthOfLine(lines[0], Unlines(lines[1..]));
      LinesOfUnlines(lines[1..]);
      assert text[..|lines[0]|] == lines[0] && text[|lines[0]| + 1..] == Unlines(lines[1..]);
    }
  }

  lemma {:induction false} UnlinesOfAppend(a: seq<string>, line: string)
    ensures Unlines(a + [line]) == Unlines(a) + line + "\n"
  {
    if a == [] {
      assert a + [line] == [line] && [line][1..] == [];
      assert Unlines([line]) == line + "\n" + "";
    } else {
      assert (a + [line])[1..] == a[1..] + [line];
      UnlinesOfAppend(a[1..], line);
    }
  }

  lemma {:induction false} JoinedTokensAreOneLine(ts: seq<string>)
    requires AllTokens(ts)
    ensures OneLine(Join(ts))
  {
    if |ts| > 1 {
      JoinedTokensAreOneLine(ts[1..]);
    }
  }
}
