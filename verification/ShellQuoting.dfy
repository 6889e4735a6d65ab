/** Shell quoting on the server and in the browser, against a reader of POSIX quoting:
    sections 2.2.1 to 2.2.3 of the POSIX.1-2017 Shell Command Language. */
module ShellQuoting {
  import opened Wrappers

  datatype Mode = Bare | Single | Double

  predicate Blank(c: char)
  {
    c == ' ' || c == '\t'
  }

  /** Unquoted characters that are operators, expand, or mean something in some places. */
  predicate Special(c: char)
  {
    c in "|&;<>()$`\n*?[#~%"
  }

  /** A character that stands for itself wherever it is. */
  predicate Plain(c: char)
  {
    !Blank(c) && !Special(c) && c !in "'\"\\="
  }

  /** The text of a word that has perhaps begun. */
  function Text(word: Option<string>): string
  {
    match word case None => "" case Some(w) => w
  }

  function Extended(word: Option<string>, c: char): Option<string>
  {
    Some(Text(word) + [c])
  }

  function Ended(done: seq<string>, word: Option<string>): seq<string>
  {
    match word case None => done case Some(w) => done + [w]
  }

  /** The fields of a simple command, `done` and `word` having been read already. A quote
      begins a word even if nothing is in it. `None` if a quote is left open, an expansion
      would take place, an unquoted special character occurs, or the first word has an
      unquoted `=` and would be an assignment. */
  function Fields(s: string, mode: Mode, done: seq<string>, word: Option<string>): Option<seq<string>>
    decreases |s|
  {
    match mode
    case Bare =>
      if s == "" then Some(Ended(done, word))
      else if s[0] == '\'' then Fields(s[1..], Single, done, Some(Text(word)))
      else if s[0] == '"' then Fields(s[1..], Double, done, Some(Text(word)))
      else if s[0] == '\\' then
        if |s| == 1 then None
        else if s[1] == '\n' then Fields(s[2..], Bare, done, word)
        else Fields(s[2..], Bare, done, Extended(word, s[1]))
      else if Blank(s[0]) then Fields(s[1..], Bare, Ended(done, word), None)
      else if Special(s[0]) || (s[0] == '=' && done == []) then None
      else Fields(s[1..], Bare, done, Extended(word, s[0]))
    case Single =>
      if s == "" then None
      else if s[0] == '\'' then Fields(s[1..], Bare, done, word)
      else Fields(s[1..], Single, done, Extended(word, s[0]))
    case Double =>
      if s == "" then None
      else if s[0] == '"' then Fields(s[1..], Bare, done, word)
      else if s[0] == '$' || s[0] == '`' then None
      else if s[0] == '\\' && |s| > 1 && s[1] in "$`\"\\" then Fields(s[2..], Double, done, Extended(word, s[1]))
      else if s[0] == '\\' && |s| > 1 && s[1] == '\n' then Fields(s[2..], Double, done, word)
      else Fields(s[1..], Double, done, Extended(word, s[0]))
  }

  lemma FirstField(w: string)
    ensures Ended([], Some(w)) == [w]
  {
    assert [] + [w] == [w];
  }

  /** The fields of a whole command line. */
  function Words(s: string): Option<seq<string>>
  {
    Fields(s, Bare, [], None)
  }

  // ---- shell_quote ----

  function ReplaceQuotes(v: string): string
  {
    if v == "" then "" else (if v[0] == '\'' then "'\"'\"'" else [v[0]]) + ReplaceQuotes(v[1..])
  }

  function ShellQuote(v: string): string
  {
    "'" + ReplaceQuotes(v) + "'"
  }

  lemma SingleStep(c: char, inner: string, done: seq<string>, w: string)
    requires c != '\''
    ensures Fields([c] + inner, Single, done, Some(w)) == Fields(inner, Single, done, Some(w + [c]))
  {
    assert ([c] + inner)[1..] == inner;
  }

  lemma SingleEnd(tail: string, done: seq<string>, w: string)
    ensures Fields("'" + tail, Single, done, Some(w)) == Fields(tail, Bare, done, Some(w))
  {
    assert ("'" + tail)[1..] == tail;
  }

  /** Closing the single quotes, a double-quoted quote, and opening them again. */
  lemma SwitchQuotes(inner: string, done: seq<string>, w: string)
    ensures Fields("'\"'\"'" + inner, Single, done, Some(w)) == Fields(inner, Single, done, Some(w + "'"))
  {
    var s := "'\"'\"'" + inner;
    var s1 := "\"'\"'" + inner;
    var s2 := "'\"'" + inner;
    var s3 := "\"'" + inner;
    var s4 := "'" + inner;
    assert s[0] == '\'' && s[1..] == s1;
    assert s1[0] == '"' && s1[1..] == s2;
    assert s2[0] == '\'' && s2[1..] == s3;
    assert s3[0] == '"' && s3[1..] == s4;
    assert s4[0] == '\'' && s4[1..] == inner;
    assert Fields(s, Single, done, Some(w)) == Fields(s1, Bare, done, Some(w));
    assert Fields(s1, Bare, done, Some(w)) == Fields(s2, Double, done, Some(w));
    assert Fields(s2, Double, done, Some(w)) == Fields(s3, Double, done, Some(w + "'"));
    assert Fields(s3, Double, done, Some(w + "'")) == Fields(s4, Bare, done, Some(w + "'"));
    assert Fields(s4, Bare, done, Some(w + "'")) == Fields(inner, Single, done, Some(w + "'"));
  }

  /** Inside single quotes the replaced text reads back as the original, wherever it stands. */
  lemma {:induction false} ReplacedReadsBack(v: string, tail: string, done: seq<string>, w: string)
    ensures Fields(ReplaceQuotes(v) + ("'" + tail), Single, done, Some(w)) == Fields(tail, Bare, done, Some(w + v))
    decreases |v|
  {
    hide Fields;
    var rest := "'" + tail;
    if v == "" {
      assert ReplaceQuotes(v) + rest == rest && w + v == w;
      SingleEnd(tail, done, w);
    } else {
      var inner := ReplaceQuotes(v[1..]) + rest;
      ReplacedReadsBack(v[1..], tail, done, w + [v[0]]);
      if v[0] == '\'' {
        Associative("'\"'\"'", ReplaceQuotes(v[1..]), rest);
        SwitchQuotes(inner, done, w);
      } else {
        Associative([v[0]], ReplaceQuotes(v[1..]), rest);
        SingleStep(v[0], inner, done, w);
      }
      assert w + [v[0]] + v[1..] == w + v;
    }
  }

  /** A quoted string in any place adds exactly its text to the word it stands in, or begins
      one, and what follows is read on from there. Alone it is one word, also when empty. */
  lemma {:induction false} ShellQuoteRoundTrip(v: string, tail: string, done: seq<string>, word: Option<string>)
    ensures Fields(ShellQuote(v) + tail, Bare, done, word) == Fields(tail, Bare, done, Some(Text(word) + v))
    ensures Words(ShellQuote(v)) == Some([v])
  {
    QuotedField(v, tail, done, word);
    QuotedField(v, "", [], None);
    FirstField(v);
    assert ShellQuote(v) + "" == ShellQuote(v) && "" + v == v;
  }

  lemma {:induction false} QuotedField(v: string, tail: string, done: seq<string>, word: Option<string>)
    ensures Fields(ShellQuote(v) + tail, Bare, done, word) == Fields(tail, Bare, done, Some(Text(word) + v))
  {
    ReplacedReadsBack(v, tail, done, Text(word));
    assert (ShellQuote(v) + tail)[1..] == ReplaceQuotes(v) + ("'" + tail);
  }

  // ---- optional_export_line ----

  function OptionalExportLine(name: string, value: Option<string>): string
  {
    match value case None => "" case Some(v) => "export " + name + "=" + ShellQuote(v)
  }

  predicate AllPlain(s: string)
  {
    forall i | 0 <= i < |s| :: Plain(s[i])
  }

  /** Plain text adds itself to the word it stands in. */
  lemma {:induction false} PlainReadsBack(p: string, tail: string, done: seq<string>, word: Option<string>)
    requires p != "" && AllPlain(p)
    ensures Fields(p + tail, Bare, done, word) == Fields(tail, Bare, done, Some(Text(word) + p))
    decreases |p|
  {
    assert (p + tail)[0] == p[0] && (p + tail)[1..] == p[1..] + tail && Plain(p[0]);
    if |p| == 1 {
      assert p[1..] + tail == tail && p == [p[0]];
    } else {
      PlainReadsBack(p[1..], tail, done, Extended(word, p[0]));
      assert Text(word) + [p[0]] + p[1..] == Text(word) + p;
    }
  }

  /** After `export NAME=` comes one word, the value; and if the name is plain text, the line
      is the command `export` with the one argument `NAME=` and then the value. Without a value
      the line is empty. */
  lemma {:induction false} ExportLineCarriesValue(name: string, v: string)
    ensures var line := OptionalExportLine(name, Some(v));
            var head := "export " + name + "=";
            && head <= line && Words(line[|head|..]) == Some([v])
            && (name != "" && AllPlain(name) ==> Words(line) == Some(["export", name + "=" + v]))
    ensures Words(OptionalExportLine(name, None)) == Some([])
  {
    var line := OptionalExportLine(name, Some(v));
    var head := "export " + name + "=";
    ShellQuoteRoundTrip(v, "", [], None);
    assert line[|head|..] == ShellQuote(v);
    if name != "" && AllPlain(name) {
      ExportFields(name, v);
    }
  }

  lemma BlankStep(tail: string, done: seq<string>, word: Option<string>)
    ensures Fields(" " + tail, Bare, done, word) == Fields(tail, Bare, Ended(done, word), None)
  {
    assert (" " + tail)[1..] == tail;
  }

  lemma EqualsStep(tail: string, done: seq<string>, w: string)
    requires done != []
    ensures Fields("=" + tail, Bare, done, Some(w)) == Fields(tail, Bare, done, Some(w + "="))
  {
    assert ("=" + tail)[1..] == tail;
  }

  lemma NothingLeft(done: seq<string>, w: string)
    ensures Fields("", Bare, done, Some(w)) == Some(done + [w])
  {
  }

  lemma ExportIsPlain()
    ensures AllPlain("export")
  {
    hide Special;
    assert Plain('e') && Plain('x') && Plain('p') && Plain('o') && Plain('r') && Plain('t') by {
      LetterIsPlain('e');
      LetterIsPlain('x');
      LetterIsPlain('p');
      LetterIsPlain('o');
      LetterIsPlain('r');
      LetterIsPlain('t');
    }
  }

  lemma LetterIsPlain(c: char)
    requires 'a' <= c <= 'z'
    ensures Plain(c)
  {
  }

  lemma {:induction false} ExportFields(name: string, v: string)
    requires name != "" && AllPlain(name)
    ensures Words("export " + name + "=" + ShellQuote(v)) == Some(["export", name + "=" + v])
  {
    hide ShellQuote, Fields, AllPlain;
    var quoted := ShellQuote(v);
    var argument := name + ("=" + quoted);
    var command := ["export"];
    assert "export " + name + "=" + quoted == "export" + (" " + argument);
    assert "" + "export" == "export" && "" + name == name && quoted + "" == quoted;
    ExportIsPlain();
    PlainReadsBack("export", " " + argument, [], None);
    BlankStep(argument, [], Some("export"));
    FirstField("export");
    PlainReadsBack(name, "=" + quoted, command, None);
    EqualsStep(quoted, command, name);
    QuotedField(v, "", command, Some(name + "="));
    NothingLeft(command, name + "=" + v);
    assert command + [name + "=" + v] == ["export", name + "=" + v];
  }

  // ---- escapeShellDoubleQuoted ----

  predicate ControlCode(c: char)
  {
    var n := c as int;
    n <= 0x1F || 0x7F <= n <= 0x9F
  }

  predicate BidiOrZeroWidth(c: char)
  {
    var n := c as int;
    0x200B <= n <= 0x200F || 0x202A <= n <= 0x202E || 0x2066 <= n <= 0x2069 || n == 0xFEFF
  }

  function Cleaned(s: string): string
  {
    if s == "" then ""
    else
      var init, c := Cleaned(s[..|s| - 1]), s[|s| - 1];
      if ControlCode(c) || BidiOrZeroWidth(c) then init else init + [c]
  }

  function WithoutControls(s: string): string
  {
    if s == "" then ""
    else
      var init, c := WithoutControls(s[..|s| - 1]), s[|s| - 1];
      if ControlCode(c) then init else init + [c]
  }

  function WithoutBidi(s: string): string
  {
    if s == "" then ""
    else
      var init, c := WithoutBidi(s[..|s| - 1]), s[|s| - 1];
      if BidiOrZeroWidth(c) then init else init + [c]
  }

  function EscapeDoubleChar(c: char): string
  {
    if c in "\\\"$`" then ['\\', c] else [c]
  }

  function EscapeDouble(s: string): string
  {
    if s == "" then "" else EscapeDoubleChar(s[0]) + EscapeDouble(s[1..])
  }

  lemma {:induction false} TwoPassesCleanOnce(s: string)
    ensures WithoutBidi(WithoutControls(s)) == Cleaned(s)
    decreases |s|
  {
    if s != "" {
      var init, c := s[..|s| - 1], s[|s| - 1];
      TwoPassesCleanOnce(init);
      if !ControlCode(c) {
        assert (WithoutControls(init) + [c])[..|WithoutControls(init)|] == WithoutControls(init);
      }
    }
  }

  method EscapeShellDoubleQuoted(value: Option<string>) returns (r: string)
    ensures r == match value case None => "" case Some(s) => EscapeDouble(Cleaned(s))
  {
    if value.None? || value.value == "" {
      return "";
    }
    var s := value.value;
    var cleaned := "";
    for i := 0 to |s|
      invariant cleaned == WithoutControls(s[..i])
    {
      assert s[..i + 1][..i] == s[..i];
      if !ControlCode(s[i]) {
        cleaned := cleaned + [s[i]];
      }
    }
    assert s[..|s|] == s;
    TwoPassesCleanOnce(s);
    return EscapeDouble(WithoutBidi(cleaned));
  }

  lemma DoubleStep(c: char, inner: string, done: seq<string>, w: string)
    ensures Fields(EscapeDoubleChar(c) + inner, Double, done, Some(w)) == Fields(inner, Double, done, Some(w + [c]))
  {
    var whole := EscapeDoubleChar(c) + inner;
    if c in "\\\"$`" {
      assert whole[0] == '\\' && whole[1] == c && whole[2..] == inner;
    } else {
      assert whole[0] == c && whole[1..] == inner;
    }
  }

  lemma DoubleEnd(tail: string, done: seq<string>, w: string)
    ensures Fields("\"" + tail, Double, done, Some(w)) == Fields(tail, Bare, done, Some(w))
  {
    assert ("\"" + tail)[1..] == tail;
  }

  /** Inside double quotes the escaped text reads back as itself: nothing expands and the
      quote does not end early. */
  lemma {:induction false} EscapedReadsBack(s: string, tail: string, done: seq<string>, w: string)
    ensures Fields(EscapeDouble(s) + ("\"" + tail), Double, done, Some(w)) == Fields(tail, Bare, done, Some(w + s))
    decreases |s|
  {
    hide Fields, EscapeDoubleChar;
    var rest := "\"" + tail;
    if s == "" {
      assert EscapeDouble(s) + rest == rest && w + s == w;
      DoubleEnd(tail, done, w);
    } else {
      EscapedReadsBack(s[1..], tail, done, w + [s[0]]);
      Associative(EscapeDoubleChar(s[0]), EscapeDouble(s[1..]), rest);
      DoubleStep(s[0], EscapeDouble(s[1..]) + rest, done, w);
      assert w + [s[0]] + s[1..] == w + s;
    }
  }

  /** A double-quoted argument built from the escaped value is one word, the cleaned text, also
      when that is empty; in any place it adds that text to the word it stands in. */
  lemma {:induction false} EscapedArgumentIsOneWord(s: string, tail: string, done: seq<string>, word: Option<string>)
    ensures Fields("\"" + EscapeDouble(Cleaned(s)) + "\"" + tail, Bare, done, word) ==
            Fields(tail, Bare, done, Some(Text(word) + Cleaned(s)))
    ensures Words("\"" + EscapeDouble(Cleaned(s)) + "\"") == Some([Cleaned(s)])
  {
    EscapedField(Cleaned(s), tail, done, word);
    EscapedField(Cleaned(s), "", [], None);
    FirstField(Cleaned(s));
    var argument := "\"" + EscapeDouble(Cleaned(s)) + "\"";
    assert argument + "" == argument && "" + Cleaned(s) == Cleaned(s);
  }

  lemma {:induction false} EscapedField(s: string, tail: string, done: seq<string>, word: Option<string>)
    ensures Fields("\"" + EscapeDouble(s) + "\"" + tail, Bare, done, word) ==
            Fields(tail, Bare, done, Some(Text(word) + s))
  {
    EscapedReadsBack(s, tail, done, Text(word));
    assert ("\"" + EscapeDouble(s) + "\"" + tail)[1..] == EscapeDouble(s) + ("\"" + tail);
  }
}
