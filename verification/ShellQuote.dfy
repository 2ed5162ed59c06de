/** Quote tracking over script buffers, and single-quoting, against sections 2.2 and 2.6.7 of the
    POSIX.1-2017 Shell Command Language. */
module ShellQuote {
  import opened Text

  datatype Quote = Unquoted | Single | Double

  /*** The scanner ***/

  /** State after scanning one line from its start. */
  function ScanLine(line: string, q: Quote): Quote {
    if line == "" then q
    else
      var c := line[0];
      match q
      case Single => ScanLine(line[1..], if c == '\'' then Unquoted else Single)
      case Double =>
        if c == '\\' && |line| > 1 then ScanLine(line[2..], Double)
        else ScanLine(line[1..], if c == '"' then Unquoted else Double)
      case Unquoted =>
        if c == '\\' && |line| > 1 then ScanLine(line[2..], Unquoted)
        else ScanLine(line[1..], if c == '\'' then Single else if c == '"' then Double else Unquoted)
  }

  function ScanLines(lines: seq<string>, q: Quote): Quote
    decreases |lines|
  {
    if lines == [] then q else ScanLines(lines[1..], ScanLine(lines[0], q))
  }

  /** The accumulated script ends inside a quoted string. */
  predicate Open(buf: seq<string>) {
    ScanLines(buf, Unquoted) != Unquoted
  }

  function QuoteOf(inSingle: bool, inDouble: bool): Quote {
    if inSingle then Single else if inDouble then Double else Unquoted
  }

  /** The scan of one line: two flags and an index that skips escaped characters. */
  method ScanOneLine(line: string, inSingle0: bool, inDouble0: bool) returns (inSingle: bool, inDouble: bool)
    requires !(inSingle0 && inDouble0)
    ensures !(inSingle && inDouble)
    ensures QuoteOf(inSingle, inDouble) == ScanLine(line, QuoteOf(inSingle0, inDouble0))
  {
    inSingle, inDouble := inSingle0, inDouble0;
    var i := 0;
    while i < |line|
      invariant 0 <= i <= |line| && !(inSingle && inDouble)
      invariant ScanLine(line, QuoteOf(inSingle0, inDouble0)) == ScanLine(line[i..], QuoteOf(inSingle, inDouble))
    {
      ScanTail(line, i, QuoteOf(inSingle, inDouble));
      var c := line[i];
      if inSingle {
        if c == '\'' {
          inSingle := false;
        }
      } else if inDouble {
        if c == '\\' && i + 1 < |line| {
          i := i + 2;
          continue;
        }
        if c == '"' {
          inDouble := false;
        }
      } else {
        if c == '\\' && i + 1 < |line| {
          i := i + 2;
          continue;
        }
        if c == '\'' {
          inSingle := true;
        } else if c == '"' {
          inDouble := true;
        }
      }
      i := i + 1;
    }
  }

  /** One unfolding of ScanLine at an index. */
  lemma {:induction false} ScanTail(line: string, i: nat, q: Quote)
    requires i < |line|
    ensures ScanLine(line[i..], q) ==
      var c := line[i];
      if q != Single && c == '\\' && i + 1 < |line| then ScanLine(line[i + 2..], q)
      else ScanLine(line[i + 1..], After(c, q))
  {
    var t := line[i..];
    assert t[1..] == line[i + 1..];
    assert |t| > 1 ==> t[2..] == line[i + 2..];
  }

  /** Effect of an unescaped character. */
  function After(c: char, q: Quote): Quote {
    match q
    case Single => if c == '\'' then Unquoted else Single
    case Double => if c == '"' then Unquoted else Double
    case Unquoted => if c == '\'' then Single else if c == '"' then Double else Unquoted
  }

  /** hasOpenShellQuote. */
  method HasOpenShellQuote(scriptBuf: seq<string>) returns (open: bool)
    ensures open == Open(scriptBuf)
  {
    if |scriptBuf| == 0 {
      return false;
    }
    var inSingle, inDouble := false, false;
    for k := 0 to |scriptBuf|
      invariant !(inSingle && inDouble)
      invariant ScanLines(scriptBuf, Unquoted) == ScanLines(scriptBuf[k..], QuoteOf(inSingle, inDouble))
    {
      assert scriptBuf[k..][1..] == scriptBuf[k + 1..];
      inSingle, inDouble := ScanOneLine(scriptBuf[k], inSingle, inDouble);
    }
    return inSingle || inDouble;
  }

  /*** Scanning line by line is scanning the joined script ***/

  lemma {:induction false} ScanAcrossNewline(l: string, rest: string, q: Quote, text: string)
    requires text == l + ['\n'] + rest
    ensures ScanLine(text, q) == ScanLine(rest, ScanLine(l, q))
    decreases |l|
  {
    if l == "" {
      assert text[1..] == rest;
    } else if q != Single && l[0] == '\\' && |l| == 1 {
      assert text[2..] == rest && l[1..] == "";
    } else if q != Single && l[0] == '\\' {
      assert text[2..] == l[2..] + ['\n'] + rest;
      ScanAcrossNewline(l[2..], rest, q, text[2..]);
    } else {
      assert text[1..] == l[1..] + ['\n'] + rest;
      ScanAcrossNewline(l[1..], rest, After(l[0], q), text[1..]);
    }
  }

  /** How a script is cut into lines does not matter: a backslash at the end of a line, which the
      line-wise scan ignores, would only have escaped the newline. */
  lemma {:induction false} ScanLinesIsScanJoined(lines: seq<string>, q: Quote)
    requires |lines| >= 1
    ensures ScanLines(lines, q) == ScanLine(Join(lines, '\n'), q)
    decreases |lines|
  {
    if |lines| == 1 {
      assert lines[1..] == [];
    } else {
      ScanAcrossNewline(lines[0], Join(lines[1..], '\n'), q, Join(lines, '\n'));
      ScanLinesIsScanJoined(lines[1..], ScanLine(lines[0], q));
    }
  }

  /** Scanning a buffer is scanning its parts in turn. */
  lemma {:induction false} ScanLinesAppend(a: seq<string>, b: seq<string>, q: Quote)
    ensures ScanLines(a + b, q) == ScanLines(b, ScanLines(a, q))
    decreases |a|
  {
    if a == [] {
      assert a + b == b;
    } else {
      assert (a + b)[1..] == a[1..] + b;
      ScanLinesAppend(a[1..], b, ScanLine(a[0], q));
    }
  }

  /*** Reference: POSIX quote removal ***/

  /** Characters a backslash escapes between double quotes (section 2.2.3). */
  predicate EscapableInDouble(c: char) {
    c == '$' || c == '`' || c == '"' || c == '\\' || c == '\n'
  }

  function Prepend(t: string, r: Option<string>): Option<string> {
    match r case None => None case Some(s) => Some(t + s)
  }

  /** What remains of `s` after quote removal, None when a quoted string is left open. An escaped
      newline disappears (section 2.2.1); a backslash with nothing after it stays. */
  function Removal(s: string, q: Quote): Option<string> {
    if s == "" then (if q == Unquoted then Some("") else None)
    else
      var c := s[0];
      match q
      case Single => if c == '\'' then Removal(s[1..], Unquoted) else Prepend([c], Removal(s[1..], Single))
      case Double =>
        if c == '"' then Removal(s[1..], Unquoted)
        else if c == '\\' && |s| > 1 && EscapableInDouble(s[1]) then
          Prepend(if s[1] == '\n' then "" else [s[1]], Removal(s[2..], Double))
        else Prepend([c], Removal(s[1..], Double))
      case Unquoted =>
        if c == '\'' then Removal(s[1..], Single)
        else if c == '"' then Removal(s[1..], Double)
        else if c == '\\' && |s| > 1 then Prepend(if s[1] == '\n' then "" else [s[1]], Removal(s[2..], Unquoted))
        else Prepend([c], Removal(s[1..], Unquoted))
  }

  lemma {:induction false} ScanAgreesWithRemoval(s: string, q: Quote)
    ensures ScanLine(s, q) == Unquoted <==> Removal(s, q).Some?
    decreases |s|
  {
    if s == "" {
    } else {
      if q != Single && s[0] == '\\' && |s| > 1 {
        ScanAgreesWithRemoval(s[2..], q);
        if q == Double && !EscapableInDouble(s[1]) {
          PlainInDouble(s);
        }
      } else {
        ScanAgreesWithRemoval(s[1..], After(s[0], q));
      }
    }
  }

  /** Between double quotes a backslash before an ordinary character is two ordinary characters. */
  lemma {:induction false} PlainInDouble(s: string)
    requires |s| > 1 && s[0] == '\\' && !EscapableInDouble(s[1])
    ensures Removal(s, Double) == Prepend([s[0]], Prepend([s[1]], Removal(s[2..], Double)))
  {
    assert s[1..][0] == s[1] && s[1..][1..] == s[2..];
  }

  /** The scanner reports an open quote exactly for the scripts whose quote removal fails. */
  lemma {:induction false} OpenIsUnterminated(lines: seq<string>)
    requires |lines| >= 1
    ensures Open(lines) <==> Removal(Join(lines, '\n'), Unquoted) == None
  {
    ScanLinesIsScanJoined(lines, Unquoted);
    ScanAgreesWithRemoval(Join(lines, '\n'), Unquoted);
  }

  /*** bashSingleQuote ***/

  const QUOTE_ESCAPE := ['\'', '\\', '\'', '\'']

  function BashSingleQuote(s: string): string {
    ['\''] + ReplaceAll(s, ['\''], QUOTE_ESCAPE) + ['\'']
  }

  lemma {:induction false} RemovalOfEscape(rest: string, text: string)
    requires text == QUOTE_ESCAPE + rest
    ensures Removal(text, Single) == Prepend(['\''], Removal(rest, Single))
  {
    var t1 := text[1..];
    assert t1 == ['\\', '\'', '\''] + rest;
    var t3 := t1[2..];
    assert t3 == ['\''] + rest && t3[1..] == rest;
    assert Removal(text, Single) == Removal(t1, Unquoted);
    assert Removal(t1, Unquoted) == Prepend(['\''], Removal(t3, Unquoted));
  }

  lemma {:induction false} RemovalOfBody(s: string, rest: string, text: string)
    requires text == ReplaceAll(s, ['\''], QUOTE_ESCAPE) + (['\''] + rest)
    ensures Removal(text, Single) == Prepend(s, Removal(rest, Unquoted))
    decreases |s|
  {
    var tail := ['\''] + rest;
    if s == "" {
      assert text == tail && tail[1..] == rest;
      PrependEmpty(Removal(rest, Unquoted));
    } else {
      var body := ReplaceAll(s[1..], ['\''], QUOTE_ESCAPE) + tail;
      RemovalOfBody(s[1..], rest, body);
      PrependTwice([s[0]], s[1..], Removal(rest, Unquoted));
      assert [s[0]] + s[1..] == s;
      if s[0] == '\'' {
        assert text == QUOTE_ESCAPE + body;
        RemovalOfEscape(body, text);
      } else {
        assert !HasPrefix(s, ['\'']);
        assert text == [s[0]] + body && text[1..] == body;
      }
    }
  }

  lemma {:induction false} PrependEmpty(r: Option<string>)
    ensures Prepend("", r) == r
  {
    if r.Some? {
      assert "" + r.value == r.value;
    }
  }

  lemma {:induction false} PrependTwice(a: string, b: string, r: Option<string>)
    ensures Prepend(a, Prepend(b, r)) == Prepend(a + b, r)
  {
    if r.Some? {
      assert a + (b + r.value) == (a + b) + r.value;
    }
  }

  /** A single-quoted string, wherever it is pasted into a command, is removed to exactly the
      original string and leaves the quoting of what follows alone. */
  lemma {:induction false} SingleQuoteRoundTrip(s: string, rest: string)
    ensures Removal(BashSingleQuote(s) + rest, Unquoted) == Prepend(s, Removal(rest, Unquoted))
  {
    var text := BashSingleQuote(s) + rest;
    var body := ReplaceAll(s, ['\''], QUOTE_ESCAPE) + (['\''] + rest);
    assert text == ['\''] + body;
    assert text[1..] == body;
    RemovalOfBody(s, rest, body);
  }

  lemma {:induction false} SingleQuoteIsClosed(s: string)
    ensures Removal(BashSingleQuote(s), Unquoted) == Some(s)
    ensures !Open([BashSingleQuote(s)])
  {
    SingleQuoteRoundTrip(s, "");
    assert BashSingleQuote(s) + "" == BashSingleQuote(s) && s + "" == s;
    OpenIsUnterminated([BashSingleQuote(s)]);
  }
}
