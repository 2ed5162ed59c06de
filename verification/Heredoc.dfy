/** Here-document openers (section 2.7.4 of the POSIX.1-2017 Shell Command Language) as the
    agent recognises them: the leftmost match of `<<-?\s*['"]?([A-Za-z_][A-Za-z0-9_]*)['"]?`. */
module Heredoc {
  import opened Text

  /** The regular expression class `\s`. */
  predicate IsReSpace(c: char) {
    c == '\t' || c == '\n' || c == '\U{0C}' || c == '\r' || c == ' '
  }

  predicate IsIdentStart(c: char) {
    'A' <= c <= 'Z' || 'a' <= c <= 'z' || c == '_'
  }

  predicate IsIdentChar(c: char) {
    IsIdentStart(c) || '0' <= c <= '9'
  }

  function IdentTail(s: string): string {
    if s != "" && IsIdentChar(s[0]) then [s[0]] + IdentTail(s[1..]) else ""
  }

  function Ident(s: string): string {
    if s != "" && IsIdentStart(s[0]) then IdentTail(s) else ""
  }

  function DropDash(s: string): string {
    if s != "" && s[0] == '-' then s[1..] else s
  }

  function DropQuote(s: string): string {
    if s != "" && (s[0] == '\'' || s[0] == '"') then s[1..] else s
  }

  /** `\s*['"]?` and the delimiter word. */
  function DelimiterWord(s: string): string {
    if s != "" && IsReSpace(s[0]) then DelimiterWord(s[1..]) else Ident(DropQuote(s))
  }

  /** The delimiter word that follows `<<`, or "" when the text does not continue an opener. */
  function OpenerWord(s: string): string {
    DelimiterWord(DropDash(s))
  }

  /** detectHeredocTerm: the delimiter of the leftmost opener on the line, or "". */
  function DetectTerm(line: string): string {
    if |line| < 2 then ""
    else if line[0] == '<' && line[1] == '<' && OpenerWord(line[2..]) != "" then OpenerWord(line[2..])
    else DetectTerm(line[1..])
  }

  /** What a line means to here-document scanning: the delimiter it opens ("" for none), and the
      trimmed text that is compared with an awaited delimiter. */
  datatype Role = Role(opens: string, trimmed: string)

  function RoleOf(line: string): Role {
    Role(DetectTerm(line), TrimSpace(line))
  }

  function Roles(lines: seq<string>): (r: seq<Role>)
    ensures |r| == |lines|
    decreases |lines|
  {
    if lines == [] then [] else [RoleOf(lines[0])] + Roles(lines[1..])
  }

  lemma {:induction false} RolesAt(lines: seq<string>, i: nat)
    requires i < |lines|
    ensures Roles(lines)[i] == RoleOf(lines[i])
    decreases |lines|
  {
    if i == 0 {
    } else {
      RolesAt(lines[1..], i - 1);
    }
  }

  /** Scanning line by line as section 2.7.4 has it: the delimiter awaited after a line, given the
      one awaited before it; "" outside documents. */
  function Await(term: string, line: Role): string {
    if term == "" then line.opens else if line.trimmed == term then "" else term
  }

  lemma {:induction false} IdentTailChars(s: string)
    ensures All(IdentTail(s), IsIdentChar)
  {
    if s == "" || !IsIdentChar(s[0]) {
    } else {
      IdentTailChars(s[1..]);
    }
  }

  lemma {:induction false} DelimiterWordChars(s: string)
    ensures All(DelimiterWord(s), IsIdentChar) && (DelimiterWord(s) != "" ==> IsIdentStart(DelimiterWord(s)[0]))
  {
    if s != "" && IsReSpace(s[0]) {
      DelimiterWordChars(s[1..]);
    } else {
      IdentTailChars(DropQuote(s));
    }
  }

  /** A delimiter is a bare identifier, which does not start with a digit. */
  lemma {:induction false} DetectTermIsIdent(line: string)
    ensures All(DetectTerm(line), IsIdentChar) && (DetectTerm(line) != "" ==> IsIdentStart(DetectTerm(line)[0]))
  {
    if |line| < 2 {
    } else {
      if line[0] == '<' && line[1] == '<' && OpenerWord(line[2..]) != "" {
        DelimiterWordChars(DropDash(line[2..]));
      } else {
        DetectTermIsIdent(line[1..]);
      }
    }
  }

  lemma {:induction false} IdentTailIsPrefix(s: string)
    ensures IdentTail(s) <= s
  {
    if s == "" {
    } else {
      IdentTailIsPrefix(s[1..]);
    }
  }

  lemma {:induction false} PrefixIsContained(a: string, s: string, line: string)
    requires line == a + s
    ensures forall w :: w <= s ==> Contains(line, w)
  {
    forall w | w <= s ensures Contains(line, w) {
      assert line == a + w + s[|w|..];
      ContainsByParts(a, w, s[|w|..]);
    }
  }

  lemma {:induction false} WordIsContained(a: string, s: string, line: string)
    requires line == a + s
    ensures Contains(line, DelimiterWord(s))
    decreases |s|
  {
    if s != "" && IsReSpace(s[0]) {
      assert line == (a + [s[0]]) + s[1..];
      WordIsContained(a + [s[0]], s[1..], line);
    } else {
      var rest := DropQuote(s);
      var skipped := s[..|s| - |rest|];
      assert s == skipped + rest && line == (a + skipped) + rest;
      IdentTailIsPrefix(rest);
      PrefixIsContained(a + skipped, rest, line);
      assert Ident(rest) <= rest;
    }
  }

  /** The delimiter that a line opens stands in that line. */
  lemma {:induction false} TermIsContained(a: string, s: string, line: string)
    requires line == a + s
    ensures Contains(line, DetectTerm(s))
    decreases |s|
  {
    if |s| < 2 {
      PrefixIsContained(a, s, line);
      assert "" <= s;
    } else if s[0] == '<' && s[1] == '<' && OpenerWord(s[2..]) != "" {
      var rest := DropDash(s[2..]);
      var skipped := s[..|s| - |rest|];
      assert s == skipped + rest && line == (a + skipped) + rest;
      WordIsContained(a + skipped, rest, line);
    } else {
      assert line == (a + [s[0]]) + s[1..];
      TermIsContained(a + [s[0]], s[1..], line);
    }
  }

  /*** Surrounding white space never changes which here-document a line opens ***/

  /** Characters that neither start, continue nor decorate an opener. */
  predicate IsInert(c: char) {
    !IsIdentChar(c) && c != '<' && c != '-' && c != '\'' && c != '"'
  }

  lemma {:induction false} SpacesAreInert(b: string)
    requires All(b, IsSpace)
    ensures All(b, IsInert)
  {
  }

  lemma {:induction false} IdentTailIgnoresTail(s: string, b: string)
    requires All(b, IsInert)
    ensures IdentTail(s + b) == IdentTail(s)
  {
    if s == "" {
      assert s + b == b;
    } else {
      assert (s + b)[1..] == s[1..] + b;
      IdentTailIgnoresTail(s[1..], b);
    }
  }

  lemma {:induction false} IdentIgnoresTail(s: string, b: string)
    requires All(b, IsInert)
    ensures Ident(s + b) == Ident(s)
  {
    IdentTailIgnoresTail(s, b);
    if s == "" {
      assert s + b == b;
    }
  }

  lemma {:induction false} DropDashIgnoresTail(s: string, b: string)
    requires All(b, IsInert)
    ensures DropDash(s + b) == DropDash(s) + b
  {
    if s == "" { assert s + b == b; } else { assert (s + b)[1..] == s[1..] + b; }
  }

  lemma {:induction false} DropQuoteIgnoresTail(s: string, b: string)
    requires All(b, IsInert)
    ensures DropQuote(s + b) == DropQuote(s) + b
  {
    if s == "" { assert s + b == b; } else { assert (s + b)[1..] == s[1..] + b; }
  }

  lemma {:induction false} DelimiterWordIgnoresTail(s: string, b: string)
    requires All(b, IsInert)
    ensures DelimiterWord(s + b) == DelimiterWord(s)
    decreases |s| + |b|
  {
    if s == "" {
      assert s + b == b;
      if b != "" && IsReSpace(b[0]) {
        assert "" + b[1..] == b[1..];
        DelimiterWordIgnoresTail("", b[1..]);
      }
    } else if IsReSpace(s[0]) {
      assert (s + b)[1..] == s[1..] + b;
      DelimiterWordIgnoresTail(s[1..], b);
    } else {
      DropQuoteIgnoresTail(s, b);
      IdentIgnoresTail(DropQuote(s), b);
    }
  }

  lemma {:induction false} OpenerWordIgnoresTail(s: string, b: string)
    requires All(b, IsInert)
    ensures OpenerWord(s + b) == OpenerWord(s)
  {
    DropDashIgnoresTail(s, b);
    DelimiterWordIgnoresTail(DropDash(s), b);
  }

  /** No opener starts at an inert character. */
  lemma {:induction false} DetectSkips(s: string)
    requires s != "" && IsInert(s[0])
    ensures DetectTerm(s) == DetectTerm(s[1..])
  {
  }

  lemma {:induction false} DetectIgnoresIndent(a: string, s: string)
    requires All(a, IsInert)
    ensures DetectTerm(a + s) == DetectTerm(s)
  {
    if a == "" {
      assert a + s == s;
    } else {
      assert (a + s)[1..] == a[1..] + s;
      DetectIgnoresIndent(a[1..], s);
      DetectSkips(a + s);
    }
  }

  lemma {:induction false} DetectIgnoresTail(s: string, b: string)
    requires All(b, IsInert)
    ensures DetectTerm(s + b) == DetectTerm(s)
  {
    if |s| < 2 {
      DetectShortIgnoresTail(s, b);
    } else {
      DetectIgnoresTail(s[1..], b);
      OpenerWordIgnoresTail(s[2..], b);
      DetectStep(s, s[1..], s[2..]);
      DetectStep(s + b, s[1..] + b, s[2..] + b);
    }
  }

  lemma {:induction false} DetectStep(s: string, next: string, after: string)
    requires |s| >= 2 && next == s[1..] && after == s[2..]
    ensures DetectTerm(s) == if s[0] == '<' && s[1] == '<' && OpenerWord(after) != "" then OpenerWord(after)
      else DetectTerm(next)
  {
  }

  lemma {:induction false} DetectShortIgnoresTail(s: string, b: string)
    requires |s| < 2 && All(b, IsInert)
    ensures DetectTerm(s + b) == ""
  {
    DetectIgnoresIndent(b, "");
    assert b + "" == b;
    if s == "" {
      assert s + b == b;
    } else if b != "" {
      assert (s + b)[1] == b[0];
      assert (s + b)[1..] == b;
    }
  }

  /** Trimming a line does not change its part in here-document scanning. */
  lemma {:induction false} TrimKeepsRole(line: string)
    ensures RoleOf(TrimSpace(line)) == RoleOf(line)
  {
    var a, b := TrimParts(line, IsSpace);
    SpacesAreInert(a);
    SpacesAreInert(b);
    DetectIgnoresTail(a + TrimSpace(line), b);
    DetectIgnoresIndent(a, TrimSpace(line));
    TrimIdempotent(line, IsSpace);
  }
}
