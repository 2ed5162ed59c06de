/** The whole script preparation (prepareOrchestratedScript): unwrapping, the rewriting of `\$` to `$`, which reaches
    into here-documents, other spellings of here-documents, and the four cleaning passes. */
module ScriptEscapes {
  import opened Text
  import opened TextTrim
  import opened Heredoc
  import opened ScriptCleanup
  import opened FileSanitize
  import opened ScriptPipeline

  const ESCAPED := "\\$"

  function Unescape(s: string): string {
    ReplaceAll(s, ESCAPED, "$")
  }

  predicate HasEscape(s: string) {
    Contains(s, ESCAPED)
  }

  /*** Line by line ***/

  lemma {:induction false} EscapePrefix(s: string)
    ensures HasPrefix(s, ESCAPED) <==> |s| >= 2 && s[0] == '\\' && s[1] == '$'
  {
    if |s| >= 2 && s[0] == '\\' && s[1] == '$' {
      assert s[..2] == ESCAPED;
    }
  }

  lemma {:induction false} UnescapeStep(s: string)
    requires s != ""
    ensures Unescape(s) == if HasPrefix(s, ESCAPED) then "$" + Unescape(s[2..]) else [s[0]] + Unescape(s[1..])
  {
  }

  function Head(s: string, n: nat): string
    requires s != ""
  {
    if n == 2 then "$" else [s[0]]
  }

  lemma {:induction false} UnescapeHead(s: string, n: nat)
    requires s != "" && n == (if HasPrefix(s, ESCAPED) then 2 else 1)
    ensures n <= |s| && Unescape(s) == Head(s, n) + Unescape(s[n..])
  {
    UnescapeStep(s);
  }

  lemma {:induction false} Assoc(x: string, y: string, z: string)
    ensures x + (y + z) == x + y + z
  {
  }

  lemma {:induction false} SameEscapeBefore(a: string, b: string, s: string)
    requires a != "" && s == a + b && (b == "" || IsSpace(b[0]))
    ensures HasPrefix(s, ESCAPED) <==> HasPrefix(a, ESCAPED)
  {
    EscapePrefix(s);
    EscapePrefix(a);
    assert s[0] == a[0] && (|a| >= 2 ==> s[1] == a[1]) && (|a| == 1 && b != "" ==> s[1] == b[0]);
  }

  /** White space ends an escape: what is in front of it is rewritten on its own. */
  lemma {:induction false} UnescapeBefore(a: string, b: string, s: string)
    requires s == a + b && (b == "" || IsSpace(b[0]))
    ensures Unescape(s) == Unescape(a) + Unescape(b)
    decreases |a|
  {
    if a == "" {
      assert s == b && "" + Unescape(b) == Unescape(b);
    } else {
      SameEscapeBefore(a, b, s);
      var n := if HasPrefix(a, ESCAPED) then 2 else 1;
      assert s[n..] == a[n..] + b;
      UnescapeBefore(a[n..], b, s[n..]);
      UnescapeHead(a, n);
      UnescapeHead(s, n);
      Assoc(Head(a, n), Unescape(a[n..]), Unescape(b));
    }
  }

  lemma {:induction false} UnescapeAcross(a: string, b: string, s: string)
    requires s == a + ['\n'] + b
    ensures Unescape(s) == Unescape(a) + ['\n'] + Unescape(b)
  {
    var rest := ['\n'] + b;
    assert s == a + rest;
    UnescapeBefore(a, rest, s);
    EscapePrefix(rest);
    assert rest[1..] == b;
    Assoc(Unescape(a), ['\n'], Unescape(b));
  }

  function UnescapeLines(ts: seq<string>): (r: seq<string>)
    ensures |r| == |ts|
    decreases |ts|
  {
    if ts == [] then [] else [Unescape(ts[0])] + UnescapeLines(ts[1..])
  }

  lemma {:induction false} UnescapeJoin(ts: seq<string>)
    requires NewlineFree(ts)
    ensures Unescape(Join(ts, '\n')) == Join(UnescapeLines(ts), '\n')
    decreases |ts|
  {
    if ts == [] {
    } else if |ts| == 1 {
      assert ts[1..] == [];
    } else {
      NewlineFreeTail(ts);
      UnescapeJoin(ts[1..]);
      UnescapeAcross(ts[0], Join(ts[1..], '\n'), Join(ts, '\n'));
      JoinHead(Unescape(ts[0]), UnescapeLines(ts[1..]));
    }
  }

  lemma {:induction false} UnescapeChars(s: string, c: char)
    requires c != '$' && c !in s
    ensures c !in Unescape(s)
  {
    if s == "" {
    } else {
      UnescapeStep(s);
      if HasPrefix(s, ESCAPED) {
        UnescapeChars(s[2..], c);
      } else {
        UnescapeChars(s[1..], c);
      }
    }
  }

  lemma {:induction false} UnescapedFree(ts: seq<string>)
    requires NewlineFree(ts)
    ensures NewlineFree(UnescapeLines(ts))
    decreases |ts|
  {
    if ts == [] {
    } else {
      NewlineFreeTail(ts);
      UnescapeChars(ts[0], '\n');
      UnescapedFree(ts[1..]);
    }
  }

  lemma {:induction false} SplitUnescaped(script: string)
    ensures Split(Unescape(script), '\n') == UnescapeLines(Split(script, '\n'))
  {
    var ts := Split(script, '\n');
    SplitHasNoSep(script, '\n');
    JoinSplit(script, '\n');
    UnescapeJoin(ts);
    UnescapedFree(ts);
    SplitJoin(UnescapeLines(ts), '\n');
  }

  /** Exactly the texts without an escape are left alone. */
  lemma {:induction false} UnescapeFixed(s: string)
    ensures |Unescape(s)| <= |s| && (Unescape(s) == s <==> !HasEscape(s))
  {
    if HasEscape(s) {
      UnescapeShrinks(s);
    } else {
      ReplaceAllAbsent(s, ESCAPED, "$");
    }
  }

  lemma {:induction false} UnescapeShrinks(s: string)
    ensures |Unescape(s)| <= |s| && (HasEscape(s) ==> |Unescape(s)| < |s|)
  {
    if s == "" {
      assert forall i :: 0 <= i <= |s| ==> !OccursAt(s, ESCAPED, i);
    } else {
      UnescapeStep(s);
      if HasPrefix(s, ESCAPED) {
        UnescapeShrinks(s[2..]);
      } else {
        ContainsTail(s, ESCAPED);
        UnescapeShrinks(s[1..]);
      }
    }
  }

  /*** Here-document scanning does not notice ***/

  /** Inert, and no white space either: no opener reaches across it. */
  predicate IsHard(c: char) {
    IsInert(c) && !IsReSpace(c)
  }

  lemma {:induction false} IdentTailStops(w: string, c: char, b: string)
    requires IsHard(c)
    ensures IdentTail(w + [c] + b) == IdentTail(w)
  {
    if w == "" {
      assert w + [c] + b == [c] + b;
    } else {
      assert (w + [c] + b)[1..] == w[1..] + [c] + b;
      IdentTailStops(w[1..], c, b);
    }
  }

  lemma {:induction false} WordStops(w: string, c: char, b: string)
    requires IsHard(c)
    ensures DelimiterWord(w + [c] + b) == DelimiterWord(w)
  {
    var s := w + [c] + b;
    if w == "" {
      assert s[0] == c;
    } else if IsReSpace(w[0]) {
      assert s[1..] == w[1..] + [c] + b;
      WordStops(w[1..], c, b);
    } else {
      var rest := DropQuote(w);
      assert s[1..] == w[1..] + [c] + b;
      assert DropQuote(s) == rest + [c] + b;
      IdentTailStops(rest, c, b);
      if rest == "" {
        assert DropQuote(s)[0] == c;
      }
    }
  }

  lemma {:induction false} OpenerStops(w: string, c: char, b: string)
    requires IsHard(c)
    ensures OpenerWord(w + [c] + b) == OpenerWord(w)
  {
    var s := w + [c] + b;
    if w != "" {
      assert s[1..] == w[1..] + [c] + b;
    } else {
      assert s[0] == c;
    }
    assert DropDash(s) == DropDash(w) + [c] + b;
    WordStops(DropDash(w), c, b);
  }

  /** The leftmost opener stands on one side of a hard character or on the other. */
  lemma {:induction false} DetectSplit(a: string, c: char, b: string, s: string)
    requires IsHard(c) && s == a + [c] + b
    ensures DetectTerm(s) == if DetectTerm(a) != "" then DetectTerm(a) else DetectTerm(b)
    decreases |a|
  {
    if a == "" {
      assert s[1..] == b;
      DetectSkips(s);
    } else if |a| == 1 {
      assert s[1..] == [c] + b && s[1..][1..] == b && s[1] == c;
      DetectSkips(s[1..]);
    } else {
      assert s[1..] == a[1..] + [c] + b && s[2..] == a[2..] + [c] + b;
      DetectSplit(a[1..], c, b, s[1..]);
      OpenerStops(a[2..], c, b);
      DetectStep(s, s[1..], s[2..]);
      DetectStep(a, a[1..], a[2..]);
    }
  }

  /** One escape, with nothing to choose between before and after it. */
  lemma {:induction false} EscapeKeepsTerm(p: string, rest: string, u: string)
    requires DetectTerm(u) == DetectTerm(rest)
    ensures DetectTerm(p + (['$'] + u)) == DetectTerm(p + (['\\'] + (['$'] + rest)))
  {
    var tail := ['$'] + rest;
    DetectSkips(tail);
    assert tail[1..] == rest;
    assert p + (['\\'] + tail) == p + ['\\'] + tail;
    DetectSplit(p, '\\', tail, p + (['\\'] + tail));
    assert p + (['$'] + u) == p + ['$'] + u;
    DetectSplit(p, '$', u, p + (['$'] + u));
  }

  lemma {:induction false} Shift(p: string, c: char, x: string)
    ensures p + ([c] + x) == p + [c] + x
  {
  }

  lemma {:induction false} Regroup(s: string)
    ensures s != "" ==> s == [s[0]] + s[1..]
    ensures HasPrefix(s, ESCAPED) ==> s == ['\\'] + (['$'] + s[2..])
  {
    EscapePrefix(s);
  }

  lemma {:induction false} UnescapeKeepsTerm(p: string, s: string)
    ensures DetectTerm(p + Unescape(s)) == DetectTerm(p + s)
    decreases |s|, 0
  {
    if s == "" {
    } else {
      UnescapeStep(s);
      Regroup(s);
      if HasPrefix(s, ESCAPED) {
        UnescapeAlone(s[2..]);
        EscapeKeepsTerm(p, s[2..], Unescape(s[2..]));
      } else {
        UnescapeKeepsTerm(p + [s[0]], s[1..]);
        Shift(p, s[0], s[1..]);
        Shift(p, s[0], Unescape(s[1..]));
      }
    }
  }

  lemma {:induction false} UnescapeAlone(s: string)
    ensures DetectTerm(Unescape(s)) == DetectTerm(s)
    decreases |s|, 1
  {
    UnescapeKeepsTerm("", s);
    assert "" + s == s && "" + Unescape(s) == Unescape(s);
  }

  lemma {:induction false} UnescapeIndent(a: string, x: string, s: string)
    requires All(a, IsSpace) && s == a + x
    ensures Unescape(s) == a + Unescape(x)
    decreases |a|
  {
    if a == "" {
      assert s == x;
    } else {
      EscapePrefix(s);
      assert s[0] == a[0] && IsSpace(a[0]) && s[1..] == a[1..] + x;
      UnescapeIndent(a[1..], x, s[1..]);
      assert a == [a[0]] + a[1..];
    }
  }

  lemma {:induction false} UnescapeBlank(b: string)
    requires All(b, IsSpace)
    ensures Unescape(b) == b
  {
    UnescapeIndent(b, "", b);
    assert b == b + "";
  }

  lemma {:induction false} UnescapeKeepsEnds(t: string)
    requires Trimmed(t, IsSpace)
    ensures Trimmed(Unescape(t), IsSpace)
  {
    var u := Unescape(t);
    if u != "" {
      UnescapeFirst(t);
      UnescapeLast(t);
    }
  }

  lemma {:induction false} UnescapeFirst(t: string)
    ensures t != "" ==> Unescape(t) != "" && (Unescape(t)[0] == t[0] || Unescape(t)[0] == '$')
  {
    if t != "" {
      UnescapeStep(t);
    }
  }

  lemma {:induction false} UnescapeLast(t: string)
    ensures t != "" ==> Unescape(t) != "" && Unescape(t)[|Unescape(t)| - 1] == t[|t| - 1]
    decreases |t|
  {
    if t == "" {
    } else {
      UnescapeStep(t);
      EscapePrefix(t);
      if HasPrefix(t, ESCAPED) {
        UnescapeLast(t[2..]);
      } else {
        UnescapeLast(t[1..]);
      }
    }
  }

  lemma {:induction false} UnescapeTrims(l: string)
    ensures TrimSpace(Unescape(l)) == Unescape(TrimSpace(l))
  {
    var a, b := TrimParts(l, IsSpace);
    var t := TrimSpace(l);
    assert l == a + t + b && a + t + b == a + (t + b);
    UnescapeIndent(a, t + b, l);
    assert b == "" || IsSpace(b[0]);
    UnescapeBefore(t, b, t + b);
    UnescapeBlank(b);
    assert a + (Unescape(t) + b) == a + Unescape(t) + b;
    UnescapeKeepsEnds(t);
    TrimOf(a, Unescape(t), b, IsSpace);
  }

  /** A line keeps its opener, and closes a document after the rewriting exactly when it did before. */
  lemma {:induction false} UnescapeRole(l: string, term: string)
    requires All(term, IsIdentChar)
    ensures RoleOf(Unescape(l)) == Role(RoleOf(l).opens, Unescape(RoleOf(l).trimmed))
    ensures RoleOf(Unescape(l)).trimmed == term <==> RoleOf(l).trimmed == term
    ensures RoleOf(l).trimmed == term ==> Unescape(RoleOf(l).trimmed) == RoleOf(l).trimmed
  {
    UnescapeAlone(l);
    UnescapeTrims(l);
    IdentFixed(TrimSpace(l), term);
  }

  lemma {:induction false} IdentFixed(t: string, term: string)
    requires All(term, IsIdentChar)
    ensures Unescape(t) == term <==> t == term
  {
    if t == term {
      NoEscapeInIdent(t);
    } else if Unescape(t) == term {
      if HasEscape(t) {
        DollarAppears(t);
      }
      UnescapeFixed(t);
    }
  }

  lemma {:induction false} NoEscapeInIdent(t: string)
    requires All(t, IsIdentChar)
    ensures Unescape(t) == t
  {
    forall i | 0 <= i <= |t| ensures !OccursAt(t, ESCAPED, i) {
      EscapePrefix(t[i..]);
      assert i < |t| ==> t[i..][0] == t[i] && IsIdentChar(t[i]);
    }
    UnescapeFixed(t);
  }

  lemma {:induction false} DollarAppears(t: string)
    ensures HasEscape(t) ==> '$' in Unescape(t)
  {
    if t == "" {
      assert forall i :: 0 <= i <= |t| ==> !OccursAt(t, ESCAPED, i);
    } else {
      UnescapeStep(t);
      if HasPrefix(t, ESCAPED) {
        assert Unescape(t)[0] == '$';
      } else {
        ContainsTail(t, ESCAPED);
        DollarAppears(t[1..]);
      }
    }
  }

  /*** What the rewriting does to the documents ***/

  function UnescapeScan(sc: Scan): Scan {
    if sc == Outside then Outside else Inside(sc.term, Unescape(sc.opener), UnescapeLines(sc.body))
  }

  function UnescapeDocs(docs: seq<Doc>): (r: seq<Doc>)
    ensures |r| == |docs|
    decreases |docs|
  {
    if docs == [] then []
    else [Doc(Unescape(docs[0].opener), UnescapeLines(docs[0].body), docs[0].closer)] + UnescapeDocs(docs[1..])
  }

  lemma {:induction false} UnescapeLinesSnoc(ts: seq<string>, t: string)
    ensures UnescapeLines(ts + [t]) == UnescapeLines(ts) + [Unescape(t)]
    decreases |ts|
  {
    if ts == [] {
      assert ts + [t] == [t] && [t][1..] == [];
    } else {
      UnescapeLinesSnoc(ts[1..], t);
      assert (ts + [t])[1..] == ts[1..] + [t];
    }
  }

  lemma {:induction false} UnescapeStepScan(sc: Scan, t: string)
    requires NamedScan(sc)
    ensures NamedScan(Next(sc, LineOf(t)))
    ensures UnescapeScan(Next(sc, LineOf(t))) == Next(UnescapeScan(sc), LineOf(Unescape(t)))
    ensures UnescapeDocs(Completed(sc, LineOf(t))) == Completed(UnescapeScan(sc), LineOf(Unescape(t)))
  {
    DetectTermIsIdent(t);
    if sc.Inside? {
      UnescapeRole(t, sc.term);
      UnescapeLinesSnoc(sc.body, t);
    } else {
      UnescapeRole(t, "");
      assert UnescapeLines([]) == [];
    }
  }

  lemma {:induction false} UnescapeDocsCons(c: seq<Doc>, docs: seq<Doc>)
    requires |c| <= 1
    ensures UnescapeDocs(c + docs) == UnescapeDocs(c) + UnescapeDocs(docs)
  {
    if c == [] {
      assert c + docs == docs;
    } else {
      assert (c + docs)[1..] == docs && c[1..] == [];
    }
  }

  lemma {:induction false} UnescapeLinesDocs(ts: seq<string>, sc: Scan)
    requires NamedScan(sc)
    ensures After(Lines(UnescapeLines(ts)), UnescapeScan(sc)) == UnescapeScan(After(Lines(ts), sc))
    ensures Docs(Lines(UnescapeLines(ts)), UnescapeScan(sc)) == UnescapeDocs(Docs(Lines(ts), sc))
    decreases |ts|
  {
    if ts == [] {
    } else {
      var l := LineOf(ts[0]);
      assert Lines(ts)[1..] == Lines(ts[1..]);
      assert Lines(UnescapeLines(ts))[1..] == Lines(UnescapeLines(ts[1..]));
      UnescapeStepScan(sc, ts[0]);
      UnescapeLinesDocs(ts[1..], Next(sc, l));
      UnescapeDocsCons(Completed(sc, l), Docs(Lines(ts[1..]), Next(sc, l)));
    }
  }

  /** The rewriting opens and closes the same documents, and rewrites their openers and bodies line by line. */
  lemma {:induction false} UnescapeReachesDocs(script: string)
    requires AllClosed(script)
    ensures AllClosed(Unescape(script)) && DocsOf(Unescape(script)) == UnescapeDocs(DocsOf(script))
  {
    SplitUnescaped(script);
    UnescapeLinesDocs(Split(script, '\n'), Outside);
  }

  /*** Exactly when a whole preparation leaves a document alone ***/

  /** No escape in opener or body, and a body that the last four passes leave alone. */
  predicate Inviolate(rules: Rules, d: Doc) {
    && !HasEscape(d.opener) && (forall i :: 0 <= i < |d.body| ==> !HasEscape(d.body[i]))
    && Untouchable(rules, d.body)
  }

  function PreparedDoc(rules: Rules, d: Doc): Doc {
    Doc(Unescape(d.opener), ScrubLines(Flushed(rules.front, rules.back, UnescapeLines(d.body))), d.closer)
  }

  lemma {:induction false} LinesFixed(ts: seq<string>)
    ensures UnescapeLines(ts) == ts <==> forall i :: 0 <= i < |ts| ==> !HasEscape(ts[i])
    decreases |ts|
  {
    if ts == [] {
    } else {
      LinesFixed(ts[1..]);
      UnescapeFixed(ts[0]);
      assert forall i :: 0 <= i < |ts[1..]| ==> ts[1..][i] == ts[i + 1];
      assert forall i :: 0 < i < |ts| ==> ts[i] == ts[1..][i - 1];
      assert ts == [ts[0]] + ts[1..];
    }
  }

  lemma {:induction false} CleanSameLength(rules: Rules, u: seq<string>)
    requires |u| >= 1 && NewlineFree(u) && |Clean(rules.front, rules.back, u)| == |u|
    ensures var r := Clean(rules.front, rules.back, u); r == u || r == [""]
  {
    CleanMeaning(rules.front, rules.back, u);
    var r := Clean(rules.front, rules.back, u);
    var m, i, j :| 0 <= i <= j <= m <= |u| && CleanedAt(rules.front, rules.back, u, m, i, j, r);
  }

  lemma {:induction false} ScrubFixes(c: seq<string>, b: seq<string>)
    requires |c| <= |b| && ScrubLines(c) == b
    ensures c == b
  {
    ScrubOfShorter(c, b);
  }

  lemma {:induction false} FlushFixes(rules: Rules, b: seq<string>)
    requires NewlineFree(b) && ScrubLines(Flushed(rules.front, rules.back, UnescapeLines(b))) == b
    ensures UnescapeLines(b) == b
  {
    if b == [] {
    } else {
      var u := UnescapeLines(b);
      UnescapedFree(b);
      CleanNoLonger(rules.front, rules.back, u);
      ScrubFixes(Clean(rules.front, rules.back, u), b);
      CleanSameLength(rules, u);
      if b == [""] {
        assert Unescape("") == "" && [""][1..] == [];
      }
    }
  }

  lemma {:induction false} PreparedDocIff(rules: Rules, d: Doc)
    requires NewlineFree(d.body)
    ensures PreparedDoc(rules, d) == d <==> Inviolate(rules, d)
  {
    UnescapeFixed(d.opener);
    LinesFixed(d.body);
    BodyUntouched(rules, d.body);
    if ScrubLines(Flushed(rules.front, rules.back, UnescapeLines(d.body))) == d.body {
      FlushFixes(rules, d.body);
    }
  }

  function PreparedDocs(rules: Rules, docs: seq<Doc>): (r: seq<Doc>)
    ensures |r| == |docs|
    decreases |docs|
  {
    if docs == [] then [] else [PreparedDoc(rules, docs[0])] + PreparedDocs(rules, docs[1..])
  }

  lemma {:induction false} PreparedDocsAre(rules: Rules, docs: seq<Doc>)
    ensures ScrubDocs(CleanDocs(rules.front, rules.back, UnescapeDocs(docs))) == PreparedDocs(rules, docs)
    decreases |docs|
  {
    if docs == [] {
    } else {
      PreparedDocsAre(rules, docs[1..]);
      var u := UnescapeDocs(docs);
      assert u[1..] == UnescapeDocs(docs[1..]);
      var c := CleanDocs(rules.front, rules.back, u);
      assert c[1..] == CleanDocs(rules.front, rules.back, u[1..]);
    }
  }

  predicate AllInviolate(rules: Rules, docs: seq<Doc>)
    decreases |docs|
  {
    docs == [] || (Inviolate(rules, docs[0]) && AllInviolate(rules, docs[1..]))
  }

  lemma {:induction false} PreparedDocsIff(rules: Rules, docs: seq<Doc>)
    requires BodiesNewlineFree(docs)
    ensures PreparedDocs(rules, docs) == docs <==> AllInviolate(rules, docs)
    decreases |docs|
  {
    if docs == [] {
    } else {
      var rest := docs[1..];
      assert NewlineFree(docs[0].body) && BodiesNewlineFree(rest) by {
        assert forall i :: 0 <= i < |rest| ==> rest[i] == docs[i + 1];
      }
      PreparedDocsIff(rules, rest);
      PreparedDocIff(rules, docs[0]);
      SameHeadTail(PreparedDoc(rules, docs[0]), PreparedDocs(rules, rest), docs);
    }
  }

  lemma {:induction false} SameHeadTail(d: Doc, ds: seq<Doc>, docs: seq<Doc>)
    requires docs != []
    ensures [d] + ds == docs <==> d == docs[0] && ds == docs[1..]
  {
    if [d] + ds == docs {
      assert ([d] + ds)[0] == d && ([d] + ds)[1..] == ds;
    }
  }

  /*** Other spellings: normalizeHeredocDelimiters and rewriteMultilinePythonCToHeredoc ***/

  /** A quoted delimiter as it is spelled inside `bash -lc`, and plainly. */
  const WRAPPED_EOF := "<<'\"'\"'EOF'\"'\"'"
  const PLAIN_EOF := "<<'EOF'"

  function Respell(s: string): string {
    ReplaceAll(s, WRAPPED_EOF, PLAIN_EOF)
  }

  function SkipSpaces(s: string): string {
    if s != "" && IsReSpace(s[0]) then SkipSpaces(s[1..]) else s
  }

  /** What follows `python` or `python3` and at least one white space. */
  function AfterPython(s: string): Option<string> {
    if !HasPrefix(s, "python") then None
    else
      var t := if HasPrefix(s, "python3") then s[7..] else s[6..];
      if t != "" && IsReSpace(t[0]) then Some(SkipSpaces(t)) else None
  }

  /** What follows `-c`, the quote and a line break. */
  function AfterDashC(s: string, q: char): Option<string> {
    if !HasPrefix(s, "-c") then None
    else
      var t := SkipSpaces(s[2..]);
      if |t| >= 2 && t[0] == q && t[1] == '\n' then Some(t[2..]) else None
  }

  function SkipBlanks(s: string): string {
    if s != "" && (s[0] == ' ' || s[0] == '\t') then SkipBlanks(s[1..]) else s
  }

  /** Whether the quoted text ends here: a line break, blanks and the quote. */
  predicate QuoteCloses(s: string, q: char) {
    s != "" && s[0] == '\n' && SkipBlanks(s[1..]) != "" && SkipBlanks(s[1..])[0] == q
  }

  /** The first position where the quoted text ends. */
  function ClosesAt(s: string, q: char): (r: Option<nat>)
    ensures r.Some? ==> r.value < |s| && QuoteCloses(s[r.value..], q)
  {
    if s == "" then None
    else if QuoteCloses(s, q) then assert s[0..] == s; Some(0)
    else
      match ClosesAt(s[1..], q)
      case None => None
      case Some(k) => assert s[1..][k..] == s[k + 1..]; Some(k + 1)
  }

  lemma {:induction false} SkipsShorten(s: string)
    ensures |SkipSpaces(s)| <= |s| && |SkipBlanks(s)| <= |s|
  {
    if s == "" {
    } else {
      SkipsShorten(s[1..]);
    }
  }

  /** A `python -c` command with its quoted text on lines of its own: the words in front of `-c`, the text, the rest. */
  datatype Inlined = Inlined(words: string, text: string, rest: string)

  function InlineAt(s: string, q: char): (r: Option<Inlined>)
    ensures r.Some? ==> |r.value.rest| < |s|
  {
    match AfterPython(s)
    case None => None
    case Some(t) =>
      match AfterDashC(t, q)
      case None => None
      case Some(body) =>
        match ClosesAt(body, q)
        case None => None
        case Some(k) =>
          InlineBounds(s, t, q, body, k);
          Some(Inlined(s[..|s| - |t|], body[..k], SkipBlanks(body[k + 1..])[1..]))
  }

  lemma {:induction false} InlineBounds(s: string, t: string, q: char, body: string, k: nat)
    requires AfterPython(s) == Some(t) && AfterDashC(t, q) == Some(body) && k < |body| && QuoteCloses(body[k..], q)
    ensures |t| <= |s| && SkipBlanks(body[k + 1..]) != "" && |SkipBlanks(body[k + 1..])| - 1 < |s|
  {
    SkipsShorten(s[6..]);
    if HasPrefix(s, "python3") {
      SkipsShorten(s[7..]);
    }
    SkipsShorten(t[2..]);
    assert body[k..][1..] == body[k + 1..];
    SkipsShorten(body[k + 1..]);
  }

  /** Every such command reads its text from a here-document instead. */
  function Documented(s: string, q: char): string
    decreases |s|
  {
    if s == "" then ""
    else
      match InlineAt(s, q)
      case None => [s[0]] + Documented(s[1..], q)
      case Some(c) => c.words + "- <<'PY'\n" + c.text + "\nPY" + Documented(c.rest, q)
  }

  function Rewritten(s: string): string {
    Documented(Documented(Respell(s), '"'), '\'')
  }

  lemma {:induction false} SkipsSuffix(s: string)
    ensures |SkipSpaces(s)| <= |s| && SkipSpaces(s) == s[|s| - |SkipSpaces(s)|..]
  {
    if s != "" && IsReSpace(s[0]) {
      SkipsSuffix(s[1..]);
      var k := |s| - |SkipSpaces(s)|;
      assert s[1..][k - 1..] == s[k..];
    }
  }

  lemma {:induction false} PythonSuffix(s: string, t: string)
    requires AfterPython(s) == Some(t)
    ensures |t| <= |s| && t == s[|s| - |t|..]
  {
    var n := if HasPrefix(s, "python3") then 7 else 6;
    SkipsSuffix(s[n..]);
    var k := |s[n..]| - |t|;
    assert s[n..][k..] == s[n + k..];
  }

  lemma {:induction false} InlineHasDashC(s: string, q: char)
    ensures InlineAt(s, q).Some? ==> Contains(s, "-c")
  {
    if InlineAt(s, q).Some? {
      var t := AfterPython(s).value;
      PythonSuffix(s, t);
      assert "-c" <= t;
      assert OccursAt(s, "-c", |s| - |t|);
    }
  }

  lemma {:induction false} DocumentedAbsent(s: string, q: char)
    requires !Contains(s, "-c")
    ensures Documented(s, q) == s
  {
    if s == "" {
    } else {
      InlineHasDashC(s, q);
      ContainsTail(s, "-c");
      DocumentedAbsent(s[1..], q);
      assert s == [s[0]] + s[1..];
    }
  }

  /** A script without `-c` and without a wrapped delimiter is left alone by both passes. */
  lemma {:induction false} RewrittenAbsent(s: string)
    requires !Contains(s, "-c") && !Contains(s, WRAPPED_EOF)
    ensures Rewritten(s) == s
  {
    ReplaceAllAbsent(s, WRAPPED_EOF, PLAIN_EOF);
    DocumentedAbsent(s, '"');
    DocumentedAbsent(s, '\'');
  }

  /*** The wrapper: unwrapBashLcMultiline ***/

  const WRAPPER := "bash -lc "

  /** Lone quote lines at the end go. */
  function DropQuoteLines(ls: seq<string>, q: char): seq<string>
    decreases |ls|
  {
    if ls != [] && TrimSpace(ls[|ls| - 1]) == [q] then DropQuoteLines(ls[..|ls| - 1], q) else ls
  }

  /** The text behind the opening quote, without a closing one. */
  function Unquoted(inner: string, q: char): string {
    var s := TrimSpace(inner);
    var t := if s != "" && s[|s| - 1] == q then TrimSpace(s[..|s| - 1]) else s;
    TrimSpace(Join(DropQuoteLines(Split(t, '\n'), q), '\n'))
  }

  function Unwrapped(cmd: string): string {
    var c := TrimSpace(cmd);
    if !HasPrefix(c, WRAPPER) then c
    else
      var inner := TrimSpace(c[|WRAPPER|..]);
      if inner == "" || (inner[0] != '\'' && inner[0] != '"') then inner else Unquoted(inner[1..], inner[0])
  }

  method WithoutQuoteLines(all: seq<string>, q: char) returns (lines: seq<string>)
    ensures lines == DropQuoteLines(all, q)
  {
    lines := all;
    while |lines| > 0
      invariant DropQuoteLines(lines, q) == DropQuoteLines(all, q)
      decreases |lines|
    {
      if TrimSpace(lines[|lines| - 1]) != [q] {
        break;
      }
      lines := lines[..|lines| - 1];
    }
  }

  method Unquote(quoted: string, q: char) returns (r: string)
    ensures r == Unquoted(quoted, q)
  {
    var inner := TrimSpace(quoted);
    if |inner| > 0 && inner[|inner| - 1] == q {
      inner := TrimSpace(inner[..|inner| - 1]);
    }
    var lines := WithoutQuoteLines(Split(inner, '\n'), q);
    r := TrimSpace(Join(lines, '\n'));
  }

  method UnwrapBashLc(command: string) returns (r: string)
    ensures r == Unwrapped(command)
  {
    var cmd := TrimSpace(command);
    if !HasPrefix(cmd, WRAPPER) {
      return cmd;
    }
    var inner := TrimSpace(cmd[|WRAPPER|..]);
    if |inner| == 0 {
      return inner;
    }
    var q := inner[0];
    if q != '\'' && q != '"' {
      return inner;
    }
    r := Unquote(inner[1..], q);
  }

  /*** The whole preparation ***/

  /** prepareOrchestratedScript */
  function PrepareAll(rules: Rules, cmd: string): string {
    Prepare(rules, Rewritten(Unescape(Unwrapped(cmd))))
  }

  method PrepareOrchestratedScript(rules: Rules, cmd: string) returns (r: string)
    ensures r == PrepareAll(rules, cmd)
  {
    var body := UnwrapBashLc(TrimSpace(cmd));
    TrimIdempotent(cmd, IsSpace);
    body := ReplaceAll(body, ESCAPED, "$");
    body := ReplaceAll(body, WRAPPED_EOF, PLAIN_EOF);
    body := Documented(Documented(body, '"'), '\'');
    r := PrepareScript(rules, body);
  }

  /** There is nothing else to spell as a here-document. */
  predicate Settled(body: string) {
    Rewritten(Unescape(body)) == Unescape(body)
  }

  lemma {:induction false} BodyKeepsDocsIff(rules: Rules, body: string)
    requires AllClosed(body) && Settled(body)
    ensures DocsOf(Prepare(rules, Rewritten(Unescape(body)))) == DocsOf(body) <==> AllInviolate(rules, DocsOf(body))
  {
    UnescapeReachesDocs(body);
    PrepareDocs(rules, Unescape(body));
    PreparedDocsAre(rules, DocsOf(body));
    SplitHasNoSep(body, '\n');
    DocsNewlineFree(Split(body, '\n'), Outside);
    PreparedDocsIff(rules, DocsOf(body));
  }

  /** Preparation leaves every here-document of the unwrapped command as it was, opener and body, if and only if each is
      inviolate, when there is nothing else to spell as a here-document. */
  lemma {:induction false} PreparationKeepsDocsIff(rules: Rules, cmd: string)
    requires AllClosed(Unwrapped(cmd)) && Settled(Unwrapped(cmd))
    ensures DocsOf(PrepareAll(rules, cmd)) == DocsOf(Unwrapped(cmd)) <==> AllInviolate(rules, DocsOf(Unwrapped(cmd)))
  {
    BodyKeepsDocsIff(rules, Unwrapped(cmd));
  }

  /** A command that is not wrapped loses none of its documents to the unwrapping. */
  lemma {:induction false} PlainCommandKeepsDocs(cmd: string)
    requires AllClosed(cmd) && !HasPrefix(TrimSpace(cmd), WRAPPER)
    ensures AllClosed(Unwrapped(cmd)) && DocsOf(Unwrapped(cmd)) == DocsOf(cmd)
  {
    var ts := Split(cmd, '\n');
    SplitHasNoSep(cmd, '\n');
    assert forall i :: 0 <= i < |ts| ==> ts[i] in ts;
    JoinSplit(cmd, '\n');
    TrimKeepsDocs(ts);
  }

  /** So a document with an escape in its body is never left as it was. */
  lemma {:induction false} EscapeIsLost(rules: Rules, cmd: string, k: nat, i: nat)
    requires AllClosed(Unwrapped(cmd)) && Settled(Unwrapped(cmd))
    requires var docs := DocsOf(Unwrapped(cmd)); k < |docs| && i < |docs[k].body| && HasEscape(docs[k].body[i])
    ensures DocsOf(PrepareAll(rules, cmd)) != DocsOf(Unwrapped(cmd))
  {
    PreparationKeepsDocsIff(rules, cmd);
    NotAllInviolate(rules, DocsOf(Unwrapped(cmd)), k);
  }

  lemma {:induction false} NotAllInviolate(rules: Rules, docs: seq<Doc>, k: nat)
    requires k < |docs| && !Inviolate(rules, docs[k])
    ensures !AllInviolate(rules, docs)
    decreases |docs|
  {
    if k == 0 {
    } else {
      NotAllInviolate(rules, docs[1..], k - 1);
    }
  }

  /** A script that loses the backslash in its here-document. */
  lemma {:induction false} EscapeExample(rules: Rules, cmd: string)
    requires cmd == "<<E\n\\$\nE"
    ensures AllClosed(cmd) && DocsOf(cmd) == [Doc("<<E", ["\\$"], "E")]
    ensures DocsOf(PrepareAll(rules, cmd)) != DocsOf(cmd)
  {
    ThreeLineScript(cmd, "<<E", "\\$", "E");
    EscapeDocs("<<E", "\\$", "E");
    EscapePrefix("\\$");
    assert "\\$"[0..] == "\\$" && OccursAt("\\$", ESCAPED, 0);
    EscapeIsSettled(cmd);
    PlainCommandKeepsDocs(cmd);
    EscapeIsLost(rules, cmd, 0, 0);
  }

  lemma {:induction false} EscapeDocs(a: string, b: string, c: string)
    requires a == "<<E" && b == "\\$" && c == "E"
    ensures After(Lines([a, b, c]), Outside) == Outside && Docs(Lines([a, b, c]), Outside) == [Doc(a, [b], c)]
  {
    TrimmedUnchanged(b, IsSpace);
    OneDocument(a, b, c);
  }

  lemma {:induction false} EscapeIsSettled(cmd: string)
    requires cmd == "<<E\n\\$\nE"
    ensures Unwrapped(cmd) == cmd && Settled(cmd) && !HasPrefix(TrimSpace(cmd), WRAPPER)
  {
    TrimmedUnchanged(cmd, IsSpace);
    var u := Unescape(cmd);
    UnescapeChars(cmd, 'c');
    UnescapeChars(cmd, '\'');
    NoChar(u, "-c", 'c');
    NoChar(u, WRAPPED_EOF, '\'');
    RewrittenAbsent(u);
  }

  lemma {:induction false} ContainsChar(s: string, p: string, c: char)
    requires Contains(s, p) && c in p
    ensures c in s
  {
    var i :| 0 <= i <= |s| && OccursAt(s, p, i);
    var k :| 0 <= k < |p| && p[k] == c;
    assert s[i..][k] == p[k] && s[i + k] == s[i..][k];
  }

  lemma {:induction false} NoChar(s: string, p: string, c: char)
    requires c in p && c !in s
    ensures !Contains(s, p)
  {
    if Contains(s, p) {
      ContainsChar(s, p, c);
    }
  }
}
