/** Fences stripped inside here-documents, stray wrapper quotes dropped, and the four cleaning passes that end script
    preparation taken together (the last part of prepareOrchestratedScript). */
module ScriptPipeline {
  import opened Text
  import opened TextTrim
  import opened Heredoc
  import opened ScriptCleanup
  import opened FileSanitize

  /*** stripMarkdownFencesInHeredocScripts ***/

  /** The cleaned body of a document; an empty body stays empty. */
  function Flushed(front: string -> bool, back: string -> bool, body: seq<string>): seq<string> {
    if body == [] then [] else Clean(front, back, body)
  }

  /** Body lines are held back until their document closes, or the script ends, and then come out cleaned. */
  function Strip(front: string -> bool, back: string -> bool, ls: seq<Line>, sc: Scan): seq<string>
    decreases |ls|
  {
    if ls == [] then (if sc.Inside? then Flushed(front, back, sc.body) else [])
    else
      var rest := Strip(front, back, ls[1..], Next(sc, ls[0]));
      match sc
      case Outside => [ls[0].text] + rest
      case Inside(term, _, body) =>
        if ls[0].role.trimmed == term then Flushed(front, back, body) + [ls[0].text] + rest else rest
  }

  function StripFences(front: string -> bool, back: string -> bool, script: string): string {
    Join(Strip(front, back, Lines(Split(script, '\n')), Outside), '\n')
  }

  method FlushBody(front: string -> bool, back: string -> bool, out: seq<string>, body: seq<string>)
      returns (r: seq<string>)
    ensures r == out + Flushed(front, back, body)
  {
    if body == [] {
      r := out;
    } else {
      var stripped := SanitizeNativeFileContent(front, back, Join(body, '\n'));
      r := out + Split(stripped, '\n');
    }
  }

  method StripMarkdownFences(front: string -> bool, back: string -> bool, script: string) returns (r: string)
    ensures r == StripFences(front, back, script)
  {
    var split := Split(script, '\n');
    ghost var ls := Lines(split);
    ghost var sc := Outside;
    var out: seq<string> := [];
    var term := "";
    var body: seq<string> := [];
    for i := 0 to |split|
      invariant sc == Outside ==> term == ""
      invariant sc.Inside? ==> term == sc.term && term != "" && body == sc.body
      invariant Strip(front, back, ls, Outside) == out + Strip(front, back, ls[i..], sc)
    {
      LinesAt(split, i);
      StripStep(front, back, ls, i, sc, out);
      var role := RoleOf(split[i]);
      if term != "" {
        if role.trimmed == term {
          out := FlushBody(front, back, out, body);
          out := out + [split[i]];
          term := "";
        } else {
          body := body + [split[i]];
        }
      } else {
        out := out + [split[i]];
        if role.opens != "" {
          term := role.opens;
          body := [];
        }
      }
      sc := Next(sc, ls[i]);
    }
    assert ls[|split|..] == [];
    if term != "" {
      out := FlushBody(front, back, out, body);
    } else {
      assert out + [] == out;
    }
    r := Join(out, '\n');
  }

  lemma {:induction false} StripStep(front: string -> bool, back: string -> bool, ls: seq<Line>, i: nat, sc: Scan,
                                     out: seq<string>)
    requires i < |ls|
    ensures var rest := Strip(front, back, ls[i + 1..], Next(sc, ls[i]));
      out + Strip(front, back, ls[i..], sc) ==
        if sc == Outside then out + [ls[i].text] + rest
        else if ls[i].role.trimmed == sc.term then out + Flushed(front, back, sc.body) + [ls[i].text] + rest
        else out + rest
  {
    assert ls[i..][1..] == ls[i + 1..];
    var rest := Strip(front, back, ls[i + 1..], Next(sc, ls[i]));
    if sc == Outside {
      assert out + ([ls[i].text] + rest) == out + [ls[i].text] + rest;
    } else if ls[i].role.trimmed == sc.term {
      var f := Flushed(front, back, sc.body);
      assert out + (f + [ls[i].text] + rest) == out + f + [ls[i].text] + rest;
    }
  }

  /*** What stripping does to the documents ***/

  function CleanDocs(front: string -> bool, back: string -> bool, docs: seq<Doc>): (r: seq<Doc>)
    ensures |r| == |docs|
    decreases |docs|
  {
    if docs == [] then []
    else [docs[0].(body := Flushed(front, back, docs[0].body))] + CleanDocs(front, back, docs[1..])
  }

  predicate Closes(term: string, ts: seq<string>) {
    exists i :: 0 <= i < |ts| && TrimSpace(ts[i]) == term
  }

  lemma {:induction false} RunThrough(ts: seq<string>, term: string, opener: string, acc: seq<string>)
    requires !Closes(term, ts)
    ensures After(Lines(ts), Inside(term, opener, acc)) == Inside(term, opener, acc + ts)
    ensures Docs(Lines(ts), Inside(term, opener, acc)) == []
    decreases |ts|
  {
    if ts == [] {
      assert acc + ts == acc;
    } else {
      assert TrimSpace(ts[0]) != term;
      assert !Closes(term, ts[1..]) by { assert forall i :: 0 <= i < |ts[1..]| ==> ts[1..][i] == ts[i + 1]; }
      RunThrough(ts[1..], term, opener, acc + [ts[0]]);
      assert acc + [ts[0]] + ts[1..] == acc + ts;
      assert Lines(ts)[1..] == Lines(ts[1..]);
    }
  }

  lemma {:induction false} CleanedLines(front: string -> bool, back: string -> bool, body: seq<string>, r: seq<string>)
    requires Cleaned(front, back, body, r)
    ensures forall t :: t in r ==> t == "" || t in body
  {
    var m, i, j :| 0 <= i <= j <= m <= |body| && CleanedAt(front, back, body, m, i, j, r);
    assert forall t :: t in body[i..j] ==> t in body;
  }

  /** Cleaning never makes up a line that closes the document, nor a newline inside a line. */
  lemma {:induction false} FlushedStaysOpen(front: string -> bool, back: string -> bool, body: seq<string>,
                                            term: string)
    requires NewlineFree(body) && term != "" && !Closes(term, body)
    ensures !Closes(term, Flushed(front, back, body)) && NewlineFree(Flushed(front, back, body))
  {
    if body != [] {
      var r := Clean(front, back, body);
      CleanMeaning(front, back, body);
      CleanedLines(front, back, body, r);
      assert TrimSpace("") == "";
      forall i | 0 <= i < |r| ensures TrimSpace(r[i]) != term && '\n' !in r[i] {
        assert r[i] in r;
      }
    }
  }

  function Emptied(sc: Scan): Scan {
    if sc == Outside then Outside else Inside(sc.term, sc.opener, [])
  }

  predicate Holding(sc: Scan) {
    sc.Inside? ==> sc.term != "" && NewlineFree(sc.body) && !Closes(sc.term, sc.body)
  }

  lemma {:induction false} HoldingStep(sc: Scan, t: string)
    requires Holding(sc) && '\n' !in t
    ensures Holding(Next(sc, LineOf(t)))
  {
    if sc.Inside? && TrimSpace(t) != sc.term {
      var b := sc.body + [t];
      assert forall i :: 0 <= i < |b| ==> b[i] == (if i < |sc.body| then sc.body[i] else t);
    }
  }

  lemma {:induction false} ClosedGlue(c: seq<string>, t: string, rest: seq<string>, term: string, opener: string)
    requires !Closes(term, c) && TrimSpace(t) == term
    ensures var ls := Lines(c + [t] + rest);
      && After(ls, Inside(term, opener, [])) == After(Lines(rest), Outside)
      && Docs(ls, Inside(term, opener, [])) == [Doc(opener, c, term)] + Docs(Lines(rest), Outside)
  {
    var start := Inside(term, opener, []);
    RunThrough(c, term, opener, []);
    assert [] + c == c;
    assert c + [t] + rest == c + ([t] + rest);
    LinesAppend(c, [t] + rest);
    ScanAppend(Lines(c), Lines([t] + rest), start);
    assert ([t] + rest)[1..] == rest;
  }

  /** `out`, scanned from an emptied `sc`, has the documents of `ls` with cleaned bodies. */
  predicate Matches(front: string -> bool, back: string -> bool, out: seq<string>, ls: seq<Line>, sc: Scan) {
    && After(Lines(out), Emptied(sc)) == Outside
    && Docs(Lines(out), Emptied(sc)) == CleanDocs(front, back, Docs(ls, sc))
  }

  lemma {:induction false} NoDocYet(sc: Scan, l: Line, ls: seq<Line>)
    requires Completed(sc, l) == []
    ensures Docs([l] + ls, sc) == Docs(ls, Next(sc, l)) && After([l] + ls, sc) == After(ls, Next(sc, l))
  {
    assert ([l] + ls)[1..] == ls;
    assert [] + Docs(ls, Next(sc, l)) == Docs(ls, Next(sc, l));
  }

  lemma {:induction false} MatchesOutside(front: string -> bool, back: string -> bool, t: string, rest: seq<string>,
                                          ls: seq<Line>)
    requires Matches(front, back, rest, ls, Next(Outside, LineOf(t)))
    ensures Matches(front, back, [t] + rest, [LineOf(t)] + ls, Outside)
  {
    assert ([t] + rest)[1..] == rest;
    assert ([LineOf(t)] + ls)[1..] == ls;
    assert Lines([t] + rest) == [LineOf(t)] + Lines(rest);
    assert ([LineOf(t)] + Lines(rest))[1..] == Lines(rest);
    NoDocYet(Outside, LineOf(t), ls);
    NoDocYet(Outside, LineOf(t), Lines(rest));
  }

  lemma {:induction false} MatchesHeld(front: string -> bool, back: string -> bool, l: Line, rest: seq<string>,
                                       ls: seq<Line>, sc: Scan)
    requires sc.Inside? && l.role.trimmed != sc.term && Matches(front, back, rest, ls, Next(sc, l))
    ensures Matches(front, back, rest, [l] + ls, sc)
  {
    NoDocYet(sc, l, ls);
  }

  lemma {:induction false} MatchesClosed(front: string -> bool, back: string -> bool, t: string, rest: seq<string>,
                                         ls: seq<Line>, sc: Scan)
    requires sc.Inside? && Holding(sc) && TrimSpace(t) == sc.term && Matches(front, back, rest, ls, Outside)
    ensures Matches(front, back, Flushed(front, back, sc.body) + [t] + rest, [LineOf(t)] + ls, sc)
  {
    FlushedStaysOpen(front, back, sc.body, sc.term);
    ClosedGlue(Flushed(front, back, sc.body), t, rest, sc.term, sc.opener);
    assert ([LineOf(t)] + ls)[1..] == ls;
    var d := Doc(sc.opener, sc.body, sc.term);
    assert ([d] + Docs(ls, Outside))[1..] == Docs(ls, Outside);
  }

  lemma {:induction false} StripDocs(front: string -> bool, back: string -> bool, ts: seq<string>, sc: Scan)
    requires NewlineFree(ts) && Holding(sc) && After(Lines(ts), sc) == Outside
    ensures Matches(front, back, Strip(front, back, Lines(ts), sc), Lines(ts), sc)
    decreases |ts|
  {
    if ts == [] {
    } else {
      var l := LineOf(ts[0]);
      assert Lines(ts)[1..] == Lines(ts[1..]);
      HoldingStep(sc, ts[0]);
      NewlineFreeTail(ts);
      StripDocs(front, back, ts[1..], Next(sc, l));
      var rest := Strip(front, back, Lines(ts[1..]), Next(sc, l));
      if sc == Outside {
        MatchesOutside(front, back, ts[0], rest, Lines(ts[1..]));
      } else if l.role.trimmed == sc.term {
        MatchesClosed(front, back, ts[0], rest, Lines(ts[1..]), sc);
      } else {
        MatchesHeld(front, back, l, rest, Lines(ts[1..]), sc);
      }
    }
  }

  lemma {:induction false} NewlineFreeTail(ts: seq<string>)
    requires ts != [] && NewlineFree(ts)
    ensures '\n' !in ts[0] && NewlineFree(ts[1..])
  {
    assert forall i :: 0 <= i < |ts[1..]| ==> ts[1..][i] == ts[i + 1];
  }

  lemma {:induction false} StripNewlineFree(front: string -> bool, back: string -> bool, ts: seq<string>, sc: Scan)
    requires NewlineFree(ts) && Holding(sc)
    ensures NewlineFree(Strip(front, back, Lines(ts), sc))
    decreases |ts|
  {
    if ts == [] {
      if sc.Inside? {
        FlushedStaysOpen(front, back, sc.body, sc.term);
      }
    } else {
      assert Lines(ts)[1..] == Lines(ts[1..]);
      HoldingStep(sc, ts[0]);
      NewlineFreeTail(ts);
      StripNewlineFree(front, back, ts[1..], Next(sc, LineOf(ts[0])));
      if sc.Inside? {
        FlushedStaysOpen(front, back, sc.body, sc.term);
      }
    }
  }

  /*** What stripping does outside the documents ***/

  /** The lines outside bodies: openers, closing lines and everything in between. */
  function Outer(ls: seq<Line>, sc: Scan): seq<string>
    decreases |ls|
  {
    if ls == [] then []
    else (if sc == Outside || ls[0].role.trimmed == sc.term then [ls[0].text] else []) + Outer(ls[1..], Next(sc, ls[0]))
  }

  function OuterOf(script: string): seq<string> {
    Outer(Lines(Split(script, '\n')), Outside)
  }

  lemma {:induction false} OuterCons(l: Line, ls: seq<Line>, sc: Scan)
    ensures Outer([l] + ls, sc) ==
      (if sc == Outside || l.role.trimmed == sc.term then [l.text] else []) + Outer(ls, Next(sc, l))
  {
    assert ([l] + ls)[1..] == ls;
  }

  lemma {:induction false} StaysOpenTail(term: string, c: seq<string>)
    requires c != [] && !Closes(term, c)
    ensures TrimSpace(c[0]) != term && !Closes(term, c[1..])
  {
    assert forall i :: 0 <= i < |c[1..]| ==> c[1..][i] == c[i + 1];
  }

  lemma {:induction false} OuterBodyLine(t: string, ls: seq<Line>, term: string, opener: string, acc: seq<string>)
    requires TrimSpace(t) != term
    ensures Outer([LineOf(t)] + ls, Inside(term, opener, acc)) == Outer(ls, Inside(term, opener, acc + [t]))
  {
    OuterCons(LineOf(t), ls, Inside(term, opener, acc));
  }

  lemma {:induction false} LinesCons(c: seq<string>, rest: seq<Line>)
    requires c != []
    ensures Lines(c) + rest == [LineOf(c[0])] + (Lines(c[1..]) + rest)
  {
  }

  lemma {:induction false} OuterThrough(c: seq<string>, rest: seq<Line>, term: string, opener: string, acc: seq<string>)
    requires !Closes(term, c)
    ensures Outer(Lines(c) + rest, Inside(term, opener, acc)) == Outer(rest, Inside(term, opener, acc + c))
    decreases |c|
  {
    if c == [] {
      assert acc + c == acc && Lines(c) + rest == rest;
    } else {
      StaysOpenTail(term, c);
      OuterThrough(c[1..], rest, term, opener, acc + [c[0]]);
      assert acc + [c[0]] + c[1..] == acc + c;
      OuterBodyLine(c[0], Lines(c[1..]) + rest, term, opener, acc);
      LinesCons(c, rest);
    }
  }

  lemma {:induction false} OuterClosed(c: seq<string>, t: string, rest: seq<string>, term: string, opener: string)
    requires !Closes(term, c) && TrimSpace(t) == term
    ensures Outer(Lines(c + [t] + rest), Inside(term, opener, [])) == [t] + Outer(Lines(rest), Outside)
  {
    assert c + [t] + rest == c + ([t] + rest);
    LinesAppend(c, [t] + rest);
    OuterThrough(c, Lines([t] + rest), term, opener, []);
    assert ([t] + rest)[1..] == rest;
    OuterCons(LineOf(t), Lines(rest), Inside(term, opener, [] + c));
  }

  lemma {:induction false} StripKeepsOuter(front: string -> bool, back: string -> bool, ts: seq<string>, sc: Scan)
    requires NewlineFree(ts) && Holding(sc)
    ensures Outer(Lines(Strip(front, back, Lines(ts), sc)), Emptied(sc)) == Outer(Lines(ts), sc)
    decreases |ts|
  {
    if ts == [] {
      if sc.Inside? {
        var c := Flushed(front, back, sc.body);
        FlushedStaysOpen(front, back, sc.body, sc.term);
        OuterThrough(c, [], sc.term, sc.opener, []);
        assert Lines(c) + [] == Lines(c);
      }
    } else {
      var l := LineOf(ts[0]);
      assert Lines(ts)[1..] == Lines(ts[1..]);
      HoldingStep(sc, ts[0]);
      NewlineFreeTail(ts);
      StripKeepsOuter(front, back, ts[1..], Next(sc, l));
      var rest := Strip(front, back, Lines(ts[1..]), Next(sc, l));
      if sc == Outside {
        assert ([ts[0]] + rest)[1..] == rest;
        OuterCons(l, Lines(rest), Outside);
      } else if l.role.trimmed == sc.term {
        FlushedStaysOpen(front, back, sc.body, sc.term);
        OuterClosed(Flushed(front, back, sc.body), ts[0], rest, sc.term, sc.opener);
      } else {
        assert [] + Outer(Lines(ts[1..]), Next(sc, l)) == Outer(Lines(ts[1..]), Next(sc, l));
      }
    }
  }

  /** On any script whose here-documents are all closed, stripping fences keeps the lines outside bodies verbatim
      and changes each body only by the cleaning that `Cleaned` describes. */
  lemma {:induction false} StripFencesCleansBodies(front: string -> bool, back: string -> bool, script: string)
    requires AllClosed(script)
    ensures AllClosed(StripFences(front, back, script))
    ensures DocsOf(StripFences(front, back, script)) == CleanDocs(front, back, DocsOf(script))
    ensures OuterOf(StripFences(front, back, script)) == OuterOf(script)
  {
    var ts := Split(script, '\n');
    SplitHasNoSep(script, '\n');
    var out := Strip(front, back, Lines(ts), Outside);
    StripDocs(front, back, ts, Outside);
    StripKeepsOuter(front, back, ts, Outside);
    StripNewlineFree(front, back, ts, Outside);
    SplitJoin(out, '\n');
  }

  /*** scrubOrphanBashLcQuoteLines ***/

  predicate LoneQuote(t: string) {
    TrimSpace(t) == "'" || TrimSpace(t) == "\""
  }

  function ScrubLines(ts: seq<string>): (r: seq<string>)
    ensures |r| <= |ts|
    decreases |ts|
  {
    if ts == [] then []
    else if LoneQuote(ts[0]) then ScrubLines(ts[1..])
    else [ts[0]] + ScrubLines(ts[1..])
  }

  function ScrubQuotes(body: string): string {
    TrimSpace(Join(ScrubLines(Split(body, '\n')), '\n'))
  }

  method ScrubOrphanQuotes(body: string) returns (r: string)
    ensures r == ScrubQuotes(body)
  {
    var split := Split(body, '\n');
    var out: seq<string> := [];
    for i := 0 to |split|
      invariant ScrubLines(split) == out + ScrubLines(split[i..])
    {
      assert split[i..][1..] == split[i + 1..];
      if !LoneQuote(split[i]) {
        assert out + ([split[i]] + ScrubLines(split[i + 1..])) == out + [split[i]] + ScrubLines(split[i + 1..]);
        out := out + [split[i]];
      }
    }
    assert split[|split|..] == [];
    assert out + [] == out;
    r := TrimSpace(Join(out, '\n'));
  }

  function ScrubScan(sc: Scan): Scan {
    if sc == Outside then Outside else Inside(sc.term, sc.opener, ScrubLines(sc.body))
  }

  function ScrubDocs(docs: seq<Doc>): (r: seq<Doc>)
    ensures |r| == |docs|
    decreases |docs|
  {
    if docs == [] then [] else [docs[0].(body := ScrubLines(docs[0].body))] + ScrubDocs(docs[1..])
  }

  lemma {:induction false} ScrubAppend(ts: seq<string>, t: string)
    ensures ScrubLines(ts + [t]) == ScrubLines(ts) + (if LoneQuote(t) then [] else [t])
    decreases |ts|
  {
    if ts == [] {
      assert ts + [t] == [t] && [t][1..] == [];
    } else {
      ScrubAppend(ts[1..], t);
      assert (ts + [t])[1..] == ts[1..] + [t];
    }
  }

  /** A lone quote neither opens a here-document nor closes one. */
  lemma {:induction false} LoneQuoteRole(t: string)
    requires LoneQuote(t)
    ensures RoleOf(t).opens == "" && !All(RoleOf(t).trimmed, IsIdentChar)
  {
    TrimKeepsRole(t);
    assert !IsIdentChar(TrimSpace(t)[0]);
  }

  predicate NamedScan(sc: Scan) {
    sc.Inside? ==> All(sc.term, IsIdentChar)
  }

  lemma {:induction false} ScrubStep(sc: Scan, t: string)
    requires NamedScan(sc)
    ensures NamedScan(Next(sc, LineOf(t)))
    ensures LoneQuote(t) ==> ScrubScan(Next(sc, LineOf(t))) == ScrubScan(sc) && Completed(sc, LineOf(t)) == []
    ensures !LoneQuote(t) ==>
      && ScrubScan(Next(sc, LineOf(t))) == Next(ScrubScan(sc), LineOf(t))
      && ScrubDocs(Completed(sc, LineOf(t))) == Completed(ScrubScan(sc), LineOf(t))
  {
    DetectTermIsIdent(t);
    if sc.Inside? {
      ScrubAppend(sc.body, t);
    }
    if LoneQuote(t) {
      LoneQuoteRole(t);
    }
  }

  lemma {:induction false} ScrubDocsCons(c: seq<Doc>, docs: seq<Doc>)
    requires |c| <= 1
    ensures ScrubDocs(c + docs) == ScrubDocs(c) + ScrubDocs(docs)
  {
    if c == [] {
      assert c + docs == docs;
    } else {
      assert (c + docs)[1..] == docs && c[1..] == [];
    }
  }

  lemma {:induction false} ScrubLinesDocs(ts: seq<string>, sc: Scan)
    requires NamedScan(sc)
    ensures After(Lines(ScrubLines(ts)), ScrubScan(sc)) == ScrubScan(After(Lines(ts), sc))
    ensures Docs(Lines(ScrubLines(ts)), ScrubScan(sc)) == ScrubDocs(Docs(Lines(ts), sc))
    decreases |ts|
  {
    if ts == [] {
    } else {
      var l := LineOf(ts[0]);
      var rest := ScrubLines(ts[1..]);
      assert Lines(ts)[1..] == Lines(ts[1..]);
      ScrubStep(sc, ts[0]);
      ScrubLinesDocs(ts[1..], Next(sc, l));
      ScrubDocsCons(Completed(sc, l), Docs(Lines(ts[1..]), Next(sc, l)));
      if !LoneQuote(ts[0]) {
        assert ([ts[0]] + rest)[1..] == rest;
        assert ([l] + Lines(rest))[1..] == Lines(rest);
      }
    }
  }

  lemma {:induction false} ScrubNewlineFree(ts: seq<string>)
    requires NewlineFree(ts)
    ensures NewlineFree(ScrubLines(ts))
    decreases |ts|
  {
    if ts == [] {
    } else {
      NewlineFreeTail(ts);
      ScrubNewlineFree(ts[1..]);
    }
  }

  /** The quote scrub also acts inside here-documents: it drops every lone-quote line of every body. */
  lemma {:induction false} ScrubQuotesReachesBodies(body: string)
    requires AllClosed(body)
    ensures AllClosed(ScrubQuotes(body)) && DocsOf(ScrubQuotes(body)) == ScrubDocs(DocsOf(body))
  {
    var ts := Split(body, '\n');
    SplitHasNoSep(body, '\n');
    ScrubNewlineFree(ts);
    ScrubLinesDocs(ts, Outside);
    var out := ScrubLines(ts);
    if out == [] {
      EmptyScript();
      assert TrimSpace("") == "";
    } else {
      TrimKeepsDocs(out);
    }
  }

  /*** The four passes together ***/

  datatype Rules = Rules(hallucinated: string -> bool, delimiter: string -> bool, front: string -> bool,
                         back: string -> bool)

  function Prepare(rules: Rules, body: string): string {
    ScrubQuotes(StripFences(rules.front, rules.back, DropJunk(rules.delimiter, DropJunk(rules.hallucinated, body))))
  }

  method PrepareScript(rules: Rules, body: string) returns (r: string)
    ensures r == Prepare(rules, body)
  {
    r := DropJunkLines(rules.hallucinated, body);
    r := DropJunkLines(rules.delimiter, r);
    r := StripMarkdownFences(rules.front, rules.back, r);
    r := ScrubOrphanQuotes(r);
  }

  lemma {:induction false} PrepareDocs(rules: Rules, body: string)
    requires AllClosed(body)
    ensures AllClosed(Prepare(rules, body))
    ensures DocsOf(Prepare(rules, body)) == ScrubDocs(CleanDocs(rules.front, rules.back, DocsOf(body)))
  {
    DropJunkKeepsDocs(rules.hallucinated, body);
    var b1 := DropJunk(rules.hallucinated, body);
    DropJunkKeepsDocs(rules.delimiter, b1);
    var b2 := DropJunk(rules.delimiter, b1);
    StripFencesCleansBodies(rules.front, rules.back, b2);
    ScrubQuotesReachesBodies(StripFences(rules.front, rules.back, b2));
  }

  /*** Exactly when a body goes through untouched ***/

  /** No lone quote anywhere, no front junk on the first line, no back junk on the last non-empty line. */
  predicate Untouchable(rules: Rules, b: seq<string>) {
    && (forall i :: 0 <= i < |b| ==> !LoneQuote(b[i]))
    && Steady(rules.front, rules.back, b)
  }

  lemma {:induction false} ScrubSameLength(ts: seq<string>)
    requires |ScrubLines(ts)| == |ts|
    ensures ScrubLines(ts) == ts && forall i :: 0 <= i < |ts| ==> !LoneQuote(ts[i])
    decreases |ts|
  {
    if ts == [] {
    } else {
      ScrubSameLength(ts[1..]);
      assert forall i :: 0 < i < |ts| ==> ts[i] == ts[1..][i - 1];
    }
  }

  lemma {:induction false} ScrubKeepsAll(ts: seq<string>)
    requires forall i :: 0 <= i < |ts| ==> !LoneQuote(ts[i])
    ensures ScrubLines(ts) == ts
    decreases |ts|
  {
    if ts == [] {
    } else {
      ScrubKeepsAll(ts[1..]);
    }
  }

  lemma {:induction false} CleanNoLonger(front: string -> bool, back: string -> bool, b: seq<string>)
    requires |b| >= 1 && NewlineFree(b)
    ensures |Clean(front, back, b)| <= |b|
  {
    CleanMeaning(front, back, b);
    var r := Clean(front, back, b);
    var m, i, j :| 0 <= i <= j <= m <= |b| && CleanedAt(front, back, b, m, i, j, r);
    CleanedNoLonger(front, back, b, m, i, j, r);
  }

  lemma {:induction false} CleanedNoLonger(front: string -> bool, back: string -> bool, b: seq<string>, m: nat,
                                           i: nat, j: nat, r: seq<string>)
    requires |b| >= 1 && 0 <= i <= j <= m <= |b| && CleanedAt(front, back, b, m, i, j, r)
    ensures |r| <= |b|
  {
  }

  lemma {:induction false} ScrubOfShorter(c: seq<string>, b: seq<string>)
    requires |c| <= |b|
    ensures ScrubLines(c) == b <==> c == b && forall i :: 0 <= i < |b| ==> !LoneQuote(b[i])
  {
    if ScrubLines(c) == b {
      ScrubSameLength(c);
    }
    if forall i :: 0 <= i < |b| ==> !LoneQuote(b[i]) {
      ScrubKeepsAll(b);
    }
  }

  lemma {:induction false} UntouchedGlue(rules: Rules, b: seq<string>, c: seq<string>)
    requires |c| <= |b| && (c == b <==> Steady(rules.front, rules.back, b))
    ensures ScrubLines(c) == b <==> Untouchable(rules, b)
  {
    ScrubOfShorter(c, b);
  }

  lemma {:induction false} BodyUntouched(rules: Rules, b: seq<string>)
    requires NewlineFree(b)
    ensures ScrubLines(Flushed(rules.front, rules.back, b)) == b <==> Untouchable(rules, b)
  {
    if b != [] {
      CleanNoLonger(rules.front, rules.back, b);
      CleanFixed(rules.front, rules.back, b);
      UntouchedGlue(rules, b, Clean(rules.front, rules.back, b));
    }
  }

  predicate BodiesNewlineFree(docs: seq<Doc>) {
    forall i :: 0 <= i < |docs| ==> NewlineFree(docs[i].body)
  }

  lemma {:induction false} DocsNewlineFree(ts: seq<string>, sc: Scan)
    requires NewlineFree(ts) && (sc.Inside? ==> NewlineFree(sc.body))
    ensures BodiesNewlineFree(Docs(Lines(ts), sc))
    decreases |ts|
  {
    if ts == [] {
    } else {
      NewlineFreeTail(ts);
      assert Lines(ts)[1..] == Lines(ts[1..]);
      DocsNewlineFree(ts[1..], Next(sc, LineOf(ts[0])));
    }
  }

  lemma {:induction false} DocsUntouched(rules: Rules, docs: seq<Doc>)
    requires BodiesNewlineFree(docs)
    ensures ScrubDocs(CleanDocs(rules.front, rules.back, docs)) == docs <==>
      forall i :: 0 <= i < |docs| ==> Untouchable(rules, docs[i].body)
    decreases |docs|
  {
    if docs == [] {
    } else {
      var rest := docs[1..];
      assert BodiesNewlineFree(rest) by { assert forall i :: 0 <= i < |rest| ==> rest[i] == docs[i + 1]; }
      DocsUntouched(rules, rest);
      BodyUntouched(rules, docs[0].body);
      DocsUntouchedCons(rules, docs);
    }
  }

  lemma {:induction false} DocsUntouchedCons(rules: Rules, docs: seq<Doc>)
    requires docs != []
    ensures (forall i :: 0 <= i < |docs| ==> Untouchable(rules, docs[i].body)) <==>
      Untouchable(rules, docs[0].body) && forall i :: 0 <= i < |docs[1..]| ==> Untouchable(rules, docs[1..][i].body)
    ensures ScrubDocs(CleanDocs(rules.front, rules.back, docs)) == docs <==>
      && ScrubLines(Flushed(rules.front, rules.back, docs[0].body)) == docs[0].body
      && ScrubDocs(CleanDocs(rules.front, rules.back, docs[1..])) == docs[1..]
  {
    assert forall i :: 0 <= i < |docs[1..]| ==> docs[1..][i] == docs[i + 1];
    assert forall i :: 0 < i < |docs| ==> docs[i] == docs[1..][i - 1];
    var cleaned := CleanDocs(rules.front, rules.back, docs);
    assert cleaned[1..] == CleanDocs(rules.front, rules.back, docs[1..]);
    var scrubbed := ScrubDocs(cleaned);
    assert scrubbed[1..] == ScrubDocs(cleaned[1..]);
    assert docs == [docs[0]] + docs[1..];
    assert scrubbed == [scrubbed[0]] + scrubbed[1..];
  }

  /** The last four passes leave every here-document line for line as they get it if and only if each body is
      untouchable. */
  lemma {:induction false} PrepareKeepsDocsIff(rules: Rules, body: string)
    requires AllClosed(body)
    ensures DocsOf(Prepare(rules, body)) == DocsOf(body) <==>
      forall i :: 0 <= i < |DocsOf(body)| ==> Untouchable(rules, DocsOf(body)[i].body)
  {
    PrepareDocs(rules, body);
    SplitHasNoSep(body, '\n');
    DocsNewlineFree(Split(body, '\n'), Outside);
    DocsUntouched(rules, DocsOf(body));
  }

  /** A closed document holding a line with only a quote loses that line, whatever the rules. */
  lemma {:induction false} QuoteLineIsLost(rules: Rules, script: string)
    requires script == "<<E\n'\nE"
    ensures AllClosed(script) && DocsOf(script) == [Doc("<<E", ["'"], "E")]
    ensures DocsOf(Prepare(rules, script)) != DocsOf(script)
  {
    ThreeLineScript(script, "<<E", "'", "E");
    QuoteIsLone("'");
    OneDocument("<<E", "'", "E");
    PrepareKeepsDocsIff(rules, script);
    assert LoneQuote(DocsOf(script)[0].body[0]);
  }

  lemma {:induction false} QuoteIsLone(b: string)
    requires b == "'"
    ensures LoneQuote(b) && RoleOf(b) == Role("", b)
  {
    TrimmedUnchanged(b, IsSpace);
  }

  lemma {:induction false} ThreeLineScript(script: string, a: string, b: string, c: string)
    requires '\n' !in a && '\n' !in b && '\n' !in c && script == a + ['\n'] + (b + ['\n'] + c)
    ensures Split(script, '\n') == [a, b, c]
  {
    SplitPeel(a, b + ['\n'] + c, '\n');
    SplitPeel(b, c, '\n');
    SplitPeel(c, "", '\n');
    assert [a] + ([b] + [c]) == [a, b, c];
  }

  lemma {:induction false} DocumentRoles(a: string, c: string)
    requires a == "<<E" && c == "E"
    ensures RoleOf(a) == Role(c, a) && RoleOf(c) == Role("", c)
  {
    TrimmedUnchanged(a, IsSpace);
    TrimmedUnchanged(c, IsSpace);
    assert a[2..] == c && c[1..] == "";
    assert IdentTail("") == "" && [c[0]] + "" == c;
    assert IdentTail(c) == c;
  }

  lemma {:induction false} OneDocument(a: string, b: string, c: string)
    requires a == "<<E" && c == "E" && TrimSpace(b) != c
    ensures After(Lines([a, b, c]), Outside) == Outside && Docs(Lines([a, b, c]), Outside) == [Doc(a, [b], c)]
  {
    DocumentRoles(a, c);
    ThreeLines(LineOf(a), LineOf(b), LineOf(c));
    LinesAt([a, b, c], 0);
    LinesAt([a, b, c], 1);
    LinesAt([a, b, c], 2);
    assert Lines([a, b, c]) == [LineOf(a), LineOf(b), LineOf(c)];
  }

  lemma {:induction false} ThreeLines(a: Line, b: Line, c: Line)
    requires a.role.opens == c.role.trimmed != "" && b.role.trimmed != c.role.trimmed
    ensures After([a, b, c], Outside) == Outside &&
      Docs([a, b, c], Outside) == [Doc(a.role.trimmed, [b.text], c.role.trimmed)]
  {
    var s1 := Next(Outside, a);
    var s2 := Next(s1, b);
    assert [a, b, c][1..] == [b, c] && [b, c][1..] == [c];
    assert s2.body == [b.text];
    ScanOne(c, s2);
    assert Docs([b, c], s1) == [] + Docs([c], s2);
    assert Docs([a, b, c], Outside) == [] + Docs([b, c], s1);
  }
}
