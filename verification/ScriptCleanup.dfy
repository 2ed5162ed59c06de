/** The clean-up passes that prepareOrchestratedScript runs over a script, and what they leave of
    the here-documents in it. */
module ScriptCleanup {
  import opened Text
  import opened TextTrim
  import opened Heredoc
  import HeredocProtect

  /** A script line with its part in here-document scanning. */
  datatype Line = Line(text: string, role: Role)

  function LineOf(text: string): Line {
    Line(text, RoleOf(text))
  }

  function Lines(texts: seq<string>): (r: seq<Line>)
    ensures |r| == |texts|
    decreases |texts|
  {
    if texts == [] then [] else [LineOf(texts[0])] + Lines(texts[1..])
  }

  function Texts(ls: seq<Line>): (r: seq<string>)
    ensures |r| == |ls|
    decreases |ls|
  {
    if ls == [] then [] else [ls[0].text] + Texts(ls[1..])
  }

  /** A closed here-document: opener and closing line up to surrounding white space, the body as it is. */
  datatype Doc = Doc(opener: string, body: seq<string>, closer: string)

  /** Scanning state: outside, or inside a document. */
  datatype Scan = Outside | Inside(term: string, opener: string, body: seq<string>)

  function Next(sc: Scan, l: Line): Scan {
    match sc
    case Outside => if l.role.opens == "" then Outside else Inside(l.role.opens, l.role.trimmed, [])
    case Inside(term, opener, body) => if l.role.trimmed == term then Outside else Inside(term, opener, body + [l.text])
  }

  /** The document that line `l` completes, if any. */
  function Completed(sc: Scan, l: Line): seq<Doc> {
    if sc.Inside? && l.role.trimmed == sc.term then [Doc(sc.opener, sc.body, l.role.trimmed)] else []
  }

  /** The documents closed in `ls`, in order. */
  function Docs(ls: seq<Line>, sc: Scan): seq<Doc>
    decreases |ls|
  {
    if ls == [] then [] else Completed(sc, ls[0]) + Docs(ls[1..], Next(sc, ls[0]))
  }

  function After(ls: seq<Line>, sc: Scan): Scan
    decreases |ls|
  {
    if ls == [] then sc else After(ls[1..], Next(sc, ls[0]))
  }

  /** Every here-document of the script is closed. */
  predicate AllClosed(script: string) {
    After(Lines(Split(script, '\n')), Outside) == Outside
  }

  function DocsOf(script: string): seq<Doc> {
    Docs(Lines(Split(script, '\n')), Outside)
  }

  lemma {:induction false} LinesAt(texts: seq<string>, i: nat)
    requires i < |texts|
    ensures Lines(texts)[i] == LineOf(texts[i])
    decreases |texts|
  {
    if i == 0 {
    } else {
      LinesAt(texts[1..], i - 1);
    }
  }

  lemma {:induction false} LinesAppend(a: seq<string>, b: seq<string>)
    ensures Lines(a + b) == Lines(a) + Lines(b)
    decreases |a|
  {
    if a == [] {
      assert a + b == b;
    } else {
      assert (a + b)[1..] == a[1..] + b;
      LinesAppend(a[1..], b);
    }
  }

  lemma {:induction false} ScanAppend(a: seq<Line>, b: seq<Line>, sc: Scan)
    ensures After(a + b, sc) == After(b, After(a, sc))
    ensures Docs(a + b, sc) == Docs(a, sc) + Docs(b, After(a, sc))
    decreases |a|
  {
    if a == [] {
      assert a + b == b;
    } else {
      assert (a + b)[1..] == a[1..] + b;
      ScanAppend(a[1..], b, Next(sc, a[0]));
    }
  }

  lemma {:induction false} ScanOne(l: Line, sc: Scan)
    ensures After([l], sc) == Next(sc, l) && Docs([l], sc) == Completed(sc, l)
  {
    assert [l][1..] == [];
  }

  /*** The same scanning as in payload protection ***/

  function Awaited(sc: Scan): string {
    if sc.Inside? then sc.term else ""
  }

  predicate Named(sc: Scan) {
    sc.Inside? ==> sc.term != ""
  }

  lemma {:induction false} ScanAwaits(ts: seq<string>, j: nat)
    requires j <= |ts|
    ensures var sc := After(Lines(ts[..j]), Outside); Named(sc) && Awaited(sc) == HeredocProtect.AwaitedAt(Roles(ts), j)
  {
    if j == 0 {
      assert ts[..0] == [];
    } else {
      ScanAwaits(ts, j - 1);
      assert ts[..j] == ts[..j - 1] + [ts[j - 1]];
      LinesAppend(ts[..j - 1], [ts[j - 1]]);
      ScanAppend(Lines(ts[..j - 1]), Lines([ts[j - 1]]), Outside);
      ScanOne(LineOf(ts[j - 1]), After(Lines(ts[..j - 1]), Outside));
      RolesAt(ts, j - 1);
    }
  }

  /** All documents are closed to the clean-up passes if and only if payload protection awaits nothing at the end. */
  lemma {:induction false} AllClosedIff(script: string)
    ensures var ts := Split(script, '\n'); AllClosed(script) <==> HeredocProtect.AwaitedAt(Roles(ts), |ts|) == ""
  {
    var ts := Split(script, '\n');
    ScanAwaits(ts, |ts|);
    assert ts[..|ts|] == ts;
  }

  /*** Trimming the whole script ***/

  /** Trimming a line on either side does not change its role. */
  lemma {:induction false} TrimSidesKeepRole(t: string)
    ensures RoleOf(TrimLeft(t, IsSpace)) == RoleOf(t) && RoleOf(TrimRight(t, IsSpace)) == RoleOf(t)
  {
    var a := TrimLeftParts(t, IsSpace);
    SpacesAreInert(a);
    DetectIgnoresIndent(a, TrimLeft(t, IsSpace));
    TrimIgnoresHead(a, TrimLeft(t, IsSpace));
    var b := TrimRightParts(t, IsSpace);
    SpacesAreInert(b);
    DetectIgnoresTail(TrimRight(t, IsSpace), b);
    TrimIgnoresTail(TrimRight(t, IsSpace), b);
  }

  lemma {:induction false} BlankRole(t: string)
    requires All(t, IsSpace)
    ensures RoleOf(t) == Role("", "")
  {
    SpacesAreInert(t);
    DetectIgnoresIndent(t, "");
    assert t + "" == t;
    TrimOfBlank(t);
  }

  /** A line with an outside role changes nothing when scanned outside. */
  lemma {:induction false} OutsideLine(l: Line, rest: seq<Line>)
    requires l.role.opens == ""
    ensures After([l] + rest, Outside) == After(rest, Outside) && Docs([l] + rest, Outside) == Docs(rest, Outside)
  {
    assert ([l] + rest)[1..] == rest;
  }

  lemma {:induction false} SameRoleFirst(l: Line, l': Line, rest: seq<Line>)
    requires l.role == l'.role
    ensures After([l] + rest, Outside) == After([l'] + rest, Outside) &&
      Docs([l] + rest, Outside) == Docs([l'] + rest, Outside)
  {
    assert ([l] + rest)[1..] == rest && ([l'] + rest)[1..] == rest;
  }

  lemma {:induction false} FrontKeepsDocs(ts: seq<string>)
    requires |ts| >= 1
    ensures After(Lines(TrimFrontLines(ts)), Outside) == After(Lines(ts), Outside)
    ensures Docs(Lines(TrimFrontLines(ts)), Outside) == Docs(Lines(ts), Outside)
    decreases |ts|
  {
    if |ts| > 1 && All(ts[0], IsSpace) {
      BlankRole(ts[0]);
      OutsideLine(LineOf(ts[0]), Lines(ts[1..]));
      FrontKeepsDocs(ts[1..]);
    } else {
      TrimSidesKeepRole(ts[0]);
      SameRoleFirst(LineOf(ts[0]), LineOf(TrimLeft(ts[0], IsSpace)), Lines(ts[1..]));
      assert ([TrimLeft(ts[0], IsSpace)] + ts[1..])[1..] == ts[1..];
    }
  }

  /** With every document closed, the last line ends outside whatever its text, as long as its role stays. */
  lemma {:induction false} SameRoleLast(init: seq<Line>, l: Line, l': Line)
    requires l.role == l'.role && After(init + [l], Outside) == Outside
    ensures After(init + [l'], Outside) == Outside && Docs(init + [l'], Outside) == Docs(init + [l], Outside)
  {
    var sc := After(init, Outside);
    ScanAppend(init, [l], Outside);
    ScanAppend(init, [l'], Outside);
    ScanOne(l, sc);
    ScanOne(l', sc);
  }

  lemma {:induction false} BlankLast(init: seq<Line>, l: Line)
    requires l.role == Role("", "") && After(init + [l], Outside) == Outside
    ensures After(init, Outside) == Outside || (After(init, Outside).Inside? && After(init, Outside).term == "")
    ensures After(init, Outside) == Outside ==> Docs(init + [l], Outside) == Docs(init, Outside)
  {
    var sc := After(init, Outside);
    ScanAppend(init, [l], Outside);
    ScanOne(l, sc);
  }

  /** A document being read always awaits a non-empty delimiter. */
  lemma {:induction false} AwaitsSomething(ls: seq<Line>, sc: Scan)
    requires sc.Inside? ==> sc.term != ""
    ensures After(ls, sc).Inside? ==> After(ls, sc).term != ""
    decreases |ls|
  {
    if ls == [] {
    } else {
      AwaitsSomething(ls[1..], Next(sc, ls[0]));
    }
  }

  lemma {:induction false} BackKeepsDocs(ts: seq<string>)
    requires |ts| >= 1 && After(Lines(ts), Outside) == Outside
    ensures After(Lines(TrimBackLines(ts)), Outside) == Outside
    ensures Docs(Lines(TrimBackLines(ts)), Outside) == Docs(Lines(ts), Outside)
    decreases |ts|
  {
    var n := |ts| - 1;
    var init, last := ts[..n], ts[n];
    assert ts == init + [last];
    LinesLast(init, last);
    if n > 0 && All(last, IsSpace) {
      BlankRole(last);
      AwaitsSomething(Lines(init), Outside);
      BlankLast(Lines(init), LineOf(last));
      BackKeepsDocs(init);
    } else {
      TrimSidesKeepRole(last);
      LinesLast(init, TrimRight(last, IsSpace));
      SameRoleLast(Lines(init), LineOf(last), LineOf(TrimRight(last, IsSpace)));
    }
  }

  lemma {:induction false} LinesLast(init: seq<string>, last: string)
    ensures Lines(init + [last]) == Lines(init) + [LineOf(last)]
  {
    LinesAppend(init, [last]);
    assert [last][1..] == [];
    assert Lines([last]) == [LineOf(last)];
  }

  /** Trimming a script whose documents are all closed keeps every document. */
  lemma {:induction false} TrimKeepsDocs(ts: seq<string>)
    requires |ts| >= 1 && (forall i :: 0 <= i < |ts| ==> '\n' !in ts[i]) && After(Lines(ts), Outside) == Outside
    ensures AllClosed(TrimSpace(Join(ts, '\n'))) && DocsOf(TrimSpace(Join(ts, '\n'))) == Docs(Lines(ts), Outside)
  {
    FrontKeepsDocs(ts);
    BackKeepsDocs(TrimFrontLines(ts));
    SplitTrimmed(ts);
  }

  /*** Dropping junk lines: filterHallucinatedScriptLines and scrubOrphanHeredocDelimiterLines ***/

  /** Both passes keep openers and everything inside documents, and drop what `junk` matches elsewhere. */
  function Keep(junk: string -> bool, ls: seq<Line>, sc: Scan): seq<Line>
    decreases |ls|
  {
    if ls == [] then []
    else
      var rest := Keep(junk, ls[1..], Next(sc, ls[0]));
      if sc == Outside && ls[0].role.opens == "" && junk(ls[0].text) then rest else [ls[0]] + rest
  }

  function DropJunk(junk: string -> bool, body: string): string {
    TrimSpace(Join(Texts(Keep(junk, Lines(Split(body, '\n')), Outside)), '\n'))
  }

  /** The loop of either pass, with its in-document flag and awaited delimiter. */
  method DropJunkLines(junk: string -> bool, body: string) returns (r: string)
    ensures r == DropJunk(junk, body)
  {
    var split := Split(body, '\n');
    ghost var ls := Lines(split);
    ghost var sc := Outside;
    var kept: seq<string> := [];
    var term := "";
    for i := 0 to |split|
      invariant term == (if sc == Outside then "" else sc.term) && (sc.Inside? ==> sc.term != "")
      invariant Texts(Keep(junk, ls, Outside)) == kept + Texts(Keep(junk, ls[i..], sc))
    {
      LinesAt(split, i);
      KeepStep(junk, ls, i, sc, kept);
      var role := RoleOf(split[i]);
      if term != "" {
        kept := kept + [split[i]];
        if role.trimmed == term {
          term := "";
        }
      } else if role.opens != "" {
        term := role.opens;
        kept := kept + [split[i]];
      } else if !junk(split[i]) {
        kept := kept + [split[i]];
      }
      sc := Next(sc, ls[i]);
    }
    assert ls[|split|..] == [];
    assert kept + [] == kept;
    r := TrimSpace(Join(kept, '\n'));
  }

  lemma {:induction false} KeepStep(junk: string -> bool, ls: seq<Line>, i: nat, sc: Scan, kept: seq<string>)
    requires i < |ls|
    ensures kept + Texts(Keep(junk, ls[i..], sc)) ==
      (if sc == Outside && ls[i].role.opens == "" && junk(ls[i].text) then kept else kept + [ls[i].text])
      + Texts(Keep(junk, ls[i + 1..], Next(sc, ls[i])))
  {
    assert ls[i..][1..] == ls[i + 1..];
    var rest := Keep(junk, ls[i + 1..], Next(sc, ls[i]));
    assert ([ls[i]] + rest)[1..] == rest;
    assert kept + ([ls[i].text] + Texts(rest)) == kept + [ls[i].text] + Texts(rest);
  }

  lemma {:induction false} KeepKeepsDocs(junk: string -> bool, ls: seq<Line>, sc: Scan)
    ensures After(Keep(junk, ls, sc), sc) == After(ls, sc) && Docs(Keep(junk, ls, sc), sc) == Docs(ls, sc)
    decreases |ls|
  {
    if ls == [] {
    } else {
      var rest := Keep(junk, ls[1..], Next(sc, ls[0]));
      KeepKeepsDocs(junk, ls[1..], Next(sc, ls[0]));
      assert ([ls[0]] + rest)[1..] == rest;
    }
  }

  lemma {:induction false} KeepIsLines(junk: string -> bool, ts: seq<string>, sc: Scan)
    ensures Lines(Texts(Keep(junk, Lines(ts), sc))) == Keep(junk, Lines(ts), sc)
    decreases |ts|
  {
    if ts == [] {
    } else {
      var sc' := Next(sc, LineOf(ts[0]));
      var rest := Keep(junk, Lines(ts[1..]), sc');
      KeepIsLines(junk, ts[1..], sc');
      assert Lines(ts)[1..] == Lines(ts[1..]);
      ConsIsLines(ts[0], rest);
    }
  }

  lemma {:induction false} ConsIsLines(t: string, rest: seq<Line>)
    requires Lines(Texts(rest)) == rest
    ensures Lines(Texts([LineOf(t)] + rest)) == [LineOf(t)] + rest
  {
    assert ([LineOf(t)] + rest)[1..] == rest;
    assert ([t] + Texts(rest))[1..] == Texts(rest);
  }

  lemma {:induction false} KeepNoNewline(junk: string -> bool, ts: seq<string>, sc: Scan)
    requires forall i :: 0 <= i < |ts| ==> '\n' !in ts[i]
    ensures forall i :: 0 <= i < |Texts(Keep(junk, Lines(ts), sc))| ==> '\n' !in Texts(Keep(junk, Lines(ts), sc))[i]
    decreases |ts|
  {
    if ts == [] {
    } else {
      var sc' := Next(sc, LineOf(ts[0]));
      var rest := Keep(junk, Lines(ts[1..]), sc');
      KeepNoNewline(junk, ts[1..], sc');
      assert Lines(ts)[1..] == Lines(ts[1..]);
      assert ([LineOf(ts[0])] + rest)[1..] == rest;
    }
  }

  lemma {:induction false} EmptyScript()
    ensures AllClosed("") && DocsOf("") == []
  {
    BlankRole("");
    assert Split("", '\n') == [""] && [""][1..] == [];
    OutsideLine(LineOf(""), []);
    assert [LineOf("")] + [] == [LineOf("")];
  }

  /** On any script whose here-documents are all closed, a junk-dropping pass leaves every here-document
      in place, in order, line for line, with the same opener and closing line up to outer white space. */
  lemma {:induction false} DropJunkKeepsDocs(junk: string -> bool, body: string)
    requires AllClosed(body)
    ensures AllClosed(DropJunk(junk, body)) && DocsOf(DropJunk(junk, body)) == DocsOf(body)
  {
    var ts := Split(body, '\n');
    var kept := Keep(junk, Lines(ts), Outside);
    KeepKeepsDocs(junk, Lines(ts), Outside);
    KeepIsLines(junk, ts, Outside);
    SplitHasNoSep(body, '\n');
    KeepNoNewline(junk, ts, Outside);
    if Texts(kept) == [] {
      EmptyScript();
      assert TrimSpace("") == "";
    } else {
      TrimKeepsDocs(Texts(kept));
    }
  }
}
