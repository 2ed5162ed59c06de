/** How scripts end where the parser's two shortcuts matter: the flag that a here-document was just closed,
    and the quote scan that does not skip here-document bodies. */
module ReplyEndings {
  import opened Text
  import opened Heredoc
  import opened ShellQuote
  import opened ReplyScripts
  import opened ReplyProperties

  /*** The flag, exactly ***/

  /** A here-document is closed on line `e`. */
  predicate ClosesDocument(cfg: Config, vs: seq<View>, e: nat) {
    e < |vs| && !RunLines(cfg, vs, e).halted && RunLines(cfg, vs, e).term != "" &&
      vs[e].trimmed == RunLines(cfg, vs, e).term
  }

  /** Line `j` lowers the flag: an ordinary line that joins the script, or a step or listing line that ends it. */
  predicate Lowers(cfg: Config, vs: seq<View>, j: nat) {
    && InBody(cfg, vs, j) && Passes(cfg, vs[j])
    && if cfg.mdStep(vs[j].trimmed) || cfg.listing(vs[j].trimmed) then !RunLines(cfg, vs, j + 1).inScript
       else !cfg.outcome(vs[j].trimmed)
  }

  lemma {:induction false} BodyFlag(cfg: Config, st: State, k: nat, v: View)
    requires st.inScript
    ensures var st' := StepBody(cfg, st, k, v);
      var lowers := Passes(cfg, v) && if cfg.mdStep(v.trimmed) || cfg.listing(v.trimmed) then !st'.inScript
        else !cfg.outcome(v.trimmed);
      st'.justClosed <==> st.justClosed && !lowers
  {
  }

  lemma {:induction false} StepFlag(cfg: Config, vs: seq<View>, k: nat)
    requires k < |vs|
    ensures RunLines(cfg, vs, k + 1).justClosed <==>
      ClosesDocument(cfg, vs, k) || (RunLines(cfg, vs, k).justClosed && !Lowers(cfg, vs, k))
  {
    var st, v := RunLines(cfg, vs, k), vs[k];
    if InBody(cfg, vs, k) {
      BodyFlag(cfg, st, k, v);
    } else if v.kind.CmdLine? {
      InlinesKeepBuf(EndScript(st, k, NextCmd), k, v.kind.init);
    }
  }

  /** A here-document was closed on line `e`, and no line up to `k` has lowered the flag since. */
  predicate UpSince(cfg: Config, vs: seq<View>, k: nat, e: nat) {
    e < k && ClosesDocument(cfg, vs, e) && forall j :: e < j < k ==> !Lowers(cfg, vs, j)
  }

  predicate FlagUp(cfg: Config, vs: seq<View>, k: nat) {
    exists e :: 0 <= e < k && UpSince(cfg, vs, k, e)
  }

  /** The flag is up before line `k` if and only if some here-document was closed and nothing lowered it since;
      the start of another script is not among the things that do. */
  lemma {:induction false} FlagIff(cfg: Config, vs: seq<View>, k: nat)
    requires k <= |vs|
    ensures RunLines(cfg, vs, k).justClosed <==> FlagUp(cfg, vs, k)
  {
    if k == 0 {
    } else {
      FlagIff(cfg, vs, k - 1);
      StepFlag(cfg, vs, k - 1);
      FlagUpStep(cfg, vs, k - 1);
    }
  }

  lemma {:induction false} FlagUpStep(cfg: Config, vs: seq<View>, k: nat)
    requires k < |vs|
    ensures FlagUp(cfg, vs, k + 1) <==> ClosesDocument(cfg, vs, k) || (FlagUp(cfg, vs, k) && !Lowers(cfg, vs, k))
  {
    if FlagUp(cfg, vs, k + 1) {
      var e :| 0 <= e < k + 1 && UpSince(cfg, vs, k + 1, e);
      if e < k {
        assert UpSince(cfg, vs, k, e);
      }
    }
    if ClosesDocument(cfg, vs, k) {
      assert UpSince(cfg, vs, k + 1, k);
    }
    if FlagUp(cfg, vs, k) && !Lowers(cfg, vs, k) {
      var e :| 0 <= e < k && UpSince(cfg, vs, k, e);
      assert UpSince(cfg, vs, k + 1, e);
    }
  }

  /*** Scripts that a step line cuts inside a quoted string ***/

  lemma {:induction false} StepGrows(cfg: Config, st: State, k: nat, v: View)
    ensures st.out <= Step(cfg, st, k, v).out
  {
    if v.kind.CmdLine? {
      InlinesGrow(EndScript(st, k, NextCmd), k, v.kind.init);
    } else if st.inScript {
      var cause := BodyChoices(cfg, st, k, v);
    }
  }

  lemma {:induction false} OutGrows(cfg: Config, vs: seq<View>, j: nat, k: nat)
    requires j <= k <= |vs|
    ensures RunLines(cfg, vs, j).out <= RunLines(cfg, vs, k).out
  {
    if j == k {
    } else {
      OutGrows(cfg, vs, j, k - 1);
      StepGrows(cfg, RunLines(cfg, vs, k - 1), k - 1, vs[k - 1]);
    }
  }

  /** A script that line `k` ended as a step line, with a quoted string open. */
  predicate CutInQuote(it: Item, k: nat) {
    it.Script? && it.hi == k && it.cause == MdStep && Open(it.lines)
  }

  lemma {:induction false} CutHappens(cfg: Config, vs: seq<View>, k: nat)
    requires StepLineAt(cfg, vs, k) && Open(RunLines(cfg, vs, k).buf) && RunLines(cfg, vs, k).justClosed
    ensures var out := RunLines(cfg, vs, k + 1).out; out != [] && CutInQuote(out[|out| - 1], k)
  {
    var st := RunLines(cfg, vs, k);
    assert st.buf != [];
  }

  predicate HasCut(out: seq<Item>, k: nat) {
    exists i :: 0 <= i < |out| && CutInQuote(out[i], k)
  }

  lemma {:induction false} CutMeans(cfg: Config, lines: seq<string>, k: nat)
    requires !Finish(cfg, lines).halted && HasCut(Parsed(cfg, lines), k)
    ensures var vs := Views(cfg, lines);
      StepLineAt(cfg, vs, k) && Open(RunLines(cfg, vs, k).buf) && RunLines(cfg, vs, k).justClosed
  {
    var out := Parsed(cfg, lines);
    var i :| 0 <= i < |out| && CutInQuote(out[i], k);
    assert out[i] in out;
    ParsedItem(cfg, lines, out[i]);
  }

  lemma {:induction false} CutIsKept(cfg: Config, vs: seq<View>, k: nat)
    requires StepLineAt(cfg, vs, k) && Open(RunLines(cfg, vs, k).buf) && RunLines(cfg, vs, k).justClosed
    ensures HasCut(AllItems(cfg, vs), k)
  {
    CutHappens(cfg, vs, k);
    OutGrows(cfg, vs, k + 1, |vs|);
    var early := RunLines(cfg, vs, k + 1).out;
    assert AllItems(cfg, vs)[|early| - 1] == early[|early| - 1];
  }

  /** Some script of the reply ends at line `k`, taken for a step line, inside a quoted string, if and only if
      the line is met as a step line while a quoted string is open and the flag is still up from some earlier
      here-document, be it of the same script or not. */
  lemma {:induction false} StepLineCutsQuoteIff(cfg: Config, lines: seq<string>, k: nat)
    requires !Finish(cfg, lines).halted
    ensures var vs := Views(cfg, lines);
      HasCut(Parsed(cfg, lines), k) <==> StepLineAt(cfg, vs, k) && Open(RunLines(cfg, vs, k).buf) && FlagUp(cfg, vs, k)
  {
    var vs := Views(cfg, lines);
    if k < |vs| {
      FlagIff(cfg, vs, k);
    }
    if HasCut(Parsed(cfg, lines), k) {
      CutMeans(cfg, lines, k);
    }
    if StepLineAt(cfg, vs, k) && Open(RunLines(cfg, vs, k).buf) && RunLines(cfg, vs, k).justClosed {
      CutIsKept(cfg, vs, k);
      assert Parsed(cfg, lines) == AllItems(cfg, vs);
    }
  }

  /** The text of a `CMD:` line holds no further `CMD:` marker, and clean-up leaves it alone. */
  predicate OneSegment(cfg: Config, c: string) {
    cfg.segments(c) == Segments([], c)
  }

  /** The flag is not lowered when the next script starts: here a step line cuts a script that has no
      here-document at all, in the middle of a quoted string. */
  lemma {:induction false} FlagOutlivesItsScript(cfg: Config, lines: seq<string>)
    requires lines == ["CMD:<<E", "E", "", "CMD:'", "- Do"] && cfg.mdStep("- Do") && !cfg.prose("- Do")
    requires OneSegment(cfg, "<<E") && OneSegment(cfg, "'")
    ensures Parsed(cfg, lines) == [Script(["<<E", "E"], 0, 2, Blank, true), Script(["'"], 3, 4, MdStep, true)]
    ensures Open(["'"]) && DetectTerm(lines[3]) == DetectTerm(lines[4]) == ""
  {
    StaleFlagScripts(cfg, lines);
    NoOpeners();
    LoneQuoteIsOpen();
  }

  lemma {:induction false} NoOpeners()
    ensures DetectTerm("CMD:'") == "" && DetectTerm("- Do") == ""
  {
    NoOpener("CMD:'");
    NoOpener("- Do");
  }

  lemma {:induction false} StaleFlagScripts(cfg: Config, lines: seq<string>)
    requires lines == ["CMD:<<E", "E", "", "CMD:'", "- Do"] && cfg.mdStep("- Do") && !cfg.prose("- Do")
    requires OneSegment(cfg, "<<E") && OneSegment(cfg, "'")
    ensures Parsed(cfg, lines) == [Script(["<<E", "E"], 0, 2, Blank, true), Script(["'"], 3, 4, MdStep, true)]
  {
    DemoViews(cfg, lines);
    StaleFlagRun(cfg, Views(cfg, lines));
  }

  lemma {:induction false} LoneQuoteIsOpen()
    ensures Open(["'"])
  {
    assert "'"[1..] == "";
    assert ["'"][1..] == [];
  }

  lemma {:induction false} NoOpener(t: string)
    requires '<' !in t
    ensures DetectTerm(t) == ""
  {
    if |t| < 2 {
    } else {
      assert t[0] in t;
      NoOpener(t[1..]);
    }
  }

  lemma {:induction false} CmdView(cfg: Config, c: string)
    requires OneSegment(cfg, c)
    requires c != "" && Trimmed(c, IsSpace) && !HasPrefix(c, "DONE:") && !HasPrefix(c, "```") && !HasSuffix(c, "```")
    ensures ViewOf(cfg, "CMD:" + c).kind == CmdLine([], Command(c, DetectTerm(c)))
  {
    var line := "CMD:" + c;
    assert line[0] == 'C';
    TrimmedUnchanged(line, IsSpace);
    assert ToLower(line)[0] == 'c';
    assert !HasPrefix(ToLower(line), "output:") && !HasPrefix(line, "DONE:");
    assert line[..4] == "CMD:" && line[4..] == c;
    assert AfterMark(line, "CMD:") == c by { TrimmedUnchanged(c, IsSpace); }
    TrimmedUnchanged(c, IsSpace);
  }

  /** No marker, markdown structure or opener by its first character and the absence of `<`. */
  predicate Plain(t: string) {
    && Trimmed(t, IsSpace) && '<' !in t
    && (t != "" ==> t[0] == '-' || t[0] == '\'' || t[0] == 'E' || t[0] == 'S')
  }

  lemma {:induction false} OtherView(cfg: Config, t: string)
    requires Plain(t)
    ensures ViewOf(cfg, t) == View(t, t, OtherLine, false, "")
  {
    TrimmedUnchanged(t, IsSpace);
    NoOpener(t);
    PlainIsNoOutput(t);
    if t != "" {
      PlainHasNoMark(t);
    }
  }

  lemma {:induction false} PlainIsNoOutput(t: string)
    requires Plain(t)
    ensures !IsOutput(t)
  {
    if t != "" {
      assert ToLower(t)[0] != 'o';
    }
  }

  lemma {:induction false} PlainHasNoMark(t: string)
    requires Plain(t) && t != ""
    ensures !HasPrefix(t, "DONE:") && !HasPrefix(t, "CMD:") && !IsMarkdown(t)
  {
  }

  lemma {:induction false} DemoViews(cfg: Config, lines: seq<string>)
    requires lines == ["CMD:<<E", "E", "", "CMD:'", "- Do"] && OneSegment(cfg, "<<E") && OneSegment(cfg, "'")
    ensures var vs := Views(cfg, lines);
      && vs[0].kind == CmdLine([], Command("<<E", "E"))
      && vs[1] == View("E", "E", OtherLine, false, "") && vs[2] == View("", "", OtherLine, false, "")
      && vs[3].kind == CmdLine([], Command("'", "")) && vs[4] == View("- Do", "- Do", OtherLine, false, "")
  {
    DemoFirstCmd(cfg, lines, "<<E");
    DemoSecondCmd(cfg, lines, "'");
    WordViewAt(cfg, lines, 1, "E");
    BlankViewAt(cfg, lines, 2);
    StepLineIsPlain();
    OtherViewAt(cfg, lines, 4, "- Do");
  }

  lemma {:induction false} DemoSecondCmd(cfg: Config, lines: seq<string>, c: string)
    requires |lines| == 5 && lines[3] == "CMD:'" && c == "'" && OneSegment(cfg, c)
    ensures Views(cfg, lines)[3].kind == CmdLine([], Command("'", ""))
  {
    assert "CMD:'" == "CMD:" + c;
    CmdViewAt(cfg, lines, 3, c);
  }

  lemma {:induction false} CmdViewAt(cfg: Config, lines: seq<string>, k: nat, c: string)
    requires k < |lines| && lines[k] == "CMD:" + c && OneSegment(cfg, c)
    requires c != "" && Trimmed(c, IsSpace) && !HasPrefix(c, "DONE:") && !HasPrefix(c, "```") && !HasSuffix(c, "```")
    ensures Views(cfg, lines)[k].kind == CmdLine([], Command(c, DetectTerm(c)))
  {
    ViewsAt(cfg, lines, k);
    CmdView(cfg, c);
  }

  lemma {:induction false} OtherViewAt(cfg: Config, lines: seq<string>, k: nat, t: string)
    requires k < |lines| && lines[k] == t && Plain(t)
    ensures Views(cfg, lines)[k] == View(t, t, OtherLine, false, "")
  {
    ViewsAt(cfg, lines, k);
    OtherView(cfg, t);
  }

  lemma {:induction false} WordViewAt(cfg: Config, lines: seq<string>, k: nat, t: string)
    requires k < |lines| && lines[k] == t && (t == "E" || t == "'")
    ensures Views(cfg, lines)[k] == View(t, t, OtherLine, false, "")
  {
    OtherViewAt(cfg, lines, k, t);
  }

  lemma {:induction false} BlankViewAt(cfg: Config, lines: seq<string>, k: nat)
    requires k < |lines| && lines[k] == ""
    ensures Views(cfg, lines)[k] == View("", "", OtherLine, false, "")
  {
    OtherViewAt(cfg, lines, k, "");
  }

  lemma {:induction false} StepLineIsPlain()
    ensures Plain("- Do")
  {
  }

  lemma {:induction false} NarrationIsPlain()
    ensures Plain("So.")
  {
  }

  lemma {:induction false} DemoFirstCmd(cfg: Config, lines: seq<string>, c: string)
    requires |lines| > 0 && lines[0] == "CMD:<<E" && c == "<<E" && OneSegment(cfg, c)
    ensures Views(cfg, lines)[0].kind == CmdLine([], Command(c, "E"))
  {
    assert "CMD:<<E" == "CMD:" + c;
    assert c[2] == 'E';
    CmdViewAt(cfg, lines, 0, c);
    DemoOpener();
  }

  lemma {:induction false} DemoOpener()
    ensures DetectTerm("<<E") == "E"
  {
    assert "<<E"[2..] == "E" && "E"[1..] == "";
  }

  lemma {:induction false} NoQuotesClosed(a: string, b: string)
    requires a == "<<E" && b == "E"
    ensures !Open([a, b])
  {
    assert "<<E"[1..] == "<E" && "<E"[1..] == "E" && "E"[1..] == "";
    assert ScanLine("<<E", Unquoted) == ScanLine("<E", Unquoted) == ScanLine("E", Unquoted) == Unquoted;
    assert [a, b][1..] == [b] && [b][1..] == [];
    assert ScanLines([b], Unquoted) == ScanLines([], ScanLine(b, Unquoted)) == Unquoted;
  }

  lemma {:induction false} StaleFlagFirst(cfg: Config, vs: seq<View>, a: string, b: string)
    requires |vs| == 5 && a == "<<E" && b == "E" && vs[0].kind == CmdLine([], Command(a, b))
    requires vs[1] == View(b, b, OtherLine, false, "") && vs[2] == View("", "", OtherLine, false, "")
    ensures RunLines(cfg, vs, 3) == State([Script([a, b], 0, 2, Blank, true)], [], 0, "", true, false, "", false)
  {
    assert RunLines(cfg, vs, 1) == State([], [a], 0, b, false, true, "", false);
    assert RunLines(cfg, vs, 2) == State([], [a, b], 0, "", true, true, "", false);
    NoQuotesClosed(a, b);
  }

  lemma {:induction false} StaleFlagRun(cfg: Config, vs: seq<View>)
    requires |vs| == 5 && !cfg.prose("- Do") && cfg.mdStep("- Do")
    requires vs[0].kind == CmdLine([], Command("<<E", "E"))
    requires vs[1] == View("E", "E", OtherLine, false, "") && vs[2] == View("", "", OtherLine, false, "")
    requires vs[3].kind == CmdLine([], Command("'", "")) && vs[4] == View("- Do", "- Do", OtherLine, false, "")
    ensures var st := RunLines(cfg, vs, 5);
      !st.halted && st.buf == [] && st.out ==
        [Script(["<<E", "E"], 0, 2, Blank, true), Script(["'"], 3, 4, MdStep, true)]
  {
    StaleFlagFirst(cfg, vs, "<<E", "E");
    var s1 := Script(["<<E", "E"], 0, 2, Blank, true);
    assert RunLines(cfg, vs, 4) == State([s1], ["'"], 3, "", true, true, "", false);
    assert RunLines(cfg, vs, 5) == State([s1, Script(["'"], 3, 4, MdStep, true)], [], 3, "", false, false, "", false);
  }

  /*** Quotes inside here-document bodies ***/

  /** Neither a quote nor a backslash. */
  predicate IsQuiet(c: char) {
    c != '\'' && c != '"' && c != '\\'
  }

  lemma {:induction false} QuietLine(line: string, q: Quote)
    requires All(line, IsQuiet)
    ensures ScanLine(line, q) == q
    decreases |line|
  {
    if line == "" {
    } else {
      assert IsQuiet(line[0]);
      assert All(line[1..], IsQuiet);
      QuietLine(line[1..], q);
    }
  }

  lemma {:induction false} CloserIsQuiet(line: string)
    requires All(TrimSpace(line), IsIdentChar)
    ensures All(line, IsQuiet)
  {
    var a, b := TrimParts(line, IsSpace);
    var t := TrimSpace(line);
    assert line == a + t + b;
    forall i | 0 <= i < |line| ensures IsQuiet(line[i]) {
      if i < |a| {
        assert line[i] == a[i];
      } else if i < |a| + |t| {
        assert line[i] == t[i - |a|];
      } else {
        assert line[i] == b[i - |a| - |t|];
      }
    }
  }

  /** After a here-document, the quote scan reports exactly the quotes its body leaves open. */
  lemma {:induction false} BodyQuotesCount(pre: seq<string>, body: seq<string>, closer: string)
    requires ScanLines(pre, Unquoted) == Unquoted && All(TrimSpace(closer), IsIdentChar)
    ensures Open(pre + body + [closer]) <==> Open(body)
  {
    ScanLinesAppend(pre + body, [closer], Unquoted);
    ScanLinesAppend(pre, body, Unquoted);
    CloserIsQuiet(closer);
    var q := ScanLines(body, Unquoted);
    QuietLine(closer, q);
    assert [closer][1..] == [];
    assert ScanLines([closer], q) == ScanLines([], ScanLine(closer, q)) == q;
  }

  function LinesOf(vs: seq<View>, i: nat, j: nat): seq<string>
    requires i <= j <= |vs|
    decreases j
  {
    if i == j then [] else LinesOf(vs, i, j - 1) + [vs[j - 1].line]
  }

  lemma {:induction false} LinesOfViews(cfg: Config, lines: seq<string>, i: nat, j: nat)
    requires i <= j <= |lines|
    ensures LinesOf(Views(cfg, lines), i, j) == lines[i..j]
    decreases j
  {
    if i == j {
    } else {
      LinesOfViews(cfg, lines, i, j - 1);
      TextAt(cfg, lines, j - 1);
      assert lines[i..j] == lines[i..j - 1] + [lines[j - 1]];
    }
  }

  lemma {:induction false} TextAt(cfg: Config, lines: seq<string>, k: nat)
    requires k < |lines|
    ensures Views(cfg, lines)[k].line == lines[k]
  {
    ViewsAt(cfg, lines, k);
  }

  lemma {:induction false} LineAt(cfg: Config, lines: seq<string>, k: nat)
    requires k < |lines|
    ensures Views(cfg, lines)[k].line == lines[k] && Views(cfg, lines)[k].trimmed == TrimSpace(lines[k])
  {
    ViewsAt(cfg, lines, k);
  }

  /** A here-document entered on line `o`, with `t` awaited, runs up to line `k` without being closed. */
  predicate RunsTo(cfg: Config, vs: seq<View>, o: nat, t: string, k: nat) {
    && o < k <= |vs| && t != "" && RunLines(cfg, vs, o + 1).term == t && !RunLines(cfg, vs, o + 1).halted
    && forall m :: o < m < k ==> vs[m].trimmed != t
  }

  lemma {:induction false} BodyIsCollected(cfg: Config, vs: seq<View>, o: nat, t: string, k: nat)
    requires RunsTo(cfg, vs, o, t, k)
    ensures var st, now := RunLines(cfg, vs, o + 1), RunLines(cfg, vs, k);
      now == st.(buf := st.buf + LinesOf(vs, o + 1, k))
    decreases k
  {
    var st := RunLines(cfg, vs, o + 1);
    if k == o + 1 {
      assert st.buf + [] == st.buf;
    } else {
      BodyIsCollected(cfg, vs, o, t, k - 1);
      assert st.buf + LinesOf(vs, o + 1, k - 1) + [vs[k - 1].line] == st.buf + LinesOf(vs, o + 1, k);
    }
  }

  /** The awaited delimiter is always an identifier. */
  lemma {:induction false} TermIsIdent(cfg: Config, lines: seq<string>, k: nat)
    requires k <= |lines|
    ensures All(RunLines(cfg, Views(cfg, lines), k).term, IsIdentChar)
  {
    if k == 0 {
    } else {
      TermIsIdent(cfg, lines, k - 1);
      ViewsAt(cfg, lines, k - 1);
      ViewOpensIdent(cfg, lines[k - 1]);
      StepTermIdent(cfg, RunLines(cfg, Views(cfg, lines), k - 1), k - 1, Views(cfg, lines)[k - 1]);
    }
  }

  predicate OpensIdent(v: View) {
    All(v.opens, IsIdentChar) && (v.kind.CmdLine? && v.kind.last.Command? ==> All(v.kind.last.opens, IsIdentChar))
  }

  lemma {:induction false} SegmentOpensIdent(seg: string)
    ensures SegmentOf(seg).Command? ==> All(SegmentOf(seg).opens, IsIdentChar)
  {
    DetectTermIsIdent(TrimSpace(seg));
  }

  lemma {:induction false} ViewOpensIdent(cfg: Config, line: string)
    ensures OpensIdent(ViewOf(cfg, line))
  {
    DetectTermIsIdent(line);
    var cmd := AfterMark(TrimSpace(line), "CMD:");
    SegmentOpensIdent(cmd);
    SegmentOpensIdent(cfg.segments(Unfenced(cmd)).last);
  }

  lemma {:induction false} InlinesKeepTerm(st: State, k: nat, segs: seq<Segment>)
    ensures Inlines(st, k, segs).term == st.term
    decreases |segs|
  {
    if segs == [] {
    } else {
      InlinesKeepTerm(OneInline(st, k, segs[0]), k, segs[1..]);
    }
  }

  lemma {:induction false} StepTermIdent(cfg: Config, st: State, k: nat, v: View)
    requires All(st.term, IsIdentChar) && OpensIdent(v)
    ensures All(Step(cfg, st, k, v).term, IsIdentChar)
  {
    if v.kind.CmdLine? {
      InlinesKeepTerm(EndScript(st, k, NextCmd), k, v.kind.init);
    }
  }

  /** Right after a here-document in a script with no open quote so far, a blank, markdown or narration line ends
      the script if and only if the quotes inside the here-document's body are balanced. */
  lemma {:induction false} EndsAfterHeredocIff(cfg: Config, lines: seq<string>, o: nat, e: nat)
    requires var vs := Views(cfg, lines);
      o < e && e + 1 < |lines| && RunsTo(cfg, vs, o, RunLines(cfg, vs, o + 1).term, e)
    requires var vs := Views(cfg, lines);
      vs[e].trimmed == RunLines(cfg, vs, o + 1).term && !Open(RunLines(cfg, vs, o + 1).buf)
    requires var vs := Views(cfg, lines); vs[e + 1].kind == OtherLine && !Passes(cfg, vs[e + 1])
    ensures !RunLines(cfg, Views(cfg, lines), e + 2).inScript <==> !Open(lines[o + 1..e])
  {
    var vs := Views(cfg, lines);
    QuotesAfterDocument(cfg, lines, o, e);
    DocumentIsCollected(cfg, vs, o, e);
    EndsOutsideQuotes(cfg, RunLines(cfg, vs, e + 1), e + 1, vs[e + 1]);
  }

  lemma {:induction false} CloserIsIdent(cfg: Config, lines: seq<string>, o: nat, e: nat)
    requires var vs := Views(cfg, lines); o < e < |lines| && vs[e].trimmed == RunLines(cfg, vs, o + 1).term
    ensures All(TrimSpace(lines[e]), IsIdentChar)
  {
    TermIsIdent(cfg, lines, o + 1);
    LineAt(cfg, lines, e);
  }

  lemma {:induction false} QuotesAfterDocument(cfg: Config, lines: seq<string>, o: nat, e: nat)
    requires var vs := Views(cfg, lines); o < e < |lines| && RunsTo(cfg, vs, o, RunLines(cfg, vs, o + 1).term, e)
    requires var vs := Views(cfg, lines);
      vs[e].trimmed == RunLines(cfg, vs, o + 1).term && !Open(RunLines(cfg, vs, o + 1).buf)
    ensures Open(RunLines(cfg, Views(cfg, lines), e + 1).buf) <==> Open(lines[o + 1..e])
  {
    var vs := Views(cfg, lines);
    DocumentIsCollected(cfg, vs, o, e);
    LinesOfViews(cfg, lines, o + 1, e);
    CloserIsIdent(cfg, lines, o, e);
    TextAt(cfg, lines, e);
    BodyQuotesCount(RunLines(cfg, vs, o + 1).buf, lines[o + 1..e], lines[e]);
  }

  lemma {:induction false} DocumentIsCollected(cfg: Config, vs: seq<View>, o: nat, e: nat)
    requires o < e < |vs| && RunsTo(cfg, vs, o, RunLines(cfg, vs, o + 1).term, e)
    requires vs[e].trimmed == RunLines(cfg, vs, o + 1).term
    ensures var st, closed := RunLines(cfg, vs, o + 1), RunLines(cfg, vs, e + 1);
      closed.buf == st.buf + LinesOf(vs, o + 1, e) + [vs[e].line] && closed.inScript && closed.term == "" &&
        !closed.halted
  {
    BodyIsCollected(cfg, vs, o, RunLines(cfg, vs, o + 1).term, e);
    RunKeepsInv(cfg, vs, o + 1);
  }

  lemma {:induction false} EndsOutsideQuotes(cfg: Config, st: State, k: nat, v: View)
    requires st.inScript && st.term == "" && !st.halted && v.kind == OtherLine && !Passes(cfg, v)
    ensures !Step(cfg, st, k, v).inScript <==> !Open(st.buf)
  {
  }

  /** A quote in a here-document body keeps the script open, so that a blank line and the narration after it
      are swallowed. */
  lemma {:induction false} QuoteInBodySwallowsProse(cfg: Config, lines: seq<string>)
    requires lines == ["CMD:<<E", "'", "E", "", "So."] && cfg.prose("So.") && OneSegment(cfg, "<<E")
    ensures Parsed(cfg, lines) == [Script(["<<E", "'", "E", "", "So."], 0, 5, EndOfReply, true)]
  {
    SwallowViews(cfg, lines);
    SwallowRun(cfg, Views(cfg, lines), "<<E", "'", "E");
  }

  lemma {:induction false} SwallowViews(cfg: Config, lines: seq<string>)
    requires lines == ["CMD:<<E", "'", "E", "", "So."] && OneSegment(cfg, "<<E")
    ensures var vs := Views(cfg, lines);
      && vs[0].kind == CmdLine([], Command("<<E", "E"))
      && vs[1] == View("'", "'", OtherLine, false, "") && vs[2] == View("E", "E", OtherLine, false, "")
      && vs[3] == View("", "", OtherLine, false, "") && vs[4] == View("So.", "So.", OtherLine, false, "")
  {
    DemoFirstCmd(cfg, lines, "<<E");
    WordViewAt(cfg, lines, 1, "'");
    WordViewAt(cfg, lines, 2, "E");
    BlankViewAt(cfg, lines, 3);
    NarrationIsPlain();
    OtherViewAt(cfg, lines, 4, "So.");
  }

  lemma {:induction false} SwallowQuotes(a: string, b: string, c: string)
    requires a == "<<E" && b == "'" && c == "E"
    ensures Open([a, b, c]) && Open([a, b, c, ""])
  {
    LoneQuoteIsOpen();
    NoQuotesClosed(a, c);
    assert All(a, IsQuiet);
    QuietLine(a, Unquoted);
    assert [a][1..] == [] && ScanLines([a], Unquoted) == Unquoted;
    assert [a] + [b] + [c] == [a, b, c];
    TrimmedUnchanged(c, IsSpace);
    BodyQuotesCount([a], [b], c);
    ScanLinesAppend([a, b, c], [""], Unquoted);
    var q := ScanLines([a, b, c], Unquoted);
    QuietLine("", q);
    assert [""][1..] == [] && ScanLines([""], q) == ScanLines([], ScanLine("", q)) == q;
    assert [a, b, c] + [""] == [a, b, c, ""];
  }

  lemma {:induction false} SwallowRun(cfg: Config, vs: seq<View>, a: string, b: string, c: string)
    requires |vs| == 5 && a == "<<E" && b == "'" && c == "E" && cfg.prose("So.")
    requires vs[0].kind == CmdLine([], Command(a, c)) && vs[1] == View(b, b, OtherLine, false, "")
    requires vs[2] == View(c, c, OtherLine, false, "")
    requires vs[3] == View("", "", OtherLine, false, "") && vs[4] == View("So.", "So.", OtherLine, false, "")
    ensures RunLines(cfg, vs, 5) == State([], [a, b, c, "", "So."], 0, "", true, true, "", false)
  {
    assert RunLines(cfg, vs, 1) == State([], [a], 0, c, false, true, "", false);
    assert RunLines(cfg, vs, 2) == State([], [a, b], 0, c, false, true, "", false);
    assert RunLines(cfg, vs, 3) == State([], [a, b, c], 0, "", true, true, "", false);
    SwallowQuotes(a, b, c);
    assert RunLines(cfg, vs, 4) == State([], [a, b, c, ""], 0, "", true, true, "", false);
  }
}
