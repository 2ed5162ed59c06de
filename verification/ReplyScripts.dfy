/** parseLLMResponse: cutting a model reply into shell scripts. The regular expressions that spot
    narration are parameters; here-document, quote and slicing logic is concrete. */
module ReplyScripts {
  import opened Text
  import opened Heredoc
  import opened ShellQuote

  /** A `CMD:` line cut at inline `CMD:` markers and cleaned: all segments but the last, and the last. */
  datatype Segments = Segments(init: seq<string>, last: string)

  datatype Config = Config(
    segments: string -> Segments,   // splitInlineCMDs and the per-segment clean-up
    prose: string -> bool,          // looksLikeProseLine
    mdStep: string -> bool,         // looksLikeMarkdownStepLine
    listing: string -> bool,        // looksLikeHallucinatedShellOutput
    outcome: string -> bool)        // outcome JSON and outcome lines

  /** What ended a script. */
  datatype Cause = Blank | Markdown | Prose | MdStep | Listing | Outcome | Done | NextCmd | EndOfReply

  /** A command handed out: an inline segment of the `CMD:` line `at`, or a script that starts on line
      `lo` and was ended by line `hi`. `flag` is heredocJustClosed at that moment. */
  datatype Item =
    | Inline(text: string, at: nat)
    | Script(lines: seq<string>, lo: nat, hi: nat, cause: Cause, flag: bool)
  {
    function Text(): string {
      match this case Inline(t, _) => t case Script(ls, _, _, _, _) => Join(ls, '\n')
    }
  }

  datatype State = State(
    out: seq<Item>, buf: seq<string>, start: nat, term: string, justClosed: bool, inScript: bool, done: string,
      halted: bool)

  const INIT := State([], [], 0, "", false, false, "", false)

  predicate IsMarkdown(t: string) {
    HasPrefix(t, "### ") || HasPrefix(t, "## ") || HasPrefix(t, "# ") || HasPrefix(t, "```") || HasPrefix(t, "> ") ||
      HasPrefix(t, "|")
  }

  predicate IsOutput(t: string) {
    HasPrefix(ToLower(t), "output:")
  }

  function TrimPrefix(s: string, p: string): string {
    if HasPrefix(s, p) then s[|p|..] else s
  }

  function TrimSuffix(s: string, p: string): string {
    if HasSuffix(s, p) then s[..|s| - |p|] else s
  }

  function AfterMark(s: string, mark: string): string {
    TrimSpace(TrimPrefix(s, mark))
  }

  /** The command text of a `CMD:` line with markdown fences taken off. */
  function Unfenced(cmd: string): string {
    var c := if HasPrefix(cmd, "```") then TrimSpace(TrimPrefix(TrimPrefix(TrimPrefix(cmd, "```"), "bash"), "sh"))
      else cmd;
    TrimSpace(TrimSuffix(c, "```"))
  }

  /** A segment of a `CMD:` line: nothing, a `DONE:` summary, or a command. */
  datatype Segment = Nothing | Summary(text: string) | Command(text: string, opens: string)

  function SegmentOf(seg: string): Segment {
    var s := TrimSpace(seg);
    if s == "" then Nothing else if HasPrefix(s, "DONE:") then Summary(AfterMark(s, "DONE:"))
      else Command(s, DetectTerm(s))
  }

  function SegmentsOf(segs: seq<string>): (r: seq<Segment>)
    ensures |r| == |segs|
    decreases |segs|
  {
    if segs == [] then [] else [SegmentOf(segs[0])] + SegmentsOf(segs[1..])
  }

  datatype Kind =
    | OutputLine
    | DoneLine(summary: string)
    | CmdLine(init: seq<Segment>, last: Segment)
    | OtherLine

  /** What the parser looks at in a line: its text, the trimmed text, the marker it starts with,
      whether it is a markdown structure, and the here-document it opens. */
  datatype View = View(line: string, trimmed: string, kind: Kind, markdown: bool, opens: string)

  function CmdKind(cfg: Config, trimmed: string): Kind {
    var cmd := AfterMark(trimmed, "CMD:");
    if HasPrefix(cmd, "DONE:") then CmdLine([], SegmentOf(cmd))
    else
      var c := Unfenced(cmd);
      if c == "" then CmdLine([], Nothing)
      else var segs := cfg.segments(c); CmdLine(SegmentsOf(segs.init), SegmentOf(segs.last))
  }

  function KindOf(cfg: Config, trimmed: string): Kind {
    if IsOutput(trimmed) then OutputLine
    else if HasPrefix(trimmed, "DONE:") then DoneLine(AfterMark(trimmed, "DONE:"))
    else if HasPrefix(trimmed, "CMD:") then CmdKind(cfg, trimmed)
    else OtherLine
  }

  function ViewOf(cfg: Config, line: string): View {
    var t := TrimSpace(line);
    View(line, t, KindOf(cfg, t), IsMarkdown(t), DetectTerm(line))
  }

  function Views(cfg: Config, lines: seq<string>): (vs: seq<View>)
    ensures |vs| == |lines|
    decreases |lines|
  {
    if lines == [] then [] else [ViewOf(cfg, lines[0])] + Views(cfg, lines[1..])
  }

  lemma {:induction false} ViewsAt(cfg: Config, lines: seq<string>, k: nat)
    requires k < |lines|
    ensures Views(cfg, lines)[k] == ViewOf(cfg, lines[k])
    decreases |lines|
  {
    if k == 0 {
    } else {
      ViewsAt(cfg, lines[1..], k - 1);
    }
  }

  /** flushScript. */
  function Flush(st: State, k: nat, cause: Cause): State {
    if st.buf == [] then st
    else if st.term != "" then st.(buf := [], term := "")
    else st.(out := st.out + [Script(st.buf, st.start, k, cause, st.justClosed)], buf := [])
  }

  function EndScript(st: State, k: nat, cause: Cause): State {
    Flush(st, k, cause).(inScript := false)
  }

  function Append(st: State, line: string): State {
    st.(buf := st.buf + [line])
  }

  function NoteDone(st: State, summary: string): State {
    if st.done == "" then st.(done := summary) else st
  }

  /** The segments before the last are commands of their own. */
  function Inlines(st: State, k: nat, segs: seq<Segment>): State
    decreases |segs|
  {
    if segs == [] then st else Inlines(OneInline(st, k, segs[0]), k, segs[1..])
  }

  function OneInline(st: State, k: nat, seg: Segment): State {
    match seg
    case Nothing => st
    case Summary(s) => NoteDone(st, s)
    case Command(s, _) => st.(out := st.out + [Inline(s, k)])
  }

  function StartScript(st: State, k: nat, last: Segment): State {
    match last
    case Nothing => st
    case Summary(s) => NoteDone(st, s)
    case Command(s, opens) => st.(buf := [s], start := k, inScript := true, term := opens)
  }

  function StepCmd(st: State, k: nat, init: seq<Segment>, last: Segment): State {
    StartScript(Inlines(EndScript(st, k, NextCmd), k, init), k, last)
  }

  /** A line after a `CMD:` line, outside here-documents. */
  function StepBody(cfg: Config, st: State, k: nat, v: View): State {
    StepQuoted(cfg, st, k, v, Open(st.buf))
  }

  /** The same, knowing whether a quoted string is open. */
  function StepQuoted(cfg: Config, st: State, k: nat, v: View, open: bool): State {
    if v.trimmed == "" then (if open then Append(st, v.line) else EndScript(st, k, Blank))
    else if v.markdown then (if open then Append(st, v.line) else EndScript(st, k, Markdown))
    else if cfg.prose(v.trimmed) then (if open then Append(st, v.line) else EndScript(st, k, Prose))
    else if cfg.mdStep(v.trimmed) then
      (if open && !st.justClosed then Append(st, v.line) else EndScript(st, k, MdStep).(justClosed := false))
    else if cfg.listing(v.trimmed) then
      (if open then Append(st, v.line) else EndScript(st, k, Listing).(justClosed := false))
    else if cfg.outcome(v.trimmed) then EndScript(st, k, Outcome).(term := "")
    else Append(st, v.line).(justClosed := false, term := v.opens)
  }

  function StepHeredoc(st: State, v: View): State {
    if v.trimmed == st.term then Append(st, v.line).(term := "", justClosed := true) else Append(st, v.line)
  }

  /** One line of the reply. */
  function Step(cfg: Config, st: State, k: nat, v: View): State {
    if st.halted then st
    else if st.term != "" then StepHeredoc(st, v)
    else
      match v.kind
      case OutputLine => st.(halted := true)
      case DoneLine(summary) => NoteDone(EndScript(st, k, Done), summary)
      case CmdLine(init, last) => StepCmd(st, k, init, last)
      case OtherLine => if st.inScript then StepBody(cfg, st, k, v) else st
  }

  /** The state after the first k lines. */
  function RunLines(cfg: Config, vs: seq<View>, k: nat): State
    requires k <= |vs|
  {
    if k == 0 then INIT else Step(cfg, RunLines(cfg, vs, k - 1), k - 1, vs[k - 1])
  }

  function Texts(items: seq<Item>): (r: seq<string>)
    ensures |r| == |items|
    decreases |items|
  {
    if items == [] then [] else Texts(items[..|items| - 1]) + [items[|items| - 1].Text()]
  }

  function Finish(cfg: Config, lines: seq<string>): State {
    var st := RunLines(cfg, Views(cfg, lines), |lines|);
    if st.halted then st else Flush(st, |lines|, EndOfReply)
  }

  /** All that a reply is turned into. */
  function Parsed(cfg: Config, lines: seq<string>): seq<Item> {
    if Finish(cfg, lines).halted then [] else Finish(cfg, lines).out
  }

  /*** The parser itself ***/

  /** The local variables of parseLLMResponse; flushScript assigns them from a closure. */
  class Parser {
    var cmds: seq<string>
    var scriptBuf: seq<string>
    var heredocTerm: string
    var heredocJustClosed: bool
    var inScript: bool
    var doneSummary: string

    ghost predicate Matches(st: State)
      reads this
    {
      && cmds == Texts(st.out) && scriptBuf == st.buf && heredocTerm == st.term && heredocJustClosed == st.justClosed
      && inScript == st.inScript && doneSummary == st.done
    }

    constructor ()
      ensures Matches(INIT)
    {
      cmds, scriptBuf, heredocTerm, heredocJustClosed, inScript, doneSummary := [], [], "", false, false, "";
    }

    method FlushScript(ghost st: State, ghost k: nat, ghost cause: Cause)
      requires Matches(st)
      modifies this
      ensures Matches(Flush(st, k, cause))
    {
      FlushTexts(st, k, cause);
      if |scriptBuf| == 0 {
        return;
      }
      if heredocTerm != "" {
        scriptBuf := [];
        heredocTerm := "";
        return;
      }
      cmds := cmds + [Join(scriptBuf, '\n')];
      scriptBuf := [];
    }

    method EndTheScript(ghost st: State, ghost k: nat, ghost cause: Cause)
      requires Matches(st)
      modifies this
      ensures Matches(EndScript(st, k, cause))
    {
      FlushScript(st, k, cause);
      inScript := false;
    }

    method SetDone(summary: string, ghost st: State)
      requires Matches(st)
      modifies this
      ensures Matches(NoteDone(st, summary))
    {
      if doneSummary == "" {
        doneSummary := summary;
      }
    }

    method TakeInlines(segs: seq<Segment>, ghost st: State, ghost k: nat)
      requires Matches(st)
      modifies this
      ensures Matches(Inlines(st, k, segs))
    {
      ghost var cur := st;
      for i := 0 to |segs|
        invariant Matches(cur) && Inlines(cur, k, segs[i..]) == Inlines(st, k, segs)
      {
        assert segs[i..][1..] == segs[i + 1..];
        match segs[i] {
          case Nothing =>
          case Summary(s) => SetDone(s, cur);
          case Command(s, _) =>
            TextsPush(cur.out, Inline(s, k));
            cmds := cmds + [s];
        }
        cur := OneInline(cur, k, segs[i]);
      }
    }

    method TakeCmdLine(init: seq<Segment>, last: Segment, ghost st: State, ghost k: nat)
      requires Matches(st)
      modifies this
      ensures Matches(StepCmd(st, k, init, last))
    {
      EndTheScript(st, k, NextCmd);
      TakeInlines(init, EndScript(st, k, NextCmd), k);
      match last
      case Nothing =>
      case Summary(s) => SetDone(s, Inlines(EndScript(st, k, NextCmd), k, init));
      case Command(s, opens) =>
        scriptBuf := [s];
        inScript := true;
        heredocTerm := opens;
    }

    method KeepOrEnd(keep: bool, line: string, ghost st: State, ghost k: nat, ghost cause: Cause)
      requires Matches(st)
      modifies this
      ensures Matches(if keep then Append(st, line) else EndScript(st, k, cause))
    {
      if keep {
        scriptBuf := scriptBuf + [line];
      } else {
        EndTheScript(st, k, cause);
      }
    }

    method BodyLine(cfg: Config, v: View, ghost st: State, ghost k: nat)
      requires Matches(st)
      modifies this
      ensures Matches(StepBody(cfg, st, k, v))
    {
      var open := HasOpenShellQuote(scriptBuf);
      if v.trimmed == "" {
        KeepOrEnd(open, v.line, st, k, Blank);
      } else if v.markdown {
        KeepOrEnd(open, v.line, st, k, Markdown);
      } else if cfg.prose(v.trimmed) {
        KeepOrEnd(open, v.line, st, k, Prose);
      } else if cfg.mdStep(v.trimmed) {
        var keep := open && !heredocJustClosed;
        KeepOrEnd(keep, v.line, st, k, MdStep);
        heredocJustClosed := heredocJustClosed && keep;
      } else if cfg.listing(v.trimmed) {
        KeepOrEnd(open, v.line, st, k, Listing);
        heredocJustClosed := heredocJustClosed && open;
      } else if cfg.outcome(v.trimmed) {
        EndTheScript(st, k, Outcome);
        heredocTerm := "";
      } else {
        scriptBuf := scriptBuf + [v.line];
        heredocJustClosed := false;
        heredocTerm := v.opens;
      }
    }

    /** One round of the loop; `abort` reports a simulated terminal session. */
    method Line(cfg: Config, v: View, ghost st: State, ghost k: nat) returns (abort: bool)
      requires Matches(st) && !st.halted
      modifies this
      ensures abort == Step(cfg, st, k, v).halted
      ensures !abort ==> Matches(Step(cfg, st, k, v))
    {
      StepHalts(cfg, st, k, v);
      abort := false;
      if heredocTerm != "" {
        scriptBuf := scriptBuf + [v.line];
        if v.trimmed == heredocTerm {
          heredocTerm := "";
          heredocJustClosed := true;
        }
        return;
      }
      match v.kind
      case OutputLine => abort := true;
      case DoneLine(summary) =>
        EndTheScript(st, k, Done);
        SetDone(summary, EndScript(st, k, Done));
      case CmdLine(init, last) => TakeCmdLine(init, last, st, k);
      case OtherLine =>
        if inScript {
          BodyLine(cfg, v, st, k);
        }
    }
  }

  method LookAt(cfg: Config, lines: seq<string>, k: nat, ghost vs: seq<View>) returns (v: View)
    requires vs == Views(cfg, lines) && k < |lines|
    ensures v == vs[k]
  {
    ViewsAt(cfg, lines, k);
    v := ViewOf(cfg, lines[k]);
  }

  method ReadLines(cfg: Config, lines: seq<string>, p: Parser, ghost vs: seq<View>) returns (abort: bool)
    requires vs == Views(cfg, lines) && p.Matches(INIT)
    modifies p
    ensures abort == RunLines(cfg, vs, |lines|).halted
    ensures !abort ==> p.Matches(RunLines(cfg, vs, |lines|))
  {
    for k := 0 to |lines|
      invariant !RunLines(cfg, vs, k).halted && p.Matches(RunLines(cfg, vs, k))
    {
      var v := LookAt(cfg, lines, k, vs);
      abort := p.Line(cfg, v, RunLines(cfg, vs, k), k);
      if abort {
        HaltsForGood(cfg, vs, k + 1, |lines|);
        return;
      }
    }
    abort := false;
  }

  /** parseLLMResponse. */
  method ParseLLMResponse(cfg: Config, response: string)
      returns (cmds: seq<string>, doneSummary: string, hallucinated: bool)
    ensures hallucinated == Finish(cfg, Split(response, '\n')).halted
    ensures cmds == Texts(Parsed(cfg, Split(response, '\n')))
    ensures doneSummary == if hallucinated then "" else Finish(cfg, Split(response, '\n')).done
  {
    var lines := Split(response, '\n');
    ghost var vs := Views(cfg, lines);
    var p := new Parser();
    var abort := ReadLines(cfg, lines, p, vs);
    if abort {
      return [], "", true;
    }
    p.FlushScript(RunLines(cfg, vs, |lines|), |lines|, EndOfReply);
    FlushKeepsHalted(RunLines(cfg, vs, |lines|), |lines|, EndOfReply);
    return p.cmds, p.doneSummary, false;
  }

  lemma {:induction false} FlushTexts(st: State, k: nat, cause: Cause)
    ensures Texts(Flush(st, k, cause).out) == if st.buf == [] || st.term != "" then Texts(st.out)
      else Texts(st.out) + [Join(st.buf, '\n')]
  {
    TextsPush(st.out, Script(st.buf, st.start, k, cause, st.justClosed));
  }

  lemma {:induction false} TextsPush(items: seq<Item>, item: Item)
    ensures Texts(items + [item]) == Texts(items) + [item.Text()]
  {
    assert (items + [item])[..|items|] == items;
  }

  lemma {:induction false} FlushKeepsHalted(st: State, k: nat, cause: Cause)
    ensures Flush(st, k, cause).halted == st.halted
  {
  }

  lemma {:induction false} InlinesKeepHalted(st: State, k: nat, segs: seq<Segment>)
    ensures Inlines(st, k, segs).halted == st.halted
    decreases |segs|
  {
    if segs == [] {
    } else {
      InlinesKeepHalted(OneInline(st, k, segs[0]), k, segs[1..]);
    }
  }

  lemma {:induction false} StepCmdKeepsHalted(st: State, k: nat, init: seq<Segment>, last: Segment)
    ensures StepCmd(st, k, init, last).halted == st.halted
  {
    InlinesKeepHalted(EndScript(st, k, NextCmd), k, init);
  }

  lemma {:induction false} StepQuotedKeepsHalted(cfg: Config, st: State, k: nat, v: View, open: bool)
    ensures StepQuoted(cfg, st, k, v, open).halted == st.halted
  {
  }

  /** Only an `Output:` line outside here-documents aborts. */
  lemma {:induction false} StepHalts(cfg: Config, st: State, k: nat, v: View)
    requires !st.halted
    ensures Step(cfg, st, k, v).halted <==> st.term == "" && v.kind == OutputLine
  {
    if v.kind.CmdLine? {
      StepCmdKeepsHalted(st, k, v.kind.init, v.kind.last);
    }
    StepQuotedKeepsHalted(cfg, st, k, v, Open(st.buf));
  }

  lemma {:induction false} HaltsForGood(cfg: Config, vs: seq<View>, j: nat, k: nat)
    requires j <= k <= |vs| && RunLines(cfg, vs, j).halted
    ensures RunLines(cfg, vs, k).halted
  {
    if j >= k {
    } else {
      HaltsForGood(cfg, vs, j, k - 1);
    }
  }
}
