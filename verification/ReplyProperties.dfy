/** What holds of the scripts cut out of any reply, whatever the narration patterns are. */
module ReplyProperties {
  import opened Text
  import opened Heredoc
  import opened ShellQuote
  import opened ReplyScripts

  /** The line is of the kind that `cause` names. */
  predicate EndsBy(cfg: Config, v: View, cause: Cause) {
    match cause
    case Blank => v.trimmed == ""
    case Markdown => v.markdown
    case Prose => cfg.prose(v.trimmed)
    case MdStep => cfg.mdStep(v.trimmed)
    case Listing => cfg.listing(v.trimmed)
    case Outcome => cfg.outcome(v.trimmed)
    case Done => v.kind.DoneLine?
    case NextCmd => v.kind.CmdLine?
    case EndOfReply => false
  }

  predicate CauseOk(cfg: Config, vs: seq<View>, hi: nat, cause: Cause) {
    if cause == EndOfReply then hi == |vs| else hi < |vs| && EndsBy(cfg, vs[hi], cause)
  }

  /** Blank, markdown, narration and fake-listing lines end a script only outside quotes; a step line
      may also end one inside quotes when a here-document was closed before. */
  predicate QuoteOk(buf: seq<string>, cause: Cause, flag: bool) {
    && (cause == Blank || cause == Markdown || cause == Prose || cause == Listing ==> !Open(buf))
    && (cause == MdStep ==> !Open(buf) || flag)
  }

  /** Line `lo` is a `CMD:` line that ends in a command. */
  predicate StartsWith(vs: seq<View>, lo: nat, command: string) {
    lo < |vs| && vs[lo].kind.CmdLine? && vs[lo].kind.last.Command? && vs[lo].kind.last.text == command
  }

  /** `buf` is the command at the end of a `CMD:` line followed by the reply lines up to `hi`, verbatim. */
  predicate Covers(vs: seq<View>, buf: seq<string>, lo: nat, hi: nat) {
    && lo < hi <= |vs| && |buf| == hi - lo && StartsWith(vs, lo, buf[0])
    && forall i :: lo < i < hi ==> buf[i - lo] == vs[i].line
  }

  /** One of the commands before the last on the `CMD:` line `at`. */
  predicate IsInline(vs: seq<View>, at: nat, text: string) {
    at < |vs| && vs[at].kind.CmdLine? && exists i :: 0 <= i < |vs[at].kind.init| && IsCommand(vs[at].kind.init[i], text)
  }

  predicate IsCommand(seg: Segment, text: string) {
    seg.Command? && seg.text == text
  }

  predicate ItemOk(cfg: Config, vs: seq<View>, it: Item) {
    match it
    case Inline(text, at) => IsInline(vs, at, text)
    case Script(buf, lo, hi, cause, flag) =>
      Covers(vs, buf, lo, hi) && CauseOk(cfg, vs, hi, cause) && QuoteOk(buf, cause, flag)
  }

  function Begin(it: Item): nat {
    match it case Inline(_, at) => at case Script(_, lo, _, _, _) => lo
  }

  function End(it: Item): nat {
    match it case Inline(_, at) => at case Script(_, _, hi, _, _) => hi
  }

  /** Every item is in order, ends at or before `bound`, and starts where the ones before it have ended. */
  predicate ItemsOk(cfg: Config, vs: seq<View>, out: seq<Item>, bound: nat) {
    && (forall i :: 0 <= i < |out| ==> ItemOk(cfg, vs, out[i]) && End(out[i]) <= bound)
    && (forall i, j :: 0 <= i < j < |out| ==> End(out[i]) <= Begin(out[j]))
  }

  /** Invariant of the loop after `k` lines. */
  predicate Inv(cfg: Config, vs: seq<View>, k: nat, st: State) {
    && (st.inScript <==> st.buf != [])
    && (st.term != "" ==> st.inScript)
    && (st.inScript ==> Covers(vs, st.buf, st.start, k))
    && ItemsOk(cfg, vs, st.out, if st.inScript then st.start else k)
  }

  lemma {:induction false} PushItem(cfg: Config, vs: seq<View>, out: seq<Item>, bound: nat, it: Item, bound': nat)
    requires ItemsOk(cfg, vs, out, bound) && ItemOk(cfg, vs, it) && bound <= Begin(it) && End(it) <= bound'
    requires bound <= bound'
    ensures ItemsOk(cfg, vs, out + [it], bound')
  {
    var out' := out + [it];
    forall i, j | 0 <= i < j < |out'| ensures End(out'[i]) <= Begin(out'[j]) {
      assert out'[i] == out[i];
    }
  }

  lemma {:induction false} AppendKeepsInv(cfg: Config, vs: seq<View>, k: nat, st: State, st': State)
    requires k < |vs| && Inv(cfg, vs, k, st) && st.inScript
    requires st'.buf == st.buf + [vs[k].line] && st'.start == st.start && st'.inScript && st'.out == st.out
    ensures Inv(cfg, vs, k + 1, st')
  {
  }

  /** Ending a script outside here-documents. */
  lemma {:induction false} EndKeepsItems(cfg: Config, vs: seq<View>, k: nat, st: State, cause: Cause)
    requires k <= |vs| && Inv(cfg, vs, k, st)
    requires st.term == "" ==> CauseOk(cfg, vs, k, cause) && QuoteOk(st.buf, cause, st.justClosed)
    ensures var st' := EndScript(st, k, cause);
      ItemsOk(cfg, vs, st'.out, k) && st'.buf == [] && st'.term == "" && !st'.inScript
  {
    if st.buf != [] && st.term == "" {
      PushItem(cfg, vs, st.out, st.start, Script(st.buf, st.start, k, cause, st.justClosed), k);
    }
  }

  lemma {:induction false} IdleIsInv(cfg: Config, vs: seq<View>, k: nat, k': nat, st: State)
    requires k <= k' && ItemsOk(cfg, vs, st.out, k) && st.buf == [] && st.term == "" && !st.inScript
    ensures Inv(cfg, vs, k', st)
  {
  }

  lemma {:induction false} InlinesKeepItems(cfg: Config, vs: seq<View>, k: nat, st: State, segs: seq<Segment>)
    requires k < |vs| && vs[k].kind.CmdLine? && ItemsOk(cfg, vs, st.out, k)
    requires forall i :: 0 <= i < |segs| ==> segs[i] in vs[k].kind.init
    requires st.buf == [] && st.term == "" && !st.inScript
    ensures var st' := Inlines(st, k, segs);
      ItemsOk(cfg, vs, st'.out, k) && st'.buf == [] && st'.term == "" && !st'.inScript
    decreases |segs|
  {
    if segs == [] {
    } else {
      if segs[0].Command? {
        assert segs[0] in vs[k].kind.init && IsCommand(segs[0], segs[0].text);
        assert IsInline(vs, k, segs[0].text);
        PushItem(cfg, vs, st.out, k, Inline(segs[0].text, k), k);
      }
      InlinesKeepItems(cfg, vs, k, OneInline(st, k, segs[0]), segs[1..]);
    }
  }

  lemma {:induction false} StartKeepsInv(cfg: Config, vs: seq<View>, k: nat, st: State, last: Segment)
    requires k < |vs| && vs[k].kind.CmdLine? && vs[k].kind.last == last && ItemsOk(cfg, vs, st.out, k)
    requires st.buf == [] && st.term == "" && !st.inScript
    ensures Inv(cfg, vs, k + 1, StartScript(st, k, last))
  {
  }

  lemma {:induction false} CmdKeepsInv(cfg: Config, vs: seq<View>, k: nat, st: State)
    requires k < |vs| && vs[k].kind.CmdLine? && Inv(cfg, vs, k, st) && st.term == ""
    ensures Inv(cfg, vs, k + 1, StepCmd(st, k, vs[k].kind.init, vs[k].kind.last))
  {
    EndKeepsItems(cfg, vs, k, st, NextCmd);
    var st1 := EndScript(st, k, NextCmd);
    InlinesKeepItems(cfg, vs, k, st1, vs[k].kind.init);
    StartKeepsInv(cfg, vs, k, Inlines(st1, k, vs[k].kind.init), vs[k].kind.last);
  }

  /** A body line either joins the script or ends it for the reason it is recognised by. */
  lemma {:induction false} BodyChoices(cfg: Config, st: State, k: nat, v: View) returns (cause: Cause)
    requires st.inScript
    ensures var st' := StepBody(cfg, st, k, v);
      || (st'.buf == st.buf + [v.line] && st'.start == st.start && st'.inScript && st'.out == st.out)
      || (st'.out == Flush(st, k, cause).out && st'.buf == Flush(st, k, cause).buf && !st'.inScript
          && (cause == MdStep ==> Passes(cfg, v) && cfg.mdStep(v.trimmed))
          && (st'.term == EndScript(st, k, cause).term || st'.term == "")
          && EndsBy(cfg, v, cause) && cause != EndOfReply && QuoteOk(st.buf, cause, st.justClosed))
  {
    cause := if v.trimmed == "" then Blank else if v.markdown then Markdown else if cfg.prose(v.trimmed) then Prose
             else if cfg.mdStep(v.trimmed) then MdStep else if cfg.listing(v.trimmed) then Listing else Outcome;
  }

  lemma {:induction false} BodyKeepsInv(cfg: Config, vs: seq<View>, k: nat, st: State, v: View)
    requires k < |vs| && v == vs[k] && Inv(cfg, vs, k, st) && st.term == "" && st.inScript
    ensures Inv(cfg, vs, k + 1, StepBody(cfg, st, k, v))
  {
    var st' := StepBody(cfg, st, k, v);
    var cause := BodyChoices(cfg, st, k, v);
    if st'.inScript {
      AppendKeepsInv(cfg, vs, k, st, st');
    } else {
      EndKeepsItems(cfg, vs, k, st, cause);
      IdleIsInv(cfg, vs, k, k + 1, st');
    }
  }

  lemma {:induction false} StepKeepsInv(cfg: Config, vs: seq<View>, k: nat, st: State)
    requires k < |vs| && Inv(cfg, vs, k, st) && !Step(cfg, st, k, vs[k]).halted
    ensures Inv(cfg, vs, k + 1, Step(cfg, st, k, vs[k]))
  {
    var v := vs[k];
    if st.halted {
    } else if st.term != "" {
      AppendKeepsInv(cfg, vs, k, st, StepHeredoc(st, v));
    } else if v.kind.DoneLine? {
      EndKeepsItems(cfg, vs, k, st, Done);
      IdleIsInv(cfg, vs, k, k + 1, NoteDone(EndScript(st, k, Done), v.kind.summary));
    } else if v.kind.CmdLine? {
      CmdKeepsInv(cfg, vs, k, st);
    } else if st.inScript {
      BodyKeepsInv(cfg, vs, k, st, v);
    }
  }

  lemma {:induction false} NotHaltedBefore(cfg: Config, vs: seq<View>, j: nat, k: nat)
    requires j <= k <= |vs| && !RunLines(cfg, vs, k).halted
    ensures !RunLines(cfg, vs, j).halted
  {
    if j >= k {
    } else {
      NotHaltedBefore(cfg, vs, j, k - 1);
    }
  }

  lemma {:induction false} RunKeepsInv(cfg: Config, vs: seq<View>, k: nat)
    requires k <= |vs| && !RunLines(cfg, vs, k).halted
    ensures Inv(cfg, vs, k, RunLines(cfg, vs, k))
  {
    if k == 0 {
    } else {
      NotHaltedBefore(cfg, vs, k - 1, k);
      RunKeepsInv(cfg, vs, k - 1);
      StepKeepsInv(cfg, vs, k - 1, RunLines(cfg, vs, k - 1));
    }
  }

  /** The scripts cut from any reply are disjoint, in order, and each is a contiguous run of reply lines,
      verbatim after the first, which is the last command of a `CMD:` line; each inline command is one of the
      commands before it; each script ended for the recorded reason; and
      none that a blank, markdown, narration or fake-listing line ended has an open quote. */
  lemma {:induction false} ScriptsAreRuns(cfg: Config, lines: seq<string>)
    ensures ItemsOk(cfg, Views(cfg, lines), Parsed(cfg, lines), |lines|)
  {
    var vs := Views(cfg, lines);
    var st := RunLines(cfg, vs, |lines|);
    if !st.halted {
      RunKeepsInv(cfg, vs, |lines|);
      EndKeepsItems(cfg, vs, |lines|, st, EndOfReply);
    }
  }

  /*** Where scripts begin and end ***/

  /** The parser reads line `k` as a `CMD:` line, not as part of a here-document. */
  predicate ReadAsCmd(cfg: Config, vs: seq<View>, k: nat) {
    k < |vs| && !RunLines(cfg, vs, k).halted && RunLines(cfg, vs, k).term == "" && vs[k].kind.CmdLine?
  }

  /** Line `k` is looked at as a possible continuation of a script. */
  predicate InBody(cfg: Config, vs: seq<View>, k: nat) {
    && k < |vs| && vs[k].kind == OtherLine
    && !RunLines(cfg, vs, k).halted && RunLines(cfg, vs, k).term == "" && RunLines(cfg, vs, k).inScript
  }

  /** The line gets past the tests for blank, markdown and narration lines. */
  predicate Passes(cfg: Config, v: View) {
    v.trimmed != "" && !v.markdown && !cfg.prose(v.trimmed)
  }

  /** Line `k` is met as a step line while a script is collected. */
  predicate StepLineAt(cfg: Config, vs: seq<View>, k: nat) {
    InBody(cfg, vs, k) && Passes(cfg, vs[k]) && cfg.mdStep(vs[k].trimmed)
  }

  /** Each script handed out is what was collected when it ended, outside here-documents, from a `CMD:` line on. */
  predicate EndedOutside(cfg: Config, vs: seq<View>, it: Item) {
    it.Script? ==>
      && it.lo < it.hi <= |vs| && ReadAsCmd(cfg, vs, it.lo)
      && var st := RunLines(cfg, vs, it.hi);
         && st.term == "" && !st.halted && it.lines == st.buf && it.lo == st.start
         && (it.cause == MdStep ==> StepLineAt(cfg, vs, it.hi) && (Open(st.buf) ==> st.justClosed))
  }

  predicate AllEndedOutside(cfg: Config, vs: seq<View>, out: seq<Item>) {
    forall i :: 0 <= i < |out| ==> EndedOutside(cfg, vs, out[i])
  }

  /** What is being collected began on a `CMD:` line. */
  predicate BegunByCmd(cfg: Config, vs: seq<View>, k: nat) {
    k <= |vs| && var st := RunLines(cfg, vs, k); st.buf != [] ==> st.start < k && ReadAsCmd(cfg, vs, st.start)
  }

  lemma {:induction false} InlinesKeepBuf(st: State, k: nat, segs: seq<Segment>)
    ensures var st' := Inlines(st, k, segs);
      st'.buf == st.buf && st'.start == st.start && st'.justClosed == st.justClosed
    decreases |segs|
  {
    if segs == [] {
    } else {
      InlinesKeepBuf(OneInline(st, k, segs[0]), k, segs[1..]);
    }
  }

  lemma {:induction false} StepKeepsStart(cfg: Config, vs: seq<View>, k: nat, st: State)
    requires k < |vs| && Inv(cfg, vs, k, st)
    ensures var st' := Step(cfg, st, k, vs[k]);
      st'.buf != [] ==>
        || (st.buf != [] && st'.start == st.start)
        || (st'.start == k && !st.halted && st.term == "" && vs[k].kind.CmdLine?)
  {
    var v := vs[k];
    if v.kind.CmdLine? {
      EndKeepsBuf(cfg, vs, k, st);
      InlinesKeepBuf(EndScript(st, k, NextCmd), k, v.kind.init);
    } else if st.inScript {
      var cause := BodyChoices(cfg, st, k, v);
    }
  }

  lemma {:induction false} EndKeepsBuf(cfg: Config, vs: seq<View>, k: nat, st: State)
    ensures EndScript(st, k, NextCmd).buf == []
  {
  }

  lemma {:induction false} RunBegunByCmd(cfg: Config, vs: seq<View>, k: nat)
    requires k <= |vs| && !RunLines(cfg, vs, k).halted
    ensures BegunByCmd(cfg, vs, k)
  {
    if k == 0 {
    } else {
      NotHaltedBefore(cfg, vs, k - 1, k);
      RunBegunByCmd(cfg, vs, k - 1);
      RunKeepsInv(cfg, vs, k - 1);
      StepKeepsStart(cfg, vs, k - 1, RunLines(cfg, vs, k - 1));
    }
  }

  /** A run so far: not aborted, and all scripts accounted for. */
  predicate GoodRun(cfg: Config, vs: seq<View>, k: nat) {
    BegunByCmd(cfg, vs, k) && !RunLines(cfg, vs, k).halted && AllEndedOutside(cfg, vs, RunLines(cfg, vs, k).out)
  }

  lemma {:induction false} FlushEndsOutside(cfg: Config, vs: seq<View>, k: nat, cause: Cause)
    requires GoodRun(cfg, vs, k)
    requires cause == MdStep ==>
      StepLineAt(cfg, vs, k) && (Open(RunLines(cfg, vs, k).buf) ==> RunLines(cfg, vs, k).justClosed)
    ensures AllEndedOutside(cfg, vs, Flush(RunLines(cfg, vs, k), k, cause).out)
  {
    var st := RunLines(cfg, vs, k);
    if st.buf != [] && st.term == "" {
      assert EndedOutside(cfg, vs, Script(st.buf, st.start, k, cause, st.justClosed));
    }
  }

  lemma {:induction false} InlinesEndOutside(cfg: Config, vs: seq<View>, st: State, k: nat, segs: seq<Segment>)
    requires AllEndedOutside(cfg, vs, st.out)
    ensures AllEndedOutside(cfg, vs, Inlines(st, k, segs).out)
    decreases |segs|
  {
    if segs == [] {
    } else {
      InlinesEndOutside(cfg, vs, OneInline(st, k, segs[0]), k, segs[1..]);
    }
  }

  lemma {:induction false} CmdEndsOutside(cfg: Config, vs: seq<View>, k: nat, init: seq<Segment>, last: Segment)
    requires GoodRun(cfg, vs, k)
    ensures AllEndedOutside(cfg, vs, StepCmd(RunLines(cfg, vs, k), k, init, last).out)
  {
    FlushEndsOutside(cfg, vs, k, NextCmd);
    InlinesEndOutside(cfg, vs, EndScript(RunLines(cfg, vs, k), k, NextCmd), k, init);
  }

  lemma {:induction false} BodyEndsOutside(cfg: Config, vs: seq<View>, k: nat)
    requires GoodRun(cfg, vs, k) && InBody(cfg, vs, k)
    ensures AllEndedOutside(cfg, vs, StepBody(cfg, RunLines(cfg, vs, k), k, vs[k]).out)
  {
    var st := RunLines(cfg, vs, k);
    var cause := BodyChoices(cfg, st, k, vs[k]);
    if StepBody(cfg, st, k, vs[k]).inScript {
    } else {
      FlushEndsOutside(cfg, vs, k, cause);
    }
  }

  lemma {:induction false} StepEndsOutside(cfg: Config, vs: seq<View>, k: nat)
    requires k < |vs| && GoodRun(cfg, vs, k)
    ensures AllEndedOutside(cfg, vs, Step(cfg, RunLines(cfg, vs, k), k, vs[k]).out)
  {
    var st, v := RunLines(cfg, vs, k), vs[k];
    if st.term != "" {
    } else if v.kind.DoneLine? {
      FlushEndsOutside(cfg, vs, k, Done);
    } else if v.kind.CmdLine? {
      CmdEndsOutside(cfg, vs, k, v.kind.init, v.kind.last);
    } else if v.kind.OtherLine? && st.inScript {
      BodyEndsOutside(cfg, vs, k);
    }
  }

  lemma {:induction false} RunIsGood(cfg: Config, vs: seq<View>, k: nat)
    requires k <= |vs| && !RunLines(cfg, vs, k).halted
    ensures GoodRun(cfg, vs, k)
  {
    RunBegunByCmd(cfg, vs, k);
    if k == 0 {
    } else {
      NotHaltedBefore(cfg, vs, k - 1, k);
      RunIsGood(cfg, vs, k - 1);
      StepEndsOutside(cfg, vs, k - 1);
    }
  }

  /*** Here-documents ***/

  lemma {:induction false} AwaitStep(cfg: Config, vs: seq<View>, j: nat)
    requires j < |vs| && !RunLines(cfg, vs, j).halted && RunLines(cfg, vs, j).term != ""
    ensures RunLines(cfg, vs, j + 1).term == if vs[j].trimmed == RunLines(cfg, vs, j).term then ""
      else RunLines(cfg, vs, j).term
  {
  }

  /** A here-document awaited after line `j` and not awaited before line `hi` was closed in between. */
  lemma {:induction false} ClosedBetween(cfg: Config, vs: seq<View>, j: nat, hi: nat) returns (e: nat)
    requires j < hi <= |vs| && RunLines(cfg, vs, j).term != ""
    requires RunLines(cfg, vs, hi).term == "" && !RunLines(cfg, vs, hi).halted
    ensures j <= e < hi && vs[e].trimmed == RunLines(cfg, vs, j).term
    decreases hi - j
  {
    NotHaltedBefore(cfg, vs, j, hi);
    AwaitStep(cfg, vs, j);
    if vs[j].trimmed == RunLines(cfg, vs, j).term {
      e := j;
    } else {
      e := ClosedBetween(cfg, vs, j + 1, hi);
    }
  }

  lemma {:induction false} ParsedItem(cfg: Config, lines: seq<string>, it: Item)
    requires it in Parsed(cfg, lines)
    ensures EndedOutside(cfg, Views(cfg, lines), it) && ItemOk(cfg, Views(cfg, lines), it)
  {
    var vs := Views(cfg, lines);
    if !RunLines(cfg, vs, |lines|).halted {
      RunIsGood(cfg, vs, |lines|);
      FlushEndsOutside(cfg, vs, |lines|, EndOfReply);
    }
    ScriptsAreRuns(cfg, lines);
  }

  /** Whenever the parser enters a here-document on line `j` of a script that it hands out, the closing
      line is in the same script; scripts with an unclosed one are never handed out. */
  lemma {:induction false} HeredocsClosedInScript(cfg: Config, lines: seq<string>, it: Item, j: nat) returns (e: nat)
    requires it in Parsed(cfg, lines) && it.Script?
    requires it.lo <= j < it.hi <= |lines| && RunLines(cfg, Views(cfg, lines), j + 1).term != ""
    ensures j < e < it.hi && TrimSpace(lines[e]) == RunLines(cfg, Views(cfg, lines), j + 1).term
    ensures e - it.lo < |it.lines| && it.lines[e - it.lo] == lines[e]
  {
    ParsedItem(cfg, lines, it);
    e := ClosedInItem(cfg, Views(cfg, lines), it, j);
    ViewsAt(cfg, lines, e);
  }

  lemma {:induction false} ClosedInItem(cfg: Config, vs: seq<View>, it: Item, j: nat) returns (e: nat)
    requires it.Script? && EndedOutside(cfg, vs, it) && ItemOk(cfg, vs, it)
    requires it.lo <= j < it.hi && RunLines(cfg, vs, j + 1).term != ""
    ensures j < e < it.hi && vs[e].trimmed == RunLines(cfg, vs, j + 1).term
    ensures e - it.lo < |it.lines| && it.lines[e - it.lo] == vs[e].line
  {
    e := ClosedBetween(cfg, vs, j + 1, it.hi);
  }

  /*** Nothing is lost ***/

  predicate HasScript(out: seq<Item>, k: nat) {
    exists i :: 0 <= i < |out| && out[i].Script? && out[i].lo == k
  }

  /** Everything that the `CMD:` lines before `k` ask for is handed out, but for the script being collected. */
  predicate Complete(cfg: Config, vs: seq<View>, k: nat, st: State)
    requires k <= |vs|
  {
    && (forall s :: 0 <= s < k && ReadAsCmd(cfg, vs, s) && vs[s].kind.last.Command? ==>
      HasScript(st.out, s) || (st.inScript && st.start == s))
    && (forall s :: 0 <= s < k && ReadAsCmd(cfg, vs, s) ==> InlinesOut(st.out, s, vs[s].kind.init))
  }

  /** Every command among `segs` is in `out` as an inline command of line `s`. */
  predicate InlinesOut(out: seq<Item>, s: nat, segs: seq<Segment>) {
    forall i :: 0 <= i < |segs| && segs[i].Command? ==> Inline(segs[i].text, s) in out
  }

  lemma {:induction false} MoreIsComplete(cfg: Config, vs: seq<View>, k: nat, st: State, st': State)
    requires k <= |vs| && Complete(cfg, vs, k, st) && st.out <= st'.out
    requires st.inScript ==> HasScript(st'.out, st.start) || (st'.inScript && st'.start == st.start)
    ensures Complete(cfg, vs, k, st')
  {
    forall s | 0 <= s < k && ReadAsCmd(cfg, vs, s) && vs[s].kind.last.Command?
      ensures HasScript(st'.out, s) || (st'.inScript && st'.start == s)
    {
      if HasScript(st.out, s) {
        var i :| 0 <= i < |st.out| && st.out[i].Script? && st.out[i].lo == s;
        assert st'.out[i] == st.out[i];
      }
    }
    forall s | 0 <= s < k && ReadAsCmd(cfg, vs, s) ensures InlinesOut(st'.out, s, vs[s].kind.init) {
      assert InlinesOut(st.out, s, vs[s].kind.init);
      assert forall x :: x in st.out ==> x in st'.out;
    }
  }

  lemma {:induction false} InlinesGrow(st: State, k: nat, segs: seq<Segment>)
    ensures st.out <= Inlines(st, k, segs).out && InlinesOut(Inlines(st, k, segs).out, k, segs)
    ensures Inlines(st, k, segs).inScript == st.inScript && Inlines(st, k, segs).start == st.start
    decreases |segs|
  {
    if segs == [] {
    } else {
      var st1 := OneInline(st, k, segs[0]);
      InlinesGrow(st1, k, segs[1..]);
      var out := Inlines(st, k, segs).out;
      assert st.out <= st1.out;
      assert forall x :: x in st1.out ==> x in out;
      forall i | 0 <= i < |segs| && segs[i].Command? ensures Inline(segs[i].text, k) in out {
        if i == 0 {
          assert Inline(segs[0].text, k) in st1.out;
        } else {
          assert segs[i] == segs[1..][i - 1];
        }
      }
    }
  }

  /** Outside here-documents, ending a script hands it out. */
  lemma {:induction false} EndHandsOut(cfg: Config, vs: seq<View>, k: nat, st: State, cause: Cause)
    requires k <= |vs| && Inv(cfg, vs, k, st) && Complete(cfg, vs, k, st) && st.term == ""
    ensures Complete(cfg, vs, k, EndScript(st, k, cause)) && st.out <= EndScript(st, k, cause).out
  {
    var st' := EndScript(st, k, cause);
    if st.inScript {
      assert st'.out[|st.out|].lo == st.start;
    }
    MoreIsComplete(cfg, vs, k, st, st');
  }

  lemma {:induction false} NotCmdComplete(cfg: Config, vs: seq<View>, k: nat, st: State)
    requires k < |vs| && Complete(cfg, vs, k, st) && !ReadAsCmd(cfg, vs, k)
    ensures Complete(cfg, vs, k + 1, st)
  {
  }

  lemma {:induction false} StartKeepsOut(st: State, k: nat, last: Segment)
    ensures var st' := StartScript(st, k, last);
      st'.out == st.out && (last.Command? ==> st'.inScript && st'.start == k) &&
        (!last.Command? ==> st'.inScript == st.inScript && st'.start == st.start)
  {
  }

  lemma {:induction false} CmdComplete(cfg: Config, vs: seq<View>, k: nat, st: State)
    requires k < |vs| && Inv(cfg, vs, k, st) && Complete(cfg, vs, k, st) && st.term == "" && vs[k].kind.CmdLine?
    ensures Complete(cfg, vs, k + 1, StepCmd(st, k, vs[k].kind.init, vs[k].kind.last))
  {
    var st1 := EndScript(st, k, NextCmd);
    EndHandsOut(cfg, vs, k, st, NextCmd);
    assert !st1.inScript;
    var st2 := Inlines(st1, k, vs[k].kind.init);
    InlinesGrow(st1, k, vs[k].kind.init);
    var st3 := StartScript(st2, k, vs[k].kind.last);
    StartKeepsOut(st2, k, vs[k].kind.last);
    MoreIsComplete(cfg, vs, k, st1, st3);
    OneMoreComplete(cfg, vs, k, st3);
  }

  lemma {:induction false} OneMoreComplete(cfg: Config, vs: seq<View>, k: nat, st: State)
    requires k < |vs| && Complete(cfg, vs, k, st) && vs[k].kind.CmdLine?
    requires vs[k].kind.last.Command? ==> st.inScript && st.start == k
    requires InlinesOut(st.out, k, vs[k].kind.init)
    ensures Complete(cfg, vs, k + 1, st)
  {
  }

  lemma {:induction false} BodyComplete(cfg: Config, vs: seq<View>, k: nat, st: State)
    requires k < |vs| && Inv(cfg, vs, k, st) && Complete(cfg, vs, k, st) && st.term == "" && st.inScript
    ensures Complete(cfg, vs, k, StepBody(cfg, st, k, vs[k]))
  {
    var cause := BodyChoices(cfg, st, k, vs[k]);
    EndHandsOut(cfg, vs, k, st, cause);
    var st' := StepBody(cfg, st, k, vs[k]);
    if st'.inScript {
      MoreIsComplete(cfg, vs, k, st, st');
    } else {
      MoreIsComplete(cfg, vs, k, EndScript(st, k, cause), st');
    }
  }

  lemma {:induction false} StepComplete(cfg: Config, vs: seq<View>, k: nat, st: State)
    requires k < |vs| && st == RunLines(cfg, vs, k) && Inv(cfg, vs, k, st) && Complete(cfg, vs, k, st)
    requires !Step(cfg, st, k, vs[k]).halted
    ensures Complete(cfg, vs, k + 1, Step(cfg, st, k, vs[k]))
  {
    var v := vs[k];
    var st' := Step(cfg, st, k, v);
    if ReadAsCmd(cfg, vs, k) {
      CmdComplete(cfg, vs, k, st);
    } else {
      if st.term == "" && v.kind.DoneLine? {
        EndHandsOut(cfg, vs, k, st, Done);
        MoreIsComplete(cfg, vs, k, EndScript(st, k, Done), st');
      } else if st.term == "" && st.inScript {
        BodyComplete(cfg, vs, k, st);
      } else {
        MoreIsComplete(cfg, vs, k, st, st');
      }
      NotCmdComplete(cfg, vs, k, st');
    }
  }

  lemma {:induction false} RunComplete(cfg: Config, vs: seq<View>, k: nat)
    requires k <= |vs| && !RunLines(cfg, vs, k).halted
    ensures Complete(cfg, vs, k, RunLines(cfg, vs, k))
  {
    if k == 0 {
    } else {
      NotHaltedBefore(cfg, vs, k - 1, k);
      RunComplete(cfg, vs, k - 1);
      RunKeepsInv(cfg, vs, k - 1);
      StepComplete(cfg, vs, k - 1, RunLines(cfg, vs, k - 1));
    }
  }

  /** Line `j` leaves the script of line `k` inside a here-document that no later line closes. */
  predicate NeverCloses(cfg: Config, vs: seq<View>, k: nat, j: nat)
    requires j < |vs|
  {
    var st := RunLines(cfg, vs, j + 1);
    st.inScript && st.start == k && st.term != "" && forall m :: j < m < |vs| ==> vs[m].trimmed != st.term
  }

  lemma {:induction false} AwaitsToTheEnd(cfg: Config, vs: seq<View>, k: nat, j: nat, n: nat)
    requires j < n <= |vs| && NeverCloses(cfg, vs, k, j) && !RunLines(cfg, vs, n).halted
    ensures var st, now := RunLines(cfg, vs, j + 1), RunLines(cfg, vs, n);
      now.inScript && now.start == k && now.term == st.term
    decreases n
  {
    if n <= j + 1 {
    } else {
      NotHaltedBefore(cfg, vs, n - 1, n);
      AwaitsToTheEnd(cfg, vs, k, j, n - 1);
    }
  }

  lemma {:induction false} OpenAtEnd(cfg: Config, vs: seq<View>) returns (j: nat)
    requires !RunLines(cfg, vs, |vs|).halted && RunLines(cfg, vs, |vs|).term != ""
    ensures j < |vs| && NeverCloses(cfg, vs, RunLines(cfg, vs, |vs|).start, j)
  {
    RunKeepsInv(cfg, vs, |vs|);
    j := |vs| - 1;
  }

  predicate LeftOpen(cfg: Config, vs: seq<View>, k: nat) {
    exists j :: 0 <= j < |vs| && NeverCloses(cfg, vs, k, j)
  }

  /** All items of a reply that is not aborted. */
  function AllItems(cfg: Config, vs: seq<View>): seq<Item> {
    Flush(RunLines(cfg, vs, |vs|), |vs|, EndOfReply).out
  }

  lemma {:induction false} LeftOpenIsDropped(cfg: Config, vs: seq<View>, k: nat)
    requires !RunLines(cfg, vs, |vs|).halted && LeftOpen(cfg, vs, k)
    ensures !HasScript(AllItems(cfg, vs), k)
  {
    var j :| 0 <= j < |vs| && NeverCloses(cfg, vs, k, j);
    AwaitsToTheEnd(cfg, vs, k, j, |vs|);
    RunKeepsInv(cfg, vs, |vs|);
    var st := RunLines(cfg, vs, |vs|);
    assert AllItems(cfg, vs) == st.out;
    forall i | 0 <= i < |st.out| && st.out[i].Script? ensures st.out[i].lo != k {
      assert ItemOk(cfg, vs, st.out[i]) && End(st.out[i]) <= st.start;
    }
  }

  lemma {:induction false} OthersAreKept(cfg: Config, vs: seq<View>, k: nat)
    requires !RunLines(cfg, vs, |vs|).halted && !LeftOpen(cfg, vs, k)
    requires ReadAsCmd(cfg, vs, k) && vs[k].kind.last.Command?
    ensures HasScript(AllItems(cfg, vs), k)
  {
    var st := RunLines(cfg, vs, |vs|);
    RunComplete(cfg, vs, |vs|);
    RunKeepsInv(cfg, vs, |vs|);
    if HasScript(st.out, k) {
      var i :| 0 <= i < |st.out| && st.out[i].Script? && st.out[i].lo == k;
      assert AllItems(cfg, vs)[i] == st.out[i];
    } else {
      StillCollected(cfg, vs, k, st);
    }
  }

  lemma {:induction false} StillCollected(cfg: Config, vs: seq<View>, k: nat, st: State)
    requires st == RunLines(cfg, vs, |vs|) && !st.halted && !LeftOpen(cfg, vs, k) && st.inScript && st.start == k
    requires st.buf != []
    ensures HasScript(AllItems(cfg, vs), k)
  {
    assert st.term == "" by {
      if st.term != "" {
        var j := OpenAtEnd(cfg, vs);
      }
    }
    assert AllItems(cfg, vs)[|st.out|].lo == k;
  }

  lemma {:induction false} ScriptsComeFromCmd(cfg: Config, vs: seq<View>, k: nat)
    requires !RunLines(cfg, vs, |vs|).halted && HasScript(AllItems(cfg, vs), k)
    ensures ReadAsCmd(cfg, vs, k) && vs[k].kind.last.Command?
  {
    RunIsGood(cfg, vs, |vs|);
    FlushEndsOutside(cfg, vs, |vs|, EndOfReply);
    RunKeepsInv(cfg, vs, |vs|);
    EndKeepsItems(cfg, vs, |vs|, RunLines(cfg, vs, |vs|), EndOfReply);
    var out := AllItems(cfg, vs);
    var i :| 0 <= i < |out| && out[i].Script? && out[i].lo == k;
    assert EndedOutside(cfg, vs, out[i]) && ItemOk(cfg, vs, out[i]);
  }

  /** Unless the reply is aborted, the command at the end of a `CMD:` line becomes a script, starting on that
      line, if and only if no here-document in it is left open to the end of the reply. */
  lemma {:induction false} ScriptHandedOutIff(cfg: Config, lines: seq<string>, k: nat)
    requires !Finish(cfg, lines).halted
    ensures var vs := Views(cfg, lines);
      HasScript(Parsed(cfg, lines), k) <==> ReadAsCmd(cfg, vs, k) && vs[k].kind.last.Command? && !LeftOpen(cfg, vs, k)
  {
    var vs := Views(cfg, lines);
    assert Parsed(cfg, lines) == AllItems(cfg, vs);
    if HasScript(Parsed(cfg, lines), k) {
      ScriptsComeFromCmd(cfg, vs, k);
    }
    if LeftOpen(cfg, vs, k) {
      LeftOpenIsDropped(cfg, vs, k);
    } else if ReadAsCmd(cfg, vs, k) && vs[k].kind.last.Command? {
      OthersAreKept(cfg, vs, k);
    }
  }

  /** Every command before the last on a `CMD:` line is handed out, always. */
  lemma {:induction false} InlinesHandedOut(cfg: Config, lines: seq<string>, k: nat)
    requires !Finish(cfg, lines).halted && ReadAsCmd(cfg, Views(cfg, lines), k)
    ensures InlinesOut(Parsed(cfg, lines), k, Views(cfg, lines)[k].kind.init)
  {
    var vs := Views(cfg, lines);
    RunComplete(cfg, vs, |vs|);
    var st := RunLines(cfg, vs, |vs|);
    assert InlinesOut(st.out, k, vs[k].kind.init);
    assert forall x :: x in st.out ==> x in AllItems(cfg, vs);
  }
}
