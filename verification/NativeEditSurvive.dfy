/** Exactly which operations survive being printed and parsed, told by counting the lines with text: a line that the
    parser takes for a marker is lost to both sides of an edit. */
module NativeEditSurvive {
  import opened Text
  import opened FileSanitize
  import opened LineCounts
  import opened EditLines
  import opened NativeEdit
  import opened NativeEditSpans
  import opened NativeEditPrint

  /*** Unmarked lines with text ***/

  function Plain(vs: seq<View>): nat
    decreases |vs|
  {
    if vs == [] then 0 else (if vs[0].mark == NoMark && vs[0].text != "" then 1 else 0) + Plain(vs[1..])
  }

  lemma {:induction false} PlainAppend(a: seq<View>, b: seq<View>)
    ensures Plain(a + b) == Plain(a) + Plain(b)
    decreases |a|
  {
    if a == [] {
      assert a + b == b;
    } else {
      assert (a + b)[1..] == a[1..] + b;
      PlainAppend(a[1..], b);
    }
  }

  lemma {:induction false} PlainOne(v: View)
    ensures Plain([v]) == if v.mark == NoMark && v.text != "" then 1 else 0
  {
    assert [v][1..] == [];
  }

  lemma {:induction false} PlainSuffix(vs: seq<View>, i: nat)
    requires i <= |vs|
    ensures Plain(vs[i..]) <= Plain(vs)
  {
    assert vs == vs[..i] + vs[i..];
    PlainAppend(vs[..i], vs[i..]);
  }

  predicate OneLinersFrom(vs: seq<View>, start: nat) {
    forall k :: start <= k < |vs| ==> '\n' !in vs[k].text
  }

  lemma {:induction false} SectionFree(vs: seq<View>, start: nat, k: nat, search: bool)
    requires start <= k <= |vs| && OneLinersFrom(vs, start)
    ensures NewlineFree(Section(vs, start, k, search))
    decreases k
  {
    if k == start {
    } else {
      SectionFree(vs, start, k - 1, search);
    }
  }

  /** The two sides of a block together have as many lines with text as there are unmarked ones above its end. */
  lemma {:induction false} SectionsCount(vs: seq<View>, start: nat, k: nat)
    requires start <= k <= |vs|
    ensures NonEmpty(Section(vs, start, k, true)) + NonEmpty(Section(vs, start, k, false)) == Plain(vs[start..k])
    decreases k
  {
    if k == start {
      assert vs[start..k] == [];
    } else {
      SectionsCount(vs, start, k - 1);
      assert vs[start..k] == vs[start..k - 1] + [vs[k - 1]];
      PlainAppend(vs[start..k - 1], [vs[k - 1]]);
      PlainOne(vs[k - 1]);
      SectionCount(vs, start, k, true);
      SectionCount(vs, start, k, false);
    }
  }

  lemma {:induction false} SectionCount(vs: seq<View>, start: nat, k: nat, search: bool)
    requires start < k <= |vs|
    ensures NonEmpty(Section(vs, start, k, search)) == NonEmpty(Section(vs, start, k - 1, search)) +
      (if vs[k - 1].mark == NoMark && (ModeAt(vs, start, k - 1) == InSearch) == search && vs[k - 1].text != "" then 1
        else 0)
  {
    var before := Section(vs, start, k - 1, search);
    NonEmptySnoc(before, vs[k - 1].text);
    assert before + [] == before;
  }

  /*** What any parsed EDIT holds ***/

  function TextOf(op: Op): nat
    requires op.EditOp?
  {
    LinesWithText(op.search) + LinesWithText(op.replace)
  }

  lemma {:induction false} NoTextInEmpty()
    ensures LinesWithText("") == 0
  {
    assert Split("", '\n') == [""] && [""][1..] == [];
  }

  lemma {:induction false} BodyEndsWell(ls: seq<string>)
    ensures !FinalNewline(Body(ls))
  {
    TrimRightEnds(Join(ls, '\n'));
  }

  lemma {:induction false} TrimRightEnds(s: string)
    ensures !FinalNewline(TrimRight(s, IsNewline))
  {
    if s == "" || !IsNewline(s[|s| - 1]) {
    } else {
      TrimRightEnds(s[..|s| - 1]);
    }
  }

  lemma {:induction false} BodyCounts(ls: seq<string>)
    requires NewlineFree(ls)
    ensures LinesWithText(Body(ls)) == NonEmpty(ls) && !FinalNewline(Body(ls))
  {
    BodyKeepsText(ls);
    BodyEndsWell(ls);
  }

  lemma {:induction false} SpelledSides(vs: seq<View>, start: nat, e: nat, search: string, rest: string)
    requires start <= e <= |vs| && search == Body(Section(vs, start, e, true))
    requires rest == Body(Section(vs, start, e, false))
    ensures var b := SpelledAt(vs, start, e);
      b.ok ==> (b.search == search || b.search == "") && b.replace == rest && (b.search == "" ==> !b.all)
  {
  }

  lemma {:induction false} SpelledText(vs: seq<View>, start: nat, e: nat, b: Block)
    requires start <= e <= |vs| && OneLinersFrom(vs, start) && b == SpelledAt(vs, start, e) && b.ok
    ensures LinesWithText(b.search) + LinesWithText(b.replace) <= Plain(vs[start..e])
    ensures !FinalNewline(b.search) && !FinalNewline(b.replace) && (b.search == "" ==> !b.all)
  {
    var ss, rs := Section(vs, start, e, true), Section(vs, start, e, false);
    SpelledSides(vs, start, e, Body(ss), Body(rs));
    SectionsCount(vs, start, e);
    SectionFree(vs, start, e, true);
    SectionFree(vs, start, e, false);
    BodyCounts(ss);
    BodyCounts(rs);
    NoTextInEmpty();
  }

  lemma {:induction false} ReadFromBlock(vs: seq<View>, i: nat, op: Op, to: nat, b: Block)
    requires i < |vs| && At(vs, i).0 == [Item(op, i, to)] && op.EditOp?
    requires b == BlockFrom(vs, i + 1, i + 1, NoMode, [], [], false)
    ensures b.ok && op == EditOp(op.path, b.search, b.replace, b.all) && (b.search == "" ==> IsDiffBody(b.replace))
  {
  }

  lemma {:induction false} PlainPart(vs: seq<View>, i: nat, e: nat)
    requires i <= e <= |vs|
    ensures Plain(vs[i..e]) <= Plain(vs[i..])
  {
    assert vs[i..] == vs[i..e] + vs[e..];
    PlainAppend(vs[i..e], vs[e..]);
  }

  /** An EDIT read from line `i` holds no more text than the unmarked lines below, and ends no block in a newline. */
  lemma {:induction false} EditHolds(vs: seq<View>, i: nat, op: Op, to: nat)
    requires i < |vs| && OneLinersFrom(vs, 1) && At(vs, i).0 == [Item(op, i, to)] && op.EditOp?
    ensures TextOf(op) <= Plain(vs[i + 1..])
    ensures !FinalNewline(op.search) && !FinalNewline(op.replace)
    ensures op.search == "" ==> !op.all && IsDiffBody(op.replace)
  {
    var b := BlockFrom(vs, i + 1, i + 1, NoMode, [], [], false);
    var e := BlockIsExplained(vs, i + 1, i + 1, NoMode, [], [], false);
    ReadFromBlock(vs, i, op, to, b);
    SpelledText(vs, i + 1, e, b);
    PlainPart(vs, i + 1, e);
  }

  /** A single operation was read from some header. */
  lemma {:induction false} FoundAt(vs: seq<View>, i: nat, op: Op) returns (k: nat, to: nat)
    requires i <= |vs| && Ops(ParseFrom(vs, i)) == [op]
    ensures i <= k < |vs| && At(vs, k).0 == [Item(op, k, to)]
    decreases |vs| - i
  {
    var r := At(vs, i);
    HeaderSpans(vs, i);
    if r.0 == [] {
      assert [] + ParseFrom(vs, r.1) == ParseFrom(vs, r.1);
      k, to := FoundAt(vs, r.1, op);
    } else {
      var rest := ParseFrom(vs, r.1);
      assert (r.0 + rest)[0] == r.0[0] && Ops(r.0 + rest)[0] == r.0[0].op;
      k, to := i, r.0[0].to;
    }
  }

  /*** Printed EDIT blocks ***/

  lemma {:induction false} BlankIsUnmarked(cfg: Config)
    ensures ViewOf(cfg, "").mark == NoMark
  {
    assert TrimSpace("") == "";
    assert !HasSuffix(ToUpper(""), "REPLACE") && !EqualFold("", "---END EDIT---");
  }

  /** Lines have at most their own text, and all of it only if none is marked. */
  lemma {:induction false} PlainOfLines(cfg: Config, ls: seq<string>)
    ensures Plain(Views(cfg, ls)) <= NonEmpty(ls)
    ensures Plain(Views(cfg, ls)) == NonEmpty(ls) <==> AllUnmarked(Views(cfg, ls))
    decreases |ls|
  {
    if ls == [] {
    } else {
      var vs := Views(cfg, ls);
      PlainOfLines(cfg, ls[1..]);
      ViewsCons(cfg, ls[0], ls[1..]);
      assert ls == [ls[0]] + ls[1..] && vs[1..] == Views(cfg, ls[1..]);
      BlankIsUnmarked(cfg);
      UnmarkedTail(vs);
    }
  }

  lemma {:induction false} UnmarkedTail(vs: seq<View>)
    requires vs != []
    ensures AllUnmarked(vs) <==> vs[0].mark == NoMark && AllUnmarked(vs[1..])
  {
    assert forall k :: 0 <= k < |vs[1..]| ==> vs[1..][k] == vs[k + 1];
    assert forall k :: 0 < k < |vs| ==> vs[k] == vs[1..][k - 1];
  }

  lemma {:induction false} ViewsFree(cfg: Config, ls: seq<string>, h: View)
    requires NewlineFree(ls)
    ensures OneLinersFrom([h] + Views(cfg, ls), 1)
  {
    var vs := Views(cfg, ls);
    forall k | 0 <= k < |vs| ensures '\n' !in vs[k].text {
      TextAt(cfg, ls, k);
      FreeAt(ls, k);
    }
    BelowHeader(h, vs);
  }

  lemma {:induction false} FreeAt(ls: seq<string>, k: nat)
    requires NewlineFree(ls) && k < |ls|
    ensures '\n' !in ls[k]
  {
  }

  lemma {:induction false} BelowHeader(h: View, body: seq<View>)
    requires forall k :: 0 <= k < |body| ==> '\n' !in body[k].text
    ensures OneLinersFrom([h] + body, 1)
  {
    assert forall k :: 1 <= k <= |body| ==> ([h] + body)[k] == body[k - 1];
  }

  lemma {:induction false} TextAt(cfg: Config, ls: seq<string>, k: nat)
    requires k < |ls|
    ensures Views(cfg, ls)[k].text == ls[k]
  {
    ViewsAt(cfg, ls, k);
  }

  lemma {:induction false} PlainOfMarks(marks: seq<View>, rest: seq<View>)
    requires forall k :: 0 <= k < |marks| ==> marks[k].mark != NoMark
    ensures Plain(marks + rest) == Plain(rest) && Plain(rest + marks) == Plain(rest)
    decreases |marks|
  {
    if marks == [] {
      assert marks + rest == rest && rest + marks == rest;
    } else {
      var tail := marks[1..];
      PlainOfMarks(tail, rest);
      PlainAppend(marks, rest);
      PlainAppend(rest, marks);
      PlainAppend(tail, rest);
    }
  }

  lemma {:induction false} PlainOfEdit(se: View, al: seq<View>, ss: seq<View>, dv: View, rs: seq<View>, en: View)
    requires se.mark == SearchMark && dv.mark == DividerMark && en.mark == EndMark
    requires |al| <= 1 && (|al| == 1 ==> al[0].mark == AllMark)
    ensures Plain([se] + (al + (ss + ([dv] + (rs + [en]))))) == Plain(ss) + Plain(rs)
  {
    PlainOfMarks([en], rs);
    PlainOfMarks([dv], rs + [en]);
    PlainAppend(ss, [dv] + (rs + [en]));
    PlainOfMarks(al, ss + ([dv] + (rs + [en])));
    PlainOfMarks([se], al + (ss + ([dv] + (rs + [en]))));
  }

  /** If a printed EDIT comes back, its text fits into the unmarked lines below the header. */
  lemma {:induction false} SurvivorFits(vs: seq<View>, h: View, body: seq<View>, op: Op)
    requires vs == [h] + body && OneLinersFrom(vs, 1) && op.EditOp? && Ops(ParseFrom(vs, 0)) == [op]
    ensures TextOf(op) <= Plain(body) && !FinalNewline(op.search) && !FinalNewline(op.replace)
    ensures op.search == "" ==> !op.all && IsDiffBody(op.replace)
  {
    var k, to := FoundAt(vs, 0, op);
    EditHolds(vs, k, op, to);
    assert vs[k + 1..] == body[k..];
    PlainSuffix(body, k);
  }

  lemma {:induction false} SplitIsFree(s: string)
    ensures NewlineFree(Split(s, '\n'))
  {
    SplitHasNoSep(s, '\n');
  }

  lemma {:induction false} EditPrintFree(s: string, r: string, all: bool)
    ensures NewlineFree([SEARCH] + (AllLine(all) + (Split(s, '\n') + ([DIVIDER] + (Split(r, '\n') + [END])))))
    ensures NewlineFree(Split(r, '\n') + [END])
  {
    SplitIsFree(s);
    SplitIsFree(r);
  }

  lemma {:induction false} BodyOfPrint(cfg: Config, p: string, ls: seq<string>, h: View, body: seq<View>)
    requires Views(cfg, ["EDIT: " + p] + ls) == [h] + body
    ensures Views(cfg, ls) == body
  {
    ViewsCons(cfg, "EDIT: " + p, ls);
    assert ([h] + body)[1..] == body && ([ViewOf(cfg, "EDIT: " + p)] + Views(cfg, ls))[1..] == Views(cfg, ls);
  }

  lemma {:induction false} SearchEditOnly(cfg: Config, p: string, s: string, r: string, all: bool)
    requires StablePath(cfg, p) && s != "" && Parsed(cfg, Print(EditOp(p, s, r, all))) == [EditOp(p, s, r, all)]
    ensures Printable(cfg, EditOp(p, s, r, all))
  {
    var op := EditOp(p, s, r, all);
    var ss, rs := Split(s, '\n'), Split(r, '\n');
    var h, se, al, dv, en := EditAllLines(cfg, p, s, r, all);
    var body := [se] + (al + (Views(cfg, ss) + ([dv] + (Views(cfg, rs) + [en]))));
    EditPrintFree(s, r, all);
    var ls := [SEARCH] + (AllLine(all) + (ss + ([DIVIDER] + (rs + [END]))));
    BodyOfPrint(cfg, p, ls, h, body);
    ViewsFree(cfg, ls, h);
    SurvivorFits([h] + body, h, body, op);
    PlainOfEdit(se, al, Views(cfg, ss), dv, Views(cfg, rs), en);
    PlainOfLines(cfg, ss);
    PlainOfLines(cfg, rs);
  }

  /*** Diffs ***/

  lemma {:induction false} UnmarkedSections(vs: seq<View>, start: nat, k: nat)
    requires start <= k <= |vs| && forall j :: start <= j < k ==> vs[j].mark == NoMark
    ensures ModeAt(vs, start, k) == NoMode && Section(vs, start, k, false) == Texts(vs[start..k])
    decreases k
  {
    if k == start {
      assert vs[start..k] == [];
    } else {
      UnmarkedSections(vs, start, k - 1);
      TextsSnoc(vs[start..k - 1], vs[k - 1]);
      assert vs[start..k] == vs[start..k - 1] + [vs[k - 1]];
    }
  }

  lemma {:induction false} ToolTextAt(cfg: Config, ls: seq<string>, k: nat)
    requires k < |ls|
    ensures Views(cfg, ls)[k].tool ==> Views(cfg, ls)[k].text != ""
  {
    ViewsAt(cfg, ls, k);
    ToolHasText(cfg);
  }

  lemma {:induction false} ToolHasText(cfg: Config)
    ensures !ViewOf(cfg, "").tool
  {
    assert TrimSpace("") == "" && Unquoted("") == "" && ToUpper("") == "";
  }

  /** A tool line below a complete diff ends the block there. */
  lemma {:induction false} DiffReadTo(vs: seq<View>, h: View, run: seq<View>, en: View, k: nat)
      returns (e: nat, b: Block)
    requires vs == [h] + (run + [en]) && AllUnmarked(run) && k < |run| && !QuietAt([], run, k)
    ensures 1 <= e <= k + 1 && b == BlockFrom(vs, 1, 1, NoMode, [], [], false) == SpelledAt(vs, 1, e)
    ensures b.ok && b.search == "" && IsDiffBody(b.replace)
  {
    b := BlockFrom(vs, 1, 1, NoMode, [], [], false);
    e := BlockIsExplained(vs, 1, 1, NoMode, [], [], false);
    StopsBy(vs, h, run, en, k, e);
    StopIsDiff(vs, h, run, en, e);
  }

  lemma {:induction false} StopIsDiff(vs: seq<View>, h: View, run: seq<View>, en: View, e: nat)
    requires vs == [h] + (run + [en]) && AllUnmarked(run) && 1 <= e <= |run| && Stops(vs, 1, e)
    ensures var b := SpelledAt(vs, 1, e); b.ok && b.search == "" && IsDiffBody(b.replace)
  {
    assert vs[e] == run[e - 1];
  }

  /** So the rest of the diff is lost. */
  lemma {:induction false} DiffCutShort(vs: seq<View>, h: View, run: seq<View>, en: View, k: nat, op: Op)
    requires vs == [h] + (run + [en]) && OneLinersFrom(vs, 1) && h.head == Edit(op.path, false) && op.path != ""
    requires op.EditOp?
    requires AllUnmarked(run) && k < |run| && run[k].text != "" && !QuietAt([], run, k)
    requires Plain(run) <= TextOf(op)
    ensures Ops(ParseFrom(vs, 0)) != [op]
  {
    var e, b := DiffReadTo(vs, h, run, en, k);
    var first := EditOp(op.path, b.search, b.replace, b.all);
    DiffIsRead(vs, op.path, b);
    FirstOp(vs, first, b.next);
    SpelledText(vs, 1, e, b);
    assert vs[1..] == run + [en];
    ShortOfText(vs, run, en, k, e);
  }

  lemma {:induction false} DiffIsRead(vs: seq<View>, path: string, b: Block)
    requires vs != [] && vs[0].head == Edit(path, false) && path != ""
    requires b == BlockFrom(vs, 1, 1, NoMode, [], [], false) && b.ok && b.search == "" && IsDiffBody(b.replace)
    ensures At(vs, 0).0 == [Item(EditOp(path, b.search, b.replace, b.all), 0, b.next)]
  {
  }

  lemma {:induction false} FirstOp(vs: seq<View>, first: Op, to: nat)
    requires vs != [] && At(vs, 0).0 == [Item(first, 0, to)]
    ensures var ops := Ops(ParseFrom(vs, 0)); ops != [] && ops[0] == first
  {
  }

  lemma {:induction false} RunBelow(vs: seq<View>, h: View, run: seq<View>, en: View, k: nat)
    requires vs == [h] + (run + [en]) && AllUnmarked(run) && k < |run|
    ensures vs[k + 1] == run[k] && vs[1..k + 1] == run[..k] && forall j :: 1 <= j < k + 1 ==> vs[j].mark == NoMark
  {
    assert forall j :: 0 <= j < |run| ==> vs[1 + j] == run[j];
  }

  lemma {:induction false} NotQuietStops(vs: seq<View>, h: View, run: seq<View>, en: View, k: nat)
    requires vs == [h] + (run + [en]) && AllUnmarked(run) && k < |run| && !QuietAt([], run, k)
    ensures Stops(vs, 1, k + 1)
  {
    RunBelow(vs, h, run, en, k);
    UnmarkedSections(vs, 1, k + 1);
    assert [] + Texts(run[..k]) == Texts(run[..k]);
  }

  lemma {:induction false} StopsBy(vs: seq<View>, h: View, run: seq<View>, en: View, k: nat, e: nat)
    requires vs == [h] + (run + [en]) && AllUnmarked(run) && k < |run| && !QuietAt([], run, k)
    requires 1 <= e <= |vs| && StopsFirst(vs, 1, e)
    ensures e <= k + 1
  {
    NotQuietStops(vs, h, run, en, k);
  }

  lemma {:induction false} ShortOfText(vs: seq<View>, run: seq<View>, en: View, k: nat, e: nat)
    requires |vs| == |run| + 2 && vs[1..] == run + [en] && 1 <= e <= k + 1 && k < |run|
    requires run[k].mark == NoMark && run[k].text != ""
    ensures Plain(vs[1..e]) < Plain(run)
  {
    var a := vs[1..e];
    assert a == run[..e - 1];
    var rest := run[e - 1..];
    assert run == a + rest;
    PlainAppend(a, rest);
    var i := k - (e - 1);
    assert rest[i] == run[k];
    assert rest == rest[..i] + ([rest[i]] + rest[i + 1..]);
    PlainAppend(rest[..i], [rest[i]] + rest[i + 1..]);
    PlainAppend([rest[i]], rest[i + 1..]);
    PlainOne(rest[i]);
  }

  lemma {:induction false} DiffEditOnly(cfg: Config, p: string, r: string, all: bool)
    requires StablePath(cfg, p) && Parsed(cfg, Print(EditOp(p, "", r, all))) == [EditOp(p, "", r, all)]
    ensures Printable(cfg, EditOp(p, "", r, all))
  {
    var op := EditOp(p, "", r, all);
    var rs := Split(r, '\n');
    var run := Views(cfg, rs);
    var h := EditHeaderLine(cfg, p, rs + [END]);
    var en := EndLine(cfg, rs);
    EditPrintFree("", r, all);
    ViewsFree(cfg, rs + [END], h);
    SurvivorFits([h] + (run + [en]), h, run + [en], op);
    PlainOfMarks([en], run);
    PlainOfLines(cfg, rs);
    NoTextInEmpty();
    forall k | 0 <= k < |run| ensures QuietAt([], run, k) {
      ToolTextAt(cfg, rs, k);
      if !QuietAt([], run, k) {
        DiffCutShort([h] + (run + [en]), h, run, en, k, op);
      }
    }
    UnmarkedBlank(cfg);
  }

  lemma {:induction false} UnmarkedBlank(cfg: Config)
    ensures AllUnmarked(Views(cfg, Split("", '\n')))
  {
    assert Split("", '\n') == [""];
    ViewsAt(cfg, [""], 0);
    BlankIsUnmarked(cfg);
  }

  /** Printed alone, an operation on a stable path comes back if and only if it is printable. */
  lemma {:induction false} SurvivesIff(cfg: Config, op: Op)
    requires StablePath(cfg, op.path)
    ensures Parsed(cfg, PrintAll([op])) == [op] <==> Printable(cfg, op)
  {
    assert [op][1..] == [] && PrintAll([op]) == Print(op) + [] == Print(op);
    if Printable(cfg, op) {
      assert AllPrintable(cfg, [op]);
      ParsePrint(cfg, [op]);
    } else if Parsed(cfg, PrintAll([op])) == [op] {
      match op
      case ReadOp(_) =>
      case WriteOp(p, c) => WriteSurvivesIff(cfg, p, c);
      case EditOp(p, s, r, all) =>
        if s == "" {
          DiffEditOnly(cfg, p, r, all);
        } else {
          SearchEditOnly(cfg, p, s, r, all);
        }
    }
  }

  /*** An EDIT without a divider ***/

  /** An EDIT block that was never finished: plain lines `pre`, a SEARCH section, and END right below it. */
  function WithoutDivider(pre: seq<string>, p: string, s: string): seq<string> {
    ["EDIT: " + p] + (pre + ([SEARCH] + (Split(s, '\n') + [END])))
  }

  lemma {:induction false} UnfinishedBlock(vs: seq<View>, start: nat, pre: seq<View>, se: View, ss: seq<View>, en: View)
    requires RunAt(vs, start, pre + ([se] + (ss + [en]))) && AllUnmarked(pre) && Quiet([], pre) && AllUnmarked(ss)
    requires se.mark == SearchMark && en.mark == EndMark
    ensures BlockFrom(vs, start, start, NoMode, [], [], false) ==
      Block("", Body(Texts(pre)), start + |pre| + |ss| + 2, Body(Texts(pre)) != "", false)
  {
    BlockOpens(vs, start, pre, se, ss + [en]);
    SearchOnly(vs, start, start + |pre| + 1, Texts(pre), ss, en);
  }

  lemma {:induction false} SearchOnly(vs: seq<View>, start: nat, i: nat, rl: seq<string>, ss: seq<View>, en: View)
    requires start <= i && RunAt(vs, i, ss + [en]) && AllUnmarked(ss) && en.mark == EndMark
    ensures BlockFrom(vs, start, i, InSearch, [], rl, false) == Block("", Body(rl), i + |ss| + 1, Body(rl) != "", false)
  {
    RunSplit(vs, i, ss, [en]);
    SearchRun(vs, start, i, ss, [], rl, false);
    RunTail(vs, i + |ss|, [en]);
  }

  lemma {:induction false} UnfinishedViews(cfg: Config, pre: seq<string>, ss: seq<string>) returns (se: View, en: View)
    ensures Views(cfg, pre + ([SEARCH] + (ss + [END]))) == Views(cfg, pre) + ([se] + (Views(cfg, ss) + [en]))
    ensures se.mark == SearchMark && en.mark == EndMark
  {
    se := ViewOf(cfg, SEARCH);
    en := EndLine(cfg, ss);
    MarkerViews(cfg);
    ViewsCons(cfg, SEARCH, ss + [END]);
    ViewsAppend(cfg, pre, [SEARCH] + (ss + [END]));
  }

  lemma {:induction false} UnfinishedParses(vs: seq<View>, h: View, pre: seq<View>, se: View, ss: seq<View>,
                                            en: View, p: string)
    requires vs == [h] + (pre + ([se] + (ss + [en]))) && h.head == Edit(p, false) && p != ""
    requires AllUnmarked(pre) && Quiet([], pre) && AllUnmarked(ss) && se.mark == SearchMark && en.mark == EndMark
    ensures var c := Body(Texts(pre));
      Ops(ParseFrom(vs, 0)) == if c == "" then [] else if IsDiffBody(c) then [EditOp(p, "", c, false)]
        else [WriteOp(p, c)]
  {
    var body := pre + ([se] + (ss + [en]));
    assert vs[1..|vs|] == body;
    UnfinishedBlock(vs, 1, pre, se, ss, en);
    var b := BlockFrom(vs, 1, 1, NoMode, [], [], false);
    assert b.next == |vs| && ParseFrom(vs, |vs|) == [];
    var found := EditItem(p, b, 0);
    assert found + [] == found;
    assert found != [] ==> found[1..] == [];
  }

  /** A forgotten divider turns an edit into a write: the file is overwritten with the plain lines above the SEARCH
      section, unless there are none, or they are a diff. */
  lemma {:induction false} ForgottenDivider(cfg: Config, pre: seq<string>, p: string, s: string)
    requires StablePath(cfg, p) && AllUnmarked(Views(cfg, pre)) && Quiet([], Views(cfg, pre))
    requires AllUnmarked(Views(cfg, Split(s, '\n')))
    ensures Parsed(cfg, WithoutDivider(pre, p, s)) ==
      if Body(pre) == "" then [] else if IsDiffBody(Body(pre)) then [EditOp(p, "", Body(pre), false)]
        else [WriteOp(p, Body(pre))]
  {
    var ss := Split(s, '\n');
    var h := EditHeaderLine(cfg, p, pre + ([SEARCH] + (ss + [END])));
    var se, en := UnfinishedViews(cfg, pre, ss);
    TextsOfViews(cfg, pre);
    UnfinishedParses(Views(cfg, WithoutDivider(pre, p, s)), h, Views(cfg, pre), se, Views(cfg, ss), en, p);
  }
}
