/** Printing native edit operations and parsing them back. */
module NativeEditPrint {
  import opened Text
  import opened FileSanitize
  import opened EditLines
  import opened NativeEdit

  /** The lines of one operation, in the format the agent is told to write. */
  function Print(op: Op): seq<string> {
    match op
    case ReadOp(p) => ["READ: " + p]
    case WriteOp(p, c) => ["WRITE: " + p] + (Split(c, '\n') + [WRITE_END])
    case EditOp(p, s, r, all) =>
      if s == "" then ["EDIT: " + p] + (Split(r, '\n') + [END])
      else ["EDIT: " + p] + ([SEARCH] + (AllLine(all) + (Split(s, '\n') + ([DIVIDER] + (Split(r, '\n') + [END])))))
  }

  function AllLine(all: bool): seq<string> {
    if all then [REPLACE_ALL] else []
  }

  function PrintAll(ops: seq<Op>): seq<string>
    decreases |ops|
  {
    if ops == [] then [] else Print(ops[0]) + PrintAll(ops[1..])
  }

  /*** Which operations survive printing ***/

  predicate FinalNewline(s: string) {
    s != "" && s[|s| - 1] == '\n'
  }

  predicate AllUnmarked(vs: seq<View>) {
    forall k :: 0 <= k < |vs| ==> vs[k].mark == NoMark
  }

  /** No tool line comes when the lines above it, `rl` included, are a diff already. */
  predicate Quiet(rl: seq<string>, vs: seq<View>) {
    forall k :: 0 <= k < |vs| ==> QuietAt(rl, vs, k)
  }

  predicate QuietAt(rl: seq<string>, vs: seq<View>, k: nat)
    requires k < |vs|
  {
    vs[k].tool ==> !DiffSoFar(NoMode, rl + Texts(vs[..k]))
  }

  /** No line of a WRITE body ends it early; the last line is followed by the terminator. */
  predicate WriteBodyOk(vs: seq<View>) {
    forall k :: 0 <= k < |vs| ==> WriteLineOk(vs, k)
  }

  predicate WriteLineOk(vs: seq<View>, k: nat)
    requires k < |vs|
  {
    && !vs[k].writeEnd && !vs[k].tool && (k > 0 ==> !vs[k].bareFence)
    && (vs[k].dash ==> k + 1 < |vs| && !vs[k + 1].dashTail)
  }

  predicate Printable(cfg: Config, op: Op) {
    && StablePath(cfg, op.path)
    && match op
      case ReadOp(_) => true
      case WriteOp(_, c) => WriteBodyOk(Views(cfg, Split(c, '\n')))
      case EditOp(_, s, r, all) =>
        && !FinalNewline(s) && !FinalNewline(r)
        && AllUnmarked(Views(cfg, Split(s, '\n'))) && AllUnmarked(Views(cfg, Split(r, '\n')))
        && (s == "" ==> !all && IsDiffBody(r) && Quiet([], Views(cfg, Split(r, '\n'))))
  }

  lemma {:induction false} BodyOfSplit(s: string)
    requires !FinalNewline(s)
    ensures Body(Split(s, '\n')) == s
  {
    JoinSplit(s, '\n');
  }

  lemma {:induction false} TextsOfViews(cfg: Config, lines: seq<string>)
    ensures Texts(Views(cfg, lines)) == lines
    decreases |lines|
  {
    if lines == [] {
    } else {
      TextsOfViews(cfg, lines[1..]);
      ViewsCons(cfg, lines[0], lines[1..]);
      assert lines == [lines[0]] + lines[1..];
    }
  }

  /*** Runs of plain lines ***/

  /** Lines at `i` onwards are `run`. */
  predicate RunAt(vs: seq<View>, i: nat, run: seq<View>) {
    i + |run| <= |vs| && vs[i..i + |run|] == run
  }

  lemma {:induction false} RunTail(vs: seq<View>, i: nat, run: seq<View>)
    requires RunAt(vs, i, run) && run != []
    ensures vs[i] == run[0] && RunAt(vs, i + 1, run[1..])
  {
    assert vs[i..i + |run|][0] == vs[i];
    assert vs[i..i + |run|][1..] == vs[i + 1..i + |run|];
  }

  lemma {:induction false} RunSplit(vs: seq<View>, i: nat, a: seq<View>, b: seq<View>)
    requires RunAt(vs, i, a + b)
    ensures RunAt(vs, i, a) && RunAt(vs, i + |a|, b)
  {
    var w := vs[i..i + |a| + |b|];
    assert w[..|a|] == vs[i..i + |a|] && (a + b)[..|a|] == a;
    assert w[|a|..] == vs[i + |a|..i + |a| + |b|] && (a + b)[|a|..] == b;
  }

  lemma {:induction false} SearchRun(vs: seq<View>, start: nat, i: nat, run: seq<View>, sl: seq<string>,
                                     rl: seq<string>, all: bool)
    requires start <= i && RunAt(vs, i, run) && AllUnmarked(run)
    ensures BlockFrom(vs, start, i, InSearch, sl, rl, all) ==
      BlockFrom(vs, start, i + |run|, InSearch, sl + Texts(run), rl, all)
    decreases |run|
  {
    if run == [] {
      assert sl + [] == sl;
    } else {
      RunTail(vs, i, run);
      SearchRun(vs, start, i + 1, run[1..], sl + [run[0].text], rl, all);
      assert sl + [run[0].text] + Texts(run[1..]) == sl + Texts(run);
    }
  }

  lemma {:induction false} QuietTail(rl: seq<string>, run: seq<View>)
    requires run != [] && Quiet(rl, run)
    ensures !(run[0].tool && DiffSoFar(NoMode, rl)) && Quiet(rl + [run[0].text], run[1..])
  {
    assert QuietAt(rl, run, 0) && run[..0] == [] && rl + Texts([]) == rl;
    forall k | 0 <= k < |run[1..]| ensures QuietAt(rl + [run[0].text], run[1..], k) {
      assert QuietAt(rl, run, k + 1);
      assert run[..k + 1] == [run[0]] + run[1..][..k];
      TextsCons(run[0], run[1..][..k]);
      assert rl + ([run[0].text] + Texts(run[1..][..k])) == rl + [run[0].text] + Texts(run[1..][..k]);
    }
  }

  lemma {:induction false} TextsCons(v: View, vs: seq<View>)
    ensures Texts([v] + vs) == [v.text] + Texts(vs)
  {
    assert ([v] + vs)[1..] == vs;
  }

  lemma {:induction false} OtherRun(vs: seq<View>, start: nat, i: nat, mode: Mode, run: seq<View>, sl: seq<string>,
                                    rl: seq<string>, all: bool)
    requires start <= i && RunAt(vs, i, run) && AllUnmarked(run) && mode != InSearch
    requires mode == NoMode ==> Quiet(rl, run)
    ensures BlockFrom(vs, start, i, mode, sl, rl, all) ==
      BlockFrom(vs, start, i + |run|, mode, sl, rl + Texts(run), all)
    decreases |run|
  {
    if run == [] {
      assert rl + [] == rl;
    } else {
      RunTail(vs, i, run);
      if mode == NoMode {
        QuietTail(rl, run);
      }
      OtherRun(vs, start, i + 1, mode, run[1..], sl, rl + [run[0].text], all);
      assert rl + [run[0].text] + Texts(run[1..]) == rl + Texts(run);
    }
  }

  /** A whole EDIT block, with plain lines `pre` between the header and the SEARCH marker:
      these lines end up in front of the replacement. */
  lemma {:induction false} EditBlock(vs: seq<View>, start: nat, pre: seq<View>, se: View, al: seq<View>, ss: seq<View>,
                                     dv: View, rs: seq<View>, en: View, tail: seq<View>)
    requires tail == al + (ss + ([dv] + (rs + [en]))) && RunAt(vs, start, pre + ([se] + tail))
    requires AllUnmarked(pre) && Quiet([], pre) && AllUnmarked(ss) && AllUnmarked(rs)
    requires se.mark == SearchMark && dv.mark == DividerMark && en.mark == EndMark
    requires |al| <= 1 && (|al| == 1 ==> al[0].mark == AllMark)
    ensures BlockFrom(vs, start, start, NoMode, [], [], false) ==
      Block(Body(Texts(ss)), Body(Texts(pre) + Texts(rs)), start + |pre| + 1 + |al| + |ss| + 1 + |rs| + 1,
            Body(Texts(ss)) != "", |al| == 1)
  {
    BlockOpens(vs, start, pre, se, tail);
    EditBlockAll(vs, start, start + |pre| + 1, Texts(pre), al, ss, dv, rs, en);
  }

  lemma {:induction false} BlockOpens(vs: seq<View>, start: nat, pre: seq<View>, se: View, tail: seq<View>)
    requires RunAt(vs, start, pre + ([se] + tail)) && AllUnmarked(pre) && Quiet([], pre) && se.mark == SearchMark
    ensures RunAt(vs, start + |pre| + 1, tail)
    ensures BlockFrom(vs, start, start, NoMode, [], [], false) ==
      BlockFrom(vs, start, start + |pre| + 1, InSearch, [], Texts(pre), false)
  {
    RunSplit(vs, start, pre, [se] + tail);
    OtherRun(vs, start, start, NoMode, pre, [], [], false);
    assert [] + Texts(pre) == Texts(pre);
    RunSplit(vs, start + |pre|, [se], tail);
    RunTail(vs, start + |pre|, [se]);
  }

  lemma {:induction false} EditBlockAll(vs: seq<View>, start: nat, i: nat, rl: seq<string>, al: seq<View>,
                                        ss: seq<View>, dv: View, rs: seq<View>, en: View)
    requires start <= i && RunAt(vs, i, al + (ss + ([dv] + (rs + [en]))))
    requires AllUnmarked(ss) && AllUnmarked(rs) && dv.mark == DividerMark && en.mark == EndMark
    requires |al| <= 1 && (|al| == 1 ==> al[0].mark == AllMark)
    ensures BlockFrom(vs, start, i, InSearch, [], rl, false) ==
      Block(Body(Texts(ss)), Body(rl + Texts(rs)), i + |al| + |ss| + 1 + |rs| + 1, Body(Texts(ss)) != "", |al| == 1)
  {
    RunSplit(vs, i, al, ss + ([dv] + (rs + [en])));
    if |al| == 1 {
      RunTail(vs, i, al);
    }
    EditBlockRest(vs, start, i + |al|, rl, |al| == 1, ss, dv, rs, en);
  }

  lemma {:induction false} EditBlockRest(vs: seq<View>, start: nat, i: nat, rl: seq<string>, all: bool, ss: seq<View>,
                                         dv: View, rs: seq<View>, en: View)
    requires start <= i && RunAt(vs, i, ss + ([dv] + (rs + [en])))
    requires AllUnmarked(ss) && AllUnmarked(rs) && dv.mark == DividerMark && en.mark == EndMark
    ensures BlockFrom(vs, start, i, InSearch, [], rl, all) ==
      Block(Body(Texts(ss)), Body(rl + Texts(rs)), i + |ss| + 1 + |rs| + 1, Body(Texts(ss)) != "", all)
  {
    RunSplit(vs, i, ss, [dv] + (rs + [en]));
    SearchRun(vs, start, i, ss, [], rl, all);
    assert [] + Texts(ss) == Texts(ss);
    ReplacePart(vs, start, i + |ss|, Texts(ss), rl, all, dv, rs, en);
  }

  lemma {:induction false} ReplacePart(vs: seq<View>, start: nat, d: nat, sl: seq<string>, rl: seq<string>, all: bool,
                                       dv: View, rs: seq<View>, en: View)
    requires start <= d && RunAt(vs, d, [dv] + (rs + [en])) && AllUnmarked(rs) && dv.mark == DividerMark
    requires en.mark == EndMark
    ensures BlockFrom(vs, start, d, InSearch, sl, rl, all) ==
      Block(Body(sl), Body(rl + Texts(rs)), d + 1 + |rs| + 1, Body(sl) != "", all)
  {
    RunSplit(vs, d, [dv], rs + [en]);
    RunTail(vs, d, [dv]);
    RunSplit(vs, d + 1, rs, [en]);
    OtherRun(vs, start, d + 1, InReplace, rs, sl, rl, all);
    RunTail(vs, d + 1 + |rs|, [en]);
  }

  lemma {:induction false} DiffBlock(vs: seq<View>, start: nat, rs: seq<View>, en: View)
    requires RunAt(vs, start, rs + [en]) && AllUnmarked(rs) && Quiet([], rs) && en.mark == EndMark
    ensures BlockFrom(vs, start, start, NoMode, [], [], false) ==
      Block("", Body(Texts(rs)), start + |rs| + 1, Body(Texts(rs)) != "", false)
  {
    RunSplit(vs, start, rs, [en]);
    OtherRun(vs, start, start, NoMode, rs, [], [], false);
    assert [] + Texts(rs) == Texts(rs);
    RunTail(vs, start + |rs|, [en]);
  }

  /*** WRITE bodies ***/

  lemma {:induction false} RunIndex(vs: seq<View>, i: nat, run: seq<View>, k: nat)
    requires RunAt(vs, i, run) && k < |run|
    ensures vs[i + k] == run[k]
  {
    assert vs[i..i + |run|][k] == vs[i + k];
  }

  lemma {:induction false} WriteGoesOn(vs: seq<View>, start: nat, k: nat, run: seq<View>, en: View)
    requires k < |run| && RunAt(vs, start, run + [en]) && WriteBodyOk(run)
    ensures WriteStop(vs, start, start + k) == None
  {
    var whole := run + [en];
    RunIndex(vs, start, whole, k);
    RunIndex(vs, start, whole, k + 1);
    assert WriteLineOk(run, k);
    assert whole[k] == run[k] && (k + 1 < |run| ==> whole[k + 1] == run[k + 1]);
  }

  lemma {:induction false} WriteRun(vs: seq<View>, start: nat, k: nat, run: seq<View>, en: View)
    requires k <= |run| && RunAt(vs, start, run + [en]) && WriteBodyOk(run) && en.writeEnd
    ensures WriteEnd(vs, start, start + k) == (start + |run|, start + |run| + 1)
    decreases |run| - k
  {
    if k < |run| {
      WriteGoesOn(vs, start, k, run, en);
      WriteRun(vs, start, k + 1, run, en);
    } else {
      RunIndex(vs, start, run + [en], |run|);
    }
  }

  /*** How a block at line `i` parses, told by its lines ***/

  function One(op: Op, i: nat, n: nat): (seq<Item>, nat) {
    ([Item(op, i, i + n)], i + n)
  }

  lemma {:induction false} ReadShape(vs: seq<View>, i: nat, h: View, p: string)
    requires RunAt(vs, i, [h]) && h.head == Read(p) && p != ""
    ensures i < |vs| && At(vs, i) == One(ReadOp(p), i, 1)
  {
    RunTail(vs, i, [h]);
  }

  lemma {:induction false} WriteShape(vs: seq<View>, i: nat, h: View, run: seq<View>, en: View, p: string)
    requires RunAt(vs, i, [h] + (run + [en])) && h.head == Write(p, false) && p != "" && WriteBodyOk(run) && en.writeEnd
    ensures i < |vs| && At(vs, i) == One(WriteOp(p, Join(Texts(run), '\n')), i, |run| + 2)
  {
    RunSplit(vs, i, [h], run + [en]);
    RunTail(vs, i, [h]);
    WriteRun(vs, i + 1, 0, run, en);
    RunSplit(vs, i + 1, run, [en]);
  }

  lemma {:induction false} EditBody(vs: seq<View>, i: nat, h: View, se: View, al: seq<View>, ss: seq<View>, dv: View,
                                    rs: seq<View>, en: View, tail: seq<View>)
    requires tail == al + (ss + ([dv] + (rs + [en]))) && RunAt(vs, i, [h] + ([se] + tail))
    requires AllUnmarked(ss) && AllUnmarked(rs)
    requires se.mark == SearchMark && dv.mark == DividerMark && en.mark == EndMark
    requires |al| <= 1 && (|al| == 1 ==> al[0].mark == AllMark)
    ensures i < |vs| && vs[i] == h
    ensures BlockFrom(vs, i + 1, i + 1, NoMode, [], [], false) ==
      Block(Body(Texts(ss)), Body(Texts(rs)), i + 4 + |al| + |ss| + |rs|, Body(Texts(ss)) != "", |al| == 1)
  {
    RunSplit(vs, i, [h], [se] + tail);
    RunTail(vs, i, [h]);
    var pre: seq<View> := [];
    assert pre + ([se] + tail) == [se] + tail;
    EditBlock(vs, i + 1, pre, se, al, ss, dv, rs, en, tail);
    assert Texts(pre) + Texts(rs) == Texts(rs);
  }

  lemma {:induction false} EditAs(vs: seq<View>, i: nat, b: Block, op: Op, n: nat)
    requires i < |vs| && vs[i].head == Edit(op.path, false) && op.path != "" && op.EditOp?
    requires b == BlockFrom(vs, i + 1, i + 1, NoMode, [], [], false)
    requires b == Block(op.search, op.replace, i + n, true, op.all) && (op.search == "" ==> IsDiffBody(op.replace))
    ensures At(vs, i) == One(op, i, n)
  {
  }

  lemma {:induction false} DiffBody(vs: seq<View>, i: nat, h: View, rs: seq<View>, en: View)
    requires RunAt(vs, i, [h] + (rs + [en]))
    requires AllUnmarked(rs) && Quiet([], rs) && en.mark == EndMark
    ensures i < |vs| && vs[i] == h
    ensures BlockFrom(vs, i + 1, i + 1, NoMode, [], [], false) ==
      Block("", Body(Texts(rs)), i + |rs| + 2, Body(Texts(rs)) != "", false)
  {
    RunSplit(vs, i, [h], rs + [en]);
    RunTail(vs, i, [h]);
    DiffBlock(vs, i + 1, rs, en);
  }

  /*** The lines of a printed operation ***/

  lemma {:induction false} ViewsSnoc(cfg: Config, ls: seq<string>, t: string)
    ensures Views(cfg, ls + [t]) == Views(cfg, ls) + [ViewOf(cfg, t)]
  {
    ViewsAppend(cfg, ls, [t]);
    ViewsCons(cfg, t, []);
    assert [t] + [] == [t];
  }

  lemma {:induction false} ReadLines(cfg: Config, p: string) returns (h: View)
    requires StablePath(cfg, p)
    ensures Views(cfg, Print(ReadOp(p))) == [h] && h.head == Read(p)
  {
    h := ViewOf(cfg, "READ: " + p);
    ReadHeader(cfg, p);
    ViewsCons(cfg, "READ: " + p, []);
    assert ["READ: " + p] + [] == ["READ: " + p];
  }

  lemma {:induction false} WriteLines(cfg: Config, p: string, c: string) returns (h: View, en: View)
    requires StablePath(cfg, p)
    ensures Views(cfg, Print(WriteOp(p, c))) == [h] + (Views(cfg, Split(c, '\n')) + [en])
    ensures h.head == Write(p, false) && en.writeEnd && en.dashTail
  {
    h := WriteHeaderLine(cfg, p, Split(c, '\n') + [WRITE_END]);
    en := WriteEndLine(cfg, Split(c, '\n'));
  }

  lemma {:induction false} WriteHeaderLine(cfg: Config, p: string, rest: seq<string>) returns (h: View)
    requires StablePath(cfg, p)
    ensures Views(cfg, ["WRITE: " + p] + rest) == [h] + Views(cfg, rest) && h.head == Write(p, false)
  {
    h := ViewOf(cfg, "WRITE: " + p);
    WriteHeader(cfg, p);
    ViewsCons(cfg, "WRITE: " + p, rest);
  }

  lemma {:induction false} WriteEndLine(cfg: Config, ls: seq<string>) returns (en: View)
    ensures Views(cfg, ls + [WRITE_END]) == Views(cfg, ls) + [en] && en.writeEnd && en.dashTail
  {
    en := ViewOf(cfg, WRITE_END);
    WriteEndView(cfg, WRITE_END);
    ViewsSnoc(cfg, ls, WRITE_END);
  }

  lemma {:induction false} AllLineViews(cfg: Config, all: bool)
    ensures var al := Views(cfg, AllLine(all)); |al| == (if all then 1 else 0) && (all ==> al[0].mark == AllMark)
  {
    MarkerViews(cfg);
    ViewsCons(cfg, REPLACE_ALL, []);
    assert [REPLACE_ALL] + [] == [REPLACE_ALL];
  }

  lemma {:induction false} EditViews(cfg: Config, all: bool, ss: seq<string>, rs: seq<string>)
    ensures Views(cfg, [SEARCH] + (AllLine(all) + (ss + ([DIVIDER] + (rs + [END]))))) ==
      [ViewOf(cfg, SEARCH)] + (Views(cfg, AllLine(all)) +
        (Views(cfg, ss) + ([ViewOf(cfg, DIVIDER)] + (Views(cfg, rs) + [ViewOf(cfg, END)]))))
  {
    ViewsSnoc(cfg, rs, END);
    ViewsCons(cfg, DIVIDER, rs + [END]);
    ViewsAppend(cfg, ss, [DIVIDER] + (rs + [END]));
    ViewsAppend(cfg, AllLine(all), ss + ([DIVIDER] + (rs + [END])));
    ViewsCons(cfg, SEARCH, AllLine(all) + (ss + ([DIVIDER] + (rs + [END]))));
  }

  lemma {:induction false} EditBodyLines(cfg: Config, all: bool, ss: seq<string>, rs: seq<string>)
      returns (se: View, al: seq<View>, dv: View, en: View)
    ensures Views(cfg, [SEARCH] + (AllLine(all) + (ss + ([DIVIDER] + (rs + [END]))))) ==
      [se] + (al + (Views(cfg, ss) + ([dv] + (Views(cfg, rs) + [en]))))
    ensures se.mark == SearchMark && dv.mark == DividerMark && en.mark == EndMark
    ensures |al| == (if all then 1 else 0) && (all ==> al[0].mark == AllMark)
  {
    se, al, dv, en := ViewOf(cfg, SEARCH), Views(cfg, AllLine(all)), ViewOf(cfg, DIVIDER), ViewOf(cfg, END);
    EditViews(cfg, all, ss, rs);
    MarkerViews(cfg);
    AllLineViews(cfg, all);
  }

  lemma {:induction false} EditHeaderLine(cfg: Config, p: string, rest: seq<string>) returns (h: View)
    requires StablePath(cfg, p)
    ensures Views(cfg, ["EDIT: " + p] + rest) == [h] + Views(cfg, rest) && h.head == Edit(p, false)
  {
    h := ViewOf(cfg, "EDIT: " + p);
    EditHeader(cfg, p);
    ViewsCons(cfg, "EDIT: " + p, rest);
  }

  lemma {:induction false} EndLine(cfg: Config, rs: seq<string>) returns (en: View)
    ensures Views(cfg, rs + [END]) == Views(cfg, rs) + [en] && en.mark == EndMark
  {
    en := ViewOf(cfg, END);
    ViewsSnoc(cfg, rs, END);
    MarkerViews(cfg);
  }

  /*** One printed operation ***/

  lemma {:induction false} WriteShapeAs(vs: seq<View>, i: nat, h: View, run: seq<View>, en: View, op: Op,
                                        printed: seq<View>)
    requires printed == [h] + (run + [en]) && RunAt(vs, i, printed)
    requires op.WriteOp? && op.path != "" && op.content == Join(Texts(run), '\n')
    requires h.head == Write(op.path, false) && WriteBodyOk(run) && en.writeEnd
    ensures i < |vs| && At(vs, i) == One(op, i, |printed|)
  {
    WriteShape(vs, i, h, run, en, op.path);
  }

  lemma {:induction false} WriteParses(cfg: Config, vs: seq<View>, i: nat, p: string, c: string, printed: seq<View>)
    requires StablePath(cfg, p) && WriteBodyOk(Views(cfg, Split(c, '\n')))
    requires printed == Views(cfg, Print(WriteOp(p, c))) && RunAt(vs, i, printed)
    ensures i < |vs| && At(vs, i) == One(WriteOp(p, c), i, |printed|)
  {
    var h, en := WriteLines(cfg, p, c);
    TextsOfViews(cfg, Split(c, '\n'));
    JoinSplit(c, '\n');
    WriteShapeAs(vs, i, h, Views(cfg, Split(c, '\n')), en, WriteOp(p, c), printed);
  }

  lemma {:induction false} EditParses(cfg: Config, vs: seq<View>, i: nat, p: string, s: string, r: string, all: bool,
                                      printed: seq<View>)
    requires StablePath(cfg, p) && s != "" && !FinalNewline(s) && !FinalNewline(r)
    requires AllUnmarked(Views(cfg, Split(s, '\n'))) && AllUnmarked(Views(cfg, Split(r, '\n')))
    requires printed == Views(cfg, Print(EditOp(p, s, r, all))) && RunAt(vs, i, printed)
    ensures i < |vs| && At(vs, i) == One(EditOp(p, s, r, all), i, |printed|)
  {
    var ss, rs := Split(s, '\n'), Split(r, '\n');
    var h, se, al, dv, en := EditAllLines(cfg, p, s, r, all);
    EditTexts(cfg, s, r);
    EditShapeAs(vs, i, h, se, al, Views(cfg, ss), dv, Views(cfg, rs), en, EditOp(p, s, r, all), printed);
  }

  lemma {:induction false} EditShapeAs(vs: seq<View>, i: nat, h: View, se: View, al: seq<View>, ss: seq<View>, dv: View,
                                       rs: seq<View>, en: View, op: Op, printed: seq<View>)
    requires printed == [h] + ([se] + (al + (ss + ([dv] + (rs + [en]))))) && RunAt(vs, i, printed)
    requires op.EditOp? && op.search != "" && op.path != "" && op.search == Body(Texts(ss))
    requires op.replace == Body(Texts(rs))
    requires h.head == Edit(op.path, false) && AllUnmarked(ss) && AllUnmarked(rs)
    requires se.mark == SearchMark && dv.mark == DividerMark && en.mark == EndMark
    requires |al| == (if op.all then 1 else 0) && (op.all ==> al[0].mark == AllMark)
    ensures i < |vs| && At(vs, i) == One(op, i, |printed|)
  {
    EditBody(vs, i, h, se, al, ss, dv, rs, en, al + (ss + ([dv] + (rs + [en]))));
    EditAs(vs, i, BlockFrom(vs, i + 1, i + 1, NoMode, [], [], false), op, |printed|);
  }

  lemma {:induction false} EditTexts(cfg: Config, s: string, r: string)
    requires !FinalNewline(s) && !FinalNewline(r)
    ensures Body(Texts(Views(cfg, Split(s, '\n')))) == s && Body(Texts(Views(cfg, Split(r, '\n')))) == r
  {
    TextsOfViews(cfg, Split(s, '\n'));
    TextsOfViews(cfg, Split(r, '\n'));
    BodyOfSplit(s);
    BodyOfSplit(r);
  }

  lemma {:induction false} EditAllLines(cfg: Config, p: string, s: string, r: string, all: bool)
      returns (h: View, se: View, al: seq<View>, dv: View, en: View)
    requires StablePath(cfg, p) && s != ""
    ensures Views(cfg, Print(EditOp(p, s, r, all))) ==
      [h] + ([se] + (al + (Views(cfg, Split(s, '\n')) + ([dv] + (Views(cfg, Split(r, '\n')) + [en])))))
    ensures h.head == Edit(p, false) && se.mark == SearchMark && dv.mark == DividerMark && en.mark == EndMark
    ensures |al| == (if all then 1 else 0) && (all ==> al[0].mark == AllMark)
  {
    var ss, rs := Split(s, '\n'), Split(r, '\n');
    h := EditHeaderLine(cfg, p, [SEARCH] + (AllLine(all) + (ss + ([DIVIDER] + (rs + [END])))));
    se, al, dv, en := EditBodyLines(cfg, all, ss, rs);
  }

  lemma {:induction false} DiffShapeAs(vs: seq<View>, i: nat, h: View, rs: seq<View>, en: View, op: Op,
                                       printed: seq<View>)
    requires printed == [h] + (rs + [en]) && RunAt(vs, i, printed)
    requires op.EditOp? && op.search == "" && !op.all && op.path != "" && op.replace == Body(Texts(rs))
    requires IsDiffBody(op.replace)
    requires h.head == Edit(op.path, false) && AllUnmarked(rs) && Quiet([], rs) && en.mark == EndMark
    ensures i < |vs| && At(vs, i) == One(op, i, |printed|)
  {
    DiffBody(vs, i, h, rs, en);
    DiffNonEmpty(op.replace);
    EditAs(vs, i, BlockFrom(vs, i + 1, i + 1, NoMode, [], [], false), op, |printed|);
  }

  lemma {:induction false} DiffParses(cfg: Config, vs: seq<View>, i: nat, p: string, r: string, printed: seq<View>)
    requires StablePath(cfg, p) && !FinalNewline(r) && IsDiffBody(r)
    requires AllUnmarked(Views(cfg, Split(r, '\n'))) && Quiet([], Views(cfg, Split(r, '\n')))
    requires printed == Views(cfg, Print(EditOp(p, "", r, false))) && RunAt(vs, i, printed)
    ensures i < |vs| && At(vs, i) == One(EditOp(p, "", r, false), i, |printed|)
  {
    var rs := Split(r, '\n');
    var h := EditHeaderLine(cfg, p, rs + [END]);
    var en := EndLine(cfg, rs);
    TextsOfViews(cfg, rs);
    BodyOfSplit(r);
    DiffShapeAs(vs, i, h, Views(cfg, rs), en, EditOp(p, "", r, false), printed);
  }

  lemma {:induction false} OpParses(cfg: Config, vs: seq<View>, i: nat, op: Op, printed: seq<View>)
    requires Printable(cfg, op) && printed == Views(cfg, Print(op)) && RunAt(vs, i, printed)
    ensures i < |vs| && At(vs, i) == One(op, i, |printed|)
  {
    match op
    case ReadOp(p) =>
      var h := ReadLines(cfg, p);
      ReadShape(vs, i, h, p);
    case WriteOp(p, c) => WriteParses(cfg, vs, i, p, c, printed);
    case EditOp(p, s, r, all) =>
      if s == "" {
        DiffParses(cfg, vs, i, p, r, printed);
      } else {
        EditParses(cfg, vs, i, p, s, r, all, printed);
      }
  }

  /*** Lists of operations ***/

  predicate AllPrintable(cfg: Config, ops: seq<Op>)
    decreases |ops|
  {
    ops == [] || (Printable(cfg, ops[0]) && AllPrintable(cfg, ops[1..]))
  }

  lemma {:induction false} ParseOne(vs: seq<View>, i: nat, op: Op, n: nat)
    requires i < |vs| && At(vs, i) == One(op, i, n) && i + n <= |vs|
    ensures Ops(ParseFrom(vs, i)) == [op] + Ops(ParseFrom(vs, i + n))
  {
    var rest := ParseFrom(vs, i + n);
    assert ([Item(op, i, i + n)] + rest)[1..] == rest;
  }

  /** From line `i` on, the blocks of `ops` follow one another to the end, on the lines `runs`. */
  predicate Chain(vs: seq<View>, i: nat, ops: seq<Op>, runs: seq<seq<View>>)
    decreases |ops|
  {
    if ops == [] || runs == [] then ops == [] && runs == [] && i == |vs|
    else i < |vs| && At(vs, i) == One(ops[0], i, |runs[0]|) && Chain(vs, i + |runs[0]|, ops[1..], runs[1..])
  }

  lemma {:induction false} ChainBounds(vs: seq<View>, i: nat, ops: seq<Op>, runs: seq<seq<View>>)
    requires Chain(vs, i, ops, runs)
    ensures i <= |vs|
  {
  }

  lemma {:induction false} ChainParses(vs: seq<View>, i: nat, ops: seq<Op>, runs: seq<seq<View>>)
    requires i <= |vs| && Chain(vs, i, ops, runs)
    ensures Ops(ParseFrom(vs, i)) == ops
    decreases |ops|
  {
    if ops == [] {
    } else {
      var n := |runs[0]|;
      ChainBounds(vs, i + n, ops[1..], runs[1..]);
      ChainParses(vs, i + n, ops[1..], runs[1..]);
      ParseOne(vs, i, ops[0], n);
      assert ops == [ops[0]] + ops[1..];
    }
  }

  /** Wherever the lines `run` stand, they parse as exactly `op`. */
  ghost predicate Reads(op: Op, run: seq<View>) {
    run != [] && forall vs: seq<View>, i: nat {:trigger At(vs, i), RunAt(vs, i, run)} ::
      RunAt(vs, i, run) ==> i < |vs| && At(vs, i) == One(op, i, |run|)
  }

  ghost predicate AllRead(ops: seq<Op>, runs: seq<seq<View>>)
    decreases |ops|
  {
    |runs| == |ops| && (ops != [] ==> Reads(ops[0], runs[0]) && AllRead(ops[1..], runs[1..]))
  }

  function Concat(runs: seq<seq<View>>): seq<View>
    decreases |runs|
  {
    if runs == [] then [] else runs[0] + Concat(runs[1..])
  }

  lemma {:induction false} ReadsAt(vs: seq<View>, i: nat, op: Op, run: seq<View>)
    requires Reads(op, run) && RunAt(vs, i, run)
    ensures i < |vs| && At(vs, i) == One(op, i, |run|)
  {
  }

  lemma {:induction false} FirstRun(vs: seq<View>, i: nat, ops: seq<Op>, runs: seq<seq<View>>)
    requires ops != [] && AllRead(ops, runs) && RunAt(vs, i, Concat(runs))
    ensures i < |vs| && At(vs, i) == One(ops[0], i, |runs[0]|)
    ensures RunAt(vs, i + |runs[0]|, Concat(runs[1..])) && |Concat(runs)| == |runs[0]| + |Concat(runs[1..])|
  {
    RunSplit(vs, i, runs[0], Concat(runs[1..]));
    ReadsAt(vs, i, ops[0], runs[0]);
  }

  lemma {:induction false} RunsChain(vs: seq<View>, i: nat, ops: seq<Op>, runs: seq<seq<View>>)
    requires AllRead(ops, runs) && i + |Concat(runs)| == |vs| && RunAt(vs, i, Concat(runs))
    ensures Chain(vs, i, ops, runs)
    decreases |ops|
  {
    if ops == [] {
    } else {
      FirstRun(vs, i, ops, runs);
      RunsChain(vs, i + |runs[0]|, ops[1..], runs[1..]);
      ChainCons(vs, i, ops, runs);
    }
  }

  lemma {:induction false} ChainCons(vs: seq<View>, i: nat, ops: seq<Op>, runs: seq<seq<View>>)
    requires ops != [] && runs != [] && i < |vs| && At(vs, i) == One(ops[0], i, |runs[0]|)
    requires Chain(vs, i + |runs[0]|, ops[1..], runs[1..])
    ensures Chain(vs, i, ops, runs)
  {
  }

  lemma {:induction false} OpReads(cfg: Config, op: Op, run: seq<View>)
    requires Printable(cfg, op) && run == Views(cfg, Print(op))
    ensures Reads(op, run)
  {
    forall vs: seq<View>, i: nat | RunAt(vs, i, run) ensures i < |vs| && At(vs, i) == One(op, i, |run|) {
      OpParses(cfg, vs, i, op, run);
    }
  }

  function Runs(cfg: Config, ops: seq<Op>): (r: seq<seq<View>>)
    ensures |r| == |ops|
    decreases |ops|
  {
    if ops == [] then [] else [Views(cfg, Print(ops[0]))] + Runs(cfg, ops[1..])
  }

  lemma {:induction false} RunsRead(cfg: Config, ops: seq<Op>)
    requires AllPrintable(cfg, ops)
    ensures AllRead(ops, Runs(cfg, ops))
    decreases |ops|
  {
    if ops == [] {
    } else {
      OpReads(cfg, ops[0], Runs(cfg, ops)[0]);
      RunsRead(cfg, ops[1..]);
      assert Runs(cfg, ops)[1..] == Runs(cfg, ops[1..]);
    }
  }

  lemma {:induction false} RunsConcat(cfg: Config, ops: seq<Op>)
    ensures Concat(Runs(cfg, ops)) == Views(cfg, PrintAll(ops))
    decreases |ops|
  {
    if ops == [] {
    } else {
      RunsConcat(cfg, ops[1..]);
      assert Runs(cfg, ops)[1..] == Runs(cfg, ops[1..]);
      ViewsAppend(cfg, Print(ops[0]), PrintAll(ops[1..]));
    }
  }

  /** Parsing the printed form of any list of printable operations gives back exactly that list. */
  lemma {:induction false} ParsePrint(cfg: Config, ops: seq<Op>)
    requires AllPrintable(cfg, ops)
    ensures Parsed(cfg, PrintAll(ops)) == ops
  {
    RunsRead(cfg, ops);
    RunsConcat(cfg, ops);
    var vs := Views(cfg, PrintAll(ops));
    assert vs[0..|vs|] == vs;
    RunsChain(vs, 0, ops, Runs(cfg, ops));
    ChainParses(vs, 0, ops, Runs(cfg, ops));
  }

  /*** Exactly which WRITE operations survive ***/

  /** The first line that ends the body early, if any. */
  function FirstBad(run: seq<View>, k: nat): (r: nat)
    requires k <= |run|
    ensures k <= r <= |run|
    decreases |run| - k
  {
    if k == |run| || !WriteLineOk(run, k) then k else FirstBad(run, k + 1)
  }

  lemma {:induction false} FirstBadMeaning(run: seq<View>, k: nat)
    requires k <= |run| && forall j :: 0 <= j < k ==> WriteLineOk(run, j)
    ensures FirstBad(run, k) == |run| <==> WriteBodyOk(run)
    decreases |run| - k
  {
    if k >= |run| || !WriteLineOk(run, k) {
    } else {
      FirstBadMeaning(run, k + 1);
    }
  }

  lemma {:induction false} WriteStopsAt(vs: seq<View>, start: nat, k: nat, run: seq<View>, en: View)
    requires k < |run| && RunAt(vs, start, run + [en]) && en.dashTail
    ensures WriteStop(vs, start, start + k) == None <==> WriteLineOk(run, k)
  {
    var whole := run + [en];
    RunIndex(vs, start, whole, k);
    RunIndex(vs, start, whole, k + 1);
    assert whole[k] == run[k];
    assert if k + 1 < |run| then whole[k + 1] == run[k + 1] else whole[k + 1] == en;
  }

  lemma {:induction false} WriteEndsAtFirstBad(vs: seq<View>, start: nat, k: nat, run: seq<View>, en: View)
    requires k <= |run| && RunAt(vs, start, run + [en]) && en.dashTail && en.writeEnd
    ensures WriteEnd(vs, start, start + k).0 == start + FirstBad(run, k)
    decreases |run| - k
  {
    if k < |run| {
      WriteStopsAt(vs, start, k, run, en);
      if WriteLineOk(run, k) {
        WriteEndsAtFirstBad(vs, start, k + 1, run, en);
      }
    } else {
      RunIndex(vs, start, run + [en], |run|);
    }
  }

  lemma {:induction false} ShorterJoin(ls: seq<string>, k: nat)
    requires k < |ls| && (k == 0 ==> |ls| > 1 || ls[0] != "")
    ensures Join(ls[..k], '\n') != Join(ls, '\n')
  {
    if k == 0 {
      assert ls[..k] == [];
    } else {
      JoinAppend(ls[..k], ls[k..], '\n');
      assert ls[..k] + ls[k..] == ls;
    }
  }

  lemma {:induction false} BlankLineOk(cfg: Config, run: seq<View>)
    requires run == Views(cfg, [""])
    ensures WriteLineOk(run, 0)
  {
    ViewsAt(cfg, [""], 0);
    assert TrimSpace("") == "" && Unquoted("") == "";
    assert ToUpper("") == "" && ToLower("") == "";
  }

  /** A printed WRITE parses to the lines above the first line that ends its body. */
  lemma {:induction false} WriteFirst(vs: seq<View>, h: View, run: seq<View>, en: View, p: string)
    requires vs == [h] + (run + [en]) && h.head == Write(p, false) && p != "" && en.dashTail && en.writeEnd
    ensures var ops := Ops(ParseFrom(vs, 0));
      ops != [] && ops[0] == WriteOp(p, Join(Texts(run[..FirstBad(run, 0)]), '\n'))
  {
    assert vs[0..|vs|] == vs;
    RunSplit(vs, 0, [h], run + [en]);
    WriteEndsAtFirstBad(vs, 1, 0, run, en);
    var k := FirstBad(run, 0);
    assert vs[1..1 + k] == run[..k];
    WriteIsFirst(vs, p);
  }

  lemma {:induction false} WriteIsFirst(vs: seq<View>, p: string)
    requires vs != [] && vs[0].head == Write(p, false) && p != ""
    ensures var ops := Ops(ParseFrom(vs, 0));
      ops != [] && ops[0] == WriteOp(p, Join(Texts(vs[1..WriteEnd(vs, 1, 1).0]), '\n'))
  {
  }

  lemma {:induction false} TextsPrefix(cfg: Config, ls: seq<string>, k: nat)
    requires k <= |ls|
    ensures Texts(Views(cfg, ls)[..k]) == ls[..k]
  {
    ViewsAppend(cfg, ls[..k], ls[k..]);
    assert ls[..k] + ls[k..] == ls;
    assert (Views(cfg, ls[..k]) + Views(cfg, ls[k..]))[..k] == Views(cfg, ls[..k]);
    TextsOfViews(cfg, ls[..k]);
  }

  lemma {:induction false} CutShort(cfg: Config, ls: seq<string>, run: seq<View>, k: nat)
    requires |ls| >= 1 && run == Views(cfg, ls) && k == FirstBad(run, 0) && !WriteBodyOk(run)
    ensures k < |ls| && Join(ls[..k], '\n') != Join(ls, '\n')
  {
    FirstBadMeaning(run, 0);
    if ls == [""] {
      BlankLineOk(cfg, run);
    }
    ShorterJoin(ls, k);
  }

  /** A printed WRITE comes back if and only if no line of its content ends the body early:
      a terminator, a tool line, a bare fence below the first line, or a line `---` in front of a terminator. */
  lemma {:induction false} WriteSurvivesIff(cfg: Config, p: string, c: string)
    requires StablePath(cfg, p)
    ensures Parsed(cfg, PrintAll([WriteOp(p, c)])) == [WriteOp(p, c)] <==> WriteBodyOk(Views(cfg, Split(c, '\n')))
  {
    var op := WriteOp(p, c);
    assert [op][1..] == [] && PrintAll([op]) == Print(op) + [] == Print(op);
    if WriteBodyOk(Views(cfg, Split(c, '\n'))) {
      assert AllPrintable(cfg, [op]);
      ParsePrint(cfg, [op]);
    } else {
      WriteIsLost(cfg, p, c);
    }
  }

  lemma {:induction false} WriteIsLost(cfg: Config, p: string, c: string)
    requires StablePath(cfg, p) && !WriteBodyOk(Views(cfg, Split(c, '\n')))
    ensures Parsed(cfg, Print(WriteOp(p, c))) != [WriteOp(p, c)]
  {
    var ls := Split(c, '\n');
    var run := Views(cfg, ls);
    var h, en := WriteLines(cfg, p, c);
    WriteFirst(Views(cfg, Print(WriteOp(p, c))), h, run, en, p);
    CutShort(cfg, ls, run, FirstBad(run, 0));
    TextsPrefix(cfg, ls, FirstBad(run, 0));
    JoinSplit(c, '\n');
  }

  /** Content whose last line is `---` is never restored: the terminator below it is read as a split one. */
  lemma {:induction false} FinalDashLineIsLost(cfg: Config, p: string, c: string)
    requires StablePath(cfg, p) && EndsInDashes(Split(c, '\n'))
    ensures Parsed(cfg, PrintAll([WriteOp(p, c)])) != [WriteOp(p, c)]
  {
    DashView(cfg, Split(c, '\n'));
    WriteSurvivesIff(cfg, p, c);
  }

  predicate EndsInDashes(ls: seq<string>) {
    ls != [] && TrimSpace(ls[|ls| - 1]) == "---"
  }

  lemma {:induction false} DashView(cfg: Config, ls: seq<string>)
    requires EndsInDashes(ls)
    ensures !WriteBodyOk(Views(cfg, ls))
  {
    DashAt(cfg, ls, |ls| - 1);
    LastDashStops(Views(cfg, ls));
  }

  lemma {:induction false} DashAt(cfg: Config, ls: seq<string>, k: nat)
    requires k < |ls| && TrimSpace(ls[k]) == "---"
    ensures Views(cfg, ls)[k].dash
  {
    ViewsAt(cfg, ls, k);
    DashLine(cfg, ls[k], Views(cfg, ls)[k]);
  }

  lemma {:induction false} DashLine(cfg: Config, line: string, v: View)
    requires TrimSpace(line) == "---" && v == ViewOf(cfg, line)
    ensures v.dash
  {
  }

  lemma {:induction false} LastDashStops(run: seq<View>)
    requires run != [] && run[|run| - 1].dash
    ensures !WriteBodyOk(run)
  {
    assert !WriteLineOk(run, |run| - 1);
  }

  lemma {:induction false} FinalDashLineExample(cfg: Config, p: string, c: string)
    requires StablePath(cfg, p) && c == "a: 1\n---"
    ensures Parsed(cfg, PrintAll([WriteOp(p, c)])) != [WriteOp(p, c)]
  {
    var a, b := "a: 1", "---";
    SplitPeel(a, b, '\n');
    SplitPeel(b, "", '\n');
    assert c == a + ['\n'] + b;
    assert Split(c, '\n') == [a, b];
    TrimmedUnchanged(b, IsSpace);
    FinalDashLineIsLost(cfg, p, c);
  }

  /*** Text between an EDIT header and its SEARCH marker ***/

  /** An EDIT block with extra plain lines `pre` under its header. */
  function WithPrelude(pre: seq<string>, p: string, s: string, r: string): seq<string> {
    ["EDIT: " + p] + (pre + ([SEARCH] + (AllLine(false) + (Split(s, '\n') + ([DIVIDER] + (Split(r, '\n') + [END]))))))
  }

  lemma {:induction false} PreludeBlock(vs: seq<View>, h: View, pre: seq<View>, se: View, ss: seq<View>, dv: View,
                                        rs: seq<View>, en: View, tail: seq<View>, p: string)
    requires vs == [h] + (pre + ([se] + tail)) && tail == ss + ([dv] + (rs + [en]))
    requires h.head == Edit(p, false) && p != "" && AllUnmarked(pre) && Quiet([], pre) && AllUnmarked(ss)
    requires AllUnmarked(rs)
    requires se.mark == SearchMark && dv.mark == DividerMark && en.mark == EndMark && Body(Texts(ss)) != ""
    ensures Ops(ParseFrom(vs, 0)) == [EditOp(p, Body(Texts(ss)), Body(Texts(pre) + Texts(rs)), false)]
  {
    assert vs[0..|vs|] == vs;
    RunSplit(vs, 0, [h], pre + ([se] + tail));
    var al: seq<View> := [];
    assert al + tail == tail;
    EditBlock(vs, 1, pre, se, al, ss, dv, rs, en, tail);
    var op := EditOp(p, Body(Texts(ss)), Body(Texts(pre) + Texts(rs)), false);
    EditAs(vs, 0, BlockFrom(vs, 1, 1, NoMode, [], [], false), op, |vs|);
    assert [Item(op, 0, |vs|)] + [] == [Item(op, 0, |vs|)];
    assert [Item(op, 0, |vs|)][1..] == [];
  }

  /** Plain lines between the header and the SEARCH marker become the front of the replacement. */
  lemma {:induction false} PreludeJoinsReplacement(cfg: Config, pre: seq<string>, p: string, s: string, r: string)
    requires Printable(cfg, EditOp(p, s, r, false)) && s != ""
    requires AllUnmarked(Views(cfg, pre)) && Quiet([], Views(cfg, pre))
    ensures Parsed(cfg, WithPrelude(pre, p, s, r)) == [EditOp(p, s, Body(pre + Split(r, '\n')), false)]
  {
    var ss, rs := Split(s, '\n'), Split(r, '\n');
    var rest := [SEARCH] + (AllLine(false) + (ss + ([DIVIDER] + (rs + [END]))));
    var h := EditHeaderLine(cfg, p, pre + rest);
    ViewsAppend(cfg, pre, rest);
    var se, al, dv, en := EditBodyLines(cfg, false, ss, rs);
    var tail := Views(cfg, ss) + ([dv] + (Views(cfg, rs) + [en]));
    assert al + tail == tail;
    EditTexts(cfg, s, r);
    TextsOfViews(cfg, pre);
    TextsOfViews(cfg, rs);
    PreludeBlock(Views(cfg, WithPrelude(pre, p, s, r)), h, Views(cfg, pre), se, Views(cfg, ss), dv, Views(cfg, rs),
      en, tail, p);
  }

  predicate AllEmpty(ls: seq<string>) {
    forall i :: 0 <= i < |ls| ==> ls[i] == ""
  }

  lemma {:induction false} BodyEmpty(pre: seq<string>)
    requires NewlineFree(pre)
    ensures Body(pre) == "" <==> AllEmpty(pre)
  {
    if pre != [] {
      TrimNewlines(pre);
      var m := DropBlankAt(pre);
      var kept := pre[..m];
      if m > 1 {
        JoinAppend(kept[..m - 1], [kept[m - 1]], '\n');
        assert kept[..m - 1] + [kept[m - 1]] == kept;
      } else {
        assert kept == [pre[0]];
      }
    }
  }

  lemma {:induction false} BodyWithPrelude(pre: seq<string>, r: string)
    requires NewlineFree(pre) && !FinalNewline(r)
    ensures Body(pre + Split(r, '\n')) == r <==> pre == [] || (r == "" && AllEmpty(pre))
  {
    var rs := Split(r, '\n');
    JoinSplit(r, '\n');
    if pre == [] {
      assert pre + rs == rs;
      BodyOfSplit(r);
    } else {
      JoinAppend(pre, rs, '\n');
      var joined := Join(pre, '\n') + ['\n'] + r;
      if r == "" {
        assert joined == Join(pre, '\n') + ['\n'];
        assert joined[..|joined| - 1] == Join(pre, '\n');
        BodyEmpty(pre);
      } else {
        assert joined[|joined| - 1] == r[|r| - 1];
      }
    }
  }

  /** So an edit with text under its header means what its SEARCH/REPLACE sections say
      if and only if there is no such text, or all of it and the replacement are empty. */
  lemma {:induction false} PreludeHarmlessIff(cfg: Config, pre: seq<string>, p: string, s: string, r: string)
    requires Printable(cfg, EditOp(p, s, r, false)) && s != "" && NewlineFree(pre)
    requires AllUnmarked(Views(cfg, pre)) && Quiet([], Views(cfg, pre))
    ensures Parsed(cfg, WithPrelude(pre, p, s, r)) == [EditOp(p, s, r, false)] <==>
      pre == [] || (r == "" && AllEmpty(pre))
  {
    PreludeJoinsReplacement(cfg, pre, p, s, r);
    BodyWithPrelude(pre, r);
  }
}
