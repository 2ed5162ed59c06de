/** What the native edit parser does on arbitrary lines: it always advances, the accepted operations come
    from disjoint spans in order, and each operation holds exactly the lines its span promises. */
module NativeEditSpans {
  import opened Text
  import opened FileSanitize
  import opened EditLines
  import opened NativeEdit

  /*** Sections of an EDIT body, told by the last marker above a line ***/

  function ModeAt(vs: seq<View>, start: nat, k: nat): Mode
    requires start <= k <= |vs|
    decreases k
  {
    if k == start then NoMode
    else match vs[k - 1].mark
      case SearchMark => InSearch
      case DividerMark => InReplace
      case _ => ModeAt(vs, start, k - 1)
  }

  /** The unmarked lines in `start <= j < k` inside, or outside, SEARCH sections. */
  function Section(vs: seq<View>, start: nat, k: nat, search: bool): seq<string>
    requires start <= k <= |vs|
    decreases k
  {
    if k == start then []
    else
      Section(vs, start, k - 1, search) +
      (if vs[k - 1].mark == NoMark && (ModeAt(vs, start, k - 1) == InSearch) == search then [vs[k - 1].text] else [])
  }

  predicate HasAll(vs: seq<View>, start: nat, k: nat)
    requires start <= k <= |vs|
  {
    exists j :: start <= j < k && vs[j].mark == AllMark
  }

  /** The unmarked lines in `start <= j < k` outside SEARCH sections are a diff already, and no section has begun. */
  predicate DiffBy(vs: seq<View>, start: nat, k: nat)
    requires start <= k <= |vs|
  {
    DiffSoFar(ModeAt(vs, start, k), Section(vs, start, k, false))
  }

  /** Reading a block goes no further than line `k`: an END marker, a divider outside SEARCH, or a complete diff
      followed by a bare fence or a tool line. */
  predicate Stops(vs: seq<View>, start: nat, k: nat)
    requires start <= k < |vs|
  {
    match vs[k].mark
    case EndMark => true
    case DividerMark => ModeAt(vs, start, k) != InSearch
    case FenceMark(bare) => bare && DiffBy(vs, start, k)
    case NoMark => vs[k].tool && DiffBy(vs, start, k)
    case _ => false
  }

  /** Line `e` is the first that stops the reading, or the end of the lines. */
  predicate StopsFirst(vs: seq<View>, start: nat, e: nat)
    requires start <= e <= |vs|
  {
    (e < |vs| ==> Stops(vs, start, e)) && forall k :: start <= k < e ==> !Stops(vs, start, k)
  }

  /** What the lines above the stop at `e` spell out. */
  function SpelledAt(vs: seq<View>, start: nat, e: nat): Block
    requires start <= e <= |vs|
  {
    var search, rest := Body(Section(vs, start, e, true)), Body(Section(vs, start, e, false));
    if e < |vs| && vs[e].mark == EndMark then
      if ModeAt(vs, start, e) == InReplace then Block(search, rest, e + 1, search != "", HasAll(vs, start, e))
      else Block("", rest, e + 1, rest != "", false)
    else if e < |vs| && vs[e].mark == DividerMark then Block("", "", e + 1, false, false)
    else if DiffBy(vs, start, e) then
      Block("", rest, if e < |vs| && vs[e].mark.FenceMark? then e + 1 else e, true, false)
    else Block("", "", start, false, false)
  }

  ghost predicate Explained(vs: seq<View>, start: nat, b: Block)
    requires start <= |vs|
  {
    exists e :: start <= e <= |vs| && StopsFirst(vs, start, e) && b == SpelledAt(vs, start, e)
  }

  predicate Collected(vs: seq<View>, start: nat, i: nat, mode: Mode, sl: seq<string>, rl: seq<string>, all: bool)
    requires start <= i <= |vs|
  {
    mode == ModeAt(vs, start, i) && sl == Section(vs, start, i, true) && rl == Section(vs, start, i, false) &&
      all == HasAll(vs, start, i)
  }

  lemma {:induction false} CollectedStep(vs: seq<View>, start: nat, i: nat, mode: Mode, sl: seq<string>,
                                         rl: seq<string>, all: bool)
    requires start <= i < |vs| && Collected(vs, start, i, mode, sl, rl, all)
    ensures match vs[i].mark
      case SearchMark => Collected(vs, start, i + 1, InSearch, sl, rl, all)
      case DividerMark => Collected(vs, start, i + 1, InReplace, sl, rl, all)
      case AllMark => Collected(vs, start, i + 1, mode, sl, rl, true)
      case EndMark => true
      case FenceMark(_) => Collected(vs, start, i + 1, mode, sl, rl, all)
      case NoMark =>
        if mode == InSearch then Collected(vs, start, i + 1, mode, sl + [vs[i].text], rl, all)
        else Collected(vs, start, i + 1, mode, sl, rl + [vs[i].text], all)
  {
    HasAllStep(vs, start, i);
    assert sl + [] == sl && rl + [] == rl;
  }

  lemma {:induction false} HasAllStep(vs: seq<View>, start: nat, i: nat)
    requires start <= i < |vs|
    ensures HasAll(vs, start, i + 1) <==> HasAll(vs, start, i) || vs[i].mark == AllMark
  {
    if HasAll(vs, start, i) {
      var j :| start <= j < i && vs[j].mark == AllMark;
    }
  }

  predicate NoStop(vs: seq<View>, start: nat, i: nat)
    requires start <= i <= |vs|
  {
    forall k :: start <= k < i ==> !Stops(vs, start, k)
  }

  lemma {:induction false} BlockStopsHere(vs: seq<View>, start: nat, i: nat, mode: Mode, sl: seq<string>,
                                          rl: seq<string>, all: bool)
    requires start <= i <= |vs| && Collected(vs, start, i, mode, sl, rl, all) && (i < |vs| ==> Stops(vs, start, i))
    ensures BlockFrom(vs, start, i, mode, sl, rl, all) == SpelledAt(vs, start, i)
  {
  }

  /** Otherwise reading goes on with what has been collected up to the next line. */
  lemma {:induction false} BlockGoesOn(vs: seq<View>, start: nat, i: nat, mode: Mode, sl: seq<string>,
                                       rl: seq<string>, all: bool)
      returns (mode': Mode, sl': seq<string>, rl': seq<string>, all': bool)
    requires start <= i < |vs| && Collected(vs, start, i, mode, sl, rl, all) && !Stops(vs, start, i)
    ensures Collected(vs, start, i + 1, mode', sl', rl', all')
    ensures BlockFrom(vs, start, i, mode, sl, rl, all) == BlockFrom(vs, start, i + 1, mode', sl', rl', all')
  {
    CollectedStep(vs, start, i, mode, sl, rl, all);
    mode', sl', rl', all' := mode, sl, rl, all;
    match vs[i].mark
    case SearchMark => mode' := InSearch;
    case DividerMark => mode' := InReplace;
    case AllMark => all' := true;
    case FenceMark(_) =>
    case NoMark =>
      if mode == InSearch {
        sl' := sl + [vs[i].text];
      } else {
        rl' := rl + [vs[i].text];
      }
  }

  /** A block is exactly what the lines above the first stop spell out. */
  lemma {:induction false} BlockIsExplained(vs: seq<View>, start: nat, i: nat, mode: Mode, sl: seq<string>,
                                            rl: seq<string>, all: bool)
      returns (e: nat)
    requires start <= i <= |vs| && Collected(vs, start, i, mode, sl, rl, all) && NoStop(vs, start, i)
    ensures i <= e <= |vs| && StopsFirst(vs, start, e)
    ensures BlockFrom(vs, start, i, mode, sl, rl, all) == SpelledAt(vs, start, e)
    decreases |vs| - i
  {
    if i == |vs| || Stops(vs, start, i) {
      BlockStopsHere(vs, start, i, mode, sl, rl, all);
      e := i;
    } else {
      var mode', sl', rl', all' := BlockGoesOn(vs, start, i, mode, sl, rl, all);
      e := BlockIsExplained(vs, start, i + 1, mode', sl', rl', all');
    }
  }

  lemma {:induction false} StopIsUnique(vs: seq<View>, start: nat, e: nat, f: nat)
    requires start <= e <= |vs| && start <= f <= |vs| && StopsFirst(vs, start, e) && StopsFirst(vs, start, f)
    ensures e == f
  {
  }

  /** An EDIT block for which the reading ends at an END marker, with no replacement begun, although lines other than
      a diff were collected. */
  predicate UnfinishedEdit(vs: seq<View>, start: nat, e: nat, content: string)
    requires start <= e <= |vs|
  {
    && e < |vs| && StopsFirst(vs, start, e) && vs[e].mark == EndMark && ModeAt(vs, start, e) != InReplace
    && content == Body(Section(vs, start, e, false)) && content != "" && !IsDiffBody(content)
  }

  ghost predicate Unfinished(vs: seq<View>, start: nat, content: string)
    requires start <= |vs|
  {
    exists e :: start <= e <= |vs| && UnfinishedEdit(vs, start, e, content)
  }

  lemma {:induction false} SpelledAsWrite(vs: seq<View>, start: nat, e: nat, b: Block, content: string)
    requires start <= e <= |vs| && StopsFirst(vs, start, e) && b == SpelledAt(vs, start, e)
    ensures b.ok && b.search == "" && !IsDiffBody(b.replace) && b.replace == content <==>
      UnfinishedEdit(vs, start, e, content)
  {
  }

  /** An EDIT block overwrites the whole file with `content` if and only if it is left unfinished: reading ends at an
      END marker before any replacement, plain lines under the header or between sections being all there is to
      write. */
  lemma {:induction false} EditOverwritesIff(vs: seq<View>, i: nat, path: string, content: string)
    requires i < |vs| && vs[i].head == Edit(path, false) && path != ""
    ensures (exists to :: At(vs, i).0 == [Item(WriteOp(path, content), i, to)]) <==> Unfinished(vs, i + 1, content)
  {
    var b := BlockFrom(vs, i + 1, i + 1, NoMode, [], [], false);
    var e := BlockIsExplained(vs, i + 1, i + 1, NoMode, [], [], false);
    SpelledAsWrite(vs, i + 1, e, b, content);
    if Unfinished(vs, i + 1, content) {
      var f :| i + 1 <= f <= |vs| && UnfinishedEdit(vs, i + 1, f, content);
      StopIsUnique(vs, i + 1, e, f);
      assert At(vs, i).0 == [Item(WriteOp(path, content), i, b.next)];
    }
  }

  /*** Spans ***/

  ghost predicate EditSpan(vs: seq<View>, it: Item)
    requires it.from < |vs|
  {
    && vs[it.from].head == Edit(it.op.path, false)
    && (it.op.EditOp? || it.op.WriteOp?)
    && exists b: Block ::
      && b.ok && b.next == it.to && Explained(vs, it.from + 1, b)
      && (it.op.EditOp? ==> it.op == EditOp(it.op.path, b.search, b.replace, b.all))
      && (it.op.EditOp? && b.search == "" ==> IsDiffBody(b.replace))
      && (it.op.WriteOp? ==> b.search == "" && it.op.content == b.replace && !IsDiffBody(b.replace))
  }

  ghost predicate WriteSpan(vs: seq<View>, it: Item)
    requires it.from < |vs|
  {
    && it.op.WriteOp? && vs[it.from].head == Write(it.op.path, false)
    && exists e :: it.from < e <= it.to <= e + 2 && e <= |vs| && WrittenTo(vs, it, e)
  }

  predicate Unstopped(vs: seq<View>, start: nat, i: nat, j: nat)
    requires start <= i && j <= |vs|
  {
    forall k :: i <= k < j ==> WriteStop(vs, start, k) == None
  }

  /** The content is every line from the header down to line `e`, where the first terminator stands. */
  ghost predicate WrittenTo(vs: seq<View>, it: Item, e: nat)
    requires it.from < e <= |vs| && it.op.WriteOp?
  {
    && it.op.content == Join(Texts(vs[it.from + 1..e]), '\n')
    && Unstopped(vs, it.from + 1, it.from + 1, e)
    && (if e == |vs| then it.to == e else WriteStop(vs, it.from + 1, e) == Some(it.to))
  }

  predicate ReadSpan(vs: seq<View>, it: Item)
    requires it.from < |vs|
  {
    it.op.ReadOp? && vs[it.from].head == Read(it.op.path) && it.to == it.from + 1
  }

  ghost predicate SpanOk(vs: seq<View>, it: Item) {
    it.from < it.to <= |vs| && it.op.path != "" && (ReadSpan(vs, it) || EditSpan(vs, it) || WriteSpan(vs, it))
  }

  lemma {:induction false} WriteEndMeaning(vs: seq<View>, start: nat, i: nat)
    requires start <= i <= |vs|
    ensures var e := WriteEnd(vs, start, i);
      && Unstopped(vs, start, i, e.0)
      && (if e.0 == |vs| then e.1 == e.0 else WriteStop(vs, start, e.0) == Some(e.1) && e.1 <= e.0 + 2)
    decreases |vs| - i
  {
    if i >= |vs| || WriteStop(vs, start, i) != None {
    } else {
      WriteEndMeaning(vs, start, i + 1);
    }
  }

  lemma {:induction false} HeaderSpans(vs: seq<View>, i: nat)
    requires i < |vs|
    ensures var r := At(vs, i);
      |r.0| <= 1 && (|r.0| == 1 ==> r.0[0].from == i && r.0[0].to == r.1 && SpanOk(vs, r.0[0]))
  {
    match vs[i].head
    case NoHead =>
    case Read(_) =>
    case Edit(path, blocked) =>
      if !blocked {
        EditSpans(vs, i, path);
      }
    case Write(path, blocked) =>
      if !blocked {
        WriteSpans(vs, i, path);
      }
  }

  lemma {:induction false} EditSpans(vs: seq<View>, i: nat, path: string)
    requires i < |vs| && vs[i].head == Edit(path, false)
    ensures var r := EditItem(path, BlockFrom(vs, i + 1, i + 1, NoMode, [], [], false), i);
      |r| <= 1 && (|r| == 1 ==> r[0].from == i && SpanOk(vs, r[0]))
  {
    var b := BlockFrom(vs, i + 1, i + 1, NoMode, [], [], false);
    var e := BlockIsExplained(vs, i + 1, i + 1, NoMode, [], [], false);
    var r := EditItem(path, b, i);
    if |r| == 1 {
      assert EditSpan(vs, r[0]);
    }
  }

  lemma {:induction false} WriteSpans(vs: seq<View>, i: nat, path: string)
    requires i < |vs| && vs[i].head == Write(path, false)
    ensures var r := WriteItem(vs, path, i, WriteEnd(vs, i + 1, i + 1));
      |r| <= 1 && (|r| == 1 ==> r[0].from == i && SpanOk(vs, r[0]))
  {
    var e := WriteEnd(vs, i + 1, i + 1);
    WriteEndMeaning(vs, i + 1, i + 1);
    var r := WriteItem(vs, path, i, e);
    if |r| == 1 {
      assert WrittenTo(vs, r[0], e.0);
      assert WriteSpan(vs, r[0]);
    }
  }

  ghost predicate SpansFrom(vs: seq<View>, items: seq<Item>, lo: nat)
    decreases |items|
  {
    items != [] ==> lo <= items[0].from && SpanOk(vs, items[0]) && SpansFrom(vs, items[1..], items[0].to)
  }

  lemma {:induction false} SpansCons(vs: seq<View>, found: seq<Item>, rest: seq<Item>, i: nat, next: nat)
    requires i < next && |found| <= 1 && SpansFrom(vs, rest, next)
    requires |found| == 1 ==> found[0].from == i && found[0].to == next && SpanOk(vs, found[0])
    ensures SpansFrom(vs, found + rest, i)
  {
    if |found| == 0 {
      assert found + rest == rest;
    } else {
      assert (found + rest)[1..] == rest;
    }
  }

  /** On arbitrary lines, the accepted operations come from disjoint spans in order, and every operation
      is what its span spells out. */
  lemma {:induction false} SpansDisjointInOrder(vs: seq<View>, i: nat)
    requires i <= |vs|
    ensures SpansFrom(vs, ParseFrom(vs, i), i)
    decreases |vs| - i
  {
    if i >= |vs| {
    } else {
      HeaderSpans(vs, i);
      var r := At(vs, i);
      SpansDisjointInOrder(vs, r.1);
      SpansCons(vs, r.0, ParseFrom(vs, r.1), i, r.1);
    }
  }

  /** Spans in order never overlap: of any two operations, the earlier one ends before the later one begins. */
  lemma {:induction false} SpansApart(vs: seq<View>, items: seq<Item>, lo: nat, j: nat, k: nat)
    requires SpansFrom(vs, items, lo) && j < k < |items|
    ensures lo <= items[j].from < items[j].to <= items[k].from
    decreases |items|
  {
    if j > 0 {
      SpansApart(vs, items[1..], items[0].to, j - 1, k - 1);
    } else {
      SpansAfter(vs, items[1..], items[0].to, k - 1);
    }
  }

  lemma {:induction false} SpansAfter(vs: seq<View>, items: seq<Item>, lo: nat, k: nat)
    requires SpansFrom(vs, items, lo) && k < |items|
    ensures lo <= items[k].from < items[k].to <= |vs|
    decreases |items|
  {
    if k == 0 {
    } else {
      SpansAfter(vs, items[1..], items[0].to, k - 1);
    }
  }
}
