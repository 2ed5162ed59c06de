/** The READ/EDIT/WRITE block parser (parseOrchestratedNativeEdits) on the lines of a preprocessed reply. */
module NativeEdit {
  import opened Text
  import opened FileSanitize
  import opened EditLines

  datatype Op = ReadOp(path: string) | EditOp(path: string, search: string, replace: string, all: bool)
      | WriteOp(path: string, content: string)

  datatype Mode = NoMode | InSearch | InReplace

  /** The outcome of reading an EDIT body; `next` is where parsing goes on. */
  datatype Block = Block(search: string, replace: string, next: nat, ok: bool, all: bool)

  function Texts(vs: seq<View>): (r: seq<string>)
    ensures |r| == |vs|
    decreases |vs|
  {
    if vs == [] then [] else [vs[0].text] + Texts(vs[1..])
  }

  /** The lines collected before any SEARCH marker already form a unified diff. */
  predicate DiffSoFar(mode: Mode, rl: seq<string>) {
    mode == NoMode && rl != [] && IsDiffBody(Body(rl))
  }

  function Closing(i: nat, mode: Mode, sl: seq<string>, rl: seq<string>, all: bool): Block {
    if mode == InReplace then Block(Body(sl), Body(rl), i + 1, Body(sl) != "", all)
    else Block("", Body(rl), i + 1, Body(rl) != "", false)
  }

  /** parseNativeEditSearchReplace from line `i` on, with what was collected since line `start`. */
  function BlockFrom(vs: seq<View>, start: nat, i: nat, mode: Mode, sl: seq<string>, rl: seq<string>,
                     all: bool): (b: Block)
    requires start <= i <= |vs|
    ensures start <= b.next <= |vs|
    decreases |vs| - i
  {
    if i == |vs| then
      if DiffSoFar(mode, rl) then Block("", Body(rl), |vs|, true, false) else Block("", "", start, false, false)
    else match vs[i].mark
      case SearchMark => BlockFrom(vs, start, i + 1, InSearch, sl, rl, all)
      case DividerMark =>
        if mode == InSearch then BlockFrom(vs, start, i + 1, InReplace, sl, rl, all)
          else Block("", "", i + 1, false, false)
      case AllMark => BlockFrom(vs, start, i + 1, mode, sl, rl, true)
      case EndMark => Closing(i, mode, sl, rl, all)
      case FenceMark(bare) =>
        if bare && DiffSoFar(mode, rl) then Block("", Body(rl), i + 1, true, false)
          else BlockFrom(vs, start, i + 1, mode, sl, rl, all)
      case NoMark =>
        if vs[i].tool && DiffSoFar(mode, rl) then Block("", Body(rl), i, true, false)
        else if mode == InSearch then BlockFrom(vs, start, i + 1, mode, sl + [vs[i].text], rl, all)
        else BlockFrom(vs, start, i + 1, mode, sl, rl + [vs[i].text], all)
  }

  /** Whether a WRITE body that starts at `start` ends before line `i`, and if so where parsing goes on. */
  function WriteStop(vs: seq<View>, start: nat, i: nat): (r: Option<nat>)
    requires start <= i < |vs|
    ensures r.Some? ==> i <= r.value <= |vs|
  {
    if vs[i].writeEnd then Some(i + 1)
    else if vs[i].dash && i + 1 < |vs| && vs[i + 1].dashTail then Some(i + 2)
    else if vs[i].tool then Some(i)
    else if vs[i].bareFence && i > start then Some(i + 1)
    else None
  }

  /** Where the body ends, and where parsing goes on. */
  function WriteEnd(vs: seq<View>, start: nat, i: nat): (r: (nat, nat))
    requires start <= i <= |vs|
    ensures i <= r.0 <= r.1 <= |vs|
    decreases |vs| - i
  {
    if i == |vs| then (i, i)
    else match WriteStop(vs, start, i)
      case Some(next) => (i, next)
      case None => WriteEnd(vs, start, i + 1)
  }

  /** skipNativeEditBlock */
  function Skip(vs: seq<View>, i: nat): (r: nat)
    requires i <= |vs|
    ensures i <= r <= |vs|
    decreases |vs| - i
  {
    if i == |vs| || vs[i].resumes then i
    else if vs[i].pastMark then i + 1
    else Skip(vs, i + 1)
  }

  /** An accepted operation with the lines `from <= k < to` it was read from. */
  datatype Item = Item(op: Op, from: nat, to: nat)

  function EditItem(path: string, b: Block, from: nat): seq<Item> {
    if !b.ok || path == "" then []
    else if b.search == "" && !IsDiffBody(b.replace) then [Item(WriteOp(path, b.replace), from, b.next)]
    else [Item(EditOp(path, b.search, b.replace, b.all), from, b.next)]
  }

  function ReadItem(path: string, from: nat): seq<Item> {
    if path == "" then [] else [Item(ReadOp(path), from, from + 1)]
  }

  function WriteItem(vs: seq<View>, path: string, from: nat, e: (nat, nat)): seq<Item>
    requires from + 1 <= e.0 <= |vs|
  {
    if path == "" then [] else [Item(WriteOp(path, Join(Texts(vs[from + 1..e.0]), '\n')), from, e.1)]
  }

  /** What the parser makes of the header at line `i`: the operation, if any, and the next line to look at. */
  function At(vs: seq<View>, i: nat): (r: (seq<Item>, nat))
    requires i < |vs|
    ensures i < r.1 <= |vs|
  {
    match vs[i].head
    case NoHead => ([], i + 1)
    case Read(path) => (ReadItem(path, i), i + 1)
    case Edit(path, blocked) =>
      if blocked then ([], Skip(vs, i + 1))
      else
        var b := BlockFrom(vs, i + 1, i + 1, NoMode, [], [], false);
        (EditItem(path, b, i), b.next)
    case Write(path, blocked) =>
      if blocked then ([], i + 1)
      else
        var e := WriteEnd(vs, i + 1, i + 1);
        (WriteItem(vs, path, i, e), e.1)
  }

  function ParseFrom(vs: seq<View>, i: nat): seq<Item>
    requires i <= |vs|
    decreases |vs| - i
  {
    if i == |vs| then [] else At(vs, i).0 + ParseFrom(vs, At(vs, i).1)
  }

  function Ops(items: seq<Item>): (r: seq<Op>)
    ensures |r| == |items|
    decreases |items|
  {
    if items == [] then [] else [items[0].op] + Ops(items[1..])
  }

  function Parsed(cfg: Config, lines: seq<string>): seq<Op> {
    Ops(ParseFrom(Views(cfg, lines), 0))
  }

  /*** The loops, over lines already classified ***/

  method ParseNativeEditSearchReplace(vs: seq<View>, start: nat) returns (b: Block)
    requires start <= |vs|
    ensures b == BlockFrom(vs, start, start, NoMode, [], [], false)
  {
    var mode := NoMode;
    var searchLines: seq<string>, replaceLines: seq<string> := [], [];
    var replaceAll := false;
    for i := start to |vs|
      invariant BlockFrom(vs, start, i, mode, searchLines, replaceLines, replaceAll) ==
        BlockFrom(vs, start, start, NoMode, [], [], false)
    {
      match vs[i].mark
      case SearchMark =>
        mode := InSearch;
      case DividerMark =>
        if mode != InSearch {
          return Block("", "", i + 1, false, false);
        }
        mode := InReplace;
      case AllMark =>
        replaceAll := true;
      case EndMark =>
        return Closing(i, mode, searchLines, replaceLines, replaceAll);
      case FenceMark(bare) =>
        if bare && DiffSoFar(mode, replaceLines) {
          return Block("", Body(replaceLines), i + 1, true, false);
        }
      case NoMark =>
        if vs[i].tool && DiffSoFar(mode, replaceLines) {
          return Block("", Body(replaceLines), i, true, false);
        }
        if mode == InSearch {
          searchLines := searchLines + [vs[i].text];
        } else {
          replaceLines := replaceLines + [vs[i].text];
        }
    }
    if DiffSoFar(mode, replaceLines) {
      return Block("", Body(replaceLines), |vs|, true, false);
    }
    b := Block("", "", start, false, false);
  }

  lemma {:induction false} TextsSnoc(vs: seq<View>, v: View)
    ensures Texts(vs + [v]) == Texts(vs) + [v.text]
    decreases |vs|
  {
    if vs == [] {
      assert vs + [v] == [v] && [v][1..] == [];
    } else {
      TextsSnoc(vs[1..], v);
      assert (vs + [v])[1..] == vs[1..] + [v];
    }
  }

  lemma {:induction false} TextsUpTo(vs: seq<View>, start: nat, i: nat)
    requires start <= i < |vs|
    ensures Texts(vs[start..i + 1]) == Texts(vs[start..i]) + [vs[i].text]
  {
    TextsSnoc(vs[start..i], vs[i]);
    assert vs[start..i + 1] == vs[start..i] + [vs[i]];
  }

  /** parseNativeWriteBody */
  method ParseNativeWriteBody(vs: seq<View>, start: nat) returns (content: string, next: nat)
    requires start <= |vs|
    ensures var e := WriteEnd(vs, start, start); content == Join(Texts(vs[start..e.0]), '\n') && next == e.1
  {
    var body: seq<string> := [];
    assert vs[start..start] == [];
    for i := start to |vs|
      invariant body == Texts(vs[start..i])
      invariant WriteEnd(vs, start, start) == WriteEnd(vs, start, i)
    {
      if vs[i].writeEnd {
        return Join(body, '\n'), i + 1;
      }
      if vs[i].dash && i + 1 < |vs| && vs[i + 1].dashTail {
        return Join(body, '\n'), i + 2;
      }
      if vs[i].tool {
        return Join(body, '\n'), i;
      }
      if vs[i].bareFence && |body| > 0 {
        return Join(body, '\n'), i + 1;
      }
      TextsUpTo(vs, start, i);
      body := body + [vs[i].text];
    }
    return Join(body, '\n'), |vs|;
  }

  method SkipNativeEditBlock(vs: seq<View>, start: nat) returns (r: nat)
    requires start <= |vs|
    ensures r == Skip(vs, start)
  {
    for i := start to |vs|
      invariant Skip(vs, i) == Skip(vs, start)
    {
      if vs[i].resumes {
        return i;
      }
      if vs[i].pastMark {
        return i + 1;
      }
    }
    return |vs|;
  }

  lemma {:induction false} ParseStep(vs: seq<View>, i: nat, found: seq<Item>, next: nat, items: seq<Item>)
    requires i < |vs| && (found, next) == At(vs, i)
    ensures i < next <= |vs| && items + ParseFrom(vs, i) == items + found + ParseFrom(vs, next)
  {
    assert items + (found + ParseFrom(vs, next)) == items + found + ParseFrom(vs, next);
  }

  method ParseHeader(vs: seq<View>, i: nat) returns (items: seq<Item>, next: nat)
    requires i < |vs|
    ensures (items, next) == At(vs, i)
  {
    items, next := [], i + 1;
    match vs[i].head
    case NoHead =>
    case Read(path) =>
      if path != "" {
        items := [Item(ReadOp(path), i, next)];
      }
    case Edit(path, blocked) =>
      if blocked {
        next := SkipNativeEditBlock(vs, i + 1);
      } else {
        var b := ParseNativeEditSearchReplace(vs, i + 1);
        if b.ok && path != "" {
          if b.search == "" && !IsDiffBody(b.replace) {
            items := [Item(WriteOp(path, b.replace), i, b.next)];
          } else {
            items := [Item(EditOp(path, b.search, b.replace, b.all), i, b.next)];
          }
        }
        next := b.next;
      }
    case Write(path, blocked) =>
      if !blocked {
        var content;
        content, next := ParseNativeWriteBody(vs, i + 1);
        if path != "" {
          items := [Item(WriteOp(path, content), i, next)];
        }
      }
  }

  method ParseNativeEdits(vs: seq<View>) returns (items: seq<Item>)
    ensures items == ParseFrom(vs, 0)
  {
    items := [];
    var i := 0;
    while i < |vs|
      invariant 0 <= i <= |vs|
      invariant ParseFrom(vs, 0) == items + ParseFrom(vs, i)
    {
      var found, next := ParseHeader(vs, i);
      ParseStep(vs, i, found, next, items);
      items := items + found;
      i := next;
    }
    assert items + [] == items;
  }
}
