/** Applying a multi-hunk patch to a file (applyUnifiedDiffPatch), and undoing it with inverted hunks. */
module DiffApply {
  import opened Text
  import opened TextTrim
  import opened FileSanitize
  import opened DiffPatch
  import opened DiffHunks
  import opened LineCounts

  /*** Splitting a patch into hunks ***/

  predicate IsCrLf(c: char) {
    c == '\r' || c == '\n'
  }

  /** strings.Split with a separator of several characters. */
  function SplitOn(s: string, sep: string): (parts: seq<string>)
    requires sep != ""
    ensures |parts| >= 1
  {
    if s == "" then [""]
    else if HasPrefix(s, sep) then [""] + SplitOn(s[|sep|..], sep)
    else
      var rest := SplitOn(s[1..], sep);
      [[s[0]] + rest[0]] + rest[1..]
  }

  function KeepHunks(parts: seq<string>): seq<string>
    decreases |parts|
  {
    if parts == [] then []
    else
      var part := Trim(parts[0], IsCrLf);
      (if TrimSpace(part) == "" then [] else [part]) + KeepHunks(parts[1..])
  }

  function Scrubbed(diff: string): string {
    Trim(ReplaceAll(diff, "*** End of File ***", ""), IsCrLf)
  }

  function Hunks(scrubbed: string): seq<string> {
    if Contains(scrubbed, "@@") then KeepHunks(SplitOn(scrubbed, "@@")) else [scrubbed]
  }

  /*** Applying hunks in turn ***/

  /** One hunk; a hunk with two empty blocks, such as a lone header, changes nothing. */
  function ApplyHunk(content: string, hunk: string): Result {
    var b := Extract(hunk);
    if b.before == "" && b.after == "" then Done(content) else Swap(content, b.before, b.after)
  }

  function ApplyHunks(content: string, hunks: seq<string>): Result
    decreases |hunks|
  {
    if hunks == [] then Done(content)
    else match ApplyHunk(content, hunks[0])
      case Failed(e) => Failed(e)
      case Done(text) => ApplyHunks(text, hunks[1..])
  }

  function Patch(content: string, scrubbed: string): Result {
    match ApplyHunks(content, Hunks(scrubbed))
    case Failed(e) => Failed(e)
    case Done(text) => if text == content then Failed(NoChange) else Done(text)
  }

  /** What the disk does with a write: it may also fail half way and leave something else behind. */
  datatype Write = Written | Refused | Torn(left: string)

  method KeepParts(parts: seq<string>) returns (hunks: seq<string>)
    ensures hunks == KeepHunks(parts)
  {
    hunks := [];
    for i := 0 to |parts|
      invariant KeepHunks(parts) == hunks + KeepHunks(parts[i..])
    {
      KeepStep(parts, i, hunks);
      var part := Trim(parts[i], IsCrLf);
      if TrimSpace(part) != "" {
        hunks := hunks + [part];
      }
    }
    assert parts[|parts|..] == [];
    assert hunks + [] == hunks;
  }

  lemma {:induction false} KeepStep(parts: seq<string>, i: nat, hunks: seq<string>)
    requires i < |parts|
    ensures var part := Trim(parts[i], IsCrLf);
      hunks + KeepHunks(parts[i..]) ==
        (if TrimSpace(part) == "" then hunks else hunks + [part]) + KeepHunks(parts[i + 1..])
  {
    assert parts[i..][1..] == parts[i + 1..];
    var part := Trim(parts[i], IsCrLf);
    assert hunks + ([part] + KeepHunks(parts[i + 1..])) == hunks + [part] + KeepHunks(parts[i + 1..]);
  }

  method SplitHunks(scrubbed: string) returns (hunks: seq<string>)
    ensures hunks == Hunks(scrubbed)
  {
    if Contains(scrubbed, "@@") {
      var parts := SplitOn(scrubbed, "@@");
      hunks := KeepParts(parts);
    } else {
      hunks := [scrubbed];
    }
  }

  method ApplyAll(content: string, hunks: seq<string>) returns (r: Result)
    ensures r == ApplyHunks(content, hunks) && (r.Failed? ==> r.error == NotFound || r.error.Ambiguous?)
  {
    var patched := content;
    for i := 0 to |hunks|
      invariant ApplyHunks(content, hunks) == ApplyHunks(patched, hunks[i..])
    {
      assert hunks[i..][1..] == hunks[i + 1..];
      var b := ExtractSearchReplace(hunks[i]);
      if b.before != "" || b.after != "" {
        var count := Count(patched, b.before);
        if count == 0 {
          return Failed(NotFound);
        }
        if count > 1 {
          return Failed(Ambiguous(count));
        }
        patched := ReplaceFirst(patched, b.before, b.after);
      }
    }
    assert hunks[|hunks|..] == [];
    r := Done(patched);
  }

  class DiskFile {
    var text: string

    /** The patched text is built in memory; the file is written once, at the end. Failing before that write
        leaves the file alone, and a completed write leaves exactly the text with all hunks applied. */
    method ApplyUnifiedDiffPatch(diff: string, readable: bool, write: Write) returns (r: Result)
      modifies this
      ensures r.Done? ==> text == r.text && Patch(old(text), Scrubbed(diff)) == r
      ensures r.Failed? && r.error != WriteFailed ==> text == old(text)
      ensures r == Failed(WriteFailed) ==> text == (if write.Torn? then write.left else old(text))
      ensures r == Failed(WriteFailed) <==>
        !write.Written? && readable && TrimSpace(Scrubbed(diff)) != "" && Patch(old(text), Scrubbed(diff)).Done?
      ensures TrimSpace(Scrubbed(diff)) == "" ==> r == Failed(EmptyDiff)
      ensures TrimSpace(Scrubbed(diff)) != "" && !readable ==> r == Failed(Unreadable)
      ensures TrimSpace(Scrubbed(diff)) != "" && readable && r != Failed(WriteFailed) ==>
        r == Patch(old(text), Scrubbed(diff))
    {
      var scrubbed := Scrubbed(diff);
      if TrimSpace(scrubbed) == "" {
        return Failed(EmptyDiff);
      }
      if !readable {
        return Failed(Unreadable);
      }
      var hunks := SplitHunks(scrubbed);
      var applied := ApplyAll(text, hunks);
      if applied.Failed? {
        return applied;
      }
      var patched := applied.text;
      if patched == text {
        return Failed(NoChange);
      }
      match write
      case Written =>
        text := patched;
        return Done(patched);
      case Refused =>
        return Failed(WriteFailed);
      case Torn(left) =>
        text := left;
        return Failed(WriteFailed);
    }
  }

  /*** Cutting at marks ***/

  const AT := "@@"

  lemma {:induction false} NoMarkInTail(x: string)
    requires x != "" && !Contains(x, AT)
    ensures !Contains(x[1..], AT) && !HasPrefix(x, AT)
  {
    ContainsTail(x, AT);
  }

  /** No mark in `x`, nor one that begins with its last character. */
  predicate AtFree(x: string) {
    !Contains(x, AT) && (x != "" ==> x[|x| - 1] != '@')
  }

  lemma {:induction false} AtFreeTail(x: string)
    requires x != "" && AtFree(x)
    ensures AtFree(x[1..]) && !HasPrefix(x, AT)
  {
    NoMarkInTail(x);
    assert x[1..] != "" ==> x[1..][|x| - 2] == x[|x| - 1];
  }

  lemma {:induction false} NoPrefixInside(x: string, rest: string)
    requires x != "" && !HasPrefix(x, AT) && x[|x| - 1] != '@'
    ensures !HasPrefix(x + rest, AT)
  {
    var s := x + rest;
    if |x| >= 2 {
      assert s[..2] == x[..2];
    } else {
      assert s[0] == x[0] != '@';
    }
  }

  lemma {:induction false} SplitOnPeel(x: string, rest: string)
    requires AtFree(x)
    ensures SplitOn(x + AT + rest, AT) == [x] + SplitOn(rest, AT)
  {
    var s := x + AT + rest;
    if x == "" {
      assert s == AT + rest;
      assert s[..2] == AT && s[2..] == rest;
    } else {
      AtFreeTail(x);
      NoPrefixInside(x, AT + rest);
      assert s == x + (AT + rest);
      assert s[1..] == x[1..] + AT + rest;
      SplitOnPeel(x[1..], rest);
      assert [x[0]] + x[1..] == x;
    }
  }

  lemma {:induction false} SplitOnLast(x: string)
    requires !Contains(x, AT)
    ensures SplitOn(x, AT) == [x]
  {
    if x == "" {
    } else {
      NoMarkInTail(x);
      SplitOnLast(x[1..]);
      assert [x[0]] + x[1..] == x;
    }
  }

  /** Parts that stay apart when they are written with a mark in front of each. */
  predicate Separable(parts: seq<string>)
    decreases |parts|
  {
    parts == [] || (if |parts| == 1 then !Contains(parts[0], AT) else AtFree(parts[0]) && Separable(parts[1..]))
  }

  function JoinAt(parts: seq<string>): string
    decreases |parts|
  {
    if parts == [] then "" else AT + (parts[0] + JoinAt(parts[1..]))
  }

  lemma {:induction false} SplitJoinAt(parts: seq<string>)
    requires parts != [] && Separable(parts)
    ensures SplitOn(parts[0] + JoinAt(parts[1..]), AT) == parts
    decreases |parts|
  {
    if |parts| == 1 {
      assert parts[1..] == [] && parts[0] + "" == parts[0];
      SplitOnLast(parts[0]);
    } else {
      var next := parts[1..];
      var rest := next[0] + JoinAt(next[1..]);
      assert parts[0] + JoinAt(next) == parts[0] + AT + rest;
      SplitOnPeel(parts[0], rest);
      SplitJoinAt(next);
      assert parts == [parts[0]] + next;
    }
  }

  lemma {:induction false} SplitMarked(parts: seq<string>)
    requires parts != [] && Separable(parts)
    ensures Contains(JoinAt(parts), AT) && SplitOn(JoinAt(parts), AT) == [""] + parts
  {
    var text, rest := JoinAt(parts), parts[0] + JoinAt(parts[1..]);
    ContainsByParts("", AT, rest);
    assert text == "" + AT + rest;
    NothingInEmpty();
    SplitOnPeel("", rest);
    SplitJoinAt(parts);
  }

  lemma {:induction false} NothingInEmpty()
    ensures AtFree("")
  {
    assert forall i :: 0 <= i <= 0 ==> !OccursAt("", AT, i);
  }

  /** What is cut out of a patch holds no mark. */
  lemma {:induction false} PartsHoldNoMark(s: string, k: nat)
    requires k < |SplitOn(s, AT)|
    ensures !Contains(SplitOn(s, AT)[k], AT)
    ensures k == 0 && SplitOn(s, AT)[0] != "" ==> !HasPrefix(s, AT)
    ensures k == 0 && |SplitOn(s, AT)[0]| >= 2 ==> |s| >= 2 && SplitOn(s, AT)[0][..2] == s[..2]
    ensures k == 0 && SplitOn(s, AT)[0] != "" ==> s != "" && SplitOn(s, AT)[0][0] == s[0]
  {
    NothingInEmpty();
    if s == "" {
    } else if HasPrefix(s, AT) {
      if k > 0 {
        PartsHoldNoMark(s[2..], k - 1);
      }
    } else if k > 0 {
      PartsHoldNoMark(s[1..], k);
    } else {
      var first := SplitOn(s[1..], AT)[0];
      PartsHoldNoMark(s[1..], 0);
      ConsHoldsNoMark(s[0], first, s);
    }
  }

  lemma {:induction false} ConsHoldsNoMark(c: char, first: string, s: string)
    requires s != "" && s[0] == c && !HasPrefix(s, AT) && !Contains(first, AT)
    requires first != "" ==> |s| >= 2 && first[0] == s[1]
    ensures !Contains([c] + first, AT)
    ensures |[c] + first| >= 2 ==> |s| >= 2 && ([c] + first)[..2] == s[..2]
  {
    var x := [c] + first;
    ContainsTail(x, AT);
    assert x[1..] == first;
    if first != "" {
      assert x[..2] == [c, first[0]] == s[..2];
    }
  }

  /*** Printed patches ***/

  /** A hunk that can be cut out of a patch. */
  predicate Cuttable(h: string) {
    !Contains(h, AT) && Trimmed(h, IsCrLf) && TrimSpace(h) != ""
  }

  predicate AllCuttable(hunks: seq<string>) {
    forall i :: 0 <= i < |hunks| ==> Cuttable(hunks[i])
  }

  /** The range between the marks of a hunk, as in `@@ -1,3 +1,4 @@`. */
  predicate IsRange(r: string) {
    AtFree(r) && '\n' !in r && Trimmed(r, IsCrLf) && IsHeader(r)
  }

  /** One hunk of a printed patch: a mark with a range, or a bare mark; on the same line a section heading or nothing;
      and the hunk's lines below. */
  datatype Piece = Piece(range: string, section: string, hunk: string)
  {
    /** What is cut out for it. */
    function Text(): string {
      if section == "" then hunk else section + "\n" + hunk
    }

    function Lead(): string {
      if section == "" then "\n" else ""
    }
  }

  predicate RangesOk(pieces: seq<Piece>) {
    forall i :: 0 <= i < |pieces| ==> pieces[i].range == "" || IsRange(pieces[i].range)
  }

  function RangeParts(r: string): seq<string> {
    if r == "" then [] else [r]
  }

  function Part(p: Piece, last: bool): string {
    p.Lead() + p.Text() + (if last then "" else "\n")
  }

  /** The texts behind the `@@` marks of a patch. */
  function Parts(pieces: seq<Piece>): seq<string>
    decreases |pieces|
  {
    if pieces == [] then []
    else RangeParts(pieces[0].range) + ([Part(pieces[0], |pieces| == 1)] + Parts(pieces[1..]))
  }

  function PrintPatch(pieces: seq<Piece>): string {
    JoinAt(Parts(pieces))
  }

  function HunksOf(pieces: seq<Piece>): (r: seq<string>)
    ensures |r| == |pieces|
    decreases |pieces|
  {
    if pieces == [] then [] else [pieces[0].Text()] + HunksOf(pieces[1..])
  }

  /** What the cut makes of it: every range is a hunk of its own. */
  function WithRanges(pieces: seq<Piece>): seq<string>
    decreases |pieces|
  {
    if pieces == [] then [] else RangeParts(pieces[0].range) + ([pieces[0].Text()] + WithRanges(pieces[1..]))
  }

  lemma {:induction false} PiecesTail(pieces: seq<Piece>)
    requires pieces != [] && RangesOk(pieces)
    ensures RangesOk(pieces[1..])
    ensures AllCuttable(HunksOf(pieces)) ==> Cuttable(pieces[0].Text()) && AllCuttable(HunksOf(pieces[1..]))
  {
    assert forall i :: 0 <= i < |pieces[1..]| ==> pieces[1..][i] == pieces[i + 1];
    if AllCuttable(HunksOf(pieces)) {
      assert HunksOf(pieces)[0] == pieces[0].Text();
      assert forall i :: 0 <= i < |pieces| - 1 ==> HunksOf(pieces[1..])[i] == HunksOf(pieces)[i + 1];
    }
  }

  lemma {:induction false} NoMarkInBracket(lead: string, h: string, tail: string)
    requires !Contains(h, AT) && (lead == "" || lead == "\n") && (tail == "" || tail == "\n")
    ensures !Contains(lead + h + tail, AT)
  {
    var x := lead + h + tail;
    forall i | 0 <= i <= |x| ensures !OccursAt(x, AT, i) {
      if AT <= x[i..] {
        assert x[i] == x[i..][0] == '@' && x[i + 1] == x[i..][1] == '@';
        var j := i - |lead|;
        assert 0 <= j && j + 1 < |h| && h[j] == x[i] && h[j + 1] == x[i + 1];
        assert h[j..][..2] == AT;
        assert OccursAt(h, AT, j);
      }
    }
  }

  lemma {:induction false} PartIsFree(p: Piece, last: bool)
    requires Cuttable(p.Text())
    ensures !Contains(Part(p, last), AT) && (!last ==> AtFree(Part(p, last)))
  {
    NoMarkInBracket(p.Lead(), p.Text(), if last then "" else "\n");
    var x := Part(p, last);
    assert !last ==> x[|x| - 1] == '\n';
  }

  lemma {:induction false} SeparableCons(range: string, part: string, parts: seq<string>)
    requires (range == "" || AtFree(range)) && Separable(parts)
    requires if parts == [] then !Contains(part, AT) else AtFree(part)
    ensures Separable(RangeParts(range) + ([part] + parts))
  {
    var own := [part] + parts;
    assert own[1..] == parts;
    if range == "" {
      assert [] + own == own;
    } else {
      assert ([range] + own)[1..] == own;
    }
  }

  lemma {:induction false} PartsAreSeparable(pieces: seq<Piece>)
    requires RangesOk(pieces) && AllCuttable(HunksOf(pieces))
    ensures Separable(Parts(pieces))
    decreases |pieces|
  {
    if pieces == [] {
    } else {
      PiecesTail(pieces);
      PartsAreSeparable(pieces[1..]);
      PartIsFree(pieces[0], |pieces| == 1);
      assert Parts(pieces[1..]) == [] <==> |pieces| == 1;
      SeparableCons(pieces[0].range, Part(pieces[0], |pieces| == 1), Parts(pieces[1..]));
    }
  }

  lemma {:induction false} KeepOne(p: Piece, last: bool, parts: seq<string>)
    requires Cuttable(p.Text())
    ensures KeepHunks([Part(p, last)] + parts) == [p.Text()] + KeepHunks(parts)
  {
    TrimOf(p.Lead(), p.Text(), if last then "" else "\n", IsCrLf);
    assert ([Part(p, last)] + parts)[1..] == parts;
  }

  lemma {:induction false} HeaderIsText(r: string)
    requires IsHeader(r)
    ensures TrimSpace(r) != ""
  {
  }

  lemma {:induction false} KeepRange(r: string, parts: seq<string>)
    requires r == "" || IsRange(r)
    ensures KeepHunks(RangeParts(r) + parts) == RangeParts(r) + KeepHunks(parts)
  {
    if r == "" {
      assert [] + parts == parts && [] + KeepHunks(parts) == KeepHunks(parts);
    } else {
      TrimmedUnchanged(r, IsCrLf);
      HeaderIsText(r);
      assert ([r] + parts)[1..] == parts;
    }
  }

  lemma {:induction false} PartsAreKept(pieces: seq<Piece>)
    requires RangesOk(pieces) && AllCuttable(HunksOf(pieces))
    ensures KeepHunks(Parts(pieces)) == WithRanges(pieces)
    decreases |pieces|
  {
    if pieces == [] {
    } else {
      PiecesTail(pieces);
      PartsAreKept(pieces[1..]);
      var part := Part(pieces[0], |pieces| == 1);
      KeepOne(pieces[0], |pieces| == 1, Parts(pieces[1..]));
      KeepRange(pieces[0].range, [part] + Parts(pieces[1..]));
    }
  }

  lemma {:induction false} HunksOfCuttable(pieces: seq<Piece>)
    requires pieces != [] && RangesOk(pieces) && AllCuttable(HunksOf(pieces))
    ensures Hunks(PrintPatch(pieces)) == WithRanges(pieces)
  {
    var parts := Parts(pieces);
    PartsAreSeparable(pieces);
    PartsAreKept(pieces);
    SplitMarked(parts);
    assert ([""] + parts)[1..] == parts;
    assert Trim("", IsCrLf) == "" && TrimSpace("") == "";
    assert [] + KeepHunks(parts) == KeepHunks(parts);
  }

  lemma {:induction false} TrimHoldsNoMark(part: string)
    requires !Contains(part, AT)
    ensures !Contains(Trim(part, IsCrLf), AT) && Trimmed(Trim(part, IsCrLf), IsCrLf)
  {
    var a, b := TrimParts(part, IsCrLf);
    var t := Trim(part, IsCrLf);
    if Contains(t, AT) {
      ContainsByParts(a, t, b);
      ContainsTransitive(part, t, AT);
    }
  }

  predicate NoMarks(parts: seq<string>) {
    forall k :: 0 <= k < |parts| ==> !Contains(parts[k], AT)
  }

  lemma {:induction false} KeptAreCuttable(parts: seq<string>)
    requires NoMarks(parts)
    ensures AllCuttable(KeepHunks(parts))
    decreases |parts|
  {
    if parts == [] {
    } else {
      assert NoMarks(parts[1..]) by {
        assert forall k :: 0 <= k < |parts[1..]| ==> parts[1..][k] == parts[k + 1];
      }
      KeptAreCuttable(parts[1..]);
      TrimHoldsNoMark(parts[0]);
    }
  }

  /** Every hunk that is cut out of any text with a mark is cuttable. */
  lemma {:induction false} HunksAreCuttable(text: string)
    requires Contains(text, AT)
    ensures AllCuttable(Hunks(text))
  {
    var parts := SplitOn(text, AT);
    forall k | 0 <= k < |parts| ensures !Contains(parts[k], AT) {
      PartsHoldNoMark(text, k);
    }
    KeptAreCuttable(parts);
  }

  lemma {:induction false} TextsAmong(pieces: seq<Piece>, i: nat)
    requires i < |pieces|
    ensures HunksOf(pieces)[i] in WithRanges(pieces)
    decreases |pieces|
  {
    if i == 0 {
    } else {
      TextsAmong(pieces[1..], i - 1);
    }
  }

  lemma {:induction false} PrintedHasMark(pieces: seq<Piece>)
    requires pieces != []
    ensures Contains(PrintPatch(pieces), AT)
  {
    var parts := Parts(pieces);
    var rest := parts[0] + JoinAt(parts[1..]);
    ContainsByParts("", AT, rest);
    assert PrintPatch(pieces) == "" + AT + rest;
  }

  /** A printed patch is cut into exactly its hunks and their ranges if and only if every hunk, with the section heading
      above it, holds no mark, is not blank, and neither starts nor ends with a line break. */
  lemma {:induction false} HunksOfPrintedIff(pieces: seq<Piece>)
    requires pieces != [] && RangesOk(pieces)
    ensures Hunks(PrintPatch(pieces)) == WithRanges(pieces) <==> AllCuttable(HunksOf(pieces))
  {
    if AllCuttable(HunksOf(pieces)) {
      HunksOfCuttable(pieces);
    } else if Hunks(PrintPatch(pieces)) == WithRanges(pieces) {
      var i :| 0 <= i < |pieces| && !Cuttable(HunksOf(pieces)[i]);
      TextsAmong(pieces, i);
      PrintedHasMark(pieces);
      HunksAreCuttable(PrintPatch(pieces));
    }
  }

  /** A range on its own changes nothing. */
  lemma {:induction false} RangeChangesNothing(content: string, r: string)
    requires IsRange(r)
    ensures ApplyHunk(content, r) == Done(content)
  {
    SplitPeel(r, "", '\n');
    assert [r][1..] == [];
    assert Body([]) == "";
  }

  lemma {:induction false} RangeFirst(content: string, p: Piece, own: seq<string>)
    requires p.range == "" || IsRange(p.range)
    ensures ApplyHunks(content, RangeParts(p.range) + own) == ApplyHunks(content, own)
  {
    if p.range == "" {
      assert [] + own == own;
    } else {
      RangeChangesNothing(content, p.range);
      assert ([p.range] + own)[1..] == own;
    }
  }

  lemma {:induction false} RangesChangeNothing(content: string, pieces: seq<Piece>)
    requires RangesOk(pieces)
    ensures ApplyHunks(content, WithRanges(pieces)) == ApplyHunks(content, HunksOf(pieces))
    decreases |pieces|
  {
    if pieces == [] {
    } else {
      var p := pieces[0];
      var own := [p.Text()] + WithRanges(pieces[1..]);
      assert own[1..] == WithRanges(pieces[1..]) && HunksOf(pieces)[1..] == HunksOf(pieces[1..]);
      RangeFirst(content, p, own);
      if ApplyHunk(content, p.Text()).Done? {
        RangesChangeNothing(ApplyHunk(content, p.Text()).text, pieces[1..]);
      }
    }
  }

  lemma {:induction false} JoinAtAppend(a: seq<string>, b: seq<string>)
    ensures JoinAt(a + b) == JoinAt(a) + JoinAt(b)
    decreases |a|
  {
    if a == [] {
      assert a + b == b;
    } else {
      assert (a + b)[1..] == a[1..] + b;
      JoinAtAppend(a[1..], b);
    }
  }

  lemma {:induction false} JoinAtOne(part: string)
    ensures JoinAt([part]) == AT + part
  {
    assert [part][1..] == [];
  }

  lemma {:induction false} PrintCons(pieces: seq<Piece>)
    requires pieces != []
    ensures PrintPatch(pieces) ==
      JoinAt(RangeParts(pieces[0].range)) + (AT + Part(pieces[0], |pieces| == 1) + PrintPatch(pieces[1..]))
  {
    var part := Part(pieces[0], |pieces| == 1);
    JoinAtAppend(RangeParts(pieces[0].range), [part] + Parts(pieces[1..]));
    JoinAtAppend([part], Parts(pieces[1..]));
    JoinAtOne(part);
  }

  function LastChar(s: string): char
    requires s != ""
  {
    s[|s| - 1]
  }

  lemma {:induction false} EndOfAppend(a: string, b: string)
    requires b != ""
    ensures a + b != "" && LastChar(a + b) == LastChar(b)
  {
  }

  lemma {:induction false} OneEnds(p: Piece)
    requires p.Text() != ""
    ensures PrintPatch([p]) != "" && LastChar(PrintPatch([p])) == LastChar(p.Text())
  {
    PrintCons([p]);
    LastPartEnds(p);
    EndOfAppend(AT, Part(p, true));
    assert [p][1..] == [] && AT + Part(p, true) + "" == AT + Part(p, true);
    EndOfAppend(JoinAt(RangeParts(p.range)), AT + Part(p, true));
  }

  lemma {:induction false} MoreEnds(pieces: seq<Piece>, rest: string)
    requires |pieces| > 1 && rest == PrintPatch(pieces[1..]) && rest != ""
    ensures PrintPatch(pieces) != "" && LastChar(PrintPatch(pieces)) == LastChar(rest)
  {
    PrintCons(pieces);
    var part := Part(pieces[0], false);
    EndOfAppend(AT + part, rest);
    EndOfAppend(JoinAt(RangeParts(pieces[0].range)), AT + part + rest);
  }

  lemma {:induction false} PrintEnds(pieces: seq<Piece>, p: Piece)
    requires pieces != [] && pieces[|pieces| - 1] == p && p.Text() != ""
    ensures PrintPatch(pieces) != "" && LastChar(PrintPatch(pieces)) == LastChar(p.Text())
    decreases |pieces|
  {
    if |pieces| == 1 {
      assert pieces == [p];
      OneEnds(p);
    } else {
      PrintEnds(pieces[1..], p);
      MoreEnds(pieces, PrintPatch(pieces[1..]));
    }
  }

  lemma {:induction false} LastPartEnds(p: Piece)
    requires p.Text() != ""
    ensures Part(p, true) != "" && LastChar(Part(p, true)) == LastChar(p.Text())
  {
    EndOfAppend(p.Lead(), p.Text());
    assert Part(p, true) == p.Lead() + p.Text();
  }

  lemma {:induction false} PrintStarts(pieces: seq<Piece>)
    requires pieces != []
    ensures PrintPatch(pieces) != "" && PrintPatch(pieces)[0] == '@'
  {
    var parts := Parts(pieces);
    assert JoinAt(parts) == AT + (parts[0] + JoinAt(parts[1..]));
  }

  lemma {:induction false} TextAt(pieces: seq<Piece>, i: nat)
    requires i < |pieces|
    ensures HunksOf(pieces)[i] == pieces[i].Text()
    decreases |pieces|
  {
    if i == 0 {
    } else {
      TextAt(pieces[1..], i - 1);
    }
  }

  lemma {:induction false} CuttableEnds(h: string)
    requires Cuttable(h)
    ensures h != "" && !IsCrLf(h[|h| - 1])
  {
    assert TrimSpace("") == "";
  }

  lemma {:induction false} PrintedIsTrimmed(pieces: seq<Piece>)
    requires pieces != [] && AllCuttable(HunksOf(pieces))
    ensures Trimmed(PrintPatch(pieces), IsCrLf)
  {
    var p := pieces[|pieces| - 1];
    TextAt(pieces, |pieces| - 1);
    CuttableEnds(p.Text());
    PrintStarts(pieces);
    PrintEnds(pieces, p);
  }

  /** Scrubbing leaves a printed patch alone unless it holds the end-of-file phrase. */
  lemma {:induction false} ScrubbedPrinted(pieces: seq<Piece>)
    requires pieces != [] && AllCuttable(HunksOf(pieces)) && !Contains(PrintPatch(pieces), "*** End of File ***")
    ensures Scrubbed(PrintPatch(pieces)) == PrintPatch(pieces)
  {
    var text := PrintPatch(pieces);
    PrintedIsTrimmed(pieces);
    ReplaceAllAbsent(text, "*** End of File ***", "");
    TrimmedUnchanged(text, IsCrLf);
  }

  /** Patching with a printed patch applies exactly its hunks, ranges or not. */
  lemma {:induction false} PatchOfPrinted(content: string, pieces: seq<Piece>)
    requires pieces != [] && RangesOk(pieces) && AllCuttable(HunksOf(pieces))
    ensures Patch(content, PrintPatch(pieces)) ==
      match ApplyHunks(content, HunksOf(pieces))
      case Failed(e) => Failed(e)
      case Done(text) => if text == content then Failed(NoChange) else Done(text)
  {
    HunksOfPrintedIff(pieces);
    RangesChangeNothing(content, pieces);
  }

  /** A section heading is read as one more context line of its hunk. */
  lemma {:induction false} SectionIsContext(p: Piece, heading: string, script: seq<Change>)
    requires p.section == " " + heading && p.hunk == HunkText(script) && script != []
    ensures p.Text() == HunkText([Keep(heading)] + script)
  {
    var longer := [Keep(heading)] + script;
    assert longer[1..] == script;
    JoinHead(" " + heading, PrintLines(script));
  }

  /** So the hunk is looked for right below the heading's line, wherever that line stands. */
  lemma {:induction false} SectionHunkApplies(content: string, p: Piece, heading: string, script: seq<Change>)
    requires p.section == " " + heading && p.hunk == HunkText(script) && script != []
    requires OneLiners([Keep(heading)] + script) && AllRecognised([Keep(heading)] + script) && !IsHeader(" " + heading)
    requires heading != ""
    ensures ApplyHunk(content, p.Text()) == Swap(content, Body([heading] + Old(script)), Body([heading] + New(script)))
    ensures ApplyHunk(content, p.Text()) != Failed(NotFound) <==> Contains(content, Body([heading] + Old(script)))
  {
    var longer := [Keep(heading)] + script;
    SectionIsContext(p, heading, script);
    ExtractsIff(longer);
    assert longer[1..] == script;
    assert Old(longer) == [heading] + Old(script) && New(longer) == [heading] + New(script);
    BodyHasText(heading, longer);
    FoundIff(content, Body(Old(longer)));
  }

  lemma {:induction false} BodyHasText(heading: string, longer: seq<Change>)
    requires OneLiners(longer) && longer != [] && longer[0] == Keep(heading) && heading != ""
    ensures Body(Old(longer)) != ""
  {
    PrintLinesFree(longer);
    BodyKeepsText(Old(longer));
    assert Split("", '\n') == [""] && [""][1..] == [] && LinesWithText("") == 0;
  }

  lemma {:induction false} FoundIff(content: string, block: string)
    ensures Count(content, block) != 0 <==> Contains(content, block)
  {
    CountPositive(content, block);
    FirstIsLeftmost(content, block);
  }

  /** A hunk that applies by itself is not found when it carries the heading of the function it stands in. */
  lemma {:induction false} HeadingHidesHunk(content: string, p: Piece)
    requires content == "f\n\nb" && p == Piece(" -3 +3 ", " f", HunkText([Delete("b"), Add("c")]))
    ensures ApplyHunk(content, p.Text()) == Failed(NotFound)
    ensures ApplyHunk(content, p.hunk).Done?
  {
    var script := [Delete("b"), Add("c")];
    assert script[1..] == [Add("c")] && script[1..][1..] == [];
    assert Old(script) == ["b"];
    assert [Keep("f")] + script == [Keep("f"), Delete("b"), Add("c")];
    HeadingRecognised("f", [Keep("f")] + script);
    SectionHunkApplies(content, p, "f", script);
    PlainApplies(content, script);
    TwoLines("f", "b");
    HeadingNotFound(content, "f\nb");
  }

  lemma {:induction false} TrimNoLonger(l: string)
    ensures |TrimSpace(l)| <= |l|
  {
    var a, b := TrimParts(l, IsSpace);
  }

  /** Too short to be a file header or a marker. */
  lemma {:induction false} ShortRecognised(c: Change)
    requires |c.line| <= 2
    ensures Recognised(c)
  {
    TrimNoLonger(LineOf(c));
  }

  lemma {:induction false} HeadingRecognised(heading: string, longer: seq<Change>)
    requires heading == "f" && longer == [Keep(heading), Delete("b"), Add("c")]
    ensures OneLiners(longer) && AllRecognised(longer) && !IsHeader(" " + heading)
  {
    ShortRecognised(longer[0]);
    ShortRecognised(longer[1]);
    ShortRecognised(longer[2]);
    TrimOf(" ", heading, "", IsSpace);
    assert " " + heading + "" == " " + heading;
  }

  lemma {:induction false} DeletionIsNoHeader(l: string)
    requires l == "b"
    ensures !IsHeader("-" + l)
  {
    var line := "-" + l;
    assert line[0] == '-' && line[1] == 'b';
    TrimmedUnchanged(line, IsSpace);
  }

  lemma {:induction false} HeadingNotFound(content: string, block: string)
    requires content == "f\n\nb" && block == "f\nb"
    ensures !Contains(content, block)
  {
    forall i | 0 <= i <= |content| ensures !OccursAt(content, block, i) {
      assert i + 3 <= |content| ==> content[i..][0] == content[i] && content[i..][1] == content[i + 1];
      assert i + 3 <= |content| ==> content[i..][2] == content[i + 2];
    }
  }

  lemma {:induction false} TwoLines(a: string, b: string)
    requires a == "f" && b == "b"
    ensures Body([a] + [b]) == "f\nb" && Body([b]) == "b"
  {
    assert [b][1..] == [] && Join([b], '\n') == b;
    JoinHead(a, [b]);
    assert a + (['\n'] + b) == "f\nb";
  }

  lemma {:induction false} PlainApplies(content: string, script: seq<Change>)
    requires content == "f\n\nb" && script == [Delete("b"), Add("c")] && Old(script) == ["b"]
    ensures ApplyHunk(content, HunkText(script)).Done?
  {
    PlainExtracts(script, "b", "c");
    TwoLines("f", "b");
    SwapOnce(content, HunkText(script), "b");
  }

  lemma {:induction false} PlainExtracts(script: seq<Change>, b: string, c: string)
    requires b == "b" && c == "c" && script == [Delete(b), Add(c)]
    ensures Extract(HunkText(script)) == ScriptBlocks(script)
  {
    ShortRecognised(script[0]);
    ShortRecognised(script[1]);
    DeletionIsNoHeader(b);
    ExtractsIff(script);
  }

  lemma {:induction false} SwapOnce(content: string, hunk: string, b: string)
    requires content == "f\n\nb" && b == "b" && Extract(hunk).before == b
    ensures ApplyHunk(content, hunk).Done?
  {
    CountOnce(content, b);
  }

  lemma {:induction false} CountOnce(content: string, p: string)
    requires content == "f\n\nb" && p == "b"
    ensures Count(content, p) == 1
  {
    var s1, s2, s3 := content[1..], content[2..], content[3..];
    assert content[0] != p[0] && s1[0] != p[0] && s2[0] != p[0];
    assert s1[1..] == s2 && s2[1..] == s3 && s3 == p && p[1..] == "";
    assert Count(s3, p) == 1 + Count("", p);
    assert Count(s2, p) == Count(s3, p);
    assert Count(s1, p) == Count(s2, p);
  }

  /*** Undoing ***/

  function Invert(script: seq<Change>): (r: seq<Change>)
    ensures |r| == |script|
    decreases |script|
  {
    if script == [] then []
    else
      (match script[0]
       case Keep(l) => [Keep(l)]
       case Delete(l) => [Add(l)]
       case Add(l) => [Delete(l)]) + Invert(script[1..])
  }

  lemma {:induction false} InvertSwapsSides(script: seq<Change>)
    ensures Old(Invert(script)) == New(script) && New(Invert(script)) == Old(script)
    decreases |script|
  {
    if script == [] {
    } else {
      InvertSwapsSides(script[1..]);
      assert Invert(script)[1..] == Invert(script[1..]);
    }
  }

  lemma {:induction false} InvertOneLiners(script: seq<Change>)
    requires OneLiners(script)
    ensures OneLiners(Invert(script))
    decreases |script|
  {
    if script == [] {
    } else {
      Tails(script);
      InvertOneLiners(script[1..]);
    }
  }

  /** Reads back as its own blocks, both as printed and inverted. */
  predicate Clear(script: seq<Change>) {
    && script != [] && OneLiners(script) && AllRecognised(script) && !IsHeader(LineOf(script[0]))
    && AllRecognised(Invert(script)) && !IsHeader(LineOf(Invert(script)[0]))
  }

  /** The new block occurs once, and first where the old block stood. */
  predicate LandsAlone(content: string, script: seq<Change>) {
    var b := ScriptBlocks(script);
    && Swap(content, b.before, b.after).Done?
    && var updated := Swap(content, b.before, b.after).text;
       Count(updated, b.after) == 1 && First(updated, b.after) == First(content, b.before)
  }

  /** Applying a hunk and then its inversion restores the content
      if and only if the new block occurs once and first where the old block stood. */
  lemma {:induction false} UndoHunkIff(content: string, script: seq<Change>, updated: string)
    requires Clear(script) && ScriptBlocks(script) != Blocks("", "")
    requires ApplyHunk(content, HunkText(script)) == Done(updated)
    ensures ApplyHunk(updated, HunkText(Invert(script))) == Done(content) <==> LandsAlone(content, script)
  {
    ExtractsIff(script);
    InvertOneLiners(script);
    ExtractsIff(Invert(script));
    InvertSwapsSides(script);
    var b := ScriptBlocks(script);
    SwapBackIff(content, b.before, b.after);
  }

  function Texts(scripts: seq<seq<Change>>): (r: seq<string>)
    ensures |r| == |scripts|
    decreases |scripts|
  {
    if scripts == [] then [] else [HunkText(scripts[0])] + Texts(scripts[1..])
  }

  /** The inverted hunks, last one first. */
  function UndoTexts(scripts: seq<seq<Change>>): seq<string>
    decreases |scripts|
  {
    if scripts == [] then [] else UndoTexts(scripts[1..]) + [HunkText(Invert(scripts[0]))]
  }

  /** Every hunk applies, in turn, and lands alone. */
  predicate AllLandAlone(content: string, scripts: seq<seq<Change>>)
    decreases |scripts|
  {
    scripts != [] ==>
      && Clear(scripts[0]) && ScriptBlocks(scripts[0]) != Blocks("", "") && LandsAlone(content, scripts[0])
      && ApplyHunk(content, HunkText(scripts[0])).Done?
      && AllLandAlone(ApplyHunk(content, HunkText(scripts[0])).text, scripts[1..])
  }

  lemma {:induction false} ApplyAppend(content: string, a: seq<string>, b: seq<string>)
    ensures ApplyHunks(content, a + b) ==
      match ApplyHunks(content, a) case Failed(e) => Failed(e) case Done(text) => ApplyHunks(text, b)
    decreases |a|
  {
    if a == [] {
      assert a + b == b;
    } else {
      assert (a + b)[1..] == a[1..] + b;
      if ApplyHunk(content, a[0]).Done? {
        ApplyAppend(ApplyHunk(content, a[0]).text, a[1..], b);
      }
    }
  }

  lemma {:induction false} ApplyOne(content: string, h: string)
    ensures ApplyHunks(content, [h]) == ApplyHunk(content, h)
  {
    assert [h][1..] == [];
  }

  /** A whole patch is undone by its inverted hunks in reverse order. */
  lemma {:induction false} UndoPatch(content: string, scripts: seq<seq<Change>>)
    requires AllLandAlone(content, scripts)
    ensures ApplyHunks(content, Texts(scripts)).Done?
    ensures ApplyHunks(ApplyHunks(content, Texts(scripts)).text, UndoTexts(scripts)) == Done(content)
    decreases |scripts|
  {
    if scripts == [] {
    } else {
      var h, u := HunkText(scripts[0]), HunkText(Invert(scripts[0]));
      var next := ApplyHunk(content, h).text;
      assert Texts(scripts)[1..] == Texts(scripts[1..]);
      UndoPatch(next, scripts[1..]);
      var final := ApplyHunks(next, Texts(scripts[1..])).text;
      ApplyAppend(final, UndoTexts(scripts[1..]), [u]);
      ApplyOne(next, u);
      UndoHunkIff(content, scripts[0], next);
    }
  }

  /** So a printed patch that changes the content is undone by the printed patch of its inverted hunks in reverse
      order, whatever ranges the two patches carry. */
  lemma {:induction false} PrintedPatchUndone(content: string, scripts: seq<seq<Change>>, pieces: seq<Piece>,
                                              undo: seq<Piece>)
    requires AllLandAlone(content, scripts) && scripts != [] && RangesOk(pieces) && RangesOk(undo)
    requires AllCuttable(Texts(scripts)) && AllCuttable(UndoTexts(scripts))
    requires HunksOf(pieces) == Texts(scripts) && HunksOf(undo) == UndoTexts(scripts)
    requires ApplyHunks(content, Texts(scripts)) != Done(content)
    ensures Patch(content, PrintPatch(pieces)).Done?
    ensures Patch(Patch(content, PrintPatch(pieces)).text, PrintPatch(undo)) == Done(content)
  {
    UndoPatch(content, scripts);
    assert pieces != [] && undo != [];
    PatchOfPrinted(content, pieces);
    PatchOfPrinted(ApplyHunks(content, Texts(scripts)).text, undo);
  }
}
