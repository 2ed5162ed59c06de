/** Diff hunks: how a hunk splits into an old and a new block (extractSearchReplaceFromDiffHunk). */
module DiffHunks {
  import opened Text
  import opened TextTrim
  import opened FileSanitize
  import opened DiffPatch
  import opened LineCounts

  /*** extractSearchReplaceFromDiffHunk ***/

  datatype Kind = Stop | Skip | Removed(line: string) | Added(line: string) | Both(line: string)

  function KindOf(l: string): Kind {
    var t := TrimSpace(l);
    if HasPrefix(t, ">>>>>>> REPLACE") || HasPrefix(t, ">>>>>>>REPLACE") then Stop
    else if HasPrefix(t, "--- ") || HasPrefix(t, "+++ ") then Skip
    else if l != "" && l[0] == '-' then Removed(l[1..])
    else if l != "" && l[0] == '+' then Added(l[1..])
    else if l != "" && l[0] == ' ' then Both(l[1..])
    else Both(l)
  }

  function Kinds(ls: seq<string>): (r: seq<Kind>)
    ensures |r| == |ls|
    decreases |ls|
  {
    if ls == [] then [] else [KindOf(ls[0])] + Kinds(ls[1..])
  }

  /** The lines of the old block, up to a stray REPLACE marker. */
  function OldSide(ks: seq<Kind>): seq<string>
    decreases |ks|
  {
    if ks == [] || ks[0].Stop? then []
    else (if ks[0].Removed? || ks[0].Both? then [ks[0].line] else []) + OldSide(ks[1..])
  }

  function NewSide(ks: seq<Kind>): seq<string>
    decreases |ks|
  {
    if ks == [] || ks[0].Stop? then []
    else (if ks[0].Added? || ks[0].Both? then [ks[0].line] else []) + NewSide(ks[1..])
  }

  /** A first line taken for a hunk header: `@@`, or a minus sign and a digit as in `-1,3 +1,4`. */
  predicate IsHeader(l: string) {
    var t := TrimSpace(l);
    HasPrefix(t, "@@") || (|t| > 1 && t[0] == '-' && '0' <= t[1] <= '9')
  }

  function DropHeader(ls: seq<string>): seq<string> {
    if |ls| > 0 && IsHeader(ls[0]) then ls[1..] else ls
  }

  datatype Blocks = Blocks(before: string, after: string)

  function SidesOf(ks: seq<Kind>): Blocks {
    Blocks(Body(OldSide(ks)), Body(NewSide(ks)))
  }

  function Extract(hunk: string): Blocks {
    SidesOf(Kinds(DropHeader(Split(hunk, '\n'))))
  }

  method ExtractSearchReplace(hunk: string) returns (b: Blocks)
    ensures b == Extract(hunk)
  {
    var split := Split(hunk, '\n');
    b := CollectSides(Kinds(DropHeader(split)));
  }

  method CollectSides(ks: seq<Kind>) returns (b: Blocks)
    ensures b == SidesOf(ks)
  {
    var searchLines: seq<string>, replaceLines: seq<string> := [], [];
    var i := 0;
    while i < |ks| && !ks[i].Stop?
      invariant 0 <= i <= |ks|
      invariant OldSide(ks) == searchLines + OldSide(ks[i..])
      invariant NewSide(ks) == replaceLines + NewSide(ks[i..])
      decreases |ks| - i
    {
      SidesStep(ks, i, searchLines, replaceLines);
      match ks[i] {
        case Skip =>
        case Removed(l) => searchLines := searchLines + [l];
        case Added(l) => replaceLines := replaceLines + [l];
        case Both(l) => searchLines, replaceLines := searchLines + [l], replaceLines + [l];
      }
      i := i + 1;
    }
    assert OldSide(ks[i..]) == [] && NewSide(ks[i..]) == [];
    assert searchLines + [] == searchLines && replaceLines + [] == replaceLines;
    b := Blocks(Body(searchLines), Body(replaceLines));
  }

  lemma {:induction false} SidesStep(ks: seq<Kind>, k: nat, sl: seq<string>, rl: seq<string>)
    requires k < |ks|
    ensures ks[k].Stop? ==> OldSide(ks[k..]) == [] && NewSide(ks[k..]) == []
    ensures !ks[k].Stop? ==>
      && sl + OldSide(ks[k..]) == (if ks[k].Removed? || ks[k].Both? then sl + [ks[k].line] else sl) +
        OldSide(ks[k + 1..])
      && rl + NewSide(ks[k..]) == (if ks[k].Added? || ks[k].Both? then rl + [ks[k].line] else rl) + NewSide(ks[k + 1..])
  {
    assert ks[k..][1..] == ks[k + 1..] && ks[k..][0] == ks[k];
    if !ks[k].Stop? && !ks[k].Skip? {
      Collect(sl, ks[k].line, OldSide(ks[k + 1..]));
      Collect(rl, ks[k].line, NewSide(ks[k + 1..]));
    }
    assert [] + OldSide(ks[k + 1..]) == OldSide(ks[k + 1..]) && [] + NewSide(ks[k + 1..]) == NewSide(ks[k + 1..]);
  }

  lemma {:induction false} Collect(ls: seq<string>, l: string, rest: seq<string>)
    ensures ls + ([l] + rest) == ls + [l] + rest
  {
  }

  /*** Hunks printed from a line script ***/

  datatype Change = Keep(line: string) | Delete(line: string) | Add(line: string)

  function LineOf(c: Change): string {
    match c
    case Keep(l) => " " + l
    case Delete(l) => "-" + l
    case Add(l) => "+" + l
  }

  function KindOfChange(c: Change): Kind {
    match c
    case Keep(l) => Both(l)
    case Delete(l) => Removed(l)
    case Add(l) => Added(l)
  }

  function PrintLines(script: seq<Change>): (r: seq<string>)
    ensures |r| == |script|
    decreases |script|
  {
    if script == [] then [] else [LineOf(script[0])] + PrintLines(script[1..])
  }

  function HunkText(script: seq<Change>): string {
    Join(PrintLines(script), '\n')
  }

  function Old(script: seq<Change>): seq<string>
    decreases |script|
  {
    if script == [] then [] else (if script[0].Add? then [] else [script[0].line]) + Old(script[1..])
  }

  function New(script: seq<Change>): seq<string>
    decreases |script|
  {
    if script == [] then [] else (if script[0].Delete? then [] else [script[0].line]) + New(script[1..])
  }

  /** A printed line that is read as a diff line: neither a file header nor a stray marker. */
  predicate Recognised(c: Change) {
    !KindOf(LineOf(c)).Stop? && !KindOf(LineOf(c)).Skip?
  }

  predicate AllRecognised(script: seq<Change>) {
    forall i :: 0 <= i < |script| ==> Recognised(script[i])
  }

  /** Every change is about one line. */
  predicate OneLiners(script: seq<Change>) {
    forall i :: 0 <= i < |script| ==> '\n' !in script[i].line
  }

  lemma {:induction false} RecognisedKind(c: Change)
    requires Recognised(c)
    ensures KindOf(LineOf(c)) == KindOfChange(c)
  {
    assert LineOf(c)[1..] == c.line;
  }

  lemma {:induction false} Tails(script: seq<Change>)
    requires script != []
    ensures OneLiners(script) ==> OneLiners(script[1..])
    ensures AllRecognised(script) <==> Recognised(script[0]) && AllRecognised(script[1..])
  {
    assert forall i :: 0 <= i < |script[1..]| ==> script[1..][i] == script[i + 1];
    assert forall i :: 0 < i < |script| ==> script[i] == script[1..][i - 1];
  }

  lemma {:induction false} RecognisedSides(script: seq<Change>)
    requires AllRecognised(script)
    ensures OldSide(Kinds(PrintLines(script))) == Old(script) && NewSide(Kinds(PrintLines(script))) == New(script)
    decreases |script|
  {
    if script == [] {
    } else {
      Tails(script);
      RecognisedKind(script[0]);
      RecognisedSides(script[1..]);
      assert PrintLines(script)[1..] == PrintLines(script[1..]);
      assert Kinds(PrintLines(script))[1..] == Kinds(PrintLines(script[1..]));
    }
  }

  lemma {:induction false} PrintLinesFree(script: seq<Change>)
    requires OneLiners(script)
    ensures NewlineFree(PrintLines(script)) && NewlineFree(Old(script)) && NewlineFree(New(script))
    decreases |script|
  {
    if script == [] {
    } else {
      assert '\n' !in LineOf(script[0]);
      Tails(script);
      PrintLinesFree(script[1..]);
    }
  }

  lemma {:induction false} SplitHunk(script: seq<Change>)
    requires script != [] && OneLiners(script)
    ensures Split(HunkText(script), '\n') == PrintLines(script)
  {
    PrintLinesFree(script);
    SplitJoin(PrintLines(script), '\n');
  }

  function ScriptBlocks(script: seq<Change>): Blocks {
    Blocks(Body(Old(script)), Body(New(script)))
  }

  /*** Counting the lines with text ***/

  function Weight(ks: seq<Kind>): nat {
    NonEmpty(OldSide(ks)) + NonEmpty(NewSide(ks))
  }

  function ScriptWeight(script: seq<Change>): nat {
    NonEmpty(Old(script)) + NonEmpty(New(script))
  }

  /** A change with text weighs something. */
  lemma {:induction false} ScriptWeightStep(script: seq<Change>)
    requires script != []
    ensures ScriptWeight(script) >= ScriptWeight(script[1..]) + (if script[0].line == "" then 0 else 1)
  {
    ChangeWeight(script);
  }

  lemma {:induction false} WeightStep(script: seq<Change>)
    requires script != [] && Recognised(script[0])
    ensures Weight(Kinds(PrintLines(script))) - Weight(Kinds(PrintLines(script[1..]))) ==
      ScriptWeight(script) - ScriptWeight(script[1..])
  {
    RecognisedKind(script[0]);
    var ks := Kinds(PrintLines(script[1..]));
    assert PrintLines(script)[1..] == PrintLines(script[1..]);
    assert Kinds(PrintLines(script)) == [KindOfChange(script[0])] + ks;
    KindWeight(script[0], ks);
    ChangeWeight(script);
  }

  function OneWeight(c: Change): nat {
    if c.line == "" then 0 else if c.Keep? then 2 else 1
  }

  lemma {:induction false} KindWeight(c: Change, ks: seq<Kind>)
    ensures Weight([KindOfChange(c)] + ks) == OneWeight(c) + Weight(ks)
  {
    assert ([KindOfChange(c)] + ks)[1..] == ks;
    NonEmptyCons(c.line, OldSide(ks));
    NonEmptyCons(c.line, NewSide(ks));
  }

  lemma {:induction false} ChangeWeight(script: seq<Change>)
    requires script != []
    ensures ScriptWeight(script) == OneWeight(script[0]) + ScriptWeight(script[1..])
  {
    NonEmptyCons(script[0].line, Old(script[1..]));
    NonEmptyCons(script[0].line, New(script[1..]));
  }

  lemma {:induction false} LostStep(script: seq<Change>)
    requires script != [] && !Recognised(script[0])
    ensures Weight(Kinds(PrintLines(script))) <= Weight(Kinds(PrintLines(script[1..])))
  {
    var ks := Kinds(PrintLines(script[1..]));
    assert PrintLines(script)[1..] == PrintLines(script[1..]);
    assert Kinds(PrintLines(script))[1..] == ks;
    assert [] + OldSide(ks) == OldSide(ks) && [] + NewSide(ks) == NewSide(ks);
  }

  lemma {:induction false} LostHasText(c: Change)
    requires !Recognised(c)
    ensures c.line != ""
  {
    assert TrimSpace(" ") == "" && TrimSpace("-") == "-" && TrimSpace("+") == "+";
    assert " " + "" == " " && "-" + "" == "-" && "+" + "" == "+";
  }

  /** Reading a hunk never invents text, and loses some for every line it does not recognise. */
  lemma {:induction false} NothingInvented(script: seq<Change>)
    ensures Weight(Kinds(PrintLines(script))) <= ScriptWeight(script)
    ensures !AllRecognised(script) ==> Weight(Kinds(PrintLines(script))) < ScriptWeight(script)
    decreases |script|
  {
    if script == [] {
    } else {
      Tails(script);
      NothingInvented(script[1..]);
      if Recognised(script[0]) {
        WeightStep(script);
      } else {
        LostHasText(script[0]);
        LostStep(script);
        ScriptWeightStep(script);
      }
    }
  }

  lemma {:induction false} TrimRightKeeps(s: string, k: nat)
    requires k < |s| && !IsSpace(s[k])
    ensures k < |TrimRight(s, IsSpace)| && TrimRight(s, IsSpace)[..k + 1] == s[..k + 1]
  {
    if !IsSpace(s[|s| - 1]) {
    } else {
      TrimRightKeeps(s[..|s| - 1], k);
    }
  }

  lemma {:induction false} HeaderHasText(c: Change)
    requires IsHeader(LineOf(c))
    ensures c.line != "" && !c.Add?
  {
    var line := LineOf(c);
    assert TrimSpace(" ") == "" && TrimSpace("-") == "-";
    if !c.Keep? {
      TrimRightKeeps(line, 0);
      assert line[..1] == [line[0]];
      assert TrimSpace(line)[..1] == [line[0]];
      assert TrimSpace(line)[0] == line[0];
    }
    assert " " + "" == " " && "-" + "" == "-";
  }

  /** What is read of a hunk: the lines after a header-like first line. */
  function ReadPart(script: seq<Change>): seq<Change>
    requires script != []
  {
    if IsHeader(LineOf(script[0])) then script[1..] else script
  }

  lemma {:induction false} ExtractWeight(script: seq<Change>)
    requires script != [] && OneLiners(script)
    ensures var b := Extract(HunkText(script));
      b == SidesOf(Kinds(PrintLines(ReadPart(script)))) &&
      LinesWithText(b.before) + LinesWithText(b.after) == Weight(Kinds(PrintLines(ReadPart(script))))
  {
    SplitHunk(script);
    assert PrintLines(script)[1..] == PrintLines(script[1..]);
    Tails(script);
    var part := ReadPart(script);
    SidesFree(part);
    BodyKeepsText(OldSide(Kinds(PrintLines(part))));
    BodyKeepsText(NewSide(Kinds(PrintLines(part))));
  }

  lemma {:induction false} KindFree(l: string)
    requires '\n' !in l
    ensures KindOf(l).Removed? || KindOf(l).Added? || KindOf(l).Both? ==> '\n' !in KindOf(l).line
  {
  }

  lemma {:induction false} SidesFree(script: seq<Change>)
    requires OneLiners(script)
    ensures NewlineFree(OldSide(Kinds(PrintLines(script)))) && NewlineFree(NewSide(Kinds(PrintLines(script))))
    decreases |script|
  {
    if script == [] {
    } else {
      Tails(script);
      SidesFree(script[1..]);
      assert PrintLines(script)[1..] == PrintLines(script[1..]);
      assert Kinds(PrintLines(script))[1..] == Kinds(PrintLines(script[1..]));
      assert '\n' !in LineOf(script[0]);
      KindFree(LineOf(script[0]));
    }
  }

  lemma {:induction false} BlocksWeight(script: seq<Change>)
    requires OneLiners(script)
    ensures LinesWithText(ScriptBlocks(script).before) + LinesWithText(ScriptBlocks(script).after) ==
      ScriptWeight(script)
  {
    PrintLinesFree(script);
    BodyKeepsText(Old(script));
    BodyKeepsText(New(script));
  }

  /** A hunk printed from any keep/delete/add script gives exactly its old and new blocks if and only if no line
      prints as a file header or a stray marker, and the first does not look like a hunk header. */
  lemma {:induction false} ExtractsIff(script: seq<Change>)
    requires script != [] && OneLiners(script)
    ensures Extract(HunkText(script)) == ScriptBlocks(script) <==> AllRecognised(script) && !IsHeader(LineOf(script[0]))
  {
    ExtractWeight(script);
    BlocksWeight(script);
    NothingInvented(ReadPart(script));
    if IsHeader(LineOf(script[0])) {
      HeaderHasText(script[0]);
      ScriptWeightStep(script);
    } else if AllRecognised(script) {
      RecognisedSides(script);
    }
  }

  /** Deleting a line that starts with a digit, as the first line of a hunk, is not seen. */
  lemma {:induction false} FirstDigitDeletionIsLost(l: string, rest: seq<Change>)
    requires OneLiners([Delete(l)] + rest) && l != "" && '0' <= l[0] <= '9'
    ensures Extract(HunkText([Delete(l)] + rest)) != ScriptBlocks([Delete(l)] + rest)
  {
    var line := "-" + l;
    TrimRightKeeps(line, 1);
    var t := TrimSpace(line);
    assert t[..2] == line[..2] && t[0] == t[..2][0] && t[1] == t[..2][1];
    assert LineOf(([Delete(l)] + rest)[0]) == line;
    ExtractsIff([Delete(l)] + rest);
  }

  /** Deleting a comment line of SQL, Lua or Haskell prints as a file header and is not seen, wherever it stands. */
  lemma {:induction false} CommentDeletionIsLost(c: char, text: string, script: seq<Change>, k: nat)
    requires OneLiners(script) && k < |script| && !IsSpace(c) && script[k] == Delete("-- " + [c] + text)
    ensures Extract(HunkText(script)) != ScriptBlocks(script)
  {
    var line := LineOf(script[k]);
    assert line == "--- " + [c] + text;
    TrimRightKeeps(line, 4);
    var t := TrimSpace(line);
    assert t[..5] == line[..5] && t[..4] == t[..5][..4] && line[..5][..4] == "--- ";
    assert HasPrefix(t, "--- ");
    assert !HasPrefix(t, ">>>>>>> REPLACE") && !HasPrefix(t, ">>>>>>>REPLACE") by { assert t[0] == '-'; }
    assert !Recognised(script[k]);
    ExtractsIff(script);
  }

  lemma {:induction false} CommentDeletionExample(script: seq<Change>)
    requires script == [Keep("a"), Delete("-- x")]
    ensures Extract(HunkText(script)) != ScriptBlocks(script)
  {
    assert "-- x" == "-- " + ['x'] + "";
    CommentDeletionIsLost('x', "", script, 1);
  }

  /** The blocks are the joined lines themselves exactly when neither side ends in an empty line. */
  lemma {:induction false} BlocksExactIff(ls: seq<string>)
    requires NewlineFree(ls)
    ensures Body(ls) == Join(ls, '\n') <==> |ls| <= 1 || ls[|ls| - 1] != ""
  {
    if ls != [] {
      JoinEnd(ls);
      if HasSuffix(Join(ls, '\n'), "\n") {
        var n := |ls| - 1;
        TrimRightShorter(Join(ls, '\n'));
      } else {
        NoTrim(Join(ls, '\n'));
      }
    }
  }

  lemma {:induction false} TrimRightShorter(s: string)
    ensures |TrimRight(s, IsNewline)| <= |s|
    ensures HasSuffix(s, "\n") ==> |TrimRight(s, IsNewline)| < |s|
  {
    if s != "" && IsNewline(s[|s| - 1]) {
      TrimRightShorter(s[..|s| - 1]);
    } else if s != "" {
      assert s[|s| - 1..] == [s[|s| - 1]];
    }
  }
}
