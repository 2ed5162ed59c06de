/** Counting the lines with text, which joining, trimming and splitting preserve: a measure of what a reader of
    lines has lost. */
module LineCounts {
  import opened Text
  import opened FileSanitize

  function NonEmpty(ls: seq<string>): nat
    decreases |ls|
  {
    if ls == [] then 0 else (if ls[0] == "" then 0 else 1) + NonEmpty(ls[1..])
  }

  function LinesWithText(s: string): nat {
    NonEmpty(Split(s, '\n'))
  }

  lemma {:induction false} NonEmptySnoc(ls: seq<string>, l: string)
    ensures NonEmpty(ls + [l]) == NonEmpty(ls) + (if l == "" then 0 else 1)
    decreases |ls|
  {
    if ls == [] {
      assert ls + [l] == [l] && [l][1..] == [];
    } else {
      NonEmptySnoc(ls[1..], l);
      assert (ls + [l])[1..] == ls[1..] + [l];
    }
  }

  lemma {:induction false} DropBlankKeepsText(ls: seq<string>)
    requires |ls| >= 1
    ensures NonEmpty(DropBlank(ls)) == NonEmpty(ls)
    decreases |ls|
  {
    var n := |ls| - 1;
    if n == 0 || ls[n] != "" {
    } else {
      DropBlankKeepsText(ls[..n]);
      NonEmptySnoc(ls[..n], "");
      assert ls == ls[..n] + [""];
    }
  }

  lemma {:induction false} DropBlankFree(ls: seq<string>)
    requires |ls| >= 1 && NewlineFree(ls)
    ensures NewlineFree(DropBlank(ls))
  {
    var m := DropBlankAt(ls);
  }

  /** A block has as many lines with text as were collected for it. */
  lemma {:induction false} BodyKeepsText(ls: seq<string>)
    requires NewlineFree(ls)
    ensures LinesWithText(Body(ls)) == NonEmpty(ls)
  {
    if ls == [] {
      assert Body(ls) == "" && Split("", '\n') == [""] && [""][1..] == [];
    } else {
      TrimNewlines(ls);
      DropBlankFree(ls);
      SplitJoin(DropBlank(ls), '\n');
      DropBlankKeepsText(ls);
    }
  }

  lemma {:induction false} NonEmptyCons(l: string, ls: seq<string>)
    ensures NonEmpty([l] + ls) == (if l == "" then 0 else 1) + NonEmpty(ls) && NonEmpty([] + ls) == NonEmpty(ls)
  {
    assert ([l] + ls)[1..] == ls && [] + ls == ls;
  }
}
