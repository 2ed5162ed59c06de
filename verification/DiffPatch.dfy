/** Search/replace on file contents and multi-hunk diff patches: computeNativeSearchReplace,
    applyUnifiedDiffPatch, extractSearchReplaceFromDiffHunk. */
module DiffPatch {
  import opened Text
  import opened FileSanitize

  /*** strings.Count, strings.Index and strings.Replace(…, 1) ***/

  /** Non-overlapping occurrences; the empty text occurs once more than there are characters. */
  function Count(s: string, p: string): nat {
    if p == "" then |s| + 1
    else if s == "" then 0
    else if HasPrefix(s, p) then 1 + Count(s[|p|..], p)
    else Count(s[1..], p)
  }

  lemma {:induction false} FirstIsLeftmost(s: string, p: string)
    ensures First(s, p).None? ==> forall j :: 0 <= j <= |s| ==> !OccursAt(s, p, j)
    ensures First(s, p).Some? ==>
      var k := First(s, p).value;
      k + |p| <= |s| && OccursAt(s, p, k) && forall j :: 0 <= j < k ==> !OccursAt(s, p, j)
  {
    match First(s, p)
    case None => FirstNone(s, p);
    case Some(k) => FirstSome(s, p, k);
  }

  lemma {:induction false} CountPositive(s: string, p: string)
    ensures Count(s, p) >= 1 <==> First(s, p).Some?
  {
    if p == "" {
    } else if s == "" {
      assert !HasPrefix(s, p);
    } else if !HasPrefix(s, p) {
      CountPositive(s[1..], p);
    }
  }

  function ReplaceFirst(s: string, p: string, r: string): string {
    match First(s, p)
    case None => s
    case Some(k) => if k + |p| <= |s| then s[..k] + r + s[k + |p|..] else s
  }

  /*** One search/replace ***/

  datatype Error = EmptyDiff | Unreadable | NotFound | Ambiguous(matches: nat) | NoChange | WriteFailed

  datatype Result = Done(text: string) | Failed(error: Error)

  /** Replaces the block when it occurs exactly once, counting without overlaps. */
  function Swap(content: string, search: string, replace: string): Result {
    var n := Count(content, search);
    if n == 0 then Failed(NotFound)
    else if n > 1 then Failed(Ambiguous(n))
    else Done(ReplaceFirst(content, search, replace))
  }

  function Lf(s: string): string {
    ReplaceAll(s, "\r\n", "\n")
  }

  /** computeNativeSearchReplace: a second attempt with CRLF line ends normalised when nothing matches. */
  function SearchReplace(content: string, search: string, replace: string): Result {
    if Count(content, search) == 0 then Swap(Lf(content), Lf(search), Lf(replace)) else Swap(content, search, replace)
  }

  /** The swap cuts out the leftmost match and nothing else. */
  lemma {:induction false} SwapCutsLeftmost(content: string, search: string, replace: string)
    requires Swap(content, search, replace).Done?
    ensures First(content, search).Some?
    ensures var k := First(content, search).value;
      && k + |search| <= |content|
      && content == content[..k] + search + content[k + |search|..]
      && Swap(content, search, replace).text == content[..k] + replace + content[k + |search|..]
      && forall j :: 0 <= j < k ==> !OccursAt(content, search, j)
  {
    CountPositive(content, search);
    FirstIsLeftmost(content, search);
    var k := First(content, search).value;
    assert content[k..][..|search|] == search;
    assert content[k..][..|search|] == content[k..k + |search|];
  }

  /** Both ways of succeeding: the literal text, or the text with normalised line ends. */
  lemma {:induction false} SearchReplaceCutsLeftmost(content: string, search: string, replace: string)
    requires SearchReplace(content, search, replace).Done?
    ensures var crlf := Count(content, search) == 0;
      var (c, s, r) := if crlf then (Lf(content), Lf(search), Lf(replace)) else (content, search, replace);
      && Count(c, s) == 1
      && exists k :: 0 <= k <= |c| - |s| && OccursAt(c, s, k) && (forall j :: 0 <= j < k ==> !OccursAt(c, s, j)) &&
          SearchReplace(content, search, replace).text == c[..k] + r + c[k + |s|..]
  {
    if Count(content, search) == 0 {
      var c, s, r := Lf(content), Lf(search), Lf(replace);
      SwapCutsLeftmost(c, s, r);
      FirstIsLeftmost(c, s);
    } else {
      SwapCutsLeftmost(content, search, replace);
      FirstIsLeftmost(content, search);
    }
  }

  /** Swapping back restores the content if and only if the new block is found once,
      and its leftmost occurrence is the one just written. */
  lemma {:induction false} SwapBackIff(content: string, search: string, replace: string)
    requires Swap(content, search, replace).Done?
    ensures var updated := Swap(content, search, replace).text;
      Swap(updated, replace, search) == Done(content) <==>
        Count(updated, replace) == 1 && First(updated, replace) == First(content, search)
  {
    SwapCutsLeftmost(content, search, replace);
    var k := First(content, search).value;
    var a, b := content[..k], content[k + |search|..];
    var updated := Swap(content, search, replace).text;
    assert updated == a + replace + b;
    if Count(updated, replace) == 1 {
      SwapCutsLeftmost(updated, replace, search);
      var j := First(updated, replace).value;
      var back := Swap(updated, replace, search).text;
      WrittenOccurs(a, replace, b);
      FirstIsLeftmost(updated, replace);
      if j == k {
        assert updated[..k] == a && updated[k + |replace|..] == b;
      } else {
        WrittenOccurs(updated[..j], search, updated[j + |replace|..]);
        assert OccursAt(back, search, j);
      }
    }
  }

  lemma {:induction false} WrittenOccurs(a: string, p: string, b: string)
    ensures OccursAt(a + p + b, p, |a|)
  {
    assert (a + p + b)[|a|..] == p + b;
  }

  /** Enough for that: the new block stands at no other place. */
  lemma {:induction false} SwapBackWhenUnique(content: string, search: string, replace: string, k: nat)
    requires Swap(content, search, replace).Done? && First(content, search) == Some(k)
    requires var updated := Swap(content, search, replace).text;
      Count(updated, replace) == 1 && forall j :: 0 <= j < k ==> !OccursAt(updated, replace, j)
    ensures Swap(Swap(content, search, replace).text, replace, search) == Done(content)
  {
    SwapCutsLeftmost(content, search, replace);
    var updated := Swap(content, search, replace).text;
    WrittenOccurs(content[..k], replace, content[k + |search|..]);
    CountPositive(updated, replace);
    FirstIsLeftmost(updated, replace);
    SwapBackIff(content, search, replace);
  }

  /** Counting without overlaps hides the other match: here the block swaps back to the wrong place. */
  lemma {:induction false} OverlapSwapsBackWrong()
    ensures Swap("ab", "b", "aa") == Done("aaa")
    ensures Count("aaa", "aa") == 1 && Swap("aaa", "aa", "b") == Done("ba")
  {
    assert "ab"[1..] == "b" && "b"[1..] == "" && "aaa"[2..] == "a" && "a"[1..] == "";
    assert "ab"[0] == 'a' && "b"[0] == 'b' && "aaa"[..2] == "aa";
    assert !HasPrefix("ab", "b") && HasPrefix("b", "b") && HasPrefix("aaa", "aa") && !HasPrefix("a", "aa");
    assert First("b", "b") == Some(0) && First("ab", "b") == Some(1);
    assert First("aaa", "aa") == Some(0);
    assert "ab"[..1] + "aa" + "ab"[2..] == "aaa";
    assert "aaa"[..0] + "b" + "aaa"[2..] == "ba";
  }
}
