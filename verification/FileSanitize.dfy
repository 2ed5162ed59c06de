/** Stripping Markdown fences and stray terminators around file content (sanitizeNativeFileContent).
    Which lines are junk at the front and at the back is left to two predicates. */
module FileSanitize {
  import opened Text
  import opened TextTrim

  predicate IsNewline(c: char) {
    c == '\n'
  }

  /** Collected lines as one text without final newlines. */
  function Body(ls: seq<string>): string {
    TrimRight(Join(ls, '\n'), IsNewline)
  }

  function StripFront(front: string -> bool, ls: seq<string>): (r: seq<string>)
    ensures |r| <= |ls|
    decreases |ls|
  {
    if ls != [] && front(ls[0]) then StripFront(front, ls[1..]) else ls
  }

  function StripBack(back: string -> bool, ls: seq<string>): (r: seq<string>)
    ensures |r| <= |ls|
    decreases |ls|
  {
    if ls != [] && back(ls[|ls| - 1]) then StripBack(back, ls[..|ls| - 1]) else ls
  }

  function Kept(front: string -> bool, back: string -> bool, ls: seq<string>): (r: seq<string>)
    ensures |r| <= |ls|
  {
    StripBack(back, StripFront(front, ls))
  }

  function Sanitize(front: string -> bool, back: string -> bool, content: string): string {
    var ls := Split(TrimRight(content, IsNewline), '\n');
    var kept := Kept(front, back, ls);
    if |kept| == |ls| then content
    else Join(kept, '\n') + (if HasSuffix(content, "\n") && kept != [] then "\n" else "")
  }

  /** `ls[i..j]` is `ls` without a run of front junk and a run of back junk, and neither end of it is junk. */
  ghost predicate CoreAt(front: string -> bool, back: string -> bool, ls: seq<string>, i: int, j: int)
    requires 0 <= i <= j <= |ls|
  {
    && (forall k :: 0 <= k < i ==> front(ls[k]))
    && (forall k :: j <= k < |ls| ==> back(ls[k]))
    && (i < j ==> !front(ls[i]) && !back(ls[j - 1]))
  }

  lemma {:induction false} StripFrontAt(front: string -> bool, ls: seq<string>) returns (i: nat)
    ensures i <= |ls| && StripFront(front, ls) == ls[i..]
    ensures (forall k :: 0 <= k < i ==> front(ls[k])) && (i < |ls| ==> !front(ls[i]))
    decreases |ls|
  {
    if ls != [] && front(ls[0]) {
      var i' := StripFrontAt(front, ls[1..]);
      i := i' + 1;
      assert ls[1..][i'..] == ls[i..];
      assert forall k :: 0 < k < i ==> ls[k] == ls[1..][k - 1];
    } else {
      i := 0;
    }
  }

  lemma {:induction false} StripBackAt(back: string -> bool, ls: seq<string>) returns (j: nat)
    ensures j <= |ls| && StripBack(back, ls) == ls[..j]
    ensures (forall k :: j <= k < |ls| ==> back(ls[k])) && (j > 0 ==> !back(ls[j - 1]))
    decreases |ls|
  {
    var n := |ls| - 1;
    if ls != [] && back(ls[n]) {
      j := StripBackAt(back, ls[..n]);
      assert ls[..n][..j] == ls[..j];
      assert forall k :: j <= k < n ==> ls[k] == ls[..n][k];
    } else {
      j := |ls|;
    }
  }

  /** What is kept is the core. */
  lemma {:induction false} KeptIsCore(front: string -> bool, back: string -> bool, ls: seq<string>)
      returns (i: nat, j: nat)
    ensures i <= j <= |ls| && Kept(front, back, ls) == ls[i..j] && CoreAt(front, back, ls, i, j)
  {
    i := StripFrontAt(front, ls);
    var j' := StripBackAt(back, ls[i..]);
    j := i + j';
    assert ls[i..][..j'] == ls[i..j];
    forall k | j <= k < |ls| ensures back(ls[k]) {
      assert ls[k] == ls[i..][k - i];
    }
    assert i < j ==> ls[j - 1] == ls[i..][j' - 1];
  }

  /*** The loop ***/

  lemma {:induction false} KeptDropFirst(front: string -> bool, back: string -> bool, ls: seq<string>)
    requires ls != [] && front(ls[0])
    ensures Kept(front, back, ls[1..]) == Kept(front, back, ls)
  {
  }

  lemma {:induction false} KeptDropLast(front: string -> bool, back: string -> bool, ls: seq<string>)
    requires ls != [] && back(ls[|ls| - 1])
    ensures Kept(front, back, ls[..|ls| - 1]) == Kept(front, back, ls)
    decreases |ls|
  {
    var n := |ls| - 1;
    var init := ls[..n];
    if front(ls[0]) && n > 0 {
      KeptDropLast(front, back, ls[1..]);
      assert ls[1..][..n - 1] == init[1..];
    } else if n == 0 {
      assert init == [];
      SingleBack(back, ls);
    }
  }

  lemma {:induction false} SingleBack(back: string -> bool, ls: seq<string>)
    requires |ls| == 1 && back(ls[0])
    ensures StripBack(back, ls) == [] && StripBack(back, []) == []
  {
    assert ls[..0] == [];
  }

  /** One round of the outer loop: strip the front as far as it goes, then the back. */
  method TrimRound(front: string -> bool, back: string -> bool, lines: seq<string>) returns (r: seq<string>)
    ensures Kept(front, back, r) == Kept(front, back, lines) && |r| <= |lines|
    ensures |r| == |lines| ==> r == lines && Kept(front, back, r) == r
  {
    r := lines;
    while |r| > 0 && front(r[0])
      invariant Kept(front, back, r) == Kept(front, back, lines) && |r| <= |lines| && (|r| == |lines| ==> r == lines)
      decreases |r|
    {
      KeptDropFirst(front, back, r);
      r := r[1..];
    }
    ghost var r' := r;
    while |r| > 0 && back(r[|r| - 1])
      invariant Kept(front, back, r) == Kept(front, back, lines) && |r| <= |r'| && (|r| == |r'| ==> r == r')
      decreases |r|
    {
      KeptDropLast(front, back, r);
      r := r[..|r| - 1];
    }
  }

  method SanitizeNativeFileContent(front: string -> bool, back: string -> bool, content: string) returns (r: string)
    ensures r == Sanitize(front, back, content)
  {
    if content == "" {
      EmptyContent(front, back);
      return content;
    }
    var lines := Split(TrimRight(content, IsNewline), '\n');
    ghost var all := lines;
    var changed := false;
    var trimChanged := true;
    while trimChanged
      invariant Kept(front, back, lines) == Kept(front, back, all) && |lines| <= |all|
      invariant changed <==> |lines| < |all|
      invariant !trimChanged ==> Kept(front, back, lines) == lines
      decreases if trimChanged then |lines| + 1 else 0
    {
      var next := TrimRound(front, back, lines);
      trimChanged := |next| < |lines|;
      changed := changed || trimChanged;
      lines := next;
    }
    if !changed {
      return content;
    }
    r := Join(lines, '\n');
    if HasSuffix(content, "\n") && |lines| > 0 {
      r := r + "\n";
    }
  }

  lemma {:induction false} EmptyContent(front: string -> bool, back: string -> bool)
    ensures Sanitize(front, back, "") == ""
  {
    var ls := Split("", '\n');
    assert TrimRight("", IsNewline) == "" && ls == [""];
    var i, j := KeptIsCore(front, back, ls);
  }

  /*** On the lines of a here-document body ***/

  predicate NewlineFree(ls: seq<string>) {
    forall i :: 0 <= i < |ls| ==> '\n' !in ls[i]
  }

  /** The cleaned body: the lines of the sanitized text of a body. */
  function Clean(front: string -> bool, back: string -> bool, body: seq<string>): (r: seq<string>)
    ensures |r| >= 1
  {
    Split(Sanitize(front, back, Join(body, '\n')), '\n')
  }

  /** Dropping final empty lines, but never the last remaining line. */
  function DropBlank(ls: seq<string>): (r: seq<string>)
    requires |ls| >= 1
    ensures |r| >= 1
    decreases |ls|
  {
    if |ls| > 1 && ls[|ls| - 1] == "" then DropBlank(ls[..|ls| - 1]) else ls
  }

  lemma {:induction false} DropBlankAt(ls: seq<string>) returns (m: nat)
    requires |ls| >= 1
    ensures 1 <= m <= |ls| && DropBlank(ls) == ls[..m] && forall k :: m <= k < |ls| ==> ls[k] == ""
    ensures m == 1 || ls[m - 1] != ""
    decreases |ls|
  {
    var n := |ls| - 1;
    if n > 0 && ls[n] == "" {
      m := DropBlankAt(ls[..n]);
      assert ls[..n][..m] == ls[..m];
      assert forall k :: m <= k < n ==> ls[k] == ls[..n][k];
    } else {
      m := |ls|;
    }
  }

  lemma {:induction false} JoinEnd(ls: seq<string>)
    requires |ls| >= 1 && NewlineFree(ls)
    ensures HasSuffix(Join(ls, '\n'), "\n") <==> |ls| > 1 && ls[|ls| - 1] == ""
  {
    var n := |ls| - 1;
    var last := ls[n];
    if n > 0 {
      assert ls == ls[..n] + [last];
      JoinLast(ls[..n], last);
      SuffixOfAppend(Join(ls[..n], '\n') + ['\n'], last);
    } else {
      SuffixOfAppend("", last);
      assert "" + last == last;
    }
  }

  lemma {:induction false} SuffixOfAppend(a: string, b: string)
    requires '\n' !in b
    ensures HasSuffix(a + b, "\n") <==> b == "" && a != "" && a[|a| - 1] == '\n'
  {
    var s := a + b;
    if s != "" {
      assert s[|s| - 1..] == [s[|s| - 1]];
      if b != "" {
        assert s[|s| - 1] == b[|b| - 1];
      }
    }
  }

  lemma {:induction false} TrimNewlines(ls: seq<string>)
    requires |ls| >= 1 && NewlineFree(ls)
    ensures TrimRight(Join(ls, '\n'), IsNewline) == Join(DropBlank(ls), '\n')
    decreases |ls|
  {
    var n := |ls| - 1;
    if n > 0 && ls[n] == "" {
      var init := Join(ls[..n], '\n');
      assert ls == ls[..n] + [""];
      JoinLast(ls[..n], "");
      assert Join(ls, '\n') == init + ['\n'];
      assert (init + ['\n'])[..|init|] == init;
      TrimNewlines(ls[..n]);
    } else {
      JoinEnd(ls);
      NoTrim(Join(ls, '\n'));
    }
  }

  lemma {:induction false} NoTrim(s: string)
    requires !HasSuffix(s, "\n")
    ensures TrimRight(s, IsNewline) == s
  {
    if s != "" {
      assert s[|s| - 1..] == [s[|s| - 1]];
    }
  }

  /** The body up to its last line `m` with text is cut at front junk and back junk, exactly as far as these go.
      With nothing to cut the body stays; with nothing left it becomes one empty line; otherwise the rest stays,
      with one empty line below it if there were any. */
  ghost predicate Cleaned(front: string -> bool, back: string -> bool, body: seq<string>, r: seq<string>) {
    exists m, i, j :: 0 <= i <= j <= m <= |body| && CleanedAt(front, back, body, m, i, j, r)
  }

  ghost predicate CleanedAt(front: string -> bool, back: string -> bool, body: seq<string>, m: int, i: int, j: int,
                            r: seq<string>)
    requires 0 <= i <= j <= m <= |body|
  {
    && 1 <= m && (m == 1 || body[m - 1] != "") && (forall k :: m <= k < |body| ==> body[k] == "")
    && CoreAt(front, back, body[..m], i, j)
    && r == if j - i == m then body
            else if i == j then [""]
            else body[i..j] + (if m < |body| then [""] else [])
  }

  lemma {:induction false} CleanMeaning(front: string -> bool, back: string -> bool, body: seq<string>)
    requires |body| >= 1 && NewlineFree(body)
    ensures Cleaned(front, back, body, Clean(front, back, body))
  {
    var m := DropBlankAt(body);
    var i, j := KeptIsCore(front, back, body[..m]);
    CleanAt(front, back, body, m, i, j);
  }

  lemma {:induction false} CleanAt(front: string -> bool, back: string -> bool, body: seq<string>, m: nat, i: nat,
                                   j: nat)
    requires |body| >= 1 && NewlineFree(body) && i <= j <= m && 1 <= m <= |body| && DropBlank(body) == body[..m]
    requires forall k :: m <= k < |body| ==> body[k] == ""
    requires m == 1 || body[m - 1] != ""
    requires Kept(front, back, body[..m]) == body[..m][i..j] && CoreAt(front, back, body[..m], i, j)
    ensures Cleaned(front, back, body, Clean(front, back, body))
  {
    var out := Sanitize(front, back, Join(body, '\n'));
    SanitizeLines(front, back, body, m, i, j, out);
    if j - i == m {
      SplitJoin(body, '\n');
      assert CleanedAt(front, back, body, m, i, j, body);
    } else {
      CleanCore(front, back, body, m, i, j, out);
    }
  }

  function Terminated(body: seq<string>, kept: seq<string>): string {
    Join(kept, '\n') + (if HasSuffix(Join(body, '\n'), "\n") && kept != [] then "\n" else "")
  }

  lemma {:induction false} SanitizeLines(front: string -> bool, back: string -> bool, body: seq<string>, m: nat,
                                         i: nat, j: nat, out: string)
    requires |body| >= 1 && NewlineFree(body) && i <= j <= m && 1 <= m <= |body| && DropBlank(body) == body[..m]
    requires Kept(front, back, body[..m]) == body[..m][i..j] && out == Sanitize(front, back, Join(body, '\n'))
    ensures out == if j - i == m then Join(body, '\n') else Terminated(body, body[i..j])
  {
    TrimNewlines(body);
    SplitJoin(body[..m], '\n');
    assert body[..m][i..j] == body[i..j];
  }

  lemma {:induction false} CleanCore(front: string -> bool, back: string -> bool, body: seq<string>, m: nat,
                                     i: nat, j: nat, out: string)
    requires |body| >= 1 && NewlineFree(body) && i <= j <= m <= |body| && 1 <= m && CoreAt(front, back, body[..m], i, j)
    requires forall k :: m <= k < |body| ==> body[k] == ""
    requires out == Terminated(body, body[i..j])
    requires j - i < m && (m == 1 || body[m - 1] != "")
    ensures Cleaned(front, back, body, Split(out, '\n'))
  {
    JoinEnd(body);
    var kept := body[i..j];
    assert HasSuffix(Join(body, '\n'), "\n") <==> m < |body|;
    if kept == [] {
      assert CleanedAt(front, back, body, m, i, j, [""]);
    } else if m == |body| {
      assert Join(kept, '\n') + "" == Join(kept, '\n');
      SplitJoin(kept, '\n');
      assert kept + [] == kept;
      assert CleanedAt(front, back, body, m, i, j, kept);
    } else {
      KeepsFinalNewline(body, kept);
      assert CleanedAt(front, back, body, m, i, j, kept + [""]);
    }
  }

  lemma {:induction false} KeepsFinalNewline(body: seq<string>, kept: seq<string>)
    requires kept != [] && NewlineFree(kept)
    ensures Split(Join(kept, '\n') + "\n", '\n') == kept + [""]
  {
    JoinLast(kept, "");
    SplitJoin(kept + [""], '\n');
    assert Join(kept, '\n') + ['\n'] + "" == Join(kept, '\n') + "\n";
  }

  /** No front junk on the first line, no back junk on the last non-empty line. */
  predicate Steady(front: string -> bool, back: string -> bool, body: seq<string>) {
    |body| == 0 || body == [""] || (!front(body[0]) && !back(DropBlank(body)[|DropBlank(body)| - 1]))
  }

  /** Exactly the bodies that cleaning leaves alone. */
  lemma {:induction false} CleanFixed(front: string -> bool, back: string -> bool, body: seq<string>)
    requires |body| >= 1 && NewlineFree(body)
    ensures Clean(front, back, body) == body <==> Steady(front, back, body)
  {
    var m := DropBlankAt(body);
    var i, j := KeptIsCore(front, back, body[..m]);
    CleanFixedAt(front, back, body, m, i, j);
    SteadyAt(front, back, body, m);
  }

  lemma {:induction false} SteadyAt(front: string -> bool, back: string -> bool, body: seq<string>, m: nat)
    requires 1 <= m <= |body| && DropBlank(body) == body[..m]
    ensures Steady(front, back, body) <==> body == [""] || (!front(body[0]) && !back(body[m - 1]))
  {
    assert body[..m][m - 1] == body[m - 1];
  }

  lemma {:induction false} CleanFixedAt(front: string -> bool, back: string -> bool, body: seq<string>, m: nat,
                                        i: nat, j: nat)
    requires |body| >= 1 && NewlineFree(body) && i <= j <= m && 1 <= m <= |body| && DropBlank(body) == body[..m]
    requires (forall k :: m <= k < |body| ==> body[k] == "") && (m == 1 || body[m - 1] != "")
    requires Kept(front, back, body[..m]) == body[..m][i..j] && CoreAt(front, back, body[..m], i, j)
    ensures Clean(front, back, body) == body <==> body == [""] || (!front(body[0]) && !back(body[m - 1]))
  {
    var out := Sanitize(front, back, Join(body, '\n'));
    SanitizeLines(front, back, body, m, i, j, out);
    EndsOfCore(front, back, body, m, i, j);
    if j - i == m {
      SplitJoin(body, '\n');
    } else {
      TerminatedShrinks(body, m, i, j);
    }
  }

  lemma {:induction false} EndsOfCore(front: string -> bool, back: string -> bool, body: seq<string>, m: nat, i: nat,
                                      j: nat)
    requires i <= j <= m && 1 <= m <= |body| && CoreAt(front, back, body[..m], i, j)
    ensures j - i == m <==> !front(body[0]) && !back(body[m - 1])
  {
    assert body[..m][0] == body[0] && body[..m][m - 1] == body[m - 1];
  }

  lemma {:induction false} TerminatedShrinks(body: seq<string>, m: nat, i: nat, j: nat)
    requires |body| >= 1 && NewlineFree(body) && i <= j <= m && 1 <= m <= |body| && j - i < m
    requires (forall k :: m <= k < |body| ==> body[k] == "") && (m == 1 || body[m - 1] != "")
    ensures Split(Terminated(body, body[i..j]), '\n') == body <==> body == [""]
  {
    var kept := body[i..j];
    if kept != [] {
      JoinEnd(body);
      if HasSuffix(Join(body, '\n'), "\n") {
        KeepsFinalNewline(body, kept);
      } else {
        assert Join(kept, '\n') + "" == Join(kept, '\n');
        SplitJoin(kept, '\n');
      }
    }
  }
}
