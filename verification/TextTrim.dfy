/** How strings.TrimSpace acts on a text given by its lines. */
module TextTrim {
  import opened Text

  /** The lines left when white space is cut from the front of the joined text. */
  function TrimFrontLines(ls: seq<string>): (r: seq<string>)
    requires |ls| >= 1
    ensures |r| >= 1
    decreases |ls|
  {
    if |ls| > 1 && All(ls[0], IsSpace) then TrimFrontLines(ls[1..]) else [TrimLeft(ls[0], IsSpace)] + ls[1..]
  }

  function TrimBackLines(ls: seq<string>): (r: seq<string>)
    requires |ls| >= 1
    ensures |r| >= 1
    decreases |ls|
  {
    var n := |ls| - 1;
    if n > 0 && All(ls[n], IsSpace) then TrimBackLines(ls[..n]) else ls[..n] + [TrimRight(ls[n], IsSpace)]
  }

  lemma {:induction false} TrimLeftInside(s: string, rest: string)
    requires !All(s, IsSpace)
    ensures TrimLeft(s + rest, IsSpace) == TrimLeft(s, IsSpace) + rest
    decreases |s|
  {
    if !IsSpace(s[0]) {
    } else {
      assert (s + rest)[1..] == s[1..] + rest;
      assert !All(s[1..], IsSpace) by {
        var i :| 0 <= i < |s| && !IsSpace(s[i]);
        assert s[1..][i - 1] == s[i];
      }
      TrimLeftInside(s[1..], rest);
    }
  }

  lemma {:induction false} TrimRightInside(rest: string, s: string)
    requires !All(s, IsSpace)
    ensures TrimRight(rest + s, IsSpace) == rest + TrimRight(s, IsSpace)
    decreases |s|
  {
    var n := |s| - 1;
    if !IsSpace(s[n]) {
    } else {
      assert (rest + s)[..|rest + s| - 1] == rest + s[..n];
      assert !All(s[..n], IsSpace) by {
        var i :| 0 <= i < |s| && !IsSpace(s[i]);
        assert s[..n][i] == s[i];
      }
      TrimRightInside(rest, s[..n]);
    }
  }

  lemma {:induction false} TrimLeftJoin(ls: seq<string>)
    requires |ls| >= 1
    ensures TrimLeft(Join(ls, '\n'), IsSpace) == Join(TrimFrontLines(ls), '\n')
    decreases |ls|
  {
    if |ls| <= 1 {
    } else {
      var tail := Join(ls[1..], '\n');
      if All(ls[0], IsSpace) {
        TrimLeftJoin(ls[1..]);
        TrimLeftSkips(ls[0] + ['\n'], tail, IsSpace);
      } else {
        assert ls[0] + ['\n'] + tail == ls[0] + (['\n'] + tail);
        TrimLeftInside(ls[0], ['\n'] + tail);
        JoinHead(TrimLeft(ls[0], IsSpace), ls[1..]);
      }
    }
  }

  lemma {:induction false} JoinHead(head: string, tail: seq<string>)
    requires |tail| >= 1
    ensures Join([head] + tail, '\n') == head + (['\n'] + Join(tail, '\n'))
  {
    assert ([head] + tail)[1..] == tail;
  }

  lemma {:induction false} JoinLast(init: seq<string>, last: string)
    requires |init| >= 1
    ensures Join(init + [last], '\n') == Join(init, '\n') + ['\n'] + last
  {
    JoinAppend(init, [last], '\n');
  }

  lemma {:induction false} TrimRightJoin(ls: seq<string>)
    requires |ls| >= 1
    ensures TrimRight(Join(ls, '\n'), IsSpace) == Join(TrimBackLines(ls), '\n')
    decreases |ls|
  {
    var n := |ls| - 1;
    if n > 0 {
      var init, last := ls[..n], ls[n];
      assert ls == init + [last];
      JoinLast(init, last);
      var front := Join(init, '\n');
      if All(last, IsSpace) {
        TrimRightJoin(init);
        assert front + ['\n'] + last == front + (['\n'] + last);
        TrimRightSkips(front, ['\n'] + last, IsSpace);
      } else {
        TrimRightInside(front + ['\n'], last);
        JoinLast(init, TrimRight(last, IsSpace));
      }
    } else {
      assert ls[..0] + [TrimRight(ls[0], IsSpace)] == [TrimRight(ls[0], IsSpace)];
    }
  }

  lemma {:induction false} TrimFrontKeepsNoNewline(ls: seq<string>)
    requires |ls| >= 1 && forall i :: 0 <= i < |ls| ==> '\n' !in ls[i]
    ensures forall i :: 0 <= i < |TrimFrontLines(ls)| ==> '\n' !in TrimFrontLines(ls)[i]
    decreases |ls|
  {
    if |ls| > 1 && All(ls[0], IsSpace) {
      TrimFrontKeepsNoNewline(ls[1..]);
    } else {
      var a := TrimLeftParts(ls[0], IsSpace);
    }
  }

  lemma {:induction false} TrimBackKeepsNoNewline(ls: seq<string>)
    requires |ls| >= 1 && forall i :: 0 <= i < |ls| ==> '\n' !in ls[i]
    ensures forall i :: 0 <= i < |TrimBackLines(ls)| ==> '\n' !in TrimBackLines(ls)[i]
    decreases |ls|
  {
    var n := |ls| - 1;
    if n > 0 && All(ls[n], IsSpace) {
      TrimBackKeepsNoNewline(ls[..n]);
    } else {
      var b := TrimRightParts(ls[n], IsSpace);
    }
  }

  /** Trimming a text drops blank lines at both ends and trims the outer side of the first and last
      line left; nothing else. */
  lemma {:induction false} SplitTrimmed(ls: seq<string>)
    requires |ls| >= 1 && forall i :: 0 <= i < |ls| ==> '\n' !in ls[i]
    ensures Split(TrimSpace(Join(ls, '\n')), '\n') == TrimBackLines(TrimFrontLines(ls))
  {
    TrimLeftJoin(ls);
    TrimFrontKeepsNoNewline(ls);
    TrimRightJoin(TrimFrontLines(ls));
    TrimBackKeepsNoNewline(TrimFrontLines(ls));
    SplitJoin(TrimBackLines(TrimFrontLines(ls)), '\n');
  }

  lemma {:induction false} TrimIgnoresTail(s: string, b: string)
    requires All(b, IsSpace)
    ensures TrimSpace(s + b) == TrimSpace(s)
  {
    var a, c := TrimParts(s, IsSpace);
    assert s + b == a + TrimSpace(s) + (c + b);
    TrimOf(a, TrimSpace(s), c + b, IsSpace);
  }

  lemma {:induction false} TrimIgnoresHead(a: string, s: string)
    requires All(a, IsSpace)
    ensures TrimSpace(a + s) == TrimSpace(s)
  {
    TrimLeftSkips(a, s, IsSpace);
  }

  lemma {:induction false} TrimOfBlank(s: string)
    ensures All(s, IsSpace) <==> TrimSpace(s) == ""
  {
    var a, b := TrimParts(s, IsSpace);
    if TrimSpace(s) == "" {
      assert s == a + b;
    }
    if All(s, IsSpace) {
      assert s + "" == s;
      TrimLeftSkips(s, "", IsSpace);
    }
  }
}
