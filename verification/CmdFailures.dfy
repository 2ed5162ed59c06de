/** Repeated time-outs of the same command: the normalised key and the failure counter behind loop detection. */
module CmdFailures {
  import opened Text

  /*** normalizedCmdKey ***/

  /** Every run of blanks becomes one blank. */
  function Squeeze(s: string): string {
    if s == "" then ""
    else if |s| >= 2 && s[0] == ' ' && s[1] == ' ' then Squeeze(s[1..])
    else [s[0]] + Squeeze(s[1..])
  }

  function Key(cmd: string): string {
    Squeeze(ReplaceAll(TrimSpace(cmd), "\t", " "))
  }

  predicate DoubleBlank(s: string) {
    |s| >= 2 && ((s[0] == ' ' && s[1] == ' ') || DoubleBlank(s[1..]))
  }

  lemma {:induction false} BlankPrefix(s: string)
    ensures HasPrefix(s, "  ") <==> |s| >= 2 && s[0] == ' ' && s[1] == ' '
  {
    if |s| >= 2 && s[0] == ' ' && s[1] == ' ' {
      assert s[..2] == "  ";
    }
  }

  lemma {:induction false} DoubleBlankIsContained(s: string)
    ensures DoubleBlank(s) <==> Contains(s, "  ")
    decreases |s|
  {
    if s == "" {
    } else {
      BlankPrefix(s);
      ContainsTail(s, "  ");
      DoubleBlankIsContained(s[1..]);
    }
  }

  lemma {:induction false} SqueezeCons(c: char, x: string)
    ensures Squeeze([c] + x) == if c == ' ' && x != "" && x[0] == ' ' then Squeeze(x) else [c] + Squeeze(x)
    ensures (x == "") == (Squeeze(x) == "") && (x != "" ==> Squeeze(x)[0] == x[0])
    decreases |x|
  {
    assert ([c] + x)[1..] == x;
    if x == "" {
    } else {
      SqueezeCons(x[0], x[1..]);
      assert x == [x[0]] + x[1..];
    }
  }

  lemma {:induction false} SqueezeAfter(c: char, x: string, y: string)
    requires Squeeze(x) == Squeeze(y)
    ensures Squeeze([c] + x) == Squeeze([c] + y)
  {
    SqueezeCons(c, x);
    SqueezeCons(c, y);
  }

  lemma {:induction false} CollapseKeepsSqueeze(s: string)
    ensures Squeeze(ReplaceAll(s, "  ", " ")) == Squeeze(s)
    decreases |s|
  {
    if s == "" {
    } else {
      if HasPrefix(s, "  ") {
        CollapseKeepsSqueeze(s[2..]);
        assert s[0] == ' ' && s[1] == ' ' && s[1..] == " " + s[2..];
        SqueezeAfter(' ', ReplaceAll(s[2..], "  ", " "), s[2..]);
      } else {
        CollapseKeepsSqueeze(s[1..]);
        assert s == [s[0]] + s[1..];
        SqueezeAfter(s[0], ReplaceAll(s[1..], "  ", " "), s[1..]);
      }
    }
  }

  lemma {:induction false} SqueezeFixed(s: string)
    requires !DoubleBlank(s)
    ensures Squeeze(s) == s
  {
    if s == "" {
    } else {
      SqueezeFixed(s[1..]);
      assert s == [s[0]] + s[1..];
    }
  }

  lemma {:induction false} CollapseShrinks(s: string)
    ensures |ReplaceAll(s, "  ", " ")| <= |s|
    ensures DoubleBlank(s) ==> |ReplaceAll(s, "  ", " ")| < |s|
    decreases |s|
  {
    if s == "" {
    } else {
      BlankPrefix(s);
      if HasPrefix(s, "  ") {
        CollapseShrinks(s[2..]);
      } else {
        CollapseShrinks(s[1..]);
      }
    }
  }

  /** The loop ends, and what it leaves is the squeezed text. */
  method NormalizedCmdKey(cmd: string) returns (s: string)
    ensures s == Key(cmd)
  {
    s := TrimSpace(cmd);
    s := ReplaceAll(s, "\t", " ");
    while Contains(s, "  ")
      invariant Squeeze(s) == Key(cmd)
      decreases |s|
    {
      CollapseKeepsSqueeze(s);
      DoubleBlankIsContained(s);
      CollapseShrinks(s);
      s := ReplaceAll(s, "  ", " ");
    }
    DoubleBlankIsContained(s);
    SqueezeFixed(s);
  }

  lemma {:induction false} SqueezeShape(s: string)
    requires '\t' !in s
    ensures '\t' !in Squeeze(s) && !DoubleBlank(Squeeze(s))
    ensures s != "" ==> Squeeze(s) != "" && Squeeze(s)[0] == s[0] && Squeeze(s)[|Squeeze(s)| - 1] == s[|s| - 1]
    decreases |s|
  {
    if s == "" {
    } else {
      var t := s[1..];
      SqueezeShape(t);
      assert s == [s[0]] + t;
      SqueezeCons(s[0], t);
      var q := Squeeze(t);
      assert ([s[0]] + q)[1..] == q;
    }
  }

  lemma {:induction false} TabsGone(s: string)
    ensures var r := ReplaceAll(s, "\t", " ");
      '\t' !in r && |r| == |s| && forall i :: 0 <= i < |s| ==> r[i] == if s[i] == '\t' then ' ' else s[i]
    decreases |s|
  {
    if s == "" {
    } else {
      TabsGone(s[1..]);
      assert s == [s[0]] + s[1..];
      if s[0] == '\t' {
        assert s[..1] == "\t" && HasPrefix(s, "\t") && s[|"\t"|..] == s[1..];
      } else {
        assert !HasPrefix(s, "\t");
      }
    }
  }

  lemma {:induction false} NoTabs(s: string)
    requires '\t' !in s
    ensures ReplaceAll(s, "\t", " ") == s
  {
    TabsGone(s);
    assert forall i :: 0 <= i < |s| ==> s[i] in s;
  }

  /** A key has no tab, no double blank and no outer white space, and is its own key. */
  lemma {:induction false} KeyIsNormal(cmd: string)
    ensures '\t' !in Key(cmd) && !Contains(Key(cmd), "  ") && Trimmed(Key(cmd), IsSpace)
    ensures Key(Key(cmd)) == Key(cmd)
  {
    var t := TrimSpace(cmd);
    var a, b := TrimParts(cmd, IsSpace);
    var r := ReplaceAll(t, "\t", " ");
    TabsGone(t);
    SqueezeShape(r);
    var k := Key(cmd);
    TrimmedUnchanged(k, IsSpace);
    NoTabs(k);
    DoubleBlankIsContained(k);
    SqueezeFixed(k);
  }

  /*** trackCmdFailure, clearCmdFailure ***/

  /** One command that ran: it hit its time limit or it did not. A command that never started leaves no event. */
  datatype Event = TimedOut(cmd: string) | Finished(cmd: string)

  const LOOP_THRESHOLD := 3

  function Count(failures: map<string, nat>, key: string): nat {
    if key in failures then failures[key] else 0
  }

  function Step(failures: map<string, nat>, e: Event): map<string, nat> {
    match e
    case TimedOut(cmd) => failures[Key(cmd) := Count(failures, Key(cmd)) + 1]
    case Finished(cmd) => failures - {Key(cmd)}
  }

  function Run(es: seq<Event>): map<string, nat>
    decreases |es|
  {
    if es == [] then map[] else Step(Run(es[..|es| - 1]), es[|es| - 1])
  }

  /** The tracker, a table shared by the whole process. */
  class Tracker {
    var failures: map<string, nat>

    method Track(cmd: string) returns (n: nat)
      modifies this
      ensures failures == Step(old(failures), TimedOut(cmd)) && n == Count(failures, Key(cmd))
    {
      var key := NormalizedCmdKey(cmd);
      failures := failures[key := Count(failures, key) + 1];
      n := failures[key];
    }

    method Clear(cmd: string)
      modifies this
      ensures failures == Step(old(failures), Finished(cmd))
    {
      var key := NormalizedCmdKey(cmd);
      failures := failures - {key};
    }

    /** After a command: true reports a loop. */
    method After(cmd: string, timedOut: bool) returns (loop: bool)
      modifies this
      ensures failures == Step(old(failures), if timedOut then TimedOut(cmd) else Finished(cmd))
      ensures loop <==> timedOut && Count(failures, Key(cmd)) >= LOOP_THRESHOLD
    {
      loop := false;
      if timedOut {
        var fails := Track(cmd);
        loop := fails >= LOOP_THRESHOLD;
      } else {
        Clear(cmd);
      }
    }
  }

  /** Time-outs of commands with this key since one with this key last finished in time. */
  function Streak(es: seq<Event>, key: string): nat
    decreases |es|
  {
    if es == [] then 0
    else
      var e, before := es[|es| - 1], es[..|es| - 1];
      if Key(e.cmd) != key then Streak(before, key)
      else if e.Finished? then 0
      else Streak(before, key) + 1
  }

  /** The counter is the streak, for every command and every history. */
  lemma {:induction false} CounterIsStreak(es: seq<Event>, key: string)
    ensures Count(Run(es), key) == Streak(es, key)
    decreases |es|
  {
    if es == [] {
    } else {
      CounterIsStreak(es[..|es| - 1], key);
    }
  }

  lemma {:induction false} StreakSnoc(es: seq<Event>, e: Event, key: string)
    ensures Streak(es + [e], key) ==
      if Key(e.cmd) != key then Streak(es, key) else if e.Finished? then 0 else Streak(es, key) + 1
  {
    assert (es + [e])[..|es|] == es;
  }

  /** A timely finish wipes out everything before it. */
  lemma {:induction false} FinishForgets(before: seq<Event>, cmd: string, after: seq<Event>)
    ensures Streak(before + [Finished(cmd)] + after, Key(cmd)) == Streak(after, Key(cmd))
    decreases |after|
  {
    var start := before + [Finished(cmd)];
    if after == [] {
      assert start + after == start;
      StreakSnoc(before, Finished(cmd), Key(cmd));
    } else {
      var init, last := after[..|after| - 1], after[|after| - 1];
      FinishForgets(before, cmd, init);
      assert start + after == (start + init) + [last] && after == init + [last];
      StreakSnoc(start + init, last, Key(cmd));
      StreakSnoc(init, last, Key(cmd));
    }
  }
}
