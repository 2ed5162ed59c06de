/** The bounded log of one attempt (recordAttemptFeedback). */
module AttemptLog {

  const LIMIT := 6000
  const MARKER := "...(truncated)\n"

  function Tail(s: string): string {
    if |s| <= LIMIT then s else s[|s| - LIMIT..]
  }

  function Append(log: string, s: string): string {
    if s == "" then log
    else
      var grown := log + s;
      if |grown| > LIMIT then MARKER + Tail(grown) else grown
  }

  class Log {
    var text: string

    constructor ()
      ensures text == ""
    {
      text := "";
    }

    method Record(s: string)
      modifies this
      ensures text == Append(old(text), s)
    {
      if s == "" {
        return;
      }
      text := text + s;
      if |text| > LIMIT {
        var trunc := text;
        text := MARKER + trunc[|trunc| - LIMIT..];
      }
    }
  }

  function After(records: seq<string>): string
    decreases |records|
  {
    if records == [] then "" else Append(After(records[..|records| - 1]), records[|records| - 1])
  }

  function Concat(records: seq<string>): string
    decreases |records|
  {
    if records == [] then "" else Concat(records[..|records| - 1]) + records[|records| - 1]
  }

  /** Everything when it fits; otherwise the marker and exactly the last characters. */
  function Bounded(all: string): string {
    if |all| <= LIMIT then all else MARKER + all[|all| - LIMIT..]
  }

  lemma {:induction false} DropFront(front: string, t: string, k: nat)
    requires k <= |t|
    ensures (front + t)[|front| + k..] == t[k..]
  {
  }

  /** Cutting depends on the last characters only. */
  lemma {:induction false} TailOf(front: string, tail: string, s: string, whole: string)
    requires |tail| == LIMIT && whole == front + (tail + s) && |whole| > LIMIT
    ensures Tail(whole) == (tail + s)[|s|..]
  {
    DropFront(front, tail + s, |s|);
  }

  lemma {:induction false} Split(all: string)
    requires |all| > LIMIT
    ensures all == all[..|all| - LIMIT] + all[|all| - LIMIT..]
  {
  }

  lemma {:induction false} Assoc(a: string, b: string, c: string)
    ensures a + b + c == a + (b + c)
  {
  }

  lemma {:induction false} AppendToCut(all: string, s: string)
    requires |all| > LIMIT && s != ""
    ensures Append(Bounded(all), s) == Bounded(all + s)
  {
    var front, tail := all[..|all| - LIMIT], all[|all| - LIMIT..];
    Split(all);
    Assoc(front, tail, s);
    Assoc(MARKER, tail, s);
    TailOf(front, tail, s, all + s);
    TailOf(MARKER, tail, s, MARKER + tail + s);
  }

  lemma {:induction false} AppendBounded(all: string, s: string)
    ensures Append(Bounded(all), s) == Bounded(all + s)
  {
    if s == "" {
      assert all + s == all;
    } else if |all| > LIMIT {
      AppendToCut(all, s);
    }
  }

  /** After any sequence of records, however often it was cut, the log is the bounded whole:
      nothing of the tail is lost, repeated or interrupted by an earlier marker. */
  lemma {:induction false} LogIsBoundedWhole(records: seq<string>)
    ensures After(records) == Bounded(Concat(records))
    decreases |records|
  {
    if records == [] {
    } else {
      LogIsBoundedWhole(records[..|records| - 1]);
      AppendBounded(Concat(records[..|records| - 1]), records[|records| - 1]);
    }
  }
}
