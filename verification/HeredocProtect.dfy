/** Hiding here-document payloads behind fresh keys while a reply is rewritten, and putting
    them back: protectResponseHeredocBodies and the replacer it returns. */
module HeredocProtect {
  import opened Text
  import opened Heredoc

  datatype Hidden = Hidden(key: string, payload: string)

  /*** strings.NewReplacer(...).Replace ***/

  /** The first pair, in argument order, whose key starts `s`; |pairs| when none does. */
  function FirstKey(pairs: seq<Hidden>, s: string): (k: nat)
    ensures k <= |pairs|
    ensures k < |pairs| ==> HasPrefix(s, pairs[k].key)
  {
    if pairs == [] then 0
    else if HasPrefix(s, pairs[0].key) then 0
    else 1 + FirstKey(pairs[1..], s)
  }

  lemma {:induction false} FirstKeyIsFirst(pairs: seq<Hidden>, s: string, i: nat)
    requires i < |pairs| && HasPrefix(s, pairs[i].key)
    ensures FirstKey(pairs, s) <= i
  {
    if i == 0 || HasPrefix(s, pairs[0].key) {
    } else {
      FirstKeyIsFirst(pairs[1..], s, i - 1);
    }
  }

  /** One left-to-right pass without rescanning what was put in (no key here is empty). */
  function Restore(pairs: seq<Hidden>, s: string): string
    decreases |s|
  {
    if s == "" then ""
    else
      var k := FirstKey(pairs, s);
      if k < |pairs| && pairs[k].key != "" then pairs[k].payload + Restore(pairs, s[|pairs[k].key|..])
      else [s[0]] + Restore(pairs, s[1..])
  }

  /** Keys are non-empty, stay on one line and never start one another. */
  predicate WellKeyed(pairs: seq<Hidden>) {
    && (forall p :: p in pairs ==> p.key != "" && '\n' !in p.key)
    && (forall i, j :: 0 <= i < |pairs| && 0 <= j < |pairs| && i != j ==> !HasPrefix(pairs[i].key, pairs[j].key))
  }

  predicate KeyFree(pairs: seq<Hidden>, line: string) {
    '\n' !in line && forall p :: p in pairs ==> !Contains(line, p.key)
  }

  predicate IsKeyLine(pairs: seq<Hidden>, line: string) {
    exists k :: 0 <= k < |pairs| && pairs[k].key == line
  }

  /** What one output line becomes once keys stand for their payloads. */
  function RestoredLine(pairs: seq<Hidden>, line: string): string {
    if IsKeyLine(pairs, line) then
      var k := FirstKey(pairs, line);
      if k < |pairs| then pairs[k].payload else line
    else line
  }

  function RestoredLines(pairs: seq<Hidden>, lines: seq<string>): (r: seq<string>)
    ensures |r| == |lines|
  {
    seq(|lines|, i requires 0 <= i < |lines| => RestoredLine(pairs, lines[i]))
  }

  /** A tail that can follow a line inside a text. */
  predicate LineTail(rest: string) {
    rest != "" ==> rest[0] == '\n'
  }

  lemma {:induction false} PrefixInsideLine(line: string, rest: string, key: string)
    requires LineTail(rest) && '\n' !in key && HasPrefix(line + rest, key)
    ensures HasPrefix(line, key)
  {
    assert forall i :: 0 <= i < |key| ==> key[i] == (line + rest)[i];
    assert rest != "" ==> (line + rest)[|line|] == '\n';
    assert |key| <= |line|;
    assert (line + rest)[..|key|] == line[..|key|];
  }

  lemma {:induction false} NoKeyInside(pairs: seq<Hidden>, line: string, rest: string, m: nat)
    requires WellKeyed(pairs) && KeyFree(pairs, line) && LineTail(rest) && m <= |line|
    ensures FirstKey(pairs, line[m..] + rest) == |pairs|
  {
    var k := FirstKey(pairs, line[m..] + rest);
    if k < |pairs| {
      PrefixInsideLine(line[m..], rest, pairs[k].key);
      assert OccursAt(line, pairs[k].key, m);
    }
  }

  /** No key starts inside `line` when `rest` follows it. */
  predicate Unmatched(pairs: seq<Hidden>, line: string, rest: string) {
    line == "" || (FirstKey(pairs, line + rest) == |pairs| && Unmatched(pairs, line[1..], rest))
  }

  lemma {:induction false} RestoreSkips(pairs: seq<Hidden>, c: char, s: string)
    requires FirstKey(pairs, [c] + s) == |pairs|
    ensures Restore(pairs, [c] + s) == [c] + Restore(pairs, s)
  {
    assert ([c] + s)[1..] == s;
  }

  lemma {:induction false} HeadTail(line: string, rest: string)
    requires line != ""
    ensures line + rest == [line[0]] + (line[1..] + rest)
  {
  }

  lemma {:induction false} RestoreUnmatched(pairs: seq<Hidden>, line: string, rest: string)
    requires Unmatched(pairs, line, rest)
    ensures Restore(pairs, line + rest) == line + Restore(pairs, rest)
  {
    if line == "" {
      assert line + rest == rest;
    } else {
      RestoreUnmatched(pairs, line[1..], rest);
      HeadTail(line, rest);
      RestoreSkips(pairs, line[0], line[1..] + rest);
      HeadTail(line, Restore(pairs, rest));
    }
  }

  lemma {:induction false} KeyFreeUnmatched(pairs: seq<Hidden>, line: string, rest: string, m: nat)
    requires WellKeyed(pairs) && KeyFree(pairs, line) && LineTail(rest) && m <= |line|
    ensures Unmatched(pairs, line[m..], rest)
    decreases |line| - m
  {
    if m >= |line| {
    } else {
      NoKeyInside(pairs, line, rest, m);
      KeyFreeUnmatched(pairs, line, rest, m + 1);
      assert line[m..][1..] == line[m + 1..];
    }
  }

  lemma {:induction false} RestoreKeyFree(pairs: seq<Hidden>, line: string, rest: string)
    requires WellKeyed(pairs) && KeyFree(pairs, line) && LineTail(rest)
    ensures Restore(pairs, line + rest) == line + Restore(pairs, rest)
  {
    KeyFreeUnmatched(pairs, line, rest, 0);
    assert line[0..] == line;
    RestoreUnmatched(pairs, line, rest);
  }

  lemma {:induction false} KeyFound(pairs: seq<Hidden>, i: nat, rest: string)
    requires WellKeyed(pairs) && i < |pairs| && LineTail(rest)
    ensures FirstKey(pairs, pairs[i].key + rest) == i
  {
    var key := pairs[i].key;
    assert HasPrefix(key + rest, key);
    FirstKeyIsFirst(pairs, key + rest, i);
    var k := FirstKey(pairs, key + rest);
    PrefixInsideLine(key, rest, pairs[k].key);
  }

  lemma {:induction false} RestoreKey(pairs: seq<Hidden>, i: nat, rest: string)
    requires WellKeyed(pairs) && i < |pairs| && LineTail(rest)
    ensures Restore(pairs, pairs[i].key + rest) == pairs[i].payload + Restore(pairs, rest)
    ensures RestoredLine(pairs, pairs[i].key) == pairs[i].payload
  {
    var key := pairs[i].key;
    KeyFound(pairs, i, rest);
    assert (key + rest)[|key|..] == rest;
    KeyFound(pairs, i, "");
    assert key + "" == key;
  }

  lemma {:induction false} RestoreNewline(pairs: seq<Hidden>, rest: string)
    requires WellKeyed(pairs)
    ensures Restore(pairs, ['\n'] + rest) == ['\n'] + Restore(pairs, rest)
  {
    assert ['\n'] + rest == "" + (['\n'] + rest);
    var k := FirstKey(pairs, ['\n'] + rest);
    if k < |pairs| {
      PrefixInsideLine("", ['\n'] + rest, pairs[k].key);
    }
    RestoreSkips(pairs, '\n', rest);
  }

  lemma {:induction false} RestoreLine(pairs: seq<Hidden>, line: string, rest: string)
    requires WellKeyed(pairs) && LineTail(rest)
    requires IsKeyLine(pairs, line) || KeyFree(pairs, line)
    ensures Restore(pairs, line + rest) == RestoredLine(pairs, line) + Restore(pairs, rest)
  {
    if IsKeyLine(pairs, line) {
      var k :| 0 <= k < |pairs| && pairs[k].key == line;
      RestoreKey(pairs, k, rest);
    } else {
      RestoreKeyFree(pairs, line, rest);
    }
  }

  /** Whatever the rewriting passes do with the lines around them, as long as every line of
      their output is either a key or free of keys, restoring replaces exactly the key lines,
      each by its own payload, and changes nothing else. */
  lemma {:induction false} RestoreActsLineByLine(pairs: seq<Hidden>, lines: seq<string>)
    requires WellKeyed(pairs)
    requires forall l :: l in lines ==> IsKeyLine(pairs, l) || KeyFree(pairs, l)
    ensures Restore(pairs, Join(lines, '\n')) == Join(RestoredLines(pairs, lines), '\n')
  {
    if |lines| == 1 {
      RestoreLine(pairs, lines[0], "");
      assert lines[0] + "" == lines[0];
    } else if |lines| > 1 {
      RestoreActsLineByLine(pairs, lines[1..]);
      RestoreLeadingLine(pairs, lines[0], Join(lines[1..], '\n'), Join(lines, '\n'));
      assert RestoredLines(pairs, lines)[1..] == RestoredLines(pairs, lines[1..]);
    }
  }

  lemma {:induction false} RestoreLeadingLine(pairs: seq<Hidden>, line: string, tail: string, text: string)
    requires WellKeyed(pairs)
    requires IsKeyLine(pairs, line) || KeyFree(pairs, line)
    requires text == line + ['\n'] + tail
    ensures Restore(pairs, text) == RestoredLine(pairs, line) + ['\n'] + Restore(pairs, tail)
  {
    var rest := ['\n'] + tail;
    RestoreLine(pairs, line, rest);
    RestoreNewline(pairs, tail);
    GlueLine(pairs, line, RestoredLine(pairs, line), rest, tail, Restore(pairs, tail), text);
  }

  lemma {:induction false} GlueLine(pairs: seq<Hidden>, line: string, r: string, rest: string, tail: string,
                                    z: string, text: string)
    requires rest == ['\n'] + tail && text == line + ['\n'] + tail
    requires Restore(pairs, line + rest) == r + Restore(pairs, rest)
    requires Restore(pairs, rest) == ['\n'] + z
    ensures Restore(pairs, text) == r + ['\n'] + z
  {
    assert text == line + rest;
  }

  /*** Keys ***/

  const KEY_HEAD := "GT_HEREDOC_PAYLOAD_"

  function KeyBase(j: nat): string {
    KEY_HEAD + Itoa(j) + "_END"
  }

  /** The key-growing loop: append '_' until the key does not occur in the reply. */
  function FreshKey(text: string, key: string): string
    decreases |text| + 1 - |key|
  {
    if Contains(text, key) then FreshKey(text, key + "_") else key
  }

  lemma {:induction false} FreshKeyIsFresh(text: string, key: string)
    ensures var k := FreshKey(text, key);
      !Contains(text, k) && HasPrefix(k, key) && forall i :: |key| <= i < |k| ==> k[i] == '_'
    decreases |text| + 1 - |key|
  {
    if !Contains(text, key) {
    } else {
      FreshKeyIsFresh(text, key + "_");
      var k := FreshKey(text, key + "_");
      assert k[..|key|] == k[..|key| + 1][..|key|];
    }
  }

  function Key(text: string, j: nat): string {
    FreshKey(text, KeyBase(j))
  }

  lemma {:induction false} KeyShape(text: string, j: nat)
    ensures '\n' !in Key(text, j) && |Key(text, j)| > |KEY_HEAD| + |Itoa(j)|
    ensures HasPrefix(Key(text, j), KEY_HEAD)
    ensures HasPrefix(Key(text, j)[|KEY_HEAD|..], Itoa(j)) && Key(text, j)[|KEY_HEAD| + |Itoa(j)|] == '_'
  {
    var b, k := KeyBase(j), Key(text, j);
    FreshKeyIsFresh(text, b);
    assert k[..|b|] == b;
    assert b[..|KEY_HEAD|] == KEY_HEAD;
    assert k[..|KEY_HEAD|] == b[..|KEY_HEAD|];
    assert k[|KEY_HEAD|..][..|Itoa(j)|] == b[|KEY_HEAD|..|KEY_HEAD| + |Itoa(j)|] == Itoa(j);
    assert b[|KEY_HEAD| + |Itoa(j)|] == '_';
    forall i | 0 <= i < |k| ensures k[i] != '\n' {
      if i < |b| {
        assert k[i] == b[i];
      }
    }
  }

  lemma {:induction false} DigitsEndAtUnderscore(a: string, b: string, s: string)
    requires forall i :: 0 <= i < |a| ==> '0' <= a[i] <= '9'
    requires forall i :: 0 <= i < |b| ==> '0' <= b[i] <= '9'
    requires HasPrefix(s, a) && HasPrefix(s, b)
    requires |a| < |s| && s[|a|] == '_' && |b| < |s| && s[|b|] == '_'
    ensures a == b
  {
    assert forall i :: 0 <= i < |a| ==> a[i] == s[i];
    assert forall i :: 0 <= i < |b| ==> b[i] == s[i];
  }

  lemma {:induction false} SameDigits(ki: string, kj: string, h: nat, n: nat)
    requires HasPrefix(ki, kj) && h + n < |kj|
    ensures ki[h..][..n] == kj[h..][..n] && ki[h..][n] == kj[h + n]
  {
    forall m | 0 <= m <= n ensures ki[h..][m] == kj[h..][m] {
      assert ki[h + m] == kj[h + m];
    }
  }

  /** Keys made for different lines never start one another. */
  lemma {:induction false} KeysPrefixFree(text: string, i: nat, j: nat)
    requires HasPrefix(Key(text, i), Key(text, j))
    ensures i == j
  {
    KeyShape(text, i);
    KeyShape(text, j);
    var ki, kj, h := Key(text, i), Key(text, j), |KEY_HEAD|;
    SameDigits(ki, kj, h, |Itoa(j)|);
    DigitsEndAtUnderscore(Itoa(i), Itoa(j), ki[h..]);
    ItoaInjective(i, j);
  }

  /*** Which lines are hidden ***/

  /** The delimiter awaited before line `j`. */
  function AwaitedAt(lines: seq<Role>, j: nat): string
    requires j <= |lines|
  {
    if j == 0 then "" else Await(AwaitedAt(lines, j - 1), lines[j - 1])
  }

  /** Line `j` is payload of a here-document that is closed further down. */
  ghost predicate InClosedBody(lines: seq<Role>, j: nat)
    requires j < |lines|
  {
    var t := AwaitedAt(lines, j);
    t != "" && lines[j].trimmed != t && exists e :: j < e < |lines| && lines[e].trimmed == t
  }

  lemma {:induction false} AwaitedThroughBody(lines: seq<Role>, i: nat, j: nat)
    requires i < j <= |lines| && AwaitedAt(lines, i) == "" && lines[i].opens != ""
    requires forall m :: i < m < j ==> lines[m].trimmed != lines[i].opens
    ensures AwaitedAt(lines, j) == lines[i].opens
  {
    if j <= i + 1 {
    } else {
      AwaitedThroughBody(lines, i, j - 1);
    }
  }

  /** The hidden lines among the first `n`, in order. */
  ghost function HiddenUpTo(lines: seq<Role>, n: nat): seq<nat>
    requires n <= |lines|
  {
    if n == 0 then []
    else HiddenUpTo(lines, n - 1) + if InClosedBody(lines, n - 1) then [n - 1] else []
  }

  lemma {:induction false} BoundsSnoc(before: seq<nat>, n: nat)
    requires AllBelow(before, n) && Increasing(before)
    ensures AllBelow(before, n + 1) && AllBelow(before + [n], n + 1) && Increasing(before + [n])
  {
  }

  lemma {:induction false} HiddenUpToBounds(lines: seq<Role>, n: nat)
    requires n <= |lines|
    ensures AllBelow(HiddenUpTo(lines, n), n) && Increasing(HiddenUpTo(lines, n))
  {
    if n == 0 {
    } else {
      HiddenUpToBounds(lines, n - 1);
      BoundsSnoc(HiddenUpTo(lines, n - 1), n - 1);
    }
  }

  predicate AllBelow(h: seq<nat>, n: nat) {
    forall k :: 0 <= k < |h| ==> h[k] < n
  }

  predicate Increasing(h: seq<nat>) {
    forall k, l :: 0 <= k < l < |h| ==> h[k] < h[l]
  }

  lemma {:induction false} HiddenUpToExact(lines: seq<Role>, n: nat, j: nat)
    requires n <= |lines|
    ensures j in HiddenUpTo(lines, n) <==> j < n && InClosedBody(lines, j)
  {
    if n == 0 {
    } else {
      HiddenUpToExact(lines, n - 1, j);
    }
  }

  /*** Protecting a reply ***/

  ghost function HiddenLines(response: string): seq<nat> {
    var roles := Roles(Split(response, '\n'));
    HiddenUpTo(roles, |roles|)
  }

  ghost function ProtectedLine(text: string, lines: seq<string>, roles: seq<Role>, j: nat): string
    requires j < |lines| == |roles|
  {
    if InClosedBody(roles, j) then Key(text, j) else lines[j]
  }

  ghost function ProtectedLines(text: string, lines: seq<string>, roles: seq<Role>): (r: seq<string>)
    requires |lines| == |roles|
    ensures |r| == |lines|
  {
    seq(|lines|, j requires 0 <= j < |lines| => ProtectedLine(text, lines, roles, j))
  }

  ghost function PairsUpTo(text: string, lines: seq<string>, roles: seq<Role>, n: nat): (p: seq<Hidden>)
    requires n <= |lines| == |roles|
    ensures |p| == |HiddenUpTo(roles, n)|
  {
    if n == 0 then []
    else
      PairsUpTo(text, lines, roles, n - 1) +
      if InClosedBody(roles, n - 1) then [Hidden(Key(text, n - 1), lines[n - 1])] else []
  }

  lemma {:induction false} PairsUpToAt(text: string, lines: seq<string>, roles: seq<Role>, n: nat, k: nat)
    requires n <= |lines| == |roles| && k < |HiddenUpTo(roles, n)|
    ensures HiddenUpTo(roles, n)[k] < n
    ensures PairsUpTo(text, lines, roles, n)[k] ==
      Hidden(Key(text, HiddenUpTo(roles, n)[k]), lines[HiddenUpTo(roles, n)[k]])
  {
    HiddenUpToBounds(roles, n);
    if k >= |HiddenUpTo(roles, n - 1)| {
    } else {
      PairsUpToAt(text, lines, roles, n - 1, k);
    }
  }

  ghost function Protected(response: string): string {
    var lines := Split(response, '\n');
    Join(ProtectedLines(response, lines, Roles(lines)), '\n')
  }

  ghost function Replacements(response: string): (p: seq<Hidden>)
    ensures |p| == |HiddenLines(response)|
  {
    var lines := Split(response, '\n');
    PairsUpTo(response, lines, Roles(lines), |lines|)
  }

  lemma {:induction false} ReplacementAt(response: string, k: nat)
    requires k < |HiddenLines(response)|
    ensures HiddenLines(response)[k] < |Split(response, '\n')|
    ensures Replacements(response)[k] ==
      Hidden(Key(response, HiddenLines(response)[k]), Split(response, '\n')[HiddenLines(response)[k]])
  {
    var lines := Split(response, '\n');
    PairsUpToAt(response, lines, Roles(lines), |lines|, k);
  }

  lemma {:induction false} HiddenLinesDistinct(response: string, i: nat, j: nat)
    requires i < |HiddenLines(response)| && j < |HiddenLines(response)|
    requires HiddenLines(response)[i] == HiddenLines(response)[j]
    ensures i == j
  {
    var roles := Roles(Split(response, '\n'));
    HiddenUpToBounds(roles, |roles|);
  }

  lemma {:induction false} ReplacementsWellKeyed(response: string)
    ensures WellKeyed(Replacements(response))
  {
    var h, pairs := HiddenLines(response), Replacements(response);
    forall p | p in pairs ensures p.key != "" && '\n' !in p.key {
      var k :| 0 <= k < |pairs| && pairs[k] == p;
      ReplacementAt(response, k);
      KeyShape(response, h[k]);
    }
    forall i, j | 0 <= i < |pairs| && 0 <= j < |pairs| && i != j
      ensures !HasPrefix(pairs[i].key, pairs[j].key)
    {
      ReplacementAt(response, i);
      ReplacementAt(response, j);
      if HasPrefix(pairs[i].key, pairs[j].key) {
        KeysPrefixFree(response, h[i], h[j]);
        HiddenLinesDistinct(response, i, j);
      }
    }
  }

  /** No key occurs anywhere in the reply, so none occurs in any of its lines. */
  lemma {:induction false} OriginalLinesKeyFree(response: string, j: nat)
    requires j < |Split(response, '\n')|
    ensures KeyFree(Replacements(response), Split(response, '\n')[j])
  {
    var lines, pairs, h := Split(response, '\n'), Replacements(response), HiddenLines(response);
    SplitHasNoSep(response, '\n');
    forall p | p in pairs ensures !Contains(lines[j], p.key) {
      var k :| 0 <= k < |pairs| && pairs[k] == p;
      ReplacementAt(response, k);
      FreshKeyIsFresh(response, KeyBase(h[k]));
      if Contains(lines[j], p.key) {
        JoinContainsPart(lines, j, '\n');
        JoinSplit(response, '\n');
        ContainsTransitive(response, lines[j], p.key);
      }
    }
  }

  /** A hidden line is represented by its key, and the key by the hidden line. */
  lemma {:induction false} HiddenLineRestored(response: string, j: nat)
    requires j in HiddenLines(response)
    ensures j < |Split(response, '\n')|
    ensures IsKeyLine(Replacements(response), Key(response, j))
    ensures RestoredLine(Replacements(response), Key(response, j)) == Split(response, '\n')[j]
  {
    var h := HiddenLines(response);
    var k :| 0 <= k < |h| && h[k] == j;
    ReplacementAt(response, k);
    ReplacementsWellKeyed(response);
    RestoreKey(Replacements(response), k, "");
  }

  lemma {:induction false} KeyFreeLineStays(pairs: seq<Hidden>, line: string)
    requires KeyFree(pairs, line)
    ensures !IsKeyLine(pairs, line) && RestoredLine(pairs, line) == line
  {
    if IsKeyLine(pairs, line) {
      var k :| 0 <= k < |pairs| && pairs[k].key == line;
      assert OccursAt(line, pairs[k].key, 0);
    }
  }

  lemma {:induction false} ProtectedLineRestored(response: string, j: nat)
    requires j < |Split(response, '\n')|
    ensures var lines := Split(response, '\n'); var pairs := Replacements(response);
      var l := ProtectedLine(response, lines, Roles(lines), j);
      (IsKeyLine(pairs, l) || KeyFree(pairs, l)) && RestoredLine(pairs, l) == lines[j]
  {
    var lines := Split(response, '\n');
    HiddenUpToExact(Roles(lines), |lines|, j);
    if InClosedBody(Roles(lines), j) {
      HiddenLineRestored(response, j);
    } else {
      OriginalLinesKeyFree(response, j);
      KeyFreeLineStays(Replacements(response), lines[j]);
    }
  }

  /** Restoring the untouched protected reply gives back the reply, character for character. */
  lemma {:induction false} RoundTrip(response: string)
    ensures WellKeyed(Replacements(response))
    ensures Restore(Replacements(response), Protected(response)) == response
  {
    var lines, pairs := Split(response, '\n'), Replacements(response);
    var hiding := ProtectedLines(response, lines, Roles(lines));
    ReplacementsWellKeyed(response);
    forall j | 0 <= j < |lines|
      ensures IsKeyLine(pairs, hiding[j]) || KeyFree(pairs, hiding[j])
      ensures RestoredLine(pairs, hiding[j]) == lines[j]
    {
      ProtectedLineRestored(response, j);
    }
    RestoreActsLineByLine(pairs, hiding);
    assert RestoredLines(pairs, hiding) == lines;
    JoinSplit(response, '\n');
  }

  /** An edit of a protected reply: each line is the key of a hidden line, or new text. */
  datatype Edited = Kept(line: nat) | Rewritten(text: string)

  ghost function EditedText(response: string, edits: seq<Edited>): (lines: seq<string>)
    ensures |lines| == |edits|
  {
    seq(|edits|, i requires 0 <= i < |edits| =>
      match edits[i] case Kept(j) => Key(response, j) case Rewritten(t) => t)
  }

  ghost function EditedResult(lines: seq<string>, edits: seq<Edited>): (r: seq<string>)
    ensures |r| == |edits|
  {
    seq(|edits|, i requires 0 <= i < |edits| =>
      match edits[i] case Kept(j) => (if j < |lines| then lines[j] else "") case Rewritten(t) => t)
  }

  lemma {:induction false} EditRestored(response: string, edits: seq<Edited>, i: nat)
    requires i < |edits|
    requires edits[i].Kept? ==> edits[i].line in HiddenLines(response)
    requires edits[i].Rewritten? ==> KeyFree(Replacements(response), edits[i].text)
    ensures var l := EditedText(response, edits)[i]; var pairs := Replacements(response);
      (IsKeyLine(pairs, l) || KeyFree(pairs, l)) &&
        RestoredLine(pairs, l) == EditedResult(Split(response, '\n'), edits)[i]
  {
    match edits[i]
    case Kept(j) => HiddenLineRestored(response, j);
    case Rewritten(t) => KeyFreeLineStays(Replacements(response), t);
  }

  /** Passes may drop, add, reorder and rewrite every line outside the hidden payloads: as long as
      the new text mentions no key, every payload line that survives comes back unchanged and the
      new text is left alone. */
  lemma {:induction false} RewritingKeepsPayloads(response: string, edits: seq<Edited>)
    requires forall i :: 0 <= i < |edits| && edits[i].Kept? ==> edits[i].line in HiddenLines(response)
    requires forall i :: 0 <= i < |edits| && edits[i].Rewritten? ==> KeyFree(Replacements(response), edits[i].text)
    ensures WellKeyed(Replacements(response))
    ensures Restore(Replacements(response), Join(EditedText(response, edits), '\n'))
         == Join(EditedResult(Split(response, '\n'), edits), '\n')
  {
    var lines, pairs := Split(response, '\n'), Replacements(response);
    var out := EditedText(response, edits);
    ReplacementsWellKeyed(response);
    forall i | 0 <= i < |out|
      ensures IsKeyLine(pairs, out[i]) || KeyFree(pairs, out[i])
      ensures RestoredLine(pairs, out[i]) == EditedResult(lines, edits)[i]
    {
      EditRestored(response, edits, i);
    }
    RestoreActsLineByLine(pairs, out);
    assert RestoredLines(pairs, out) == EditedResult(lines, edits);
  }

  /** The key-growing loop. */
  method GrowKey(response: string, j: nat) returns (key: string)
    ensures key == Key(response, j)
  {
    key := "GT_HEREDOC_PAYLOAD_" + Itoa(j) + "_END";
    while Contains(response, key)
      invariant FreshKey(response, key) == Key(response, j)
      decreases |response| + 1 - |key|
    {
      key := key + "_";
    }
  }

  /** The first `n` lines have been dealt with, the rest are untouched. */
  ghost predicate Overwritten(response: string, orig: seq<string>, roles: seq<Role>, n: nat, lines: seq<string>)
    requires n <= |orig| == |roles| == |lines|
  {
    && (forall m :: 0 <= m < n ==> lines[m] == ProtectedLine(response, orig, roles, m))
    && (forall m :: n <= m < |orig| ==> lines[m] == orig[m])
  }

  /** Looks for the line that closes the document, from line `start`. */
  method FindBodyEnd(lines: array<string>, start: nat, term: string, ghost orig: seq<string>, ghost roles: seq<Role>)
      returns (end: nat)
    requires start <= lines.Length == |orig| && roles == Roles(orig)
    requires forall m :: start <= m < |orig| ==> lines[m] == orig[m]
    ensures start <= end <= |orig|
    ensures forall m :: start <= m < end ==> roles[m].trimmed != term
    ensures end < |orig| ==> roles[end].trimmed == term
  {
    end := start;
    while end < lines.Length && TrimSpace(lines[end]) != term
      invariant start <= end <= |orig|
      invariant forall m :: start <= m < end ==> roles[m].trimmed != term
    {
      RolesAt(orig, end);
      end := end + 1;
    }
    if end < lines.Length {
      RolesAt(orig, end);
    }
  }

  /** Overwrites the payload lines of one closed document and records what they held. */
  method HideBody(response: string, lines: array<string>, start: nat, end: nat, ghost orig: seq<string>,
                  ghost roles: seq<Role>, earlier: seq<Hidden>)
    returns (replacements: seq<Hidden>)
    requires start <= end <= lines.Length == |orig| == |roles|
    requires forall m :: start <= m < end ==> InClosedBody(roles, m)
    requires Overwritten(response, orig, roles, start, lines[..])
    requires earlier == PairsUpTo(response, orig, roles, start)
    modifies lines
    ensures replacements == PairsUpTo(response, orig, roles, end)
    ensures Overwritten(response, orig, roles, end, lines[..])
  {
    replacements := earlier;
    for j := start to end
      invariant replacements == PairsUpTo(response, orig, roles, j)
      invariant Overwritten(response, orig, roles, j, lines[..])
    {
      var key := GrowKey(response, j);
      assert lines[..][j] == orig[j];
      replacements := replacements + [Hidden(key, lines[j])];
      lines[j] := key;
    }
  }

  /** Lines that are not hidden leave the records and the other lines alone. */
  lemma {:induction false} NothingHidden(text: string, orig: seq<string>, roles: seq<Role>, i: nat, j: nat,
                                         lines: seq<string>)
    requires i <= j <= |orig| == |roles| == |lines|
    requires forall m :: i <= m < j ==> !InClosedBody(roles, m)
    requires Overwritten(text, orig, roles, i, lines)
    ensures PairsUpTo(text, orig, roles, j) == PairsUpTo(text, orig, roles, i)
    ensures Overwritten(text, orig, roles, j, lines)
  {
    if i >= j {
    } else {
      NothingHidden(text, orig, roles, i, j - 1, lines);
    }
  }

  lemma {:induction false} BodyIsHidden(roles: seq<Role>, i: nat, end: nat)
    requires i < end < |roles| && AwaitedAt(roles, i) == "" && roles[i].opens != ""
    requires roles[end].trimmed == roles[i].opens && forall m :: i < m < end ==> roles[m].trimmed != roles[i].opens
    ensures !InClosedBody(roles, i) && !InClosedBody(roles, end) && AwaitedAt(roles, end + 1) == ""
    ensures forall m :: i < m < end ==> InClosedBody(roles, m)
  {
    AwaitedThroughBody(roles, i, end);
    forall m | i < m < end ensures InClosedBody(roles, m) {
      AwaitedThroughBody(roles, i, m);
    }
  }

  lemma {:induction false} UnclosedIsNotHidden(roles: seq<Role>, i: nat)
    requires i < |roles| && AwaitedAt(roles, i) == "" && roles[i].opens != ""
    requires forall m :: i < m < |roles| ==> roles[m].trimmed != roles[i].opens
    ensures forall m :: i <= m < |roles| ==> !InClosedBody(roles, m)
  {
    forall m | i < m < |roles| ensures !InClosedBody(roles, m) {
      AwaitedThroughBody(roles, i, m);
    }
  }

  /** Hides the body of the document opened on line `i` and closed on line `end`. */
  method HideClosed(response: string, lines: array<string>, i: nat, end: nat, ghost orig: seq<string>,
                    ghost roles: seq<Role>, earlier: seq<Hidden>)
    returns (replacements: seq<Hidden>)
    requires i < end < lines.Length == |orig| == |roles|
    requires !InClosedBody(roles, i) && !InClosedBody(roles, end) && forall m :: i < m < end ==> InClosedBody(roles, m)
    requires Overwritten(response, orig, roles, i, lines[..])
    requires earlier == PairsUpTo(response, orig, roles, i)
    modifies lines
    ensures replacements == PairsUpTo(response, orig, roles, end + 1)
    ensures Overwritten(response, orig, roles, end + 1, lines[..])
  {
    NothingHidden(response, orig, roles, i, i + 1, lines[..]);
    replacements := HideBody(response, lines, i + 1, end, orig, roles, earlier);
    NothingHidden(response, orig, roles, end, end + 1, lines[..]);
  }

  /** A document opened on line `i`: hidden and stepped over when closed, else the end of the scan. */
  method HideDocument(response: string, lines: array<string>, i: nat, term: string, ghost orig: seq<string>,
                      ghost roles: seq<Role>, earlier: seq<Hidden>)
    returns (next: nat, replacements: seq<Hidden>)
    requires i < lines.Length == |orig| && roles == Roles(orig) && AwaitedAt(roles, i) == ""
    requires roles[i].opens == term != ""
    requires Overwritten(response, orig, roles, i, lines[..])
    requires earlier == PairsUpTo(response, orig, roles, i)
    modifies lines
    ensures i < next <= |orig| && (next < |orig| ==> AwaitedAt(roles, next) == "")
    ensures replacements == PairsUpTo(response, orig, roles, next)
    ensures Overwritten(response, orig, roles, next, lines[..])
  {
    assert forall m :: i + 1 <= m < |orig| ==> lines[..][m] == orig[m];
    var end := FindBodyEnd(lines, i + 1, term, orig, roles);
    if end == lines.Length {
      UnclosedIsNotHidden(roles, i);
      NothingHidden(response, orig, roles, i, end, lines[..]);
      return end, earlier;
    }
    BodyIsHidden(roles, i, end);
    next := end + 1;
    replacements := HideClosed(response, lines, i, end, orig, roles, earlier);
  }

  lemma {:induction false} OpensAt(lines: seq<string>, i: nat)
    requires i < |lines|
    ensures Roles(lines)[i].opens == DetectTerm(lines[i])
  {
    RolesAt(lines, i);
  }

  /** One round of the loop over the lines: an ordinary line is stepped over. */
  method HideNext(response: string, lines: array<string>, i: nat, ghost orig: seq<string>, ghost roles: seq<Role>,
                  earlier: seq<Hidden>)
    returns (next: nat, replacements: seq<Hidden>)
    requires i < lines.Length == |orig| && roles == Roles(orig) && AwaitedAt(roles, i) == ""
    requires Overwritten(response, orig, roles, i, lines[..])
    requires earlier == PairsUpTo(response, orig, roles, i)
    modifies lines
    ensures i < next <= |orig| && (next < |orig| ==> AwaitedAt(roles, next) == "")
    ensures replacements == PairsUpTo(response, orig, roles, next)
    ensures Overwritten(response, orig, roles, next, lines[..])
  {
    assert lines[..][i] == orig[i];
    OpensAt(orig, i);
    var term := DetectTerm(lines[i]);
    if term == "" {
      NothingHidden(response, orig, roles, i, i + 1, lines[..]);
      return i + 1, earlier;
    }
    next, replacements := HideDocument(response, lines, i, term, orig, roles, earlier);
  }

  /** protectResponseHeredocBodies: the lines are overwritten in place, one document at a time. */
  method ProtectHeredocBodies(response: string) returns (hiding: string, replacements: seq<Hidden>)
    ensures hiding == Protected(response) && replacements == Replacements(response)
    ensures WellKeyed(replacements) && Restore(replacements, hiding) == response
  {
    var split := Split(response, '\n');
    ghost var roles := Roles(split);
    var lines := new string[|split|](i requires 0 <= i < |split| => split[i]);
    replacements := [];
    var i := 0;
    while i < lines.Length
      invariant 0 <= i <= lines.Length == |split|
      invariant i < |split| ==> AwaitedAt(roles, i) == ""
      invariant replacements == PairsUpTo(response, split, roles, i)
      invariant Overwritten(response, split, roles, i, lines[..])
    {
      i, replacements := HideNext(response, lines, i, split, roles, replacements);
    }
    assert lines[..] == ProtectedLines(response, split, roles);
    hiding := Join(lines[..], '\n');
    RoundTrip(response);
  }
}
